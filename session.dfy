/** The authentication and order store behind `AuthProvider`: the identity list
    (the module-level `mockUsers`, which `register` appends to), the optional
    current user and the order list, with the operations the context exposes.
    `Date.now()` ids and `new Date().toISOString()` timestamps are parameters;
    the mirroring into `localStorage` is not modelled. */
module Session {
  import opened Lists
  import Catalog

  datatype Role = UserRole | AdminRole

  /** The identity handed to the rest of the application; it carries no password. */
  datatype User = User(id: int, email: string, name: string, role: Role)

  /** An entry of the identity list, with its password in plain text. */
  datatype Account = Account(id: int, email: string, password: string, name: string, role: Role)

  datatype LineItem = LineItem(id: int, name: string, price: real, image: string)

  datatype Status = Pending | Processing | Shipped | Delivered | Cancelled

  datatype Customer = Customer(name: string, email: string, phone: string, address: string)

  datatype Order = Order(
    id: int,
    userId: int,
    items: seq<LineItem>,
    total: real,
    status: Status,
    customer: Customer,
    createdAt: string)

  /** The two demonstration accounts the identity list starts with. */
  const SeedAccounts: seq<Account> := [
    Account(1, "admin@store.com", "admin123", "Администратор", AdminRole),
    Account(2, "user@store.com", "user123", "Пользователь", UserRole)
  ]

  /** The demonstration order the order list starts with. */
  const SeedOrders: seq<Order> := [
    Order(1, 2,
      [LineItem(1, "Chrome Geometry", 12.99, "/img/81e5bc8d-ec10-404f-8104-00f0c12d0d27.jpg")],
      12.99, Processing,
      Customer("Иван Петров", "user@store.com", "+7 999 123 45 67", "Москва, ул. Примерная, д. 1"),
      "2024-12-01T10:00:00Z")
  ]

  /** The copy of an account that `login` and `register` hand out. */
  function WithoutPassword(a: Account): User
  {
    User(a.id, a.email, a.name, a.role)
  }

  // ---------------------------------------------------------------------------
  // Identities

  /** The `find` callback of `login`: exact email and password, and the role when one is asked for. */
  function Credentials(email: string, password: string, role: Option<Role>): Account -> bool
  {
    (a: Account) => a.email == email && a.password == password && (role.Some? ==> a.role == role.value)
  }

  /** What `login` makes current: the first account with these credentials, without its password. */
  function LoginLookup(accounts: seq<Account>, email: string, password: string, role: Option<Role>): (r: Option<User>)
    ensures r.Some? <==> exists i :: 0 <= i < |accounts| && Credentials(email, password, role)(accounts[i])
    ensures r.Some? ==> exists i :: 0 <= i < |accounts| && Credentials(email, password, role)(accounts[i])
                                   && r.value == WithoutPassword(accounts[i])
  {
    match Find(accounts, Credentials(email, password, role))
    case None => None
    case Some(a) => Some(WithoutPassword(a))
  }

  /** The `find` callback of `register`. */
  function HasEmail(email: string): Account -> bool
  {
    (a: Account) => a.email == email
  }

  /** `register`'s duplicate test: some account already uses this email. */
  predicate EmailTaken(accounts: seq<Account>, email: string)
    ensures EmailTaken(accounts, email) <==> exists i :: 0 <= i < |accounts| && accounts[i].email == email
  {
    Find(accounts, HasEmail(email)).Some?
  }

  /** No two accounts share an email. */
  predicate EmailsUnique(accounts: seq<Account>)
  {
    forall i, j :: 0 <= i < j < |accounts| ==> accounts[i].email != accounts[j].email
  }

  /** The account `register` appends. */
  function NewAccount(id: int, email: string, password: string, name: string): Account
  {
    Account(id, email, password, name, UserRole)
  }

  /** Some account carries this id. */
  predicate IsRegisteredId(accounts: seq<Account>, id: int)
  {
    exists j :: 0 <= j < |accounts| && accounts[j].id == id
  }

  /** The current user, if any, is the password-free copy of a listed account. */
  predicate CurrentRegistered(accounts: seq<Account>, current: Option<User>)
  {
    current.Some? ==> exists i :: 0 <= i < |accounts| && WithoutPassword(accounts[i]) == current.value
  }

  /** `register` only appends when the email is new, so uniqueness survives it. */
  lemma {:induction false} RegisterKeepsEmailsUnique(accounts: seq<Account>, id: int, email: string, password: string, name: string)
    requires EmailsUnique(accounts) && !EmailTaken(accounts, email)
    ensures EmailsUnique(accounts + [NewAccount(id, email, password, name)])
  {
    var grown := accounts + [NewAccount(id, email, password, name)];
    forall i, j | 0 <= i < j < |grown| ensures grown[i].email != grown[j].email {
      if j == |accounts| {
        assert !HasEmail(email)(accounts[i]);
      }
    }
  }

  /** With unique emails, a successful login yields exactly the account with that email. */
  lemma {:induction false} LoginFindsTheAccount(accounts: seq<Account>, k: nat, password: string, role: Option<Role>)
    requires EmailsUnique(accounts) && k < |accounts|
    ensures LoginLookup(accounts, accounts[k].email, password, role).Some? ==>
              LoginLookup(accounts, accounts[k].email, password, role) == Some(WithoutPassword(accounts[k]))
              && accounts[k].password == password
  {
    var email := accounts[k].email;
    if LoginLookup(accounts, email, password, role).Some? {
      var i :| 0 <= i < |accounts| && Credentials(email, password, role)(accounts[i])
               && LoginLookup(accounts, email, password, role).value == WithoutPassword(accounts[i]);
      assert accounts[i].email == accounts[k].email;
    }
  }

  /** With unique emails, the right email with a wrong password never logs in. */
  lemma {:induction false} WrongPasswordFails(accounts: seq<Account>, k: nat, password: string, role: Option<Role>)
    requires EmailsUnique(accounts) && k < |accounts| && accounts[k].password != password
    ensures LoginLookup(accounts, accounts[k].email, password, role) == None
  {
    LoginFindsTheAccount(accounts, k, password, role);
  }

  /** After registering a fresh email, logging in with the same email and password,
      as a plain user or with no role, yields exactly the new identity. */
  lemma {:induction false} LoginAfterRegister(accounts: seq<Account>, id: int, email: string, password: string, name: string, role: Option<Role>)
    requires !EmailTaken(accounts, email)
    requires role == None || role == Some(UserRole)
    ensures LoginLookup(accounts + [NewAccount(id, email, password, name)], email, password, role)
            == Some(User(id, email, name, UserRole))
  {
    var grown := accounts + [NewAccount(id, email, password, name)];
    var p := Credentials(email, password, role);
    assert p(grown[|accounts|]);
    var found := Find(grown, p);
    var i :| 0 <= i < |grown| && grown[i] == found.value && p(grown[i]) && forall j :: 0 <= j < i ==> !p(grown[j]);
    assert i == |accounts|;
  }

  // ---------------------------------------------------------------------------
  // Orders

  function LinePrice(l: LineItem): real { l.price }

  /** The `map` callback of `createOrder`: copy id, name, price and image, drop the rest. */
  function ToLineItem(m: Catalog.Model3D): LineItem
  {
    LineItem(m.id, m.name, m.price, m.image)
  }

  /** The order `createOrder` appends for owner `ownerId`. */
  function NewOrder(id: int, ownerId: int, items: seq<Catalog.Model3D>, customer: Customer, createdAt: string): (o: Order)
    ensures o.id == id && o.userId == ownerId && o.status == Pending
    ensures o.customer == customer && o.createdAt == createdAt
    ensures |o.items| == |items|
    ensures forall i :: 0 <= i < |items| ==>
              o.items[i] == LineItem(items[i].id, items[i].name, items[i].price, items[i].image)
    ensures o.total == Sum(items, Catalog.Price) == Sum(o.items, LinePrice)
  {
    SumMap(items, ToLineItem, LinePrice, Catalog.Price);
    Order(id, ownerId, Map(items, ToLineItem), Sum(items, Catalog.Price), Pending, customer, createdAt)
  }

  /** Every order's total is the sum of its line-item prices. */
  predicate TotalsConsistent(orders: seq<Order>)
  {
    forall i :: 0 <= i < |orders| ==> orders[i].total == Sum(orders[i].items, LinePrice)
  }

  /** Every order belongs to a listed account. */
  predicate OwnersRegistered(accounts: seq<Account>, orders: seq<Order>)
  {
    forall i :: 0 <= i < |orders| ==> IsRegisteredId(accounts, orders[i].userId)
  }

  /** The `map` callback of `updateOrderStatus`. */
  function SetStatusOf(orderId: int, status: Status): Order -> Order
  {
    (o: Order) => if o.id == orderId then o.(status := status) else o
  }

  /** `orders.map(o => o.id === orderId ? { ...o, status } : o)`: every order with the id
      gets the new status and keeps all its other fields; every other order is untouched. */
  function UpdateStatus(orders: seq<Order>, orderId: int, status: Status): (r: seq<Order>)
    ensures |r| == |orders|
    ensures forall i :: 0 <= i < |orders| && orders[i].id == orderId ==>
              r[i].status == status && r[i] == orders[i].(status := status)
    ensures forall i :: 0 <= i < |orders| && orders[i].id != orderId ==> r[i] == orders[i]
  {
    Map(orders, SetStatusOf(orderId, status))
  }

  /** An id no order carries leaves the list identical. */
  lemma UpdateStatusAbsent(orders: seq<Order>, orderId: int, status: Status)
    requires forall i :: 0 <= i < |orders| ==> orders[i].id != orderId
    ensures UpdateStatus(orders, orderId, status) == orders
  {
  }

  /** A status change keeps every order's items, total and owner, hence both order invariants. */
  lemma UpdateStatusKeepsInvariants(accounts: seq<Account>, orders: seq<Order>, orderId: int, status: Status)
    requires TotalsConsistent(orders) && OwnersRegistered(accounts, orders)
    ensures TotalsConsistent(UpdateStatus(orders, orderId, status))
    ensures OwnersRegistered(accounts, UpdateStatus(orders, orderId, status))
  {
  }

  /** The `filter` callback of `getUserOrders`. */
  function OwnedBy(userId: int): Order -> bool
  {
    (o: Order) => o.userId == userId
  }

  /** `getUserOrders`: nothing without a current user, else that user's orders. */
  function UserOrders(orders: seq<Order>, current: Option<User>): (r: seq<Order>)
    ensures current.None? ==> r == []
    ensures current.Some? ==> forall i :: 0 <= i < |r| ==> r[i].userId == current.value.id && r[i] in orders
    ensures current.Some? ==> forall i :: 0 <= i < |orders| && orders[i].userId == current.value.id ==> orders[i] in r
    ensures current.Some? ==> forall o :: multiset(r)[o] == if o.userId == current.value.id then multiset(orders)[o] else 0
  {
    if current.None? then []
    else
      FilterCountsAll(orders, OwnedBy(current.value.id));
      Filter(orders, OwnedBy(current.value.id))
  }

  /** The user's orders keep the list order. */
  lemma UserOrdersInListOrder(orders: seq<Order>, current: Option<User>)
    ensures IsSubsequence(UserOrders(orders, current), orders)
  {
    if current.Some? {
      FilterIsSubsequence(orders, OwnedBy(current.value.id));
    }
  }

  /** After `createOrder`, the owner sees exactly one more order, the new one, last. */
  lemma UserOrdersAfterCreate(orders: seq<Order>, owner: User, o: Order)
    requires o.userId == owner.id
    ensures UserOrders(orders + [o], Some(owner)) == UserOrders(orders, Some(owner)) + [o]
  {
    FilterAppend(orders, [o], OwnedBy(owner.id));
    assert Filter([o], OwnedBy(owner.id)) == [o];
  }

  // ---------------------------------------------------------------------------
  // The store

  class SessionStore {
    var users: seq<Account>
    var current: Option<User>
    var orders: seq<Order>

    ghost predicate Valid()
      reads this
    {
      EmailsUnique(users)
      && CurrentRegistered(users, current)
      && TotalsConsistent(orders)
      && OwnersRegistered(users, orders)
    }

    /** The provider's initial state: seed accounts, nobody logged in, the seed order. */
    constructor ()
      ensures Valid()
      ensures users == SeedAccounts && current == None && orders == SeedOrders
    {
      users := SeedAccounts;
      current := None;
      orders := SeedOrders;
      assert SeedOrders[0].items[..0] == [];
      assert SeedAccounts[1].id == SeedOrders[0].userId;
    }

    /** `login`: on a match the current user becomes the found account without its
        password; otherwise nothing changes. */
    method Login(email: string, password: string, role: Option<Role>) returns (ok: bool)
      requires Valid()
      modifies this
      ensures Valid()
      ensures ok <==> exists i :: 0 <= i < |users| && users[i].email == email && users[i].password == password
                                  && (role.Some? ==> users[i].role == role.value)
      ensures ok ==> current == LoginLookup(users, email, password, role)
      ensures ok ==> current.value.email == email && (role.Some? ==> current.value.role == role.value)
      ensures !ok ==> current == old(current)
      ensures users == old(users) && orders == old(orders)
    {
      var found := Find(users, Credentials(email, password, role));
      if found.Some? {
        current := Some(WithoutPassword(found.value));
        ok := true;
      } else {
        ok := false;
      }
    }

    /** `register`: refuses a taken email; otherwise appends a plain-user account
        with id `now` and makes it current. */
    method Register(email: string, password: string, name: string, now: int) returns (ok: bool)
      requires Valid()
      modifies this
      ensures Valid()
      ensures ok <==> forall i :: 0 <= i < |old(users)| ==> old(users)[i].email != email
      ensures ok ==> users == old(users) + [NewAccount(now, email, password, name)]
      ensures ok ==> current == Some(User(now, email, name, UserRole))
      ensures !ok ==> users == old(users) && current == old(current)
      ensures orders == old(orders)
    {
      if EmailTaken(users, email) {
        return false;
      }
      RegisterKeepsEmailsUnique(users, now, email, password, name);
      ghost var before := users;
      users := users + [NewAccount(now, email, password, name)];
      current := Some(WithoutPassword(users[|users| - 1]));
      assert forall j :: 0 <= j < |before| ==> users[j] == before[j];
      assert forall id :: IsRegisteredId(before, id) ==> IsRegisteredId(users, id);
      ok := true;
    }

    /** `logout`: forget the current user; accounts and orders stay. */
    method Logout()
      requires Valid()
      modifies this
      ensures Valid()
      ensures current == None
      ensures users == old(users) && orders == old(orders)
    {
      current := None;
    }

    /** `createOrder`: without a current user nothing happens; otherwise one pending
        order for the current user is appended. */
    method CreateOrder(items: seq<Catalog.Model3D>, customer: Customer, now: int, createdAt: string)
      requires Valid()
      modifies this
      ensures Valid()
      ensures old(current).None? ==> orders == old(orders)
      ensures old(current).Some? ==>
                orders == old(orders) + [NewOrder(now, old(current).value.id, items, customer, createdAt)]
      ensures users == old(users) && current == old(current)
    {
      if current.None? {
        return;
      }
      var order := NewOrder(now, current.value.id, items, customer, createdAt);
      var i :| 0 <= i < |users| && WithoutPassword(users[i]) == current.value;
      assert IsRegisteredId(users, order.userId) by { assert users[i].id == order.userId; }
      orders := orders + [order];
    }

    /** `updateOrderStatus`: every order with the id gets the new status. */
    method UpdateOrderStatus(orderId: int, status: Status)
      requires Valid()
      modifies this
      ensures Valid()
      ensures orders == UpdateStatus(old(orders), orderId, status)
      ensures users == old(users) && current == old(current)
    {
      UpdateStatusKeepsInvariants(users, orders, orderId, status);
      orders := UpdateStatus(orders, orderId, status);
    }

    /** `getUserOrders`. */
    method GetUserOrders() returns (r: seq<Order>)
      ensures r == UserOrders(orders, current)
    {
      if current.None? {
        return [];
      }
      r := Filter(orders, OwnedBy(current.value.id));
    }

    /** `getAllOrders`: the whole list, unfiltered, with no role check. */
    method GetAllOrders() returns (r: seq<Order>)
      ensures r == orders
    {
      r := orders;
    }
  }
}
