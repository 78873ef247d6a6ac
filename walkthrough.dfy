/** The store driven through two sessions: a registration, a refused duplicate, a
    logout and a login; then an order and a status change, with what each step must
    leave behind. */
module Walkthrough {
  import opened Lists
  import opened Session
  import Catalog

  /** Registration, a refused duplicate, logout and login again. */
  method AliceRegistersAndReturns()
  {
    var store := new SessionStore();
    var ok := store.Register("alice@example.com", "secret1", "Alice", 1000);
    assert ok;
    var again := store.Register("alice@example.com", "other", "Alice 2", 1001);
    assert !again by { assert store.users[|store.users| - 1].email == "alice@example.com"; }
    assert |store.users| == 3;

    store.Logout();
    var orders := store.GetUserOrders();
    assert orders == [];

    ok := store.Login("alice@example.com", "secret1", None);
    assert ok by { assert store.users[2].email == "alice@example.com" && store.users[2].password == "secret1"; }
    assert store.current.value.name == "Alice" && store.current.value.role == UserRole by {
      LoginFindsTheAccount(store.users, 2, "secret1", None);
    }
  }

  /** A fresh registration, an order of two entries, and shipping it. */
  method AliceOrdersAndShips(contact: Customer)
  {
    var store := new SessionStore();
    var ok := store.Register("alice@example.com", "secret1", "Alice", 1000);
    assert ok && store.current.value.id == 1000;

    var x := Catalog.Model3D(1, "X", 10.0, "x.jpg", [], "Abstract");
    var y := Catalog.Model3D(2, "Y", 5.0, "y.jpg", [], "Abstract");
    var before := |store.orders|;
    store.CreateOrder([x, y], contact, 2000, "2025-01-01T00:00:00Z");
    var placed := store.orders[before];
    assert placed.status == Pending && placed.userId == 1000;
    assert placed.total == 15.0 by {
      assert Sum([x], Catalog.Price) == 10.0;
      assert [x, y][..1] == [x];
      assert Sum([x, y], Catalog.Price) == 15.0;
    }

    store.UpdateOrderStatus(2000, Shipped);
    assert store.orders[before].status == Shipped && store.orders[before].total == 15.0;
  }
}
