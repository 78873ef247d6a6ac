# 3D model storefront: session store, catalog admin, storefront filter and cart

A Dafny model of the non-presentational logic of a client-side storefront for
"3D models". There is no backend: everything lives in React state.

- **`Session`** (`session.dfy`) models the `AuthProvider` store as the class
  `SessionStore`. It has three fields:
  - `users`: the identity list, seeded with two demonstration accounts, which
    `register` appends to;
  - `current`: the optional current user;
  - `orders`: the order list, seeded with one demonstration order.

  `Login`, `Register`, `Logout`, `CreateOrder` and `UpdateOrderStatus` change
  the fields under `modifies this`, and each states its whole new state.
  `GetUserOrders` and `GetAllOrders` only read. `Valid()` is the class
  invariant. It holds four facts, and every mutator preserves them:
  - no two accounts share an email;
  - the current user is the password-free copy of a listed account;
  - every order's total is the sum of its line-item prices;
  - every order's owner id belongs to a listed account.
- **`Admin`** (`admin.dfy`) models the admin page.
  - `OpenAdmin` is the role guard. Only while the store's current user is an
    administrator is there an `AdminPanel`. The panel keeps the store, and its
    `Valid()` is the same guard, re-read from the store as every render does;
    the panel's `Logout` makes it false, so no handler is reachable after it.
    The page unmounts when the guard fails, so an administrator who logs in
    again gets a fresh panel from `OpenAdmin` (a new seed catalog); reusing the
    old panel object has no counterpart in the code.
  - The panel holds the catalog list, the edit slot and the add form.
    `UpdateModel` replaces by id, `DeleteModel` removes by id, and
    `AddNewModel` is the guarded append.
  - `ParseTags` is the comma-separated tag parser; `StatusText` gives the
    order-status labels.
- **`Storefront`** (`storefront.dfy`) models the catalog page.
  - `FilteredModels` is the catalog filter: a case-insensitive search on the
    name and the tags, and a category filter with the wildcard `Все`.
  - `IndexPage` holds the cart: append, remove-all-by-id, total and count.
- **`RegisterForm`** (`register_form.dfy`) models the registration handler as
  the pure decision `Submit`. It returns the error, the loading flag, the
  `register` call made (if any) and the navigation.
- Helper modules:
  - **`Catalog`**: the catalog entry type and the id-keyed replace and remove
    shared by both pages.
  - **`Lists`**: `find`, `filter`, `map` and the summing `reduce`.
  - **`Text`**: `toLowerCase`, `includes`, `trim`, `split`, `join`, and the
    UTF-16 `length`.
- **`Walkthrough`** drives fresh stores through two fixed sequences: register,
  duplicate register, log out, log in; and register, order two items, ship the
  order. Its
  asserts show that the contracts above are strong enough to predict every
  step.

Modelling choices:
- `Date.now()` ids and `toISOString()` timestamps are method parameters.
- Prices are exact `real`s.
- `login` and `register` are declared `async` but never await, so they are
  modelled as synchronous.
- Ids are not guaranteed unique. So `updateOrderStatus`, `updateModel`,
  `deleteModel` and `removeFromCart` act on every entry with the id, as the
  code's `map`/`filter` do.
- Two facts about the code that the model keeps:
  - Roles are `user` and `admin`.
  - A status update rewrites every order with the id.

## Model

| member | source | states |
|---|---|---|
| `Session.SessionStore.constructor` | src/context/AuthContext.tsx:45-71 | starts with the two seed accounts, no current user and the seed order, and establishes the store invariant (unique emails, registered current user, consistent totals, registered owners) |
| `Session.SessionStore.Login` | src/context/AuthContext.tsx:87-107 | returns true iff some account has exactly this email and password (and this role when one is given); on success the current user is the found account without its password, carrying the given email and role; on failure the current user is unchanged; accounts and orders never change; invariant kept |
| `Session.SessionStore.Register` | src/context/AuthContext.tsx:109-137 | returns true iff no account has the email; on false accounts and current user are unchanged; on true exactly one account with role `user` and id `now` is appended and becomes current; orders unchanged; email uniqueness and the rest of the invariant kept |
| `Session.SessionStore.Logout` | src/context/AuthContext.tsx:139-142 | the current user becomes none; accounts and orders untouched |
| `Session.SessionStore.CreateOrder` | src/context/AuthContext.tsx:144-165 | no current user: the order list is unchanged; otherwise exactly one order, the `NewOrder` for the current user's id, is appended at the end and earlier orders are unchanged; accounts and current user untouched; invariant kept |
| `Session.SessionStore.UpdateOrderStatus` | src/context/AuthContext.tsx:167-173 | the order list becomes `UpdateStatus` of the old one; accounts and current user untouched; totals and owners invariants kept |
| `Session.SessionStore.GetUserOrders` | src/context/AuthContext.tsx:175-178 | returns `UserOrders` of the current list and user |
| `Session.SessionStore.GetAllOrders` | src/context/AuthContext.tsx:180-182 | returns the whole order list, unfiltered |
| `Session.LoginLookup` | src/context/AuthContext.tsx:89-101 | a user is found iff some account matches email, password and (when given) role; the result is then the password-free copy of such a matching account |
| `Session.EmailTaken` | src/context/AuthContext.tsx:111-114 | the duplicate test holds iff some account has exactly this email |
| `Session.RegisterKeepsEmailsUnique` | src/context/AuthContext.tsx:111-125 | appending an account whose email is not taken to a list with unique emails keeps emails unique |
| `Session.LoginFindsTheAccount` | src/context/AuthContext.tsx:89-101 | with unique emails, a successful login for an account's email yields exactly that account without its password, and only with its password |
| `Session.WrongPasswordFails` | src/context/AuthContext.tsx:89-106 | with unique emails, the right email with a wrong password never logs in, whatever the role |
| `Session.LoginAfterRegister` | src/context/AuthContext.tsx:87-136 | after a successful register, logging in with the same email and password, as `user` or with no role, yields exactly the new identity (its id, email, name, role `user`) |
| `Session.NewOrder` | src/context/AuthContext.tsx:147-160 | the new order has the given id and owner, status `pending`, the given contact and timestamp, line items copied field by field (id, name, price, image) from the inputs, and a total equal both to the sum of input prices and to the sum of its own line-item prices |
| `Session.UpdateStatus` | src/context/AuthContext.tsx:168-170 | same length; every order with the id gets the new status and keeps all other fields; every other order is unchanged |
| `Session.UpdateStatusAbsent` | src/context/AuthContext.tsx:168-170 | when no order has the id, the list is identical |
| `Session.UpdateStatusKeepsInvariants` | src/context/AuthContext.tsx:167-173 | a status update keeps every order's total consistent with its items and every owner registered |
| `Session.UserOrders` | src/context/AuthContext.tsx:175-178 | empty without a current user; otherwise contains exactly the listed orders owned by the current user, each as many times as it occurs in the list |
| `Session.UserOrdersInListOrder` | src/context/AuthContext.tsx:177 | the user's orders are a subsequence of the order list (list order kept) |
| `Session.UserOrdersAfterCreate` | src/context/AuthContext.tsx:144-178 | after appending an order owned by the current user, that user sees exactly the previous orders plus the new one, last |
| `Admin.OpenAdmin` | src/pages/Admin.tsx:52-67 | a panel is produced iff the store's current user has role `admin`; a produced panel is fresh, reads that store, passes the guard and starts with the seed catalog, no edit and the default form |
| `Admin.AdminPanel.constructor` | src/pages/Admin.tsx:54-63 | the panel starts over the given store with the three seed entries, no entry being edited and the default form |
| `Admin.AdminPanel.Logout` | src/pages/Admin.tsx:152 | the store forgets the current user (accounts and orders kept), after which the panel's guard fails, so no admin handler can run |
| `Admin.AdminPanel.UpdateModel` | src/pages/Admin.tsx:71-74 | the catalog becomes `ReplaceById` of the old one, the edit slot is cleared, the form is untouched |
| `Admin.AdminPanel.DeleteModel` | src/pages/Admin.tsx:76-78 | the catalog becomes `RemoveById` of the old one; edit slot and form untouched |
| `Admin.AdminPanel.AddNewModel` | src/pages/Admin.tsx:80-92 | an incomplete form (empty name, image or category, or zero price) changes nothing; a complete one appends exactly the `FromDraft` entry at the end and resets the form to its defaults |
| `Admin.FromDraft` | src/pages/Admin.tsx:82-88 | the new entry has id `now` and the form's name, price, image and category; typed tag text yields exactly `ParseTags` of that text, whose tags are all clean; a tag list is kept as it is |
| `Admin.TrimmedPiecesClean` | src/pages/Admin.tsx:86 | trimming comma-free pieces leaves each one empty or clean |
| `Admin.ParseTags` | src/pages/Admin.tsx:86 | the tags are exactly the non-empty trimmed comma-separated pieces of the text: a subsequence of the trimmed pieces (order kept) holding each non-empty piece as often as it occurs and no empty one; every tag is non-empty, has no whitespace at either end and contains no comma |
| `Admin.ParseTagsOfJoined` | src/pages/Admin.tsx:85-87 | parsing the `join(', ')` text the tags input shows for a list of clean tags gives that list back |
| `Admin.StatusText` | src/pages/Admin.tsx:105-114 | any string that is not one of the five status names is returned unchanged; each of the five is translated to a label that is not itself a status name |
| `Admin.StatusTextDistinguishes` | src/pages/Admin.tsx:105-114 | two different statuses never get the same label |
| `Catalog.ReplaceById` | src/pages/Admin.tsx:72 | same length; every entry with the updated entry's id becomes the updated entry; every other entry is unchanged |
| `Catalog.ReplaceAbsentId` | src/pages/Admin.tsx:72 | when no entry has the id, the list is identical |
| `Catalog.ReplaceByIdIdempotent` | src/pages/Admin.tsx:72 | replacing twice with the same entry equals replacing once |
| `Catalog.RemoveById` | src/pages/Admin.tsx:77 | no remaining entry has the id, remaining entries come from the list, and every entry with another id remains |
| `Catalog.RemoveByIdSpec` | src/pages/Admin.tsx:77 | every entry with another id remains with its multiplicity, and the survivors keep their original order |
| `Catalog.RemoveByIdShrinks` | src/pages/Index.tsx:88-90 | removal leaves the list identical iff no entry has the id |
| `Storefront.FilteredModels` | src/pages/Index.tsx:75-82 | every shown entry is in the catalog and passes both the search and the category test; every catalog entry that passes both is shown |
| `Storefront.FilteredInCatalogOrder` | src/pages/Index.tsx:76-81 | the shown entries are a subsequence of the catalog, and each passing entry appears as often as in the catalog, each failing one not at all |
| `Storefront.MatchesSearchIff` | src/pages/Index.tsx:77-78 | an entry matches iff the lower-cased term occurs at some position of the lower-cased name or of some lower-cased tag |
| `Storefront.SearchIgnoresCase` | src/pages/Index.tsx:77-78 | a term and its lower-case form match the same entries |
| `Storefront.MatchesSearch` | src/pages/Index.tsx:77-78 | the empty term matches every entry, and so does any term whose lower-case form occurs in the lower-cased name |
| `Storefront.MatchesCategory` | src/pages/Index.tsx:79 | the wildcard `Все` admits every entry; any other category admits exactly the entries of that category |
| `Storefront.UnfilteredShowsAll` | src/pages/Index.tsx:75-82 | with the empty term and the wildcard `Все`, the whole catalog is shown in order |
| `Storefront.CategoryFilterExact` | src/pages/Index.tsx:79 | with the empty term, any category other than `Все` shows exactly the entries whose category equals it, in catalog order |
| `Storefront.TotalAfterAdd` | src/pages/Index.tsx:84-92 | appending an entry raises the cart total by its price |
| `Storefront.TotalAfterRemove` | src/pages/Index.tsx:88-93 | removing by id lowers the total by the prices of exactly the removed entries, and the count by their number |
| `Storefront.IndexPage.constructor` | src/pages/Index.tsx:70 | the cart starts empty |
| `Storefront.IndexPage.AddToCart` | src/pages/Index.tsx:84-86 | the entry is appended at the end (duplicates allowed); the count rises by one and the total by the entry's price |
| `Storefront.IndexPage.RemoveFromCart` | src/pages/Index.tsx:88-90 | the cart becomes `RemoveById` of the old cart; count and total fall by the number and the prices of the removed entries |
| `Storefront.IndexPage.CartTotal` | src/pages/Index.tsx:92 | the empty cart totals zero, and a cart of non-negative prices never totals below zero |
| `Storefront.IndexPage.CartCount` | src/pages/Index.tsx:93 | the count is zero exactly when the cart is empty |
| `Storefront.StoreCatalogCategorized` | src/pages/Index.tsx:17-73 | every entry of the page's catalog belongs to one of the non-wildcard category buttons |
| `Storefront.StoreCatalogInitiallyShown` | src/pages/Index.tsx:17-82 | with the page's initial empty search and `Все`, the whole catalog is shown in order |
| `RegisterForm.Submit` | src/pages/Register.tsx:24-50 | loading ends false; `register` is called, with (email, password, name), iff the passwords match and the password is at least 6 UTF-16 units long; a mismatch gives the mismatch error whatever the length; a matching short password gives the length error; a refused call gives the duplicate-email error; the page navigates to `/profile` iff the call is made and succeeds, and exactly then no error is shown |
| `RegisterForm.SubmitAgainstStore` | src/pages/Register.tsx:41-47 | answered by the store's identity list, the page reaches the profile iff both checks pass and the email is new, and the new credentials then log in as the new plain user |
| `Text.Lower` | src/pages/Index.tsx:77-78 | lower-casing keeps the length and maps each character by `LowerChar` |
| `Text.LowerIdempotent` | src/pages/Index.tsx:77-78 | lower-casing twice equals lower-casing once |
| `Text.ContainsIff` | src/pages/Index.tsx:77-78 | `includes` holds iff the needle occurs at some position of the haystack |
| `Text.ContainsEmpty` | src/pages/Index.tsx:77-78 | the empty string is included in every string |
| `Text.TrimSpec` | src/pages/Admin.tsx:86 | `trim` returns a contiguous slice of its input, cuts only whitespace before and after it, and leaves no whitespace at either end |
| `Text.Split` | src/pages/Admin.tsx:86 | `split` on one character yields at least one piece and no piece contains the separator |
| `Text.JoinSplit` | src/pages/Admin.tsx:86 | joining the pieces of a split with the separator restores the string |
| `Text.SplitJoin` | src/pages/Admin.tsx:86 | splitting a join of separator-free pieces restores the pieces |
| `Text.Utf16Length` | src/pages/Register.tsx:35 | the JavaScript length lies between the number of characters and twice that; one character counts 2 above U+FFFF and 1 otherwise; a string wholly inside the Basic Multilingual Plane has its character count as length, one wholly outside it twice that |
| `Text.Utf16LengthAppend` | src/pages/Register.tsx:35 | the length of a concatenation is the sum of the lengths, which with the one-character case fixes every length |
| `Lists.Find` | src/context/AuthContext.tsx:89-93 | `find` yields nothing iff no element satisfies the test; otherwise it yields the first element that does |
| `Lists.Filter` | src/context/AuthContext.tsx:177 | `filter` keeps only elements of the input that pass, and keeps every element that passes |
| `Lists.Map` | src/context/AuthContext.tsx:168-170 | `map` keeps the length and applies the callback at every position |
| `Lists.Sum` | src/pages/Index.tsx:92 | the `reduce` from 0 gives 0 for the empty list and the single value for a one-element list, and is never negative when no value is |

## Left out

- Local storage is not modelled: the writes at `src/context/AuthContext.tsx:103,135,141,164,172` and the rehydration at lines 73-85 are browser I/O. Because the model always starts from the seed data, the store invariant holds from the start. A rehydrated value is not validated, so after a rehydration the source itself gives no such guarantee.
- The rehydration's failure path is not modelled either. `src/context/AuthContext.tsx:76-84` calls `JSON.parse` without a try/catch, so a corrupt stored value makes the provider's effect throw rather than fall back to the seed data.
- Floating point: prices are exact reals. The model does not cover IEEE rounding of sums, `toFixed(2)` display or `parseFloat(...) || 0` coercion. The coercion means a price is never NaN, so `AddNewModel`'s guard is the test `price != 0`.
- Text.Lower: only the Latin A-Z and basic Cyrillic (А-Я, Ё) capitals are lowered; all other characters are left unchanged. JavaScript's full Unicode case mapping is not modelled, including its length-changing cases.
- React specifics are not modelled:
  - state batching;
  - stale closures over `orders` in `createOrder` and `updateOrderStatus` (the operations run one after another);
  - `useContext` plumbing;
  - `useMemo`.
- `mockUsers` is module-level in the source, so it outlives a remount of the provider. In the model it is one store's field.
- `createOrder` has no caller in the source. Its `items: any[]` are modelled as catalog entries, which are copied field by field. Its `customerData: any` is modelled as the `Customer` record.
- Callers pass `updateOrderStatus` a status as `any` from a select. The model only admits the five statuses.
- The admin page's own calls to `getAllOrders` and `updateOrderStatus` (`src/pages/Admin.tsx:69,404`) are the store's methods and are not modelled again.
- Presentation is not modelled:
  - the edit dialog's per-field rebuilding of `editingModel` (`src/pages/Admin.tsx:286-307`);
  - `getStatusColor`;
  - dialogs, tabs and rendering;
  - navigation beyond the guard and the outcome of `Submit`.
- The add form is `Partial<Model3D>` in the source. The model's form always holds every field, as the page's initial value and its reset do.
- `src/pages/Login.tsx` is not part of this model: it forwards its fields to `login` with a fixed role. `src/pages/Profile.tsx` is not part of this model either: it renders `getUserOrders` with its own labels.
