# Storefront store and handlers, modelled in Dafny

Two single-page storefronts, "FreshMart" (`src/App.jsx`) and "Ruai Fresh"
(`src/src/App.jsx`), keep their whole business state in React hooks: the
registered users, the signed-in user, the product catalog, the cart, the
order ledger (newest first) and the current screen. Their event handlers
change that state synchronously: register, log in, log out, add to cart,
check out, change an order's status, add or edit products, add a co-admin,
seed the catalog. A few values are derived on every render: cart totals, the
delivered revenue, the list of orders the viewer may see, and a status badge
colour.

The model keeps the two variants apart, because they differ:

| | FreshMart | Ruai Fresh |
|---|---|---|
| identity | username, compared as typed | e-mail, trimmed and lower-cased |
| cart | one entry per unit added | one line per product id, with a quantity |
| empty cart at checkout | nothing happens | an order of total 100 is placed |
| logout | clears the cart | keeps the cart |
| catalog | append only | add or edit in one handler |

Modules:

- `Js` (`js.dfy`): `Option` for `null`, and `Find` / `Filter`, the
  `Array.prototype` operations both components use.
- `FreshMart` (`freshmart.dfy`): FreshMart's records and the pure
  computations. These are the subtotal, the map-by-id status update, the
  revenue, the visible orders and the admin-view guard.
- `FreshMartStore` (`freshmart_store.dfy`): class `Store`. It has one field per
  state hook and one method per handler. Its `Valid()` invariant says:
  - usernames are unique;
  - the first account is an admin;
  - the signed-in user is a registered one;
  - only a signed-in admin is on the admin view;
  - every order holds at least one unit, with `subtotal` the sum of its
    items' prices and `total = subtotal + 100`.
- `RuaiFresh` (`ruai.dfy`): Ruai Fresh's records and the pure computations.
  These are e-mail normalisation, the aggregating cart update,
  subtotal/total, add-or-edit, the status update, the badge colour and the
  displayed orders.
- `RuaiFreshStore` (`ruai_store.dfy`): class `Store`. Its `Valid()` invariant
  says:
  - accounts have distinct normalised addresses;
  - the first account is an admin;
  - the signed-in user is registered;
  - the cart has one line per product, each with at least one unit;
  - every order's total is its lines' subtotal plus 100.

Ids come from `Date.now()` in the source. Here the caller passes them in.
Nothing checks them for uniqueness, in the source or here. What a handler
shows in its notification is returned as an outcome value.

The model follows the code where it is lax:

- Order status is a free string. Any value may follow any other; there is no
  forward-only lifecycle (`FreshMart.StatusMayMoveBackward`).
- Ruai Fresh places an order for an empty cart.
- Ruai Fresh's logout keeps the cart.
- Admin-only handlers check no role themselves; only rendering gates them.
  FreshMart shows the status select in the order history to a signed-in
  admin (src/App.jsx:361-369) and the other admin actions on the admin
  dashboard (src/App.jsx:380). Ruai Fresh gates its admin page
  (src/src/App.jsx:232), but its seed button (src/src/App.jsx:200) has no role
  check: anyone on the home page sees it while the catalog is empty, signed
  in or not.
- Neither variant can delete a product.

## Model

| member | source | states |
|---|---|---|
| `Js.Find` | src/App.jsx:75 | the index `find` stops at: it satisfies the predicate, no earlier element does, and None exactly when no element does |
| `Js.Filter` | src/App.jsx:175 | `filter` keeps exactly the elements satisfying the predicate, each as many times as in the input |
| `Js.FilterAppend` | src/App.jsx:169 | filtering distributes over concatenation, so order is kept |
| `Js.FilterCons` | src/App.jsx:175 | filtering a list with one more element in front |
| `FreshMart.SeedData` | src/App.jsx:3-8 | the seed catalog has four products with distinct ids |
| `FreshMart.FindUsername` | src/App.jsx:55 | the username lookup finds a user exactly when one has that username |
| `FreshMart.FindCredentials` | src/App.jsx:75 | the login lookup finds a user exactly when one has that username and that password |
| `FreshMart.AppendKeepsUnique` | src/App.jsx:55-63 | appending a user under an unused username keeps usernames unique |
| `FreshMart.Subtotal` | src/App.jsx:101 | the reduce-sum of the cart's prices: 0 for an empty cart, never negative when no price is; `SubtotalSnoc` gives its growth |
| `FreshMart.SubtotalSnoc` | src/App.jsx:101 | one more unit in the cart raises the subtotal by that unit's price |
| `FreshMart.WithStatus` | src/App.jsx:122-126 | the status update keeps the ledger's length and order, changes nothing but `status`, and sets exactly the orders with the given id to the new status, whatever it is |
| `FreshMart.WithStatusKeepsWellFormed` | src/App.jsx:122-126 | a status update cannot break an order's subtotal/total relation |
| `FreshMart.WithStatusMissing` | src/App.jsx:123-125 | updating an id no order has changes nothing |
| `FreshMart.StatusMayMoveBackward` | src/App.jsx:122-126 | a delivered order anywhere in the ledger is set back to Pending, with nothing else about it changed |
| `FreshMart.SumTotals` | src/App.jsx:170 | the sum of the totals: 0 for no orders, never negative when no total is |
| `FreshMart.SumTotalsAppend` | src/App.jsx:170 | the sum of totals is additive |
| `FreshMart.Revenue` | src/App.jsx:168-170 | `totalRevenue`: 0 when no order is Delivered, never negative when no total is; `RevenueCons`, `RevenueAppend` and `RevenueAfterStatus` say how it moves |
| `FreshMart.RevenueAppend` | src/App.jsx:168-170 | delivered revenue is additive over the ledger |
| `FreshMart.RevenueCons` | src/App.jsx:168-170 | revenue counts an order's total exactly when its status is Delivered |
| `FreshMart.CheckoutKeepsRevenue` | src/App.jsx:110-114 | a new Pending order does not change the revenue |
| `FreshMart.RevenueAfterStatus` | src/App.jsx:122-126 | changing the status of the one order with an id moves exactly its total into or out of the revenue |
| `FreshMart.VisibleOrders` | src/App.jsx:173-175 | an admin sees the whole ledger; anyone else sees exactly the orders whose userId is theirs, with multiplicity, and none when signed out |
| `FreshMart.NewOrderHeadsOwnList` | src/App.jsx:114 | a customer's new order heads their own order list, ahead of their earlier ones |
| `FreshMart.GuardView` | src/App.jsx:35-40 | the admin view survives only for a signed-in admin, is otherwise replaced by the shop, and every other view is kept |
| `FreshMart.GuardViewIdempotent` | src/App.jsx:35-40 | the guard is a normalising step |
| `FreshMartStore.Store.constructor` | src/App.jsx:14-25 | with empty storage every collection is empty, nobody is signed in and the login view shows |
| `FreshMartStore.Store.Register` | src/App.jsx:49-67 | a taken username changes nothing. Otherwise exactly one user is appended, admin iff there were none, and becomes the current user. Catalog, cart and orders are untouched |
| `FreshMartStore.Store.Login` | src/App.jsx:69-83 | succeeds iff some user matches username and password exactly, and then signs in such a user. On failure nothing changes |
| `FreshMartStore.Store.Logout` | src/App.jsx:85-89 | no current user, empty cart, login view; users, products and orders untouched |
| `FreshMartStore.Store.AddToCart` | src/App.jsx:92-95 | the product is appended as a new entry even if already present: length +1, subtotal + its price |
| `FreshMartStore.Store.EditDelivery` | src/App.jsx:298-311 | the delivery form fields are set |
| `FreshMartStore.Store.Checkout` | src/App.jsx:97-119 | empty cart: nothing changes. No current user: the handler throws before any state change. Otherwise exactly one order is put in front, with the cart's items, their subtotal, subtotal + 100, Pending, the user's id and name and the delivery details. Earlier orders are kept as they were, and the cart and form are emptied |
| `FreshMartStore.Store.UpdateOrderStatus` | src/App.jsx:122-128 | the ledger becomes the status update of the old ledger; all orders stay well formed |
| `FreshMartStore.Store.AddProduct` | src/App.jsx:130-144 | exactly one product with the given fields is appended |
| `FreshMartStore.Store.AddAdmin` | src/App.jsx:146-160 | a taken username changes nothing. Otherwise one admin is appended, and the current user is not touched |
| `FreshMartStore.Store.SeedStore` | src/App.jsx:162-165 | the catalog becomes the seed catalog |
| `FreshMartStore.Store.Navigate` | src/App.jsx:35-40 | a request for the admin view is denied, landing on the shop, iff the user is not a signed-in admin |
| `RuaiFresh.SeedProducts` | src/src/App.jsx:18-26 | the seed catalog has seven products with distinct ids |
| `RuaiFresh.TrimStart` | src/src/App.jsx:78 | removes exactly the leading whitespace |
| `RuaiFresh.TrimEnd` | src/src/App.jsx:78 | removes exactly the trailing whitespace |
| `RuaiFresh.Trim` | src/src/App.jsx:78 | `trim()`: no longer than the input, and neither starts nor ends with whitespace; `TrimIsInnerPart` says only surrounding whitespace is cut |
| `RuaiFresh.LowerChar` | src/src/App.jsx:78 | a capital becomes the small letter at the same alphabet position; any other character is kept |
| `RuaiFresh.ToLower` | src/src/App.jsx:78 | same length, no capital left, every non-capital kept in place, whitespace stays whitespace |
| `RuaiFresh.Normalize` | src/src/App.jsx:78 | `trim().toLowerCase()` yields a normalised address, no longer than the input; `NormalizeIdempotent` and `TrimIsInnerPart` complete it |
| `RuaiFresh.TrimIsInnerPart` | src/src/App.jsx:78 | the trimmed address is a contiguous part of the input, and only whitespace is cut off before and after it |
| `RuaiFresh.NormalizeFixesNormalized` | src/src/App.jsx:78 | normalisation leaves an already-normalised address as it is |
| `RuaiFresh.NormalizeIdempotent` | src/src/App.jsx:78 | normalising twice equals normalising once |
| `RuaiFresh.FindEmail` | src/src/App.jsx:81 | the address lookup finds an account exactly when one has that address |
| `RuaiFresh.FindCredentials` | src/src/App.jsx:89 | the login lookup finds an account exactly when one has that address and password |
| `RuaiFresh.AppendKeepsUnique` | src/src/App.jsx:81-84 | appending an account under an unused address keeps addresses unique |
| `RuaiFresh.BumpLines` | src/src/App.jsx:102 | every line keeps its product copy, and exactly the lines with the id gain one unit |
| `RuaiFresh.AddLine` | src/src/App.jsx:99-104 | if a line for the product's id exists, only such lines gain one unit and the line count stays. Otherwise a line of one unit is appended |
| `RuaiFresh.UnitsSnoc` | src/src/App.jsx:103 | an appended line adds its quantity to its product's units |
| `RuaiFresh.UnitsBump` | src/src/App.jsx:102 | bumping the one line of a product adds one unit of it and none of others |
| `RuaiFresh.BumpMissing` | src/src/App.jsx:102 | bumping an id no line has changes nothing |
| `RuaiFresh.AddLineUnits` | src/src/App.jsx:99-104 | in a cart with one line per product, adding `p` raises p's units by exactly one and no other product's |
| `RuaiFresh.AddLineKeepsShape` | src/src/App.jsx:99-104 | adding keeps one line per product and at least one unit per line |
| `RuaiFresh.AddTwiceIsOneLine` | src/src/App.jsx:99-104 | adding one product twice to an empty cart gives one line with quantity 2 |
| `RuaiFresh.CartSubtotal` | src/src/App.jsx:108 | the reduce-sum of price × quantity: 0 for an empty cart, never negative for non-negative lines; `SubtotalSnoc` and `AddLineSubtotal` give its growth |
| `RuaiFresh.CartTotal` | src/src/App.jsx:108-110 | an empty cart costs exactly the fee of 100, and a cart of non-negative lines never costs less |
| `RuaiFresh.AddLineTotal` | src/src/App.jsx:99-110 | adding a product raises the total by one unit's price, so the fee is charged once per cart |
| `RuaiFresh.SubtotalSnoc` | src/src/App.jsx:108 | an appended line adds price × quantity to the subtotal |
| `RuaiFresh.SubtotalBump` | src/src/App.jsx:102-108 | one more unit in an existing line adds that line's snapshot price |
| `RuaiFresh.AddLineSubtotal` | src/src/App.jsx:99-108 | adding a product raises the subtotal by one unit's price, taken from the copy already in the cart if there is one |
| `RuaiFresh.TwoLoavesExample` | src/src/App.jsx:99-110 | two loaves at 65 give subtotal 130 and total 230 |
| `RuaiFresh.ReplaceById` | src/src/App.jsx:144-145 | the map-by-id edit keeps the length, replaces exactly the products with the id and keeps every other one in place |
| `RuaiFresh.SaveProduct` | src/src/App.jsx:142-146 | editing replaces exactly the products with the editing id and keeps the length. Otherwise one product is appended under the fresh id. An empty editing id counts as no edit |
| `RuaiFresh.EditKeepsIds` | src/src/App.jsx:144-145 | an edit never changes any product's id |
| `RuaiFresh.WithStatus` | src/src/App.jsx:150-151 | the status update keeps length and order, changes nothing but `status`, and sets exactly the id-matching orders to any given value |
| `RuaiFresh.WithStatusKeepsWellFormed` | src/src/App.jsx:150-151 | a status update cannot break an order's total |
| `RuaiFresh.StatusColor` | src/src/App.jsx:155-160 | Delivered ↔ emerald, Dispatched ↔ blue, Cancelled ↔ red, anything else ↔ orange |
| `RuaiFresh.DisplayOrders` | src/src/App.jsx:162 | an admin sees the whole ledger; anyone else sees exactly the orders with their e-mail, with multiplicity, and none when signed out |
| `RuaiFresh.NewOrderHeadsOwnList` | src/src/App.jsx:127 | a customer's new order heads their own order list |
| `RuaiFreshStore.Store.constructor` | src/src/App.jsx:58-67 | with empty storage, everything is empty, nobody is signed in and the home page shows |
| `RuaiFreshStore.Store.HandleAuth` | src/src/App.jsx:76-95 | the address is normalised first, then the register or the login branch runs; catalog, orders and cart are untouched |
| `RuaiFreshStore.Store.Register` | src/src/App.jsx:80-87 | a used address changes nothing. Otherwise one account is appended, admin iff there were none, and signed in |
| `RuaiFreshStore.Store.Login` | src/src/App.jsx:88-94 | signs in an account with that address and exactly that password iff one exists; otherwise nothing changes |
| `RuaiFreshStore.Store.Logout` | src/src/App.jsx:97 | no user, login page, so the admin panel (src/src/App.jsx:232) is no longer shown; cart untouched |
| `RuaiFreshStore.Store.AddToCart` | src/src/App.jsx:99-106 | the cart becomes the aggregated update: units of `p` +1, all other units unchanged, one line per product kept |
| `RuaiFreshStore.Store.Checkout` | src/src/App.jsx:112-131 | with a signed-in user, exactly one order is put in front, even for an empty cart (total 100 then). It has the cart's lines, the cart total, Pending, the user's e-mail and the details. The cart is emptied. With nobody signed in the handler throws before any change |
| `RuaiFreshStore.Store.SaveProduct` | src/src/App.jsx:142-148 | the catalog becomes the add-or-edit update, the editing id is cleared, orders are untouched |
| `RuaiFreshStore.Store.UpdateOrderStatus` | src/src/App.jsx:150-153 | the ledger becomes the status update of the old ledger; totals stay well formed |
| `RuaiFreshStore.Store.SeedStore` | src/src/App.jsx:200 | the catalog becomes the seed catalog |
| `RuaiFreshStore.Store.Navigate` | src/src/App.jsx:180 | the page becomes the requested one; nothing redirects |

## Left out

- Persistence: reading state from `localStorage` at start-up and writing each
  collection after every change. This is browser I/O with JSON. A corrupt
  stored value makes `JSON.parse` throw, and neither component catches it.
  The constructors model only a first visit with empty storage.
- Notifications: the toast messages and their `setTimeout` clearing timers.
  They are asynchronous and carry no business logic. Each handler returns
  its outcome instead.
- Clock values: `Date.now()` ids and the creation date strings. Ids are
  parameters, and no uniqueness is assumed or checked.
- Numbers: `Number(...)` coercion of form strings (NaN, floats) and
  `toLocaleString` formatting. Prices, stock and totals are unbounded
  integers, so no floating-point rounding is modelled.
- Rendering: JSX markup, styling, the `Button` and `Badge` components and the
  navigation buttons. Navigation appears only as `Navigate`.
- Form plumbing: `FormData`, `e.target` field reads and `preventDefault`. The
  handlers take the field values as arguments.
- Ruai Fresh's product form state: the effect that fills the form from
  `editingId` (src/src/App.jsx:133-140) is left out. The form renders only
  name and price inputs, so category and stock are whatever the form state
  holds; here they are arguments. Nothing in the component ever sets
  `editingId` to a value, so only the append branch runs inside the class.
  The edit branch is modelled and proved in the pure function
  `RuaiFresh.SaveProduct`.
- Ruai Fresh's seed button is only rendered while the catalog is empty, to
  anyone on the home page. The handler itself has no such check, and
  `SeedStore` models the handler.
- FreshMart's status select is rendered in the order history for a signed-in
  admin, not on the admin dashboard. Which screen shows which control is
  rendering; `UpdateOrderStatus` models the handler only.
- Admin gating inside handlers: neither component checks a role in its
  admin handlers, so neither does the model.
- Product deletion, data import/export and a guarded status lifecycle: the
  two components have none of these.
- RuaiFresh.ToLower: lower-cases only ASCII `A`–`Z`. JavaScript's
  `toLowerCase` also maps other Unicode capitals, so two addresses differing
  only in non-ASCII case are distinct here but equal in the source.
- RuaiFresh.LowerChar: keeps every non-ASCII character, for the same reason.
  JavaScript maps 'É' to 'é' and 'İ' to two code points; this model keeps both.
- RuaiFreshStore.Store.Login: states that the signed-in account matches the
  address and password. It does not state that it is the first such
  account. Under the unique-address invariant there is only one.
- FreshMartStore.Store.Login: states that the signed-in user matches the
  credentials, not that it is the first match. Under the unique-username
  invariant there is only one.
