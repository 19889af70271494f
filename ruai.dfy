/** The values of the "Ruai Fresh" storefront (src/src/App.jsx) and the pure
    computations its component performs: e-mail normalisation, the
    quantity-aggregating cart update, cart subtotal and total, the
    add-or-edit product update, the map-by-id status update, the status
    badge colour and the per-viewer order list. */
module RuaiFresh {
  import opened Js

  /** The fixed delivery fee added to every cart subtotal. */
  const DeliveryFee: int := 100

  const Pending: string := "Pending"

  datatype Role = Admin | Customer

  /** Accounts are keyed by their normalised e-mail address. */
  datatype User = User(id: string, email: string, password: string, role: Role)

  datatype Product = Product(id: string, name: string, price: int, category: string, stock: int)

  /** A cart line: a copy of the product as it was first added, and how many
      units of it are in the cart. The line's id is the product's id. */
  datatype CartLine = CartLine(product: Product, quantity: int)

  datatype CustomerDetails = CustomerDetails(name: string, phone: string, address: string)

  /** An order; its `items` are the cart lines at checkout. The creation
      timestamp is not modelled. */
  datatype Order = Order(
    id: string,
    userEmail: string,
    items: seq<CartLine>,
    total: int,
    status: string,
    details: CustomerDetails)

  /** The pages of the component. */
  datatype Page = HomePage | CartPage | OrdersPage | AdminPage | LoginPage | RegisterPage

  /** The badge colours an order status is shown in. */
  datatype Color = Emerald | Blue | Red | Orange

  /** The fixed catalog the "Seed Products" button installs. */
  function SeedProducts(): (r: seq<Product>)
    ensures |r| == 7
    ensures forall i, j :: 0 <= i < j < |r| ==> r[i].id != r[j].id
  {
    [ Product("1", "Maize Flour (Unga 1kg)", 130, "Grains", 50),
      Product("2", "Bread (500g)", 65, "Bakery", 20),
      Product("3", "Milk (Fresh 1L)", 130, "Dairy", 30),
      Product("4", "Eggs (12 Pack)", 230, "Poultry", 20),
      Product("5", "Sukuma Wiki (1kg)", 70, "Vegetables", 60),
      Product("6", "Mandazi", 10, "Snacks", 100),
      Product("7", "Matchbox", 15, "Household", 200) ]
  }

  // ---------------------------------------------------------------------
  // E-mail normalisation: `value.trim().toLowerCase()`

  /** The characters `String.prototype.trim` removes: ECMAScript's
      WhiteSpace (tab, vertical tab, form feed, space, no-break space, the
      byte order mark and the other space separators) and LineTerminator. */
  predicate IsSpace(c: char)
  {
    || c == '\t' || c == '\n' || c == '\U{000B}' || c == '\U{000C}' || c == '\r' || c == ' '
    || c == '\U{00A0}' || c == '\U{1680}' || ('\U{2000}' <= c <= '\U{200A}')
    || c == '\U{2028}' || c == '\U{2029}' || c == '\U{202F}' || c == '\U{205F}'
    || c == '\U{3000}' || c == '\U{FEFF}'
  }

  predicate IsUpper(c: char) { 'A' <= c <= 'Z' }

  /** A capital becomes the small letter at the same place in the alphabet;
      every other character is kept. */
  function LowerChar(c: char): (d: char)
    ensures !IsUpper(d)
    ensures !IsUpper(c) ==> d == c
    ensures IsUpper(c) ==> 'a' <= d <= 'z' && d as int - 'a' as int == c as int - 'A' as int
  {
    if IsUpper(c) then (c as int + 32) as char else c
  }

  /** `s` without its leading whitespace. */
  function TrimStart(s: string): (r: string)
    ensures |r| <= |s| && r == s[|s| - |r|..]
    ensures forall i :: 0 <= i < |s| - |r| ==> IsSpace(s[i])
    ensures r == [] || !IsSpace(r[0])
  {
    if s != [] && IsSpace(s[0]) then TrimStart(s[1..]) else s
  }

  /** `s` without its trailing whitespace. */
  function TrimEnd(s: string): (r: string)
    ensures |r| <= |s| && r == s[..|r|]
    ensures forall i :: |r| <= i < |s| ==> IsSpace(s[i])
    ensures r == [] || !IsSpace(r[|r| - 1])
  {
    if s != [] && IsSpace(s[|s| - 1]) then TrimEnd(s[..|s| - 1]) else s
  }

  /** `s.trim()`: the result neither starts nor ends with whitespace;
      `TrimIsInnerPart` says what was cut. */
  function Trim(s: string): (r: string)
    ensures |r| <= |s|
    ensures r == [] || (!IsSpace(r[0]) && !IsSpace(r[|r| - 1]))
  {
    var t := TrimStart(s);
    var r := TrimEnd(t);
    assert r != [] ==> r[0] == t[0];
    r
  }

  /** `s.toLowerCase()` over ASCII: no capital is left, every other
      character stays where it was, and whitespace stays whitespace. */
  function ToLower(s: string): (r: string)
    ensures |r| == |s|
    ensures forall i :: 0 <= i < |s| ==> !IsUpper(r[i])
    ensures forall i :: 0 <= i < |s| && !IsUpper(s[i]) ==> r[i] == s[i]
    ensures forall i :: 0 <= i < |s| && IsUpper(s[i]) ==> r[i] == LowerChar(s[i])
    ensures forall i :: 0 <= i < |s| ==> (IsSpace(r[i]) <==> IsSpace(s[i]))
  {
    if s == [] then [] else [LowerChar(s[0])] + ToLower(s[1..])
  }

  /** The form that registration stores and login compares: no surrounding
      whitespace and no capital letter. */
  function Normalize(email: string): (r: string)
    ensures IsNormalized(r)
    ensures |r| <= |email|
  {
    ToLower(Trim(email))
  }

  /** A normalised address: no surrounding whitespace and no capital letter. */
  predicate IsNormalized(s: string)
  {
    (s == [] || (!IsSpace(s[0]) && !IsSpace(s[|s| - 1])))
    && forall i :: 0 <= i < |s| ==> !IsUpper(s[i])
  }

  /** Trimming removes only surrounding whitespace: what remains is the
      part `s[a..b]` of the input, with whitespace only before `a` and
      after `b`. */
  lemma {:induction false} TrimIsInnerPart(s: string) returns (a: nat, b: nat)
    ensures a <= b <= |s| && Trim(s) == s[a..b]
    ensures forall i :: 0 <= i < a ==> IsSpace(s[i])
    ensures forall i :: b <= i < |s| ==> IsSpace(s[i])
  {
    var t := TrimStart(s);
    a := |s| - |t|;
    b := TrimEndCut(s, a);
  }

  /** The trailing cut of `s[a..]`, read as positions of `s`. */
  lemma TrimEndCut(s: string, a: nat) returns (b: nat)
    requires a <= |s|
    ensures a <= b <= |s| && TrimEnd(s[a..]) == s[a..b]
    ensures forall i :: b <= i < |s| ==> IsSpace(s[i])
  {
    var t := s[a..];
    var r := TrimEnd(t);
    b := a + |r|;
    forall i | b <= i < |s| ensures IsSpace(s[i]) {
      assert s[i] == t[i - a];
    }
  }

  /** A normalised address is its own normal form. */
  lemma {:induction false} NormalizeFixesNormalized(s: string)
    requires IsNormalized(s)
    ensures Normalize(s) == s
  {
    assert TrimStart(s) == s;
    assert TrimEnd(s) == s;
    assert ToLower(s) == s;
  }

  /** Normalising twice is normalising once, so a stored address matches
      its own normalisation. */
  lemma NormalizeIdempotent(email: string)
    ensures Normalize(Normalize(email)) == Normalize(email)
  {
    NormalizeFixesNormalized(Normalize(email));
  }

  // ---------------------------------------------------------------------
  // Users

  /** Some account is registered under this (normalised) address. */
  predicate EmailTaken(users: seq<User>, email: string)
  {
    exists i :: 0 <= i < |users| && users[i].email == email
  }

  predicate CredentialsMatch(users: seq<User>, email: string, password: string)
  {
    exists i :: 0 <= i < |users| && users[i].email == email && users[i].password == password
  }

  /** The index of the account `users.find` returns for an address. */
  function FindEmail(users: seq<User>, email: string): (r: Option<nat>)
    ensures r.None? <==> !EmailTaken(users, email)
    ensures r.Some? ==> r.value < |users| && users[r.value].email == email
  {
    Find(users, (u: User) => u.email == email)
  }

  /** The index of the account `users.find` returns for a login attempt. */
  function FindCredentials(users: seq<User>, email: string, password: string): (r: Option<nat>)
    ensures r.None? <==> !CredentialsMatch(users, email, password)
    ensures r.Some? ==> r.value < |users|
    ensures r.Some? ==> users[r.value].email == email && users[r.value].password == password
  {
    Find(users, (u: User) => u.email == email && u.password == password)
  }

  ghost predicate UniqueEmails(users: seq<User>)
  {
    forall i, j :: 0 <= i < j < |users| ==> users[i].email != users[j].email
  }

  lemma AppendKeepsUnique(users: seq<User>, u: User)
    requires UniqueEmails(users)
    requires !EmailTaken(users, u.email)
    ensures UniqueEmails(users + [u])
  {
    forall i, j | 0 <= i < j < |users| + 1
      ensures (users + [u])[i].email != (users + [u])[j].email
    {
      if j == |users| {
        assert users[i].email != u.email;
      }
    }
  }

  // ---------------------------------------------------------------------
  // Cart

  predicate HasLine(cart: seq<CartLine>, id: string)
  {
    exists i :: 0 <= i < |cart| && cart[i].product.id == id
  }

  /** No two lines of the cart are for the same product id. */
  ghost predicate DistinctLines(cart: seq<CartLine>)
  {
    forall i, j :: 0 <= i < j < |cart| ==> cart[i].product.id != cart[j].product.id
  }

  /** Every line holds at least one unit. */
  ghost predicate PositiveQuantities(cart: seq<CartLine>)
  {
    forall i :: 0 <= i < |cart| ==> cart[i].quantity >= 1
  }

  /** `prev.map(i => i.id === id ? { ...i, quantity: i.quantity + 1 } : i)`. */
  function BumpLines(cart: seq<CartLine>, id: string): (r: seq<CartLine>)
    ensures |r| == |cart|
    ensures forall i :: 0 <= i < |cart| ==> r[i].product == cart[i].product
    ensures forall i :: 0 <= i < |cart| ==>
      r[i].quantity == cart[i].quantity + (if cart[i].product.id == id then 1 else 0)
  {
    if cart == [] then []
    else
      var line := if cart[0].product.id == id then cart[0].(quantity := cart[0].quantity + 1) else cart[0];
      [line] + BumpLines(cart[1..], id)
  }

  /** addToCart: one more unit of `p` in the line for its id (keeping that
      line's product copy), or a new line of one unit at the end. */
  function AddLine(cart: seq<CartLine>, p: Product): (r: seq<CartLine>)
    ensures HasLine(cart, p.id) ==> |r| == |cart|
    ensures HasLine(cart, p.id) ==> forall i :: 0 <= i < |cart| ==> r[i].product == cart[i].product
    ensures HasLine(cart, p.id) ==> forall i :: 0 <= i < |cart| ==>
      r[i].quantity == cart[i].quantity + (if cart[i].product.id == p.id then 1 else 0)
    ensures !HasLine(cart, p.id) ==> r == cart + [CartLine(p, 1)]
  {
    if Find(cart, (l: CartLine) => l.product.id == p.id).Some? then BumpLines(cart, p.id)
    else cart + [CartLine(p, 1)]
  }

  /** The number of units of product `id` in the cart. */
  function Units(cart: seq<CartLine>, id: string): int
  {
    if cart == [] then 0
    else (if cart[0].product.id == id then cart[0].quantity else 0) + Units(cart[1..], id)
  }

  lemma {:induction false} UnitsSnoc(cart: seq<CartLine>, l: CartLine, id: string)
    ensures Units(cart + [l], id) == Units(cart, id) + (if l.product.id == id then l.quantity else 0)
  {
    if cart == [] {
      assert cart + [l] == [l];
    } else {
      assert (cart + [l])[1..] == cart[1..] + [l];
      UnitsSnoc(cart[1..], l, id);
    }
  }

  /** Units of a cart in which only the line at `k` was bumped. */
  lemma {:induction false} UnitsBump(cart: seq<CartLine>, k: nat, x: string)
    requires k < |cart|
    requires forall i :: 0 <= i < |cart| && i != k ==> cart[i].product.id != cart[k].product.id
    ensures Units(BumpLines(cart, cart[k].product.id), x)
         == Units(cart, x) + (if x == cart[k].product.id then 1 else 0)
  {
    var id := cart[k].product.id;
    var tail := cart[1..];
    if k == 0 {
      forall i | 0 <= i < |tail| ensures tail[i].product.id != id {
        assert tail[i] == cart[i + 1];
      }
      BumpMissing(tail, id);
    } else {
      assert tail[k - 1] == cart[k];
      forall i | 0 <= i < |tail| && i != k - 1 ensures tail[i].product.id != id {
        assert tail[i] == cart[i + 1];
      }
      UnitsBump(tail, k - 1, x);
    }
  }

  /** Bumping an id no line has changes nothing. */
  lemma BumpMissing(cart: seq<CartLine>, id: string)
    requires forall i :: 0 <= i < |cart| ==> cart[i].product.id != id
    ensures BumpLines(cart, id) == cart
  {
  }

  /** In a cart with one line per product, adding `p` raises the units of
      `p` by exactly one and leaves every other product's units alone. */
  lemma AddLineUnits(cart: seq<CartLine>, p: Product, x: string)
    requires DistinctLines(cart)
    ensures Units(AddLine(cart, p), x) == Units(cart, x) + (if x == p.id then 1 else 0)
  {
    if HasLine(cart, p.id) {
      var k :| 0 <= k < |cart| && cart[k].product.id == p.id;
      UnitsBump(cart, k, x);
    } else {
      UnitsSnoc(cart, CartLine(p, 1), x);
    }
  }

  /** Adding keeps one line per product and at least one unit per line. */
  lemma AddLineKeepsShape(cart: seq<CartLine>, p: Product)
    requires DistinctLines(cart) && PositiveQuantities(cart)
    ensures DistinctLines(AddLine(cart, p)) && PositiveQuantities(AddLine(cart, p))
  {
    if !HasLine(cart, p.id) {
      var r := AddLine(cart, p);
      forall i, j | 0 <= i < j < |r| ensures r[i].product.id != r[j].product.id {
        if j == |cart| {
          assert cart[i].product.id != p.id;
        }
      }
    }
  }

  /** Adding a product twice to an empty cart gives one line of two units. */
  lemma AddTwiceIsOneLine(p: Product)
    ensures AddLine(AddLine([], p), p) == [CartLine(p, 2)]
  {
    var once := AddLine([], p);
    assert once == [CartLine(p, 1)];
    assert once[0].product.id == p.id;
    assert BumpLines(once, p.id) == [CartLine(p, 2)];
  }

  /** `cart.reduce((a, i) => a + i.price * i.quantity, 0)`. */
  function CartSubtotal(cart: seq<CartLine>): (r: int)
    ensures cart == [] ==> r == 0
    ensures (forall i :: 0 <= i < |cart| ==> cart[i].product.price >= 0 && cart[i].quantity >= 0) ==> r >= 0
  {
    if cart == [] then 0 else cart[0].product.price * cart[0].quantity + CartSubtotal(cart[1..])
  }

  /** `cartTotal`: an empty cart still costs the delivery fee, and a cart of
      non-negative lines never costs less than it. */
  function CartTotal(cart: seq<CartLine>): (r: int)
    ensures cart == [] ==> r == DeliveryFee
    ensures (forall i :: 0 <= i < |cart| ==> cart[i].product.price >= 0 && cart[i].quantity >= 0) ==> r >= DeliveryFee
  {
    CartSubtotal(cart) + DeliveryFee
  }

  lemma {:induction false} SubtotalSnoc(cart: seq<CartLine>, l: CartLine)
    ensures CartSubtotal(cart + [l]) == CartSubtotal(cart) + l.product.price * l.quantity
  {
    if cart == [] {
      assert cart + [l] == [l];
    } else {
      assert (cart + [l])[1..] == cart[1..] + [l];
      SubtotalSnoc(cart[1..], l);
    }
  }

  /** The bump of a non-empty cart, one line at a time. */
  lemma BumpCons(cart: seq<CartLine>, id: string)
    requires cart != []
    ensures BumpLines(cart, id)
         == [if cart[0].product.id == id then cart[0].(quantity := cart[0].quantity + 1) else cart[0]]
            + BumpLines(cart[1..], id)
  {
  }

  /** One more unit of a line costs one more unit's price. */
  lemma LineCostSucc(price: int, quantity: int)
    ensures price * (quantity + 1) == price * quantity + price
  {
  }

  lemma {:induction false} SubtotalBump(cart: seq<CartLine>, k: nat)
    requires k < |cart|
    requires forall i :: 0 <= i < |cart| && i != k ==> cart[i].product.id != cart[k].product.id
    ensures CartSubtotal(BumpLines(cart, cart[k].product.id)) == CartSubtotal(cart) + cart[k].product.price
  {
    var id := cart[k].product.id;
    var tail := cart[1..];
    var r := BumpLines(cart, id);
    BumpCons(cart, id);
    assert r[1..] == BumpLines(tail, id);
    if k == 0 {
      forall i | 0 <= i < |tail| ensures tail[i].product.id != id {
        assert tail[i] == cart[i + 1];
      }
      BumpMissing(tail, id);
      assert r[0] == cart[0].(quantity := cart[0].quantity + 1);
      LineCostSucc(cart[0].product.price, cart[0].quantity);
    } else {
      assert r[0] == cart[0];
      assert tail[k - 1] == cart[k];
      forall i | 0 <= i < |tail| && i != k - 1 ensures tail[i].product.id != id {
        assert tail[i] == cart[i + 1];
      }
      SubtotalBump(tail, k - 1);
    }
  }

  /** Adding a product raises the subtotal by one unit's price: the price
      of the copy already in the cart when there is one, else the price of
      `p`. */
  lemma AddLineSubtotal(cart: seq<CartLine>, p: Product)
    requires DistinctLines(cart)
    ensures HasLine(cart, p.id) ==> exists k ::
      && 0 <= k < |cart| && cart[k].product.id == p.id
      && CartSubtotal(AddLine(cart, p)) == CartSubtotal(cart) + cart[k].product.price
    ensures !HasLine(cart, p.id) ==> CartSubtotal(AddLine(cart, p)) == CartSubtotal(cart) + p.price
  {
    if HasLine(cart, p.id) {
      var k :| 0 <= k < |cart| && cart[k].product.id == p.id;
      SubtotalBump(cart, k);
    } else {
      SubtotalSnoc(cart, CartLine(p, 1));
    }
  }

  /** Adding a product raises the total by one unit's price, as for the
      subtotal: the delivery fee is charged once per cart. */
  lemma AddLineTotal(cart: seq<CartLine>, p: Product)
    requires DistinctLines(cart)
    ensures HasLine(cart, p.id) ==> exists k ::
      && 0 <= k < |cart| && cart[k].product.id == p.id
      && CartTotal(AddLine(cart, p)) == CartTotal(cart) + cart[k].product.price
    ensures !HasLine(cart, p.id) ==> CartTotal(AddLine(cart, p)) == CartTotal(cart) + p.price
  {
    AddLineSubtotal(cart, p);
  }

  /** The example of two loaves at 65 each: subtotal 130, total 230. */
  lemma TwoLoavesExample(bread: Product)
    requires bread.price == 65
    ensures CartSubtotal(AddLine(AddLine([], bread), bread)) == 130
    ensures CartTotal(AddLine(AddLine([], bread), bread)) == 230
  {
    AddTwiceIsOneLine(bread);
  }

  // ---------------------------------------------------------------------
  // Products

  /** JavaScript truthiness of `editingId`: null and "" are both false. */
  predicate IsEditing(editingId: Option<string>)
  {
    editingId.Some? && editingId.value != ""
  }

  /** `prev.map(p => p.id === id ? { ...p, ...fields } : p)`: every product
      with the id is replaced by `q`, every other one is kept, in place. */
  function ReplaceById(products: seq<Product>, id: string, q: Product): (r: seq<Product>)
    ensures |r| == |products|
    ensures forall i :: 0 <= i < |products| && products[i].id == id ==> r[i] == q
    ensures forall i :: 0 <= i < |products| && products[i].id != id ==> r[i] == products[i]
  {
    if products == [] then []
    else [if products[0].id == id then q else products[0]] + ReplaceById(products[1..], id, q)
  }

  /** saveProduct: with an editing id, every product with that id is
      replaced by the form's product (keeping the id); otherwise the form's
      product is appended under a fresh id. */
  function SaveProduct(products: seq<Product>, editingId: Option<string>, freshId: string,
                       name: string, category: string, price: int, stock: int): (r: seq<Product>)
    ensures IsEditing(editingId) ==> |r| == |products|
    ensures IsEditing(editingId) ==> forall i :: 0 <= i < |products| ==>
      r[i] == if products[i].id == editingId.value
              then Product(editingId.value, name, price, category, stock) else products[i]
    ensures !IsEditing(editingId) ==> r == products + [Product(freshId, name, price, category, stock)]
  {
    if IsEditing(editingId) then
      ReplaceById(products, editingId.value, Product(editingId.value, name, price, category, stock))
    else products + [Product(freshId, name, price, category, stock)]
  }

  /** Editing keeps the catalog's ids where they were. */
  lemma EditKeepsIds(products: seq<Product>, editingId: Option<string>, freshId: string,
                     name: string, category: string, price: int, stock: int)
    requires IsEditing(editingId)
    ensures forall i :: 0 <= i < |products| ==>
      SaveProduct(products, editingId, freshId, name, category, price, stock)[i].id == products[i].id
  {
  }

  // ---------------------------------------------------------------------
  // Orders

  /** What checkout fixes for every order: its total is its lines' subtotal
      plus the delivery fee. */
  ghost predicate WellFormedOrder(o: Order)
  {
    o.total == CartTotal(o.items)
  }

  /** `prev.map(o => o.id === id ? { ...o, status: newStatus } : o)`. */
  function WithStatus(orders: seq<Order>, id: string, status: string): (r: seq<Order>)
    ensures |r| == |orders|
    ensures forall i :: 0 <= i < |orders| ==> r[i] == orders[i].(status := r[i].status)
    ensures forall i :: 0 <= i < |orders| ==>
      r[i].status == if orders[i].id == id then status else orders[i].status
  {
    if orders == [] then []
    else
      var head := if orders[0].id == id then orders[0].(status := status) else orders[0];
      [head] + WithStatus(orders[1..], id, status)
  }

  lemma WithStatusKeepsWellFormed(orders: seq<Order>, id: string, status: string)
    requires forall o :: o in orders ==> WellFormedOrder(o)
    ensures forall o :: o in WithStatus(orders, id, status) ==> WellFormedOrder(o)
  {
    var r := WithStatus(orders, id, status);
    forall o | o in r ensures WellFormedOrder(o) {
      var i :| 0 <= i < |r| && r[i] == o;
      assert o == orders[i].(status := o.status);
      assert WellFormedOrder(orders[i]);
    }
  }

  /** getStatusColor. */
  function StatusColor(status: string): (c: Color)
    ensures c == Emerald <==> status == "Delivered"
    ensures c == Blue <==> status == "Dispatched"
    ensures c == Red <==> status == "Cancelled"
    ensures c == Orange <==> status != "Delivered" && status != "Dispatched" && status != "Cancelled"
  {
    if status == "Delivered" then Emerald
    else if status == "Dispatched" then Blue
    else if status == "Cancelled" then Red
    else Orange
  }

  /** displayOrders: every order for an admin; otherwise those whose
      `userEmail` is the signed-in user's address (none when signed out). */
  function DisplayOrders(orders: seq<Order>, viewer: Option<User>): (r: seq<Order>)
    ensures viewer.Some? && viewer.value.role == Admin ==> r == orders
    ensures !(viewer.Some? && viewer.value.role == Admin) ==>
      forall o :: o in r <==> o in orders && viewer.Some? && o.userEmail == viewer.value.email
    ensures !(viewer.Some? && viewer.value.role == Admin) ==>
      forall o :: multiset(r)[o] == if viewer.Some? && o.userEmail == viewer.value.email then multiset(orders)[o] else 0
  {
    if viewer.Some? && viewer.value.role == Admin then orders
    else Filter(orders, (o: Order) => viewer.Some? && o.userEmail == viewer.value.email)
  }

  /** A customer's new order heads their own order list. */
  lemma NewOrderHeadsOwnList(o: Order, orders: seq<Order>, u: User)
    requires u.role == Customer && o.userEmail == u.email
    ensures DisplayOrders([o] + orders, Some(u)) == [o] + DisplayOrders(orders, Some(u))
  {
    FilterCons(o, orders, (o: Order) => Some(u).Some? && o.userEmail == Some(u).value.email);
  }

  /** The admin page is rendered only for a signed-in admin on that page;
      it is the only gate in front of saveProduct and updateOrderStatus. */
  predicate ShowsAdminPanel(page: Page, viewer: Option<User>)
  {
    page == AdminPage && viewer.Some? && viewer.value.role == Admin
  }
}
