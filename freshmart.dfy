/** The values of the "FreshMart" storefront (src/App.jsx) and the pure
    computations its component derives from them: the cart subtotal, the
    delivered revenue, the per-viewer order list, the admin-view guard and
    the map-by-id status update. */
module FreshMart {
  import opened Js

  /** The fixed surcharge added to every order's subtotal. */
  const DeliveryFee: int := 100

  /** The status every order starts with, and the one revenue counts. */
  const Pending: string := "Pending"
  const Delivered: string := "Delivered"

  datatype Role = Admin | Customer

  datatype User = User(id: int, username: string, password: string, role: Role)

  datatype Product = Product(id: int, name: string, price: int, category: string, stock: int, emoji: string)

  /** The delivery form's fields. */
  datatype Delivery = Delivery(location: string, apartment: string, door: string)

  const EmptyDelivery: Delivery := Delivery("", "", "")

  /** An order; its `items` are copies of the products taken from the cart,
      one entry per unit. The creation date string is not modelled. */
  datatype Order = Order(
    id: int,
    userId: int,
    customerName: string,
    items: seq<Product>,
    subtotal: int,
    total: int,
    status: string,
    delivery: Delivery)

  /** The screens of the component. */
  datatype View = LoginView | RegisterView | ShopView | CartView | HistoryView | AdminView

  /** The fixed catalog the admin's "seed" action installs. */
  function SeedData(): (r: seq<Product>)
    ensures |r| == 4
    ensures forall i, j :: 0 <= i < j < |r| ==> r[i].id != r[j].id
  {
    [ Product(1, "Premium Coffee Beans", 1200, "Beverages", 50, "\U{2615}"),
      Product(2, "Organic Honey", 800, "Pantry", 30, "\U{1F36F}"),
      Product(3, "Whole Wheat Bread", 150, "Bakery", 20, "\U{1F35E}"),
      Product(4, "Fresh Avocados", 200, "Produce", 100, "\U{1F951}") ]
  }

  // ---------------------------------------------------------------------
  // Users

  /** Some registered user already has this username. */
  predicate UsernameTaken(users: seq<User>, username: string)
  {
    exists i :: 0 <= i < |users| && users[i].username == username
  }

  /** Some registered user has exactly these credentials. */
  predicate CredentialsMatch(users: seq<User>, username: string, password: string)
  {
    exists i :: 0 <= i < |users| && users[i].username == username && users[i].password == password
  }

  /** The index of the user `users.find` returns for a username. */
  function FindUsername(users: seq<User>, username: string): (r: Option<nat>)
    ensures r.None? <==> !UsernameTaken(users, username)
    ensures r.Some? ==> r.value < |users| && users[r.value].username == username
  {
    Find(users, (u: User) => u.username == username)
  }

  /** The index of the user `users.find` returns for a login attempt. */
  function FindCredentials(users: seq<User>, username: string, password: string): (r: Option<nat>)
    ensures r.None? <==> !CredentialsMatch(users, username, password)
    ensures r.Some? ==> r.value < |users|
    ensures r.Some? ==> users[r.value].username == username && users[r.value].password == password
  {
    Find(users, (u: User) => u.username == username && u.password == password)
  }

  ghost predicate UniqueUsernames(users: seq<User>)
  {
    forall i, j :: 0 <= i < j < |users| ==> users[i].username != users[j].username
  }

  /** The account created first is an admin (the first registrant is made
      one, and co-admins are appended after it). */
  ghost predicate FirstUserIsAdmin(users: seq<User>)
  {
    users == [] || users[0].role == Admin
  }

  /** Appending a user under a fresh username keeps usernames unique. */
  lemma AppendKeepsUnique(users: seq<User>, u: User)
    requires UniqueUsernames(users)
    requires !UsernameTaken(users, u.username)
    ensures UniqueUsernames(users + [u])
  {
    forall i, j | 0 <= i < j < |users| + 1
      ensures (users + [u])[i].username != (users + [u])[j].username
    {
      if j == |users| {
        assert users[i].username != u.username;
      }
    }
  }

  // ---------------------------------------------------------------------
  // Cart and orders

  /** The sum of the prices of `items`, as `cart.reduce((sum, item) => sum + item.price, 0)`. */
  function Subtotal(items: seq<Product>): (r: int)
    ensures items == [] ==> r == 0
    ensures (forall i :: 0 <= i < |items| ==> items[i].price >= 0) ==> r >= 0
  {
    if items == [] then 0 else items[0].price + Subtotal(items[1..])
  }

  /** Adding one more unit to the cart raises its subtotal by that unit's price. */
  lemma {:induction false} SubtotalSnoc(items: seq<Product>, p: Product)
    ensures Subtotal(items + [p]) == Subtotal(items) + p.price
  {
    if items == [] {
      assert items + [p] == [p];
    } else {
      assert (items + [p])[1..] == items[1..] + [p];
      SubtotalSnoc(items[1..], p);
    }
  }

  /** What checkout fixes about an order once and for all: it holds at
      least one unit, its subtotal is the sum of its items' prices (the
      copies taken at checkout) and its total adds the delivery fee. */
  ghost predicate WellFormedOrder(o: Order)
  {
    |o.items| > 0 && o.subtotal == Subtotal(o.items) && o.total == o.subtotal + DeliveryFee
  }

  /** `orders.map(o => o.id === orderId ? { ...o, status: newStatus } : o)`. */
  function WithStatus(orders: seq<Order>, orderId: int, status: string): (r: seq<Order>)
    ensures |r| == |orders|
    ensures forall i :: 0 <= i < |orders| ==> r[i] == orders[i].(status := r[i].status)
    ensures forall i :: 0 <= i < |orders| ==>
      r[i].status == if orders[i].id == orderId then status else orders[i].status
  {
    if orders == [] then []
    else
      var head := if orders[0].id == orderId then orders[0].(status := status) else orders[0];
      [head] + WithStatus(orders[1..], orderId, status)
  }

  /** A status update keeps every order well formed: it cannot alter the
      items or amounts fixed at checkout. */
  lemma WithStatusKeepsWellFormed(orders: seq<Order>, orderId: int, status: string)
    requires forall o :: o in orders ==> WellFormedOrder(o)
    ensures forall o :: o in WithStatus(orders, orderId, status) ==> WellFormedOrder(o)
  {
    var r := WithStatus(orders, orderId, status);
    forall o | o in r ensures WellFormedOrder(o) {
      var i :| 0 <= i < |r| && r[i] == o;
      assert o == orders[i].(status := o.status);
      assert WellFormedOrder(orders[i]);
    }
  }

  /** Nothing guards the lifecycle: a delivered order anywhere in the
      ledger is set back to pending like any other change, and nothing
      else about it changes. */
  lemma StatusMayMoveBackward(orders: seq<Order>, k: nat)
    requires k < |orders| && orders[k].status == Delivered
    ensures WithStatus(orders, orders[k].id, Pending)[k] == orders[k].(status := Pending)
  {
  }

  // ---------------------------------------------------------------------
  // Derived values

  predicate IsDelivered(o: Order) { o.status == Delivered }

  /** What an order adds to the revenue. */
  function Contribution(o: Order): int
  {
    if IsDelivered(o) then o.total else 0
  }

  /** The sum of the totals of `orders`. */
  function SumTotals(orders: seq<Order>): (r: int)
    ensures orders == [] ==> r == 0
    ensures (forall i :: 0 <= i < |orders| ==> orders[i].total >= 0) ==> r >= 0
  {
    if orders == [] then 0 else orders[0].total + SumTotals(orders[1..])
  }

  lemma {:induction false} SumTotalsAppend(a: seq<Order>, b: seq<Order>)
    ensures SumTotals(a + b) == SumTotals(a) + SumTotals(b)
  {
    if a == [] {
      assert a + b == b;
    } else {
      assert (a + b)[1..] == a[1..] + b;
      SumTotalsAppend(a[1..], b);
    }
  }

  /** The admin dashboard's revenue: the totals of the delivered orders. */
  function Revenue(orders: seq<Order>): (r: int)
    ensures (forall i :: 0 <= i < |orders| ==> !IsDelivered(orders[i])) ==> r == 0
    ensures (forall i :: 0 <= i < |orders| ==> orders[i].total >= 0) ==> r >= 0
  {
    var delivered := Filter(orders, IsDelivered);
    assert forall j :: 0 <= j < |delivered| ==> delivered[j] in orders && IsDelivered(delivered[j]);
    SumTotals(delivered)
  }

  /** Revenue is additive over the ledger. */
  lemma RevenueAppend(a: seq<Order>, b: seq<Order>)
    ensures Revenue(a + b) == Revenue(a) + Revenue(b)
  {
    FilterAppend(a, b, IsDelivered);
    SumTotalsAppend(Filter(a, IsDelivered), Filter(b, IsDelivered));
  }

  /** Revenue of a ledger with one more order in front. */
  lemma RevenueCons(o: Order, orders: seq<Order>)
    ensures Revenue([o] + orders) == Contribution(o) + Revenue(orders)
  {
    RevenueAppend([o], orders);
    assert Filter([o], IsDelivered) == (if IsDelivered(o) then [o] else []);
  }

  /** Placing an order (status Pending) leaves the revenue as it was. */
  lemma CheckoutKeepsRevenue(o: Order, orders: seq<Order>)
    requires o.status == Pending
    ensures Revenue([o] + orders) == Revenue(orders)
  {
    RevenueCons(o, orders);
  }

  /** The status update of a non-empty ledger, one order at a time. */
  lemma WithStatusCons(orders: seq<Order>, orderId: int, status: string)
    requires orders != []
    ensures WithStatus(orders, orderId, status)
         == [if orders[0].id == orderId then orders[0].(status := status) else orders[0]]
            + WithStatus(orders[1..], orderId, status)
  {
  }

  /** The ids of a ledger's tail, read off the ledger itself. */
  lemma TailIds(orders: seq<Order>, orderId: int, k: nat)
    requires 0 < |orders| && k < |orders|
    requires forall i :: 0 <= i < |orders| && i != k ==> orders[i].id != orderId
    ensures forall i :: 0 <= i < |orders| - 1 && i + 1 != k ==> orders[1..][i].id != orderId
  {
    forall i | 0 <= i < |orders| - 1 && i + 1 != k ensures orders[1..][i].id != orderId {
      assert orders[1..][i] == orders[i + 1];
    }
  }

  /** Revenue of a ledger, split into its first order and the rest. */
  lemma RevenueSplit(orders: seq<Order>)
    requires orders != []
    ensures Revenue(orders) == Contribution(orders[0]) + Revenue(orders[1..])
  {
    assert orders == [orders[0]] + orders[1..];
    RevenueCons(orders[0], orders[1..]);
  }

  /** The case where the updated order is the first one. */
  lemma RevenueAfterStatusHead(orders: seq<Order>, orderId: int, status: string)
    requires orders != [] && orders[0].id == orderId
    requires forall i :: 0 < i < |orders| ==> orders[i].id != orderId
    ensures Revenue(WithStatus(orders, orderId, status))
         == Revenue(orders) - Contribution(orders[0]) + Contribution(orders[0].(status := status))
  {
    var r := WithStatus(orders, orderId, status);
    TailIds(orders, orderId, 0);
    WithStatusMissing(orders[1..], orderId, status);
    WithStatusCons(orders, orderId, status);
    assert r[1..] == orders[1..];
    RevenueSplit(orders);
    RevenueSplit(r);
  }

  /** Changing the status of the one order with a given id moves exactly
      that order's total into or out of the revenue. */
  lemma {:induction false} RevenueAfterStatus(orders: seq<Order>, orderId: int, k: nat, status: string)
    requires k < |orders| && orders[k].id == orderId
    requires forall i :: 0 <= i < |orders| && i != k ==> orders[i].id != orderId
    ensures Revenue(WithStatus(orders, orderId, status))
         == Revenue(orders)
            - Contribution(orders[k])
            + Contribution(orders[k].(status := status))
  {
    if k == 0 {
      RevenueAfterStatusHead(orders, orderId, status);
    } else {
      var r := WithStatus(orders, orderId, status);
      TailIds(orders, orderId, k);
      assert orders[1..][k - 1] == orders[k];
      RevenueAfterStatus(orders[1..], orderId, k - 1, status);
      WithStatusCons(orders, orderId, status);
      assert r[0] == orders[0] && r[1..] == WithStatus(orders[1..], orderId, status);
      RevenueSplit(orders);
      RevenueSplit(r);
    }
  }

  /** A status update for an id no order has changes nothing. */
  lemma WithStatusMissing(orders: seq<Order>, orderId: int, status: string)
    requires forall i :: 0 <= i < |orders| ==> orders[i].id != orderId
    ensures WithStatus(orders, orderId, status) == orders
  {
  }

  /** The orders a viewer may see: every order for an admin, otherwise
      those whose `userId` is the viewer's id (none when signed out). */
  function VisibleOrders(orders: seq<Order>, viewer: Option<User>): (r: seq<Order>)
    ensures viewer.Some? && viewer.value.role == Admin ==> r == orders
    ensures !(viewer.Some? && viewer.value.role == Admin) ==>
      forall o :: o in r <==> o in orders && viewer.Some? && o.userId == viewer.value.id
    ensures !(viewer.Some? && viewer.value.role == Admin) ==>
      forall o :: multiset(r)[o] == if viewer.Some? && o.userId == viewer.value.id then multiset(orders)[o] else 0
  {
    if viewer.Some? && viewer.value.role == Admin then orders
    else Filter(orders, (o: Order) => viewer.Some? && o.userId == viewer.value.id)
  }

  /** A customer's new order heads their own order list. */
  lemma NewOrderHeadsOwnList(o: Order, orders: seq<Order>, u: User)
    requires u.role == Customer && o.userId == u.id
    ensures VisibleOrders([o] + orders, Some(u)) == [o] + VisibleOrders(orders, Some(u))
  {
    FilterCons(o, orders, (o: Order) => Some(u).Some? && o.userId == Some(u).value.id);
  }

  /** The admin-route effect: the admin view is replaced by the shop for
      anyone who is not a signed-in admin; every other view is kept. */
  function GuardView(view: View, viewer: Option<User>): (r: View)
    ensures r == AdminView ==> viewer.Some? && viewer.value.role == Admin
    ensures viewer.Some? && viewer.value.role == Admin ==> r == view
    ensures view != AdminView ==> r == view
    ensures r != view ==> r == ShopView
  {
    if view == AdminView && !(viewer.Some? && viewer.value.role == Admin) then ShopView else view
  }

  /** The guard is a normalising step: applying it again changes nothing. */
  lemma GuardViewIdempotent(view: View, viewer: Option<User>)
    ensures GuardView(GuardView(view, viewer), viewer) == GuardView(view, viewer)
  {
  }
}
