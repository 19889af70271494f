/** The state of the "FreshMart" component (src/App.jsx) and its event
    handlers. Each React state hook is a field; each handler is a method
    that assigns the fields its setters assign. The notification a handler
    shows is returned as an outcome; timers and storage are not modelled. */
module FreshMartStore {
  import opened Js
  import opened FreshMart

  datatype RegisterOutcome = UsernameExists | Registered(role: Role)

  /** What submitting the checkout form does: nothing on an empty cart; with
      no signed-in user the handler throws on `currentUser.id` before any
      state is set; otherwise the order is placed. */
  datatype CheckoutOutcome = EmptyCart | NoCurrentUser | Placed

  class Store {
    var users: seq<User>
    var currentUser: Option<User>
    var products: seq<Product>
    /** One entry per unit added. */
    var cart: seq<Product>
    /** Newest first. */
    var orders: seq<Order>
    var view: View
    var delivery: Delivery

    /** What every handler keeps: usernames identify users, the first account
        is an admin, the signed-in user is a registered one, only a signed-in
        admin is on the admin view, and every order carries the amounts
        checkout fixed for it. */
    ghost predicate Valid()
      reads this
    {
      && UniqueUsernames(users)
      && FirstUserIsAdmin(users)
      && (currentUser.Some? ==> currentUser.value in users)
      && (view == AdminView ==> currentUser.Some? && currentUser.value.role == Admin)
      && (forall o :: o in orders ==> WellFormedOrder(o))
    }

    /** A first visit: storage is empty, so every collection is empty,
        nobody is signed in and the login screen shows. */
    constructor ()
      ensures Valid()
      ensures users == [] && currentUser == None && products == [] && cart == [] && orders == []
      ensures view == LoginView && delivery == EmptyDelivery
    {
      users := [];
      currentUser := None;
      products := [];
      cart := [];
      orders := [];
      view := LoginView;
      delivery := EmptyDelivery;
    }

    /** handleRegister: rejects a taken username; otherwise appends the new
        user (an admin exactly when no user exists yet), signs them in and
        shows the shop. */
    method Register(id: int, username: string, password: string) returns (outcome: RegisterOutcome)
      requires Valid()
      modifies this
      ensures Valid()
      ensures UsernameTaken(old(users), username) ==> outcome == UsernameExists && unchanged(this)
      ensures !UsernameTaken(old(users), username) ==>
        var role := if old(users) == [] then Admin else Customer;
        && outcome == Registered(role)
        && users == old(users) + [User(id, username, password, role)]
        && currentUser == Some(User(id, username, password, role))
        && view == ShopView
      ensures products == old(products) && cart == old(cart) && orders == old(orders)
      ensures delivery == old(delivery)
    {
      if FindUsername(users, username).Some? {
        return UsernameExists;
      }
      var isFirstUser := |users| == 0;
      var newUser := User(id, username, password, if isFirstUser then Admin else Customer);
      AppendKeepsUnique(users, newUser);
      users := users + [newUser];
      currentUser := Some(newUser);
      view := ShopView;
      outcome := Registered(newUser.role);
    }

    /** handleLogin: signs in the user whose username and password both
        match exactly; otherwise nothing changes. */
    method Login(username: string, password: string) returns (ok: bool)
      requires Valid()
      modifies this
      ensures Valid()
      ensures ok <==> CredentialsMatch(old(users), username, password)
      ensures ok ==> && currentUser.Some? && currentUser.value in users
                     && currentUser.value.username == username
                     && currentUser.value.password == password
                     && view == ShopView
      ensures !ok ==> unchanged(this)
      ensures users == old(users) && products == old(products) && cart == old(cart)
      ensures orders == old(orders) && delivery == old(delivery)
    {
      var found := FindCredentials(users, username, password);
      if found.Some? {
        currentUser := Some(users[found.value]);
        view := ShopView;
        ok := true;
      } else {
        ok := false;
      }
    }

    /** handleLogout: signs out, empties the cart and shows the login screen. */
    method Logout()
      requires Valid()
      modifies this
      ensures Valid()
      ensures currentUser == None && cart == [] && view == LoginView
      ensures users == old(users) && products == old(products) && orders == old(orders)
      ensures delivery == old(delivery)
    {
      currentUser := None;
      cart := [];
      view := LoginView;
    }

    /** addToCart: appends the product as one more entry, even when the
        cart already holds it. */
    method AddToCart(p: Product)
      requires Valid()
      modifies this`cart
      ensures Valid()
      ensures cart == old(cart) + [p]
      ensures |cart| == |old(cart)| + 1
      ensures Subtotal(cart) == Subtotal(old(cart)) + p.price
    {
      SubtotalSnoc(cart, p);
      cart := cart + [p];
    }

    /** The delivery form's `onChange` handlers. */
    method EditDelivery(d: Delivery)
      requires Valid()
      modifies this`delivery
      ensures Valid()
      ensures delivery == d
    {
      delivery := d;
    }

    /** handleCheckout: on a non-empty cart with a signed-in user, puts one
        order in front of the ledger (the cart's units, their subtotal, that
        subtotal plus the delivery fee, status Pending, the user's id and
        name, the delivery details), empties the cart, resets the form and
        shows the history. */
    method Checkout(orderId: int) returns (outcome: CheckoutOutcome)
      requires Valid()
      modifies this
      ensures Valid()
      ensures old(cart) == [] ==> outcome == EmptyCart && unchanged(this)
      ensures old(cart) != [] && old(currentUser) == None ==> outcome == NoCurrentUser && unchanged(this)
      ensures old(cart) != [] && old(currentUser).Some? ==>
        && outcome == Placed
        && |orders| == |old(orders)| + 1
        && orders[1..] == old(orders)
        && orders[0].id == orderId
        && orders[0].userId == old(currentUser).value.id
        && orders[0].customerName == old(currentUser).value.username
        && orders[0].items == old(cart)
        && orders[0].subtotal == Subtotal(old(cart))
        && orders[0].total == Subtotal(old(cart)) + DeliveryFee
        && orders[0].status == Pending
        && orders[0].delivery == old(delivery)
        && cart == [] && delivery == EmptyDelivery && view == HistoryView
      ensures users == old(users) && currentUser == old(currentUser) && products == old(products)
    {
      if |cart| == 0 {
        return EmptyCart;
      }
      if currentUser.None? {
        return NoCurrentUser;
      }
      var subtotal := Subtotal(cart);
      var newOrder := Order(orderId, currentUser.value.id, currentUser.value.username,
                            cart, subtotal, subtotal + DeliveryFee, Pending, delivery);
      orders := [newOrder] + orders;
      cart := [];
      delivery := EmptyDelivery;
      view := HistoryView;
      outcome := Placed;
    }

    /** updateOrderStatus: sets the status of the orders with this id to any
        value at all; the ledger keeps its length and order. */
    method UpdateOrderStatus(orderId: int, status: string)
      requires Valid()
      modifies this`orders
      ensures Valid()
      ensures orders == WithStatus(old(orders), orderId, status)
    {
      WithStatusKeepsWellFormed(orders, orderId, status);
      orders := WithStatus(orders, orderId, status);
    }

    /** handleAddProduct: appends a product built from the form's fields. */
    method AddProduct(id: int, name: string, price: int, category: string, stock: int, emoji: string)
      requires Valid()
      modifies this`products
      ensures Valid()
      ensures products == old(products) + [Product(id, name, price, category, stock, emoji)]
    {
      products := products + [Product(id, name, price, category, stock, emoji)];
    }

    /** handleAddAdmin: rejects a taken username; otherwise appends an admin
        account without signing anybody in or out. */
    method AddAdmin(id: int, username: string, password: string) returns (created: bool)
      requires Valid()
      modifies this`users
      ensures Valid()
      ensures created <==> !UsernameTaken(old(users), username)
      ensures created ==> users == old(users) + [User(id, username, password, Admin)]
      ensures !created ==> users == old(users)
    {
      if FindUsername(users, username).Some? {
        return false;
      }
      var newAdmin := User(id, username, password, Admin);
      AppendKeepsUnique(users, newAdmin);
      users := users + [newAdmin];
      created := true;
    }

    /** seedStore: replaces the catalog with the fixed seed products. */
    method SeedStore()
      requires Valid()
      modifies this`products
      ensures Valid()
      ensures products == SeedData()
    {
      products := SeedData();
    }

    /** A navigation button followed by the admin-route effect: asking for
        the admin view without being a signed-in admin lands on the shop. */
    method Navigate(target: View) returns (denied: bool)
      requires Valid()
      modifies this`view
      ensures Valid()
      ensures view == GuardView(target, currentUser)
      ensures denied <==> (target == AdminView && !(currentUser.Some? && currentUser.value.role == Admin))
      ensures view == AdminView ==> currentUser.Some? && currentUser.value.role == Admin
    {
      view := target;
      denied := view == AdminView && !(currentUser.Some? && currentUser.value.role == Admin);
      view := GuardView(view, currentUser);
    }
  }
}
