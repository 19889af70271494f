/** The state of the "Ruai Fresh" component (src/src/App.jsx) and its event
    handlers. Each React state hook is a field; each handler is a method
    that assigns the fields its setters assign. The notification a handler
    shows is returned as an outcome; timers and storage are not modelled. */
module RuaiFreshStore {
  import opened Js
  import opened RuaiFresh

  datatype AuthOutcome = AccountExists | AccountCreated(role: Role) | InvalidLogin | WelcomeBack

  class Store {
    var products: seq<Product>
    /** Newest first. */
    var orders: seq<Order>
    var users: seq<User>
    var user: Option<User>
    var cart: seq<CartLine>
    var page: Page
    var editingId: Option<string>

    /** What every handler keeps: accounts are keyed by distinct normalised
        addresses, the first account is an admin, the signed-in user is a
        registered one, the cart has one line of at least one unit per
        product, and every order's total is its lines' subtotal plus the
        delivery fee. */
    ghost predicate Valid()
      reads this
    {
      && UniqueEmails(users)
      && (forall i :: 0 <= i < |users| ==> IsNormalized(users[i].email))
      && (users == [] || users[0].role == Admin)
      && (user.Some? ==> user.value in users)
      && DistinctLines(cart)
      && PositiveQuantities(cart)
      && (forall o :: o in orders ==> WellFormedOrder(o))
    }

    /** A first visit: storage is empty, the cart (never stored) is empty,
        nobody is signed in and the home page shows. */
    constructor ()
      ensures Valid()
      ensures products == [] && orders == [] && users == [] && user == None && cart == []
      ensures page == HomePage && editingId == None
    {
      products := [];
      orders := [];
      users := [];
      user := None;
      cart := [];
      page := HomePage;
      editingId := None;
    }

    /** handleAuth: the address is trimmed and lower-cased first, then the
        register or the login branch runs on it. */
    method HandleAuth(isRegister: bool, emailInput: string, password: string, freshId: string)
      returns (outcome: AuthOutcome)
      requires Valid()
      modifies this`users, this`user, this`page
      ensures Valid()
      ensures isRegister ==> RegisterPost(old(users), old(user), old(page), Normalize(emailInput), password, freshId, outcome)
      ensures !isRegister ==> LoginPost(old(users), old(user), old(page), Normalize(emailInput), password, outcome)
      ensures !isRegister ==> users == old(users)
    {
      var email := Normalize(emailInput);
      if isRegister {
        outcome := Register(email, password, freshId);
      } else {
        outcome := Login(email, password);
      }
    }

    /** The register branch: rejects an address already in use; otherwise
        appends an account (an admin exactly when there is none yet), signs
        it in and shows the home page. */
    ghost predicate RegisterPost(users0: seq<User>, user0: Option<User>, page0: Page,
                                 email: string, password: string, freshId: string, outcome: AuthOutcome)
      reads this
    {
      && (EmailTaken(users0, email) ==>
            outcome == AccountExists && users == users0 && user == user0 && page == page0)
      && (!EmailTaken(users0, email) ==>
            var role := if users0 == [] then Admin else Customer;
            && outcome == AccountCreated(role)
            && users == users0 + [User(freshId, email, password, role)]
            && user == Some(User(freshId, email, password, role))
            && page == HomePage)
    }

    /** The login branch: signs in the account with that address and
        exactly that password and shows the home page; otherwise nothing
        changes. */
    ghost predicate LoginPost(users0: seq<User>, user0: Option<User>, page0: Page,
                              email: string, password: string, outcome: AuthOutcome)
      reads this
    {
      && (CredentialsMatch(users0, email, password) ==>
            && outcome == WelcomeBack
            && user.Some? && user.value in users0
            && user.value.email == email && user.value.password == password
            && page == HomePage)
      && (!CredentialsMatch(users0, email, password) ==>
            outcome == InvalidLogin && user == user0 && page == page0)
    }

    method Register(email: string, password: string, freshId: string) returns (outcome: AuthOutcome)
      requires Valid() && IsNormalized(email)
      modifies this`users, this`user, this`page
      ensures Valid()
      ensures RegisterPost(old(users), old(user), old(page), email, password, freshId, outcome)
    {
      if FindEmail(users, email).Some? {
        return AccountExists;
      }
      var role := if |users| == 0 then Admin else Customer;
      var newUser := User(freshId, email, password, role);
      AppendKeepsUnique(users, newUser);
      users := users + [newUser];
      user := Some(newUser);
      page := HomePage;
      outcome := AccountCreated(role);
    }

    method Login(email: string, password: string) returns (outcome: AuthOutcome)
      requires Valid()
      modifies this`user, this`page
      ensures Valid()
      ensures LoginPost(users, old(user), old(page), email, password, outcome)
    {
      var found := FindCredentials(users, email, password);
      if found.None? {
        return InvalidLogin;
      }
      user := Some(users[found.value]);
      page := HomePage;
      outcome := WelcomeBack;
    }

    /** logout: signs out and shows the login page; the cart is kept. */
    method Logout()
      requires Valid()
      modifies this`user, this`page
      ensures Valid()
      ensures user == None && page == LoginPage
      ensures !ShowsAdminPanel(page, user)
      ensures cart == old(cart)
    {
      user := None;
      page := LoginPage;
    }

    /** addToCart: one more unit of `p`, in its existing line or a new one. */
    method AddToCart(p: Product)
      requires Valid()
      modifies this`cart
      ensures Valid()
      ensures cart == AddLine(old(cart), p)
      ensures forall x :: Units(cart, x) == Units(old(cart), x) + (if x == p.id then 1 else 0)
    {
      AddLineKeepsShape(cart, p);
      forall x ensures Units(AddLine(cart, p), x) == Units(cart, x) + (if x == p.id then 1 else 0) {
        AddLineUnits(cart, p, x);
      }
      cart := AddLine(cart, p);
    }

    /** checkout: with a signed-in user, puts one order in front of the
        ledger (the cart's lines, the cart total, status Pending, the user's
        address, the form's details) even for an empty cart, empties the
        cart and shows the orders page. With nobody signed in the handler
        throws on `user.email` before any state is set. */
    method Checkout(orderId: string, details: CustomerDetails) returns (placed: bool)
      requires Valid()
      modifies this
      ensures Valid()
      ensures placed <==> old(user).Some?
      ensures !placed ==> unchanged(this)
      ensures placed ==>
        && orders == [Order(orderId, old(user).value.email, old(cart), CartTotal(old(cart)), Pending, details)]
                     + old(orders)
        && cart == [] && page == OrdersPage
      ensures placed && old(cart) == [] ==> orders[0].total == DeliveryFee
      ensures products == old(products) && users == old(users) && user == old(user)
      ensures editingId == old(editingId)
    {
      if user.None? {
        return false;
      }
      var order := Order(orderId, user.value.email, cart, CartTotal(cart), Pending, details);
      orders := [order] + orders;
      cart := [];
      page := OrdersPage;
      placed := true;
    }

    /** saveProduct: replaces the products with the editing id, or appends
        a new product under `freshId`; then clears the editing id. Orders
        are untouched, so their item copies keep the old prices. */
    method SaveProduct(freshId: string, name: string, category: string, price: int, stock: int)
      requires Valid()
      modifies this`products, this`editingId
      ensures Valid()
      ensures products == RuaiFresh.SaveProduct(old(products), old(editingId), freshId, name, category, price, stock)
      ensures editingId == None
    {
      products := RuaiFresh.SaveProduct(products, editingId, freshId, name, category, price, stock);
      editingId := None;
    }

    /** updateOrderStatus: sets the status of the orders with this id to any
        value at all; the ledger keeps its length and order. */
    method UpdateOrderStatus(id: string, status: string)
      requires Valid()
      modifies this`orders
      ensures Valid()
      ensures orders == WithStatus(old(orders), id, status)
    {
      WithStatusKeepsWellFormed(orders, id, status);
      orders := WithStatus(orders, id, status);
    }

    /** The "Seed Products" button: installs the fixed catalog. */
    method SeedStore()
      requires Valid()
      modifies this`products
      ensures Valid()
      ensures products == SeedProducts()
    {
      products := SeedProducts();
    }

    /** A navigation button: shows the page asked for; nothing redirects,
        the admin panel is simply not rendered for others. */
    method Navigate(target: Page)
      requires Valid()
      modifies this`page
      ensures Valid()
      ensures page == target
    {
      page := target;
    }
  }
}
