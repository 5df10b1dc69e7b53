/** The storefront's single mutable state object and the event handlers that
    change it: catalog loading, filtering, the cart, the session, page
    navigation and order placement. */
module Store {
  import opened Options
  import opened Lists
  import opened Catalog
  import opened Filters
  import opened Cart
  import opened Auth
  import opened Payment

  /** The pages of the single-page application; exactly one is active. */
  datatype Page = HomePage | CartPage | CheckoutPage | AuthPage | ProfilePage | ConfirmationPage

  /** What "proceed to checkout" did. */
  datatype CheckoutGate = SentToLogin | CartIsEmpty | Proceeded

  /** `Math.max(1, q)`: the quantity selector never goes below one unit. */
  function ClampQuantity(q: int): (r: int)
    ensures r >= 1
    ensures q >= 1 ==> r == q
    ensures q < 1 ==> r == 1
  {
    if q < 1 then 1 else q
  }

  /** The page actually shown after navigating to `page`: the profile page of an
      anonymous visitor redirects to the login page. */
  function Landing(page: Page, currentUser: Option<User>): (p: Page)
    ensures p == ProfilePage ==> currentUser.Some?
    ensures p != page <==> page == ProfilePage && currentUser.None?
    ensures p != page ==> p == AuthPage
  {
    if page == ProfilePage && currentUser.None? then AuthPage else page
  }

  class Store {
    var products: seq<Product>
    var filteredProducts: seq<Product>
    var filters: Criteria
    var cart: seq<CartLine>
    var users: seq<User>
    var currentUser: Option<User>
    var currentPage: Page
    /** The number shown by each product card's quantity selector; a product
        without an entry shows the freshly rendered value 1. */
    var pickQuantity: map<ProductId, int>

    /** The object invariant. */
    ghost predicate Valid()
      reads this
    {
      && Sublist(filteredProducts, products)
      && UniqueIds(cart)
      && PositiveQuantities(cart)
      && UniqueEmails(users)
      && (currentUser.Some? ==> currentUser.value in users)
      && forall id :: id in pickQuantity ==> pickQuantity[id] >= 1
    }

    /** The state when the page loads. */
    constructor ()
      ensures Valid()
      ensures products == [] && filteredProducts == [] && filters == Cleared
      ensures cart == [] && users == [DemoUser] && currentUser == None
      ensures currentPage == HomePage && pickQuantity == map[]
    {
      products, filteredProducts, filters := [], [], Cleared;
      cart, users, currentUser := [], [DemoUser], None;
      currentPage, pickQuantity := HomePage, map[];
    }

    /** The quantity the selector of product `id` shows. */
    function PickedQuantity(id: ProductId): int
      reads this
    {
      if id in pickQuantity then pickQuantity[id] else 1
    }

    /** `loadProducts`: `fetched` is the parsed response, or None when the request
        or the parse failed. The product grid is cleared either way. */
    method LoadProducts(fetched: Option<seq<Product>>) returns (ok: bool)
      requires Valid()
      modifies this`products, this`filteredProducts, this`pickQuantity
      ensures Valid()
      ensures ok <==> fetched.Some?
      ensures ok ==> products == fetched.value && filteredProducts == fetched.value
      ensures !ok ==> products == old(products) && filteredProducts == old(filteredProducts)
      ensures pickQuantity == map[]
    {
      pickQuantity := map[];
      match fetched {
        case None =>
          ok := false;
        case Some(ps) =>
          products := ps;
          filteredProducts := ps;
          SublistReflexive(ps);
          ok := true;
      }
    }

    /** `applyFilters`, with the parsed values of the filter inputs. The grid is
        re-rendered, so every quantity selector shows 1 again. */
    method ApplyFilters(search: string, category: string, minPrice: real, maxPrice: real, minRating: real)
      requires Valid()
      modifies this`filters, this`filteredProducts, this`pickQuantity
      ensures Valid()
      ensures filters == MakeCriteria(search, category, minPrice, maxPrice, minRating)
      ensures filteredProducts == Filter(products, filters)
      ensures forall p :: p in filteredProducts <==> p in products && Matches(p, filters)
      ensures pickQuantity == map[]
    {
      filters := MakeCriteria(search, category, minPrice, maxPrice, minRating);
      filteredProducts := Filter(products, filters);
      FilterIsSublist(products, filters);
      FilterMembers(products, filters);
      pickQuantity := map[];
    }

    /** `clearFilters`: reset the inputs to their defaults and apply them. */
    method ClearFilters()
      requires Valid()
      modifies this`filters, this`filteredProducts, this`pickQuantity
      ensures Valid()
      ensures filters == Cleared
      ensures filteredProducts == Filter(products, Cleared)
      ensures (forall p :: p in products ==> 0.0 <= p.price <= 1000.0 && p.rating.rate >= 0.0)
              ==> filteredProducts == products
      ensures pickQuantity == map[]
    {
      ApplyFilters("", AllCategories, 0.0, 1000.0, 0.0);
      if forall p :: p in products ==> 0.0 <= p.price <= 1000.0 && p.rating.rate >= 0.0 {
        ClearedShowsCatalog(products);
      }
    }

    /** `updateProductQuantity`: step a product card's selector, never below one. */
    method UpdateProductQuantity(id: ProductId, change: int)
      requires Valid()
      modifies this`pickQuantity
      ensures Valid()
      ensures pickQuantity == old(pickQuantity)[id := ClampQuantity(old(PickedQuantity(id)) + change)]
      ensures PickedQuantity(id) >= 1
    {
      pickQuantity := pickQuantity[id := ClampQuantity(PickedQuantity(id) + change)];
    }

    /** `addToCart`: add the selector's quantity of product `id`, merging into the
        product's existing line or appending a snapshot of the product; then the
        selector shows 1 again. The product record is only read when a new line is
        made, so the call needs the id to have a line already or to be in the catalog. */
    method AddToCart(id: ProductId)
      requires Valid()
      requires FindLine(cart, id).Some? || FindProduct(products, id).Some?
      modifies this`cart, this`pickQuantity
      ensures Valid()
      ensures pickQuantity == old(pickQuantity)[id := 1]
      ensures match FindLine(old(cart), id)
        case Some(i) =>
          cart == old(cart)[i := old(cart)[i].(quantity := old(cart)[i].quantity + old(PickedQuantity(id)))]
        case None =>
          cart == old(cart) + [Snapshot(FindProduct(products, id).value, old(PickedQuantity(id)))]
      ensures FindLine(cart, id).Some?
      ensures ItemCount(cart) == old(ItemCount(cart)) + old(PickedQuantity(id))
      ensures Subtotal(cart) == old(Subtotal(cart)) + Cost(cart[FindLine(cart, id).value].price, old(PickedQuantity(id)))
    {
      var quantity := PickedQuantity(id);
      match FindLine(cart, id) {
        case Some(i) =>
          var line := cart[i].(quantity := cart[i].quantity + quantity);
          SumsOfUpdate(cart, i, line);
          CostAdds(line.price, cart[i].quantity, quantity);
          MergeKeepsInvariant(cart, id, line.quantity);
          cart := cart[i := line];
        case None =>
          var line := Snapshot(FindProduct(products, id).value, quantity);
          SumsOfConcat(cart, [line]);
          SumsOfSingle(line);
          AppendKeepsInvariant(cart, line);
          cart := cart + [line];
      }
      pickQuantity := pickQuantity[id := 1];
    }

    /** `removeFromCart`: drop the product's line, if any. */
    method RemoveFromCart(id: ProductId)
      requires Valid()
      modifies this`cart
      ensures Valid()
      ensures cart == RemoveLine(old(cart), id)
      ensures FindLine(cart, id).None?
      ensures match FindLine(old(cart), id)
        case None => cart == old(cart)
        case Some(i) =>
          && cart == old(cart)[..i] + old(cart)[i + 1..]
          && ItemCount(cart) == old(ItemCount(cart)) - old(cart)[i].quantity
          && Subtotal(cart) == old(Subtotal(cart)) - LineTotal(old(cart)[i])
    {
      RemoveLineSpec(cart, id);
      RemoveKeepsInvariant(cart, id);
      match FindLine(cart, id) {
        case None =>
          RemoveAbsentIsNoop(cart, id);
        case Some(i) =>
          RemoveUniqueLine(cart, id);
          SumsOfDelete(cart, i);
      }
      cart := RemoveLine(cart, id);
    }

    /** `updateCartItemQuantity`: add `change` to the product's line and drop the
        line once its quantity is no longer positive; no line, no change. */
    method UpdateCartItemQuantity(id: ProductId, change: int)
      requires Valid()
      modifies this`cart
      ensures Valid()
      ensures match FindLine(old(cart), id)
        case None => cart == old(cart)
        case Some(i) =>
          if old(cart)[i].quantity + change <= 0 then
            && cart == RemoveLine(old(cart), id)
            && cart == old(cart)[..i] + old(cart)[i + 1..]
          else
            && cart == old(cart)[i := old(cart)[i].(quantity := old(cart)[i].quantity + change)]
            && ItemCount(cart) == old(ItemCount(cart)) + change
    {
      match FindLine(cart, id) {
        case None =>
        case Some(i) =>
          var quantity := cart[i].quantity + change;
          if quantity <= 0 {
            RemoveFromCart(id);
          } else {
            var line := cart[i].(quantity := quantity);
            SumsOfUpdate(cart, i, line);
            cart := cart[i := line];
          }
      }
    }

    /** `handleLogin`: log in as the account with exactly these credentials and
        go home; with no such account nothing changes. */
    method Login(email: string, password: string) returns (ok: bool)
      requires Valid()
      modifies this`currentUser, this`currentPage
      ensures Valid()
      ensures ok <==> exists u :: u in users && u.email == email && u.password == password
      ensures ok ==> currentUser == FindUser(users, email, password) && currentPage == HomePage
      ensures !ok ==> currentUser == old(currentUser) && currentPage == old(currentPage)
    {
      var found := FindUser(users, email, password);
      match found {
        case None =>
          ok := false;
        case Some(u) =>
          currentUser := found;
          currentPage := HomePage;
          ok := true;
      }
    }

    /** `handleSignup`: refuse an e-mail that is already registered; otherwise
        register the account, log in as it and go home. */
    method Signup(username: string, email: string, password: string) returns (ok: bool)
      requires Valid()
      modifies this`users, this`currentUser, this`currentPage
      ensures Valid()
      ensures ok <==> !EmailTaken(old(users), email)
      ensures ok ==> && users == old(users) + [User(username, email, password)]
                     && currentUser == Some(User(username, email, password))
                     && currentPage == HomePage
      ensures !ok ==> users == old(users) && currentUser == old(currentUser) && currentPage == old(currentPage)
    {
      if EmailTaken(users, email) {
        ok := false;
      } else {
        var user := User(username, email, password);
        SignupKeepsEmailsUnique(users, user);
        users := users + [user];
        currentUser := Some(user);
        currentPage := HomePage;
        ok := true;
      }
    }

    /** `handleLogout`: end the session and go home. */
    method Logout()
      requires Valid()
      modifies this`currentUser, this`currentPage
      ensures Valid()
      ensures currentUser == None && currentPage == HomePage
    {
      currentUser := None;
      currentPage := HomePage;
    }

    /** `navigateTo`, including the redirect `renderProfile` makes for an
        anonymous visitor. */
    method NavigateTo(page: Page)
      requires Valid()
      modifies this`currentPage
      ensures Valid()
      ensures currentPage == Landing(page, currentUser)
    {
      currentPage := page;
      if page == ProfilePage && currentUser.None? {
        currentPage := AuthPage;
      }
    }

    /** `handleAuthButton`: the profile for a logged-in user, the login page otherwise. */
    method HandleAuthButton()
      requires Valid()
      modifies this`currentPage
      ensures Valid()
      ensures currentPage == if currentUser.Some? then ProfilePage else AuthPage
    {
      NavigateTo(if currentUser.Some? then ProfilePage else AuthPage);
    }

    /** `proceedToCheckout`: an anonymous visitor is sent to log in, an empty cart
        stays where it is, otherwise the checkout page opens. */
    method ProceedToCheckout() returns (gate: CheckoutGate)
      requires Valid()
      modifies this`currentPage
      ensures Valid()
      ensures currentUser.None? ==> gate == SentToLogin && currentPage == AuthPage
      ensures currentUser.Some? && cart == [] ==> gate == CartIsEmpty && currentPage == old(currentPage)
      ensures currentUser.Some? && cart != [] ==> gate == Proceeded && currentPage == CheckoutPage
    {
      if currentUser.None? {
        NavigateTo(AuthPage);
        gate := SentToLogin;
      } else if cart == [] {
        gate := CartIsEmpty;
      } else {
        NavigateTo(CheckoutPage);
        gate := Proceeded;
      }
    }

    /** `placeOrder`: check the payment fields in order; only when all pass is
        the cart emptied and the confirmation page shown. */
    method PlaceOrder(cardNumber: string, expiry: string, cvv: string) returns (verdict: Verdict)
      requires Valid()
      modifies this`cart, this`currentPage
      ensures Valid()
      ensures verdict == ValidatePayment(cardNumber, expiry, cvv)
      ensures verdict == Accepted ==> cart == [] && currentPage == ConfirmationPage
      ensures verdict != Accepted ==> cart == old(cart) && currentPage == old(currentPage)
    {
      verdict := ValidatePayment(cardNumber, expiry, cvv);
      if verdict == Accepted {
        cart := [];
        NavigateTo(ConfirmationPage);
      }
    }
  }
}
