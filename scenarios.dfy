/** Walks through the storefront. The cart, sign-up/login and checkout-gate
    walkthroughs drive the state object through its handlers and reason from
    their contracts; the search examples are lemmas about `Filters.Filter`. */
module Scenarios {
  import opened Options
  import opened Catalog
  import opened Filters
  import opened Cart
  import opened Auth
  import opened Payment
  import opened Store
  import Text

  const Shirt: Product := Product(1, "Red Shirt", 20.0, "clothing", "shirt.png", Rating(4.5, 10))

  /** Two units of a 20.00 product: subtotal 40, tax 4, total 44; adding the same
      product again merges into its line; a large decrement removes the line. */
  method CartWalkthrough()
  {
    var s := new Store();
    var ok := s.LoadProducts(Some([Shirt]));
    s.UpdateProductQuantity(1, 1);
    s.AddToCart(1);
    assert s.cart == [CartLine(1, "Red Shirt", 20.0, "shirt.png", 2)];
    assert Summarize(s.cart) == Summary(40.0, 4.0, 44.0);
    s.AddToCart(1);
    assert |s.cart| == 1 && s.cart[0].quantity == 3;
    s.UpdateCartItemQuantity(1, -5);
    assert s.cart == [];
  }

  /** Signing up twice with one e-mail fails the second time; the seeded demo
      account logs in with its own credentials. */
  method AuthWalkthrough()
  {
    var s := new Store();
    var first := s.Signup("a", "dup@x.com", "pw");
    assert first;
    assert s.users[1].email == "dup@x.com";
    var second := s.Signup("b", "dup@x.com", "pw2");
    assert !second && |s.users| == 2;
    s.Logout();
    var ok := s.Login("user@example.com", "password123");
    assert DemoUser in s.users;
    assert ok && s.currentUser == Some(DemoUser);
  }

  /** Checkout needs a session and a non-empty cart; a short card number is
      refused before anything else. */
  method CheckoutWalkthrough()
  {
    var s := new Store();
    var gate := s.ProceedToCheckout();
    assert gate == SentToLogin && s.currentPage == AuthPage;
    var ok := s.Login("user@example.com", "password123");
    assert DemoUser in s.users;
    gate := s.ProceedToCheckout();
    assert gate == CartIsEmpty;
    var verdict := s.PlaceOrder("4111", "12/30", "123");
    assert verdict == Rejected(InvalidCardNumber);
  }

  /** The shirt's title, lower-cased. */
  lemma ShirtTitleLowered()
    ensures Text.Lower(Shirt.title) == "red shirt"
  {
  }

  /** Searching "red" keeps the red shirt. */
  lemma RedSearchKeepsShirt()
    ensures Filter([Shirt], MakeCriteria("red", AllCategories, 0.0, 100.0, 0.0)) == [Shirt]
  {
    ShirtTitleLowered();
    assert Text.Lower("red") == "red";
    assert "red shirt"[..3] == "red";
  }

  /** "blue" does not occur in "red shirt": the title holds no letter 'b'. */
  lemma BlueNotInTitle()
    ensures !Text.Includes("red shirt", "blue")
  {
    assert 'b' !in "red shirt" && 'b' in "blue";
    if Text.Includes("red shirt", "blue") {
      Text.IncludedCharsOccur("red shirt", "blue");
      assert false;
    }
  }

  /** Searching "blue" hides the red shirt. */
  lemma BlueSearchHidesShirt()
    ensures Filter([Shirt], MakeCriteria("blue", AllCategories, 0.0, 100.0, 0.0)) == []
  {
    var c := MakeCriteria("blue", AllCategories, 0.0, 100.0, 0.0);
    assert c.search == "blue" by {
      assert Text.Lower("blue") == "blue";
    }
    assert !Matches(Shirt, c) by {
      ShirtTitleLowered();
      BlueNotInTitle();
    }
    assert Filter([Shirt], c) == Filter([], c);
  }
}
