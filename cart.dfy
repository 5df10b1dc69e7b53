/** The cart ledger: one line per product, its lookup and removal, and the
    derived badge count, subtotal, tax and total. */
module Cart {
  import opened Options
  import opened Lists
  import opened Catalog

  /** A cart line holds copies of the product's id, title, price and image taken
      when it was first added, and the quantity ordered. */
  datatype CartLine = CartLine(id: ProductId, title: string, price: real, image: string, quantity: int)

  /** The line `addToCart` appends for a product not yet in the cart. */
  function Snapshot(p: Product, quantity: int): CartLine
  {
    CartLine(p.id, p.title, p.price, p.image, quantity)
  }

  /** `cart.find(item => item.id === id)`, as the index of the first match. */
  function FindLine(cart: seq<CartLine>, id: ProductId): (r: Option<nat>)
    ensures r.Some? ==> r.value < |cart| && cart[r.value].id == id
    ensures r.Some? ==> forall j :: 0 <= j < r.value ==> cart[j].id != id
    ensures r.None? <==> forall j :: 0 <= j < |cart| ==> cart[j].id != id
  {
    if cart == [] then None
    else if cart[0].id == id then Some(0)
    else match FindLine(cart[1..], id)
      case None => None
      case Some(k) => Some(k + 1)
  }

  /** No two lines are for the same product. */
  predicate UniqueIds(cart: seq<CartLine>)
  {
    forall i, j :: 0 <= i < j < |cart| ==> cart[i].id != cart[j].id
  }

  /** Every line orders at least one unit. */
  predicate PositiveQuantities(cart: seq<CartLine>)
  {
    forall i :: 0 <= i < |cart| ==> cart[i].quantity >= 1
  }

  /** In a cart without duplicate ids, the line found for a product is the only one for it. */
  lemma FoundLineIsOnly(cart: seq<CartLine>, id: ProductId)
    requires UniqueIds(cart) && FindLine(cart, id).Some?
    ensures forall j :: 0 <= j < |cart| && cart[j].id == id ==> j == FindLine(cart, id).value
  {
  }

  /** The first line for a product is the one the lookup finds. */
  lemma FindLineIs(cart: seq<CartLine>, id: ProductId, k: nat)
    requires k < |cart| && cart[k].id == id
    requires forall j :: 0 <= j < k ==> cart[j].id != id
    ensures FindLine(cart, id) == Some(k)
  {
    var r := FindLine(cart, id);
    assert r.Some?;
    assert !(r.value < k);
  }

  /** Changing the quantity of the line found for a product keeps it the line found,
      keeps ids unique, and keeps quantities positive when the new one is. */
  lemma MergeKeepsInvariant(cart: seq<CartLine>, id: ProductId, quantity: int)
    requires UniqueIds(cart) && PositiveQuantities(cart) && FindLine(cart, id).Some?
    requires quantity >= 1
    ensures var i := FindLine(cart, id).value;
            var merged := cart[i := cart[i].(quantity := quantity)];
            && FindLine(merged, id) == Some(i)
            && UniqueIds(merged) && PositiveQuantities(merged)
  {
    var i := FindLine(cart, id).value;
    var merged := cart[i := cart[i].(quantity := quantity)];
    assert forall j :: 0 <= j < |cart| ==> merged[j].id == cart[j].id;
    FindLineIs(merged, id, i);
  }

  /** Appending a line for a product that has none makes it the line found, and
      keeps ids unique and quantities positive when its quantity is. */
  lemma AppendKeepsInvariant(cart: seq<CartLine>, line: CartLine)
    requires UniqueIds(cart) && PositiveQuantities(cart) && FindLine(cart, line.id).None?
    requires line.quantity >= 1
    ensures FindLine(cart + [line], line.id) == Some(|cart|)
    ensures UniqueIds(cart + [line]) && PositiveQuantities(cart + [line])
  {
    var appended := cart + [line];
    assert forall j :: 0 <= j < |cart| ==> appended[j] == cart[j];
    FindLineIs(appended, line.id, |cart|);
  }

  /** `cart.filter(item => item.id !== id)`. */
  function RemoveLine(cart: seq<CartLine>, id: ProductId): seq<CartLine>
  {
    if cart == [] then []
    else (if cart[0].id != id then [cart[0]] else []) + RemoveLine(cart[1..], id)
  }

  /** Removal keeps exactly the lines for other products, in their original order. */
  lemma {:induction false} RemoveLineSpec(cart: seq<CartLine>, id: ProductId)
    ensures forall l :: l in RemoveLine(cart, id) ==> l in cart && l.id != id
    ensures forall l :: l in cart && l.id != id ==> l in RemoveLine(cart, id)
    ensures Sublist(RemoveLine(cart, id), cart)
    decreases |cart|
  {
    if cart != [] {
      RemoveLineSpec(cart[1..], id);
      var rest := RemoveLine(cart[1..], id);
      assert cart == [cart[0]] + cart[1..];
      if cart[0].id != id {
        assert RemoveLine(cart, id)[1..] == rest;
      } else {
        assert RemoveLine(cart, id) == rest;
      }
    }
  }

  /** Removing a product that has no line leaves the cart as it was. */
  lemma {:induction false} RemoveAbsentIsNoop(cart: seq<CartLine>, id: ProductId)
    requires FindLine(cart, id).None?
    ensures RemoveLine(cart, id) == cart
    decreases |cart|
  {
    if cart != [] {
      RemoveAbsentIsNoop(cart[1..], id);
      assert cart == [cart[0]] + cart[1..];
    }
  }

  /** Removing twice is removing once. */
  lemma {:induction false} RemoveIdempotent(cart: seq<CartLine>, id: ProductId)
    ensures RemoveLine(RemoveLine(cart, id), id) == RemoveLine(cart, id)
    decreases |cart|
  {
    if cart != [] {
      RemoveIdempotent(cart[1..], id);
      var rest := RemoveLine(cart[1..], id);
      if cart[0].id != id {
        assert RemoveLine(cart, id) == [cart[0]] + rest;
        assert ([cart[0]] + rest)[1..] == rest;
      } else {
        assert RemoveLine(cart, id) == rest;
      }
    }
  }

  /** In a cart without duplicate ids, removal deletes just the line that was found. */
  lemma {:induction false} RemoveUniqueLine(cart: seq<CartLine>, id: ProductId)
    requires UniqueIds(cart) && FindLine(cart, id).Some?
    ensures var i := FindLine(cart, id).value; RemoveLine(cart, id) == cart[..i] + cart[i + 1..]
    decreases |cart|
  {
    if cart[0].id == id {
      assert FindLine(cart[1..], id).None?;
      RemoveAbsentIsNoop(cart[1..], id);
    } else {
      var i := FindLine(cart, id).value;
      RemoveUniqueLine(cart[1..], id);
      assert cart[1..][..i - 1] + cart[1..][i..] == cart[1..i] + cart[i + 1..];
      assert cart[..i] == [cart[0]] + cart[1..i];
    }
  }

  /** Putting a line in front of a cart with no line for its product keeps ids
      unique and quantities positive. */
  lemma PrependKeepsInvariant(line: CartLine, rest: seq<CartLine>)
    requires UniqueIds(rest) && PositiveQuantities(rest) && line.quantity >= 1
    requires forall l :: l in rest ==> l.id != line.id
    ensures UniqueIds([line] + rest) && PositiveQuantities([line] + rest)
  {
    var r := [line] + rest;
    assert forall i :: 1 <= i < |r| ==> r[i] == rest[i - 1];
    assert forall i :: 1 <= i < |r| ==> r[i] in rest;
  }

  /** Removal keeps the cart free of duplicate ids and of empty lines. */
  lemma {:induction false} RemoveKeepsInvariant(cart: seq<CartLine>, id: ProductId)
    requires UniqueIds(cart) && PositiveQuantities(cart)
    ensures UniqueIds(RemoveLine(cart, id)) && PositiveQuantities(RemoveLine(cart, id))
    decreases |cart|
  {
    if cart != [] {
      var tail := cart[1..];
      assert UniqueIds(tail) && PositiveQuantities(tail) by {
        assert forall i :: 0 <= i < |tail| ==> tail[i] == cart[i + 1];
      }
      RemoveKeepsInvariant(tail, id);
      var rest := RemoveLine(tail, id);
      if cart[0].id != id {
        assert forall l :: l in rest ==> l.id != cart[0].id by {
          RemoveLineSpec(tail, id);
          forall l | l in rest
            ensures l.id != cart[0].id
          {
            var k :| 0 <= k < |tail| && tail[k] == l;
            assert cart[k + 1] == l;
          }
        }
        PrependKeepsInvariant(cart[0], rest);
        assert RemoveLine(cart, id) == [cart[0]] + rest;
      } else {
        assert RemoveLine(cart, id) == rest;
      }
    }
  }

  /** The cart badge: the number of units in the cart. */
  function ItemCount(cart: seq<CartLine>): int
  {
    if cart == [] then 0 else cart[0].quantity + ItemCount(cart[1..])
  }

  /** The price of `quantity` units at `price` each. */
  function Cost(price: real, quantity: int): real
  {
    price * quantity as real
  }

  /** Buying more units of one price costs the sum of the parts. */
  lemma CostAdds(price: real, a: int, b: int)
    ensures Cost(price, a + b) == Cost(price, a) + Cost(price, b)
  {
  }

  /** What one line costs: its price times its quantity. */
  function LineTotal(line: CartLine): real
  {
    Cost(line.price, line.quantity)
  }

  /** `calculateSubtotal`: the sum of price times quantity over all lines. */
  function Subtotal(cart: seq<CartLine>): real
  {
    if cart == [] then 0.0 else LineTotal(cart[0]) + Subtotal(cart[1..])
  }

  /** Both sums distribute over concatenation. */
  lemma {:induction false} SumsOfConcat(a: seq<CartLine>, b: seq<CartLine>)
    ensures ItemCount(a + b) == ItemCount(a) + ItemCount(b)
    ensures Subtotal(a + b) == Subtotal(a) + Subtotal(b)
    decreases |a|
  {
    if a == [] {
      assert a + b == b;
    } else {
      SumsOfConcat(a[1..], b);
      assert (a + b)[0] == a[0];
      assert (a + b)[1..] == a[1..] + b;
    }
  }

  /** The sums of a one-line cart. */
  lemma SumsOfSingle(line: CartLine)
    ensures ItemCount([line]) == line.quantity
    ensures Subtotal([line]) == LineTotal(line)
  {
    assert [line][1..] == [];
  }

  /** Replacing one line changes the sums by that line's difference alone. */
  lemma SumsOfUpdate(cart: seq<CartLine>, i: nat, line: CartLine)
    requires i < |cart|
    ensures ItemCount(cart[i := line]) == ItemCount(cart) - cart[i].quantity + line.quantity
    ensures Subtotal(cart[i := line]) == Subtotal(cart) - LineTotal(cart[i]) + LineTotal(line)
  {
    var pre, post := cart[..i], cart[i + 1..];
    assert cart == pre + ([cart[i]] + post);
    assert cart[i := line] == pre + ([line] + post);
    SumsOfConcat(pre, [cart[i]] + post);
    SumsOfConcat([cart[i]], post);
    SumsOfConcat(pre, [line] + post);
    SumsOfConcat([line], post);
    SumsOfSingle(cart[i]);
    SumsOfSingle(line);
  }

  /** Deleting one line lowers the sums by exactly that line's share. */
  lemma SumsOfDelete(cart: seq<CartLine>, i: nat)
    requires i < |cart|
    ensures ItemCount(cart[..i] + cart[i + 1..]) == ItemCount(cart) - cart[i].quantity
    ensures Subtotal(cart[..i] + cart[i + 1..]) == Subtotal(cart) - LineTotal(cart[i])
  {
    var pre, post := cart[..i], cart[i + 1..];
    assert cart == pre + ([cart[i]] + post);
    SumsOfConcat(pre, [cart[i]] + post);
    SumsOfConcat([cart[i]], post);
    SumsOfConcat(pre, post);
    SumsOfSingle(cart[i]);
  }

  /** The badge counts units, not lines: with every line ordering at least one
      unit it is never below the number of lines, and equals it only when every
      line orders exactly one. */
  lemma {:induction false} BadgeCountsUnits(cart: seq<CartLine>)
    requires PositiveQuantities(cart)
    ensures ItemCount(cart) >= |cart|
    ensures ItemCount(cart) == |cart| <==> forall i :: 0 <= i < |cart| ==> cart[i].quantity == 1
    decreases |cart|
  {
    if cart != [] {
      BadgeCountsUnits(cart[1..]);
      assert forall i :: 1 <= i < |cart| ==> cart[i] == cart[1..][i - 1];
    }
  }

  /** With non-negative prices the subtotal is non-negative. */
  lemma {:induction false} SubtotalNonNegative(cart: seq<CartLine>)
    requires PositiveQuantities(cart)
    requires forall i :: 0 <= i < |cart| ==> cart[i].price >= 0.0
    ensures Subtotal(cart) >= 0.0
    decreases |cart|
  {
    if cart != [] {
      SubtotalNonNegative(cart[1..]);
      assert LineTotal(cart[0]) >= 0.0;
    }
  }

  /** The money figures shown in the cart and checkout summaries. */
  datatype Summary = Summary(subtotal: real, tax: real, total: real)

  /** The flat tax rate. */
  const TaxRate: real := 0.10

  /** The subtotal, a flat 10% tax on it, and their sum. */
  function Summarize(cart: seq<CartLine>): (s: Summary)
    ensures s.subtotal == Subtotal(cart)
    ensures 10.0 * s.tax == s.subtotal && s.total == s.subtotal * 1.1
    ensures cart == [] ==> s == Summary(0.0, 0.0, 0.0)
  {
    var subtotal := Subtotal(cart);
    var tax := subtotal * TaxRate;
    Summary(subtotal, tax, subtotal + tax)
  }
}
