/** The filter engine: the four filter criteria and the visible product list
    derived from the catalog. */
module Filters {
  import opened Catalog
  import opened Lists
  import Text

  /** The filter criteria held in the state. `search` is stored already
      lower-cased, as the search box value is lower-cased before it is kept. */
  datatype Criteria = Criteria(
    search: string,
    category: string,
    minPrice: real,
    maxPrice: real,
    minRating: real)

  /** The criteria the page starts with and that "clear filters" restores. */
  const Cleared: Criteria := Criteria("", AllCategories, 0.0, 1000.0, 0.0)

  /** Builds the criteria from the raw search box value and the parsed inputs. */
  function MakeCriteria(search: string, category: string, minPrice: real, maxPrice: real, minRating: real): (c: Criteria)
    ensures c.search == Text.Lower(search)
    ensures Text.HasNoUpper(c.search) && |c.search| == |search|
    ensures c.category == category && c.minPrice == minPrice && c.maxPrice == maxPrice && c.minRating == minRating
  {
    Text.LowerIsIdempotent(search);
    Criteria(Text.Lower(search), category, minPrice, maxPrice, minRating)
  }

  /** All four predicates of the product filter hold of `p`. */
  predicate Matches(p: Product, c: Criteria)
  {
    && Text.Includes(Text.Lower(p.title), c.search)
    && (c.category == AllCategories || p.category == c.category)
    && c.minPrice <= p.price && p.price <= c.maxPrice
    && p.rating.rate >= c.minRating
  }

  /** `products.filter(p => Matches(p, c))`. */
  function Filter(products: seq<Product>, c: Criteria): (r: seq<Product>)
    ensures |r| <= |products|
  {
    if products == [] then []
    else (if Matches(products[0], c) then [products[0]] else []) + Filter(products[1..], c)
  }

  /** The visible list keeps catalog order: it is a sub-list of the catalog. */
  lemma {:induction false} FilterIsSublist(products: seq<Product>, c: Criteria)
    ensures Sublist(Filter(products, c), products)
    decreases |products|
  {
    if products != [] {
      FilterIsSublist(products[1..], c);
      var rest := Filter(products[1..], c);
      if Matches(products[0], c) {
        assert Filter(products, c) == [products[0]] + rest;
        assert Filter(products, c)[1..] == rest;
      } else {
        assert Filter(products, c) == rest;
        if rest != [] {
          assert Sublist(rest, products[1..]);
        }
      }
    }
  }

  /** A product is visible exactly when it is in the catalog and meets all four criteria. */
  lemma {:induction false} FilterMembers(products: seq<Product>, c: Criteria)
    ensures forall p :: p in Filter(products, c) ==> p in products && Matches(p, c)
    ensures forall p :: p in products && Matches(p, c) ==> p in Filter(products, c)
    decreases |products|
  {
    if products != [] {
      FilterMembers(products[1..], c);
      assert products == [products[0]] + products[1..];
    }
  }

  /** Re-applying the same criteria to the visible list changes nothing. */
  lemma {:induction false} FilterIdempotent(products: seq<Product>, c: Criteria)
    ensures Filter(Filter(products, c), c) == Filter(products, c)
    decreases |products|
  {
    if products != [] {
      FilterIdempotent(products[1..], c);
      var rest := Filter(products[1..], c);
      if Matches(products[0], c) {
        assert Filter(products, c) == [products[0]] + rest;
        assert ([products[0]] + rest)[1..] == rest;
      } else {
        assert Filter(products, c) == rest;
      }
    }
  }

  /** When every product meets the criteria, the whole catalog stays visible. */
  lemma {:induction false} FilterKeepsAll(products: seq<Product>, c: Criteria)
    requires forall p :: p in products ==> Matches(p, c)
    ensures Filter(products, c) == products
    decreases |products|
  {
    if products != [] {
      assert products[0] in products;
      assert forall p :: p in products[1..] ==> p in products;
      FilterKeepsAll(products[1..], c);
      assert products == [products[0]] + products[1..];
    }
  }

  /** A price range whose lower bound exceeds its upper bound hides every product. */
  lemma {:induction false} EmptyPriceRangeHidesAll(products: seq<Product>, c: Criteria)
    requires c.minPrice > c.maxPrice
    ensures Filter(products, c) == []
    decreases |products|
  {
    if products != [] {
      EmptyPriceRangeHidesAll(products[1..], c);
    }
  }

  /** The empty search matches every title, so the search predicate then filters nothing. */
  lemma EmptySearchMatchesAll(p: Product, c: Criteria)
    requires c.search == ""
    ensures Matches(p, c) <==>
              (c.category == AllCategories || p.category == c.category)
              && c.minPrice <= p.price <= c.maxPrice && p.rating.rate >= c.minRating
  {
    Text.EmptyIsIncluded(Text.Lower(p.title));
  }

  /** The search is case-insensitive: lower-casing the typed search changes nothing,
      and a title matches the same searches as its lower-cased form. */
  lemma SearchIgnoresCase(p: Product, search: string, category: string, minPrice: real, maxPrice: real, minRating: real)
    ensures Matches(p, MakeCriteria(Text.Lower(search), category, minPrice, maxPrice, minRating))
            == Matches(p, MakeCriteria(search, category, minPrice, maxPrice, minRating))
    ensures Matches(p.(title := Text.Lower(p.title)), MakeCriteria(search, category, minPrice, maxPrice, minRating))
            == Matches(p, MakeCriteria(search, category, minPrice, maxPrice, minRating))
  {
    Text.LowerIsIdempotent(search);
    Text.LowerIsIdempotent(p.title);
  }

  /** After clearing, every product whose price lies in [0, 1000] and whose
      rating is non-negative is visible, so such a catalog is shown whole. */
  lemma ClearedShowsCatalog(products: seq<Product>)
    requires forall p :: p in products ==> 0.0 <= p.price <= 1000.0 && p.rating.rate >= 0.0
    ensures Filter(products, Cleared) == products
  {
    forall p | p in products
      ensures Matches(p, Cleared)
    {
      Text.EmptyIsIncluded(Text.Lower(p.title));
    }
    FilterKeepsAll(products, Cleared);
  }
}
