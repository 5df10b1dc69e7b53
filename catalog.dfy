/** The product catalog as fetched from the remote store API, the lookup by
    product id, and the category facet list offered by the category filter. */
module Catalog {
  import opened Options
  import opened Lists

  type ProductId = int

  datatype Rating = Rating(rate: real, count: int)

  datatype Product = Product(
    id: ProductId,
    title: string,
    price: real,
    category: string,
    image: string,
    rating: Rating)

  /** The wildcard value of the category filter; it heads the facet list. */
  const AllCategories: string := "all"

  /** `products.find(p => p.id === id)`: the first product carrying the id. */
  function FindProduct(products: seq<Product>, id: ProductId): (r: Option<Product>)
    ensures r.Some? ==> r.value in products && r.value.id == id
    ensures r.Some? ==> exists k :: 0 <= k < |products| && products[k] == r.value &&
                          forall j :: 0 <= j < k ==> products[j].id != id
    ensures r.None? <==> forall p :: p in products ==> p.id != id
  {
    if products == [] then None
    else if products[0].id == id then Some(products[0])
    else
      var r := FindProduct(products[1..], id);
      assert forall p :: p in products ==> p == products[0] || p in products[1..];
      if r.Some? then
        var k :| 0 <= k < |products[1..]| && products[1..][k] == r.value &&
                 (forall j :: 0 <= j < k ==> products[1..][j].id != id);
        assert products[k + 1] == r.value;
        r
      else r
  }

  /** The category of every product, in catalog order. */
  function CategoriesOf(products: seq<Product>): (cs: seq<string>)
    ensures |cs| == |products|
    ensures forall i :: 0 <= i < |products| ==> cs[i] == products[i].category
  {
    seq(|products|, i requires 0 <= i < |products| => products[i].category)
  }

  /** The category facet list: the wildcard followed by each distinct category. */
  function Categories(products: seq<Product>): seq<string>
  {
    [AllCategories] + Distinct(CategoriesOf(products))
  }

  /** The facet list starts with the wildcard, offers every product's category,
      offers nothing else, names each category once, and keeps first-seen order. */
  lemma CategoriesSpec(products: seq<Product>)
    ensures |Categories(products)| >= 1 && Categories(products)[0] == AllCategories
    ensures forall p :: p in products ==> p.category in Categories(products)[1..]
    ensures forall c :: c in Categories(products)[1..] ==> exists p :: p in products && p.category == c
    ensures NoDuplicates(Categories(products)[1..])
    ensures forall i, j :: 1 <= i < j < |Categories(products)| ==>
              FirstIndex(CategoriesOf(products), Categories(products)[i])
              < FirstIndex(CategoriesOf(products), Categories(products)[j])
  {
    var cs := CategoriesOf(products);
    DistinctSpec(cs);
    var r := Categories(products);
    assert r[1..] == Distinct(cs);
    forall p | p in products
      ensures p.category in r[1..]
    {
      var i :| 0 <= i < |products| && products[i] == p;
      assert cs[i] == p.category;
    }
    forall c | c in r[1..]
      ensures exists p :: p in products && p.category == c
    {
      var i :| 0 <= i < |cs| && cs[i] == c;
      assert products[i] in products;
    }
    forall i, j | 1 <= i < j < |r|
      ensures FirstIndex(cs, r[i]) < FirstIndex(cs, r[j])
    {
      assert r[i] == Distinct(cs)[i - 1] && r[j] == Distinct(cs)[j - 1];
    }
  }
}
