/** Generic facts about sequences used by the catalog, the filter engine and the
    cart: order-preserving sub-lists, first occurrences and de-duplication. */
module Lists {

  /** `xs` is `ys` with some elements left out, the rest in their original order. */
  predicate Sublist<T(==)>(xs: seq<T>, ys: seq<T>)
    decreases |ys|
  {
    if xs == [] then true
    else if ys == [] then false
    else (xs[0] == ys[0] && Sublist(xs[1..], ys[1..])) || Sublist(xs, ys[1..])
  }

  lemma {:induction false} SublistReflexive<T>(xs: seq<T>)
    ensures Sublist(xs, xs)
    decreases |xs|
  {
    if xs != [] {
      SublistReflexive(xs[1..]);
    }
  }

  predicate NoDuplicates<T(==)>(xs: seq<T>)
  {
    forall i, j :: 0 <= i < j < |xs| ==> xs[i] != xs[j]
  }

  /** `xs.indexOf(x)`: the position of the first occurrence of `x` in `xs`, or
      `|xs|` when there is none. */
  function FirstIndex<T(==)>(xs: seq<T>, x: T): (k: nat)
    ensures k <= |xs| && x !in xs[..k]
    ensures k < |xs| <==> x in xs
    ensures k < |xs| ==> xs[k] == x
  {
    if xs == [] then 0
    else if xs[0] == x then 0
    else
      var k := FirstIndex(xs[1..], x);
      assert xs[..k + 1] == [xs[0]] + xs[1..][..k];
      assert xs == [xs[0]] + xs[1..];
      k + 1
  }

  /** The distinct elements of `xs` in first-seen order, as spreading a JavaScript
      `Set` built from `xs` yields them. */
  function Distinct<T(==)>(xs: seq<T>): seq<T>
  {
    if xs == [] then []
    else
      var r := Distinct(xs[..|xs| - 1]);
      if xs[|xs| - 1] in r then r else r + [xs[|xs| - 1]]
  }

  /** A first occurrence in a prefix is the first occurrence in the whole sequence. */
  lemma FirstIndexOfPrefix<T>(xs: seq<T>, n: nat, x: T)
    requires n <= |xs| && x in xs[..n]
    ensures FirstIndex(xs, x) == FirstIndex(xs[..n], x)
  {
    var p := xs[..n];
    var k, k' := FirstIndex(xs, x), FirstIndex(p, x);
    assert p[..k'] == xs[..k'];
    assert xs[k'] == x;
    assert forall i :: 0 <= i < k' ==> xs[i] != x by {
      forall i | 0 <= i < k'
        ensures xs[i] != x
      {
        assert xs[..k'][i] == xs[i];
      }
    }
    assert forall i :: 0 <= i < k ==> xs[i] != x by {
      forall i | 0 <= i < k
        ensures xs[i] != x
      {
        assert xs[..k][i] == xs[i];
      }
    }
  }

  /** `Distinct` keeps exactly the elements of its input, once each, ordered by
      where each first occurs. */
  lemma {:induction false} DistinctSpec<T>(xs: seq<T>)
    ensures forall x :: x in Distinct(xs) ==> x in xs
    ensures forall x :: x in xs ==> x in Distinct(xs)
    ensures NoDuplicates(Distinct(xs))
    ensures forall i, j :: 0 <= i < j < |Distinct(xs)| ==>
              FirstIndex(xs, Distinct(xs)[i]) < FirstIndex(xs, Distinct(xs)[j])
  {
    if xs != [] {
      var n := |xs| - 1;
      var p := xs[..n];
      var last := xs[n];
      DistinctSpec(p);
      var r := Distinct(p);
      assert xs == p + [last];
      forall x | x in r
        ensures FirstIndex(xs, x) == FirstIndex(p, x)
      {
        assert x in p;
        FirstIndexOfPrefix(xs, n, x);
      }
      if last !in r {
        assert last !in p;
        assert FirstIndex(xs, last) == n;
        forall x | x in r
          ensures FirstIndex(xs, x) < n
        {
        }
      }
    }
  }
}
