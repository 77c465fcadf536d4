/** Sequence helpers shared by the routers and the pages: filtering and lookup by predicate. */
module Seqs {
  import opened Wrappers

  /** The elements of `xs` that satisfy `p`, in their original order
      (Array.prototype.filter, and a database query with an equality `where`). */
  function Filter<T(!new)>(xs: seq<T>, p: T -> bool): (r: seq<T>)
    ensures |r| <= |xs|
    ensures forall x :: x in r <==> x in xs && p(x)
  {
    if xs == [] then []
    else if p(xs[0]) then [xs[0]] + Filter(xs[1..], p)
    else Filter(xs[1..], p)
  }

  /** Filtering keeps the relative order: it distributes over concatenation. */
  lemma {:induction false} FilterConcat<T(!new)>(a: seq<T>, b: seq<T>, p: T -> bool)
    ensures Filter(a + b, p) == Filter(a, p) + Filter(b, p)
  {
    if a == [] {
      assert a + b == b;
    } else {
      assert (a + b)[0] == a[0];
      assert (a + b)[1..] == a[1..] + b;
      FilterConcat(a[1..], b, p);
    }
  }

  /** Filtering a single element keeps it exactly when it satisfies `p`. */
  lemma FilterSingleton<T(!new)>(x: T, p: T -> bool)
    ensures Filter([x], p) == if p(x) then [x] else []
  {
    assert [x][1..] == [];
  }

  /** Filtering a sequence extended by two elements extends its filter by those of them that
      satisfy `p`, in order. */
  lemma FilterAppendPair<T(!new)>(xs: seq<T>, x: T, y: T, p: T -> bool)
    ensures Filter(xs + [x, y], p) == Filter(xs, p) + (if p(x) then [x] else []) + (if p(y) then [y] else [])
  {
    var fx: seq<T> := if p(x) then [x] else [];
    var fy: seq<T> := if p(y) then [y] else [];
    assert Filter([x, y], p) == fx + fy by {
      assert [x, y][1..] == [y];
      FilterSingleton(y, p);
    }
    FilterConcat(xs, [x, y], p);
    assert Filter(xs, p) + (fx + fy) == Filter(xs, p) + fx + fy;
  }

  /** An element that fails `p` leaves no trace in the filter of a sequence around it. */
  lemma FilterSkipsOne<T(!new)>(a: seq<T>, x: T, b: seq<T>, p: T -> bool)
    requires !p(x)
    ensures Filter(a + [x] + b, p) == Filter(a, p) + Filter(b, p)
  {
    FilterConcat(a + [x], b, p);
    FilterConcat(a, [x], p);
    FilterSingleton(x, p);
    assert Filter(a + [x], p) == Filter(a, p) + [];
    assert Filter(a, p) + [] == Filter(a, p);
  }

  /** A sequence whose elements all satisfy `p` is its own filter. */
  lemma {:induction false} FilterKeepsAll<T(!new)>(xs: seq<T>, p: T -> bool)
    requires forall i :: 0 <= i < |xs| ==> p(xs[i])
    ensures Filter(xs, p) == xs
  {
    if xs != [] {
      FilterKeepsAll(xs[1..], p);
    }
  }

  /** The first index whose element satisfies `p`, if any. */
  function FirstIndex<T>(xs: seq<T>, p: T -> bool): (r: Option<nat>)
    ensures r.Some? ==> r.value < |xs| && p(xs[r.value]) && forall j :: 0 <= j < r.value ==> !p(xs[j])
    ensures r.None? ==> forall j :: 0 <= j < |xs| ==> !p(xs[j])
  {
    if xs == [] then None
    else if p(xs[0]) then Some(0)
    else match FirstIndex(xs[1..], p)
      case None => None
      case Some(i) => Some(i + 1)
  }
}
