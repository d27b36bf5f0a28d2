/**
 * The array combinators the application uses on its lists: `filter` and a
 * summing `reduce`, both processing the list from left to right.
 */
module Lists {

  /** `xs.filter(keep)`: the elements that pass, in their original order. */
  function Filter<T>(xs: seq<T>, keep: T -> bool): (r: seq<T>)
    ensures |r| <= |xs|
    ensures forall k :: 0 <= k < |r| ==> keep(r[k]) && r[k] in xs
    ensures forall x :: x in xs && keep(x) ==> x in r
  {
    if xs == [] then []
    else
      var init := Filter(xs[..|xs| - 1], keep);
      var last := xs[|xs| - 1];
      assert xs == xs[..|xs| - 1] + [last];
      if keep(last) then init + [last] else init
  }

  /** Filtering distributes over concatenation, so the kept elements stay in list order. */
  lemma {:induction false} FilterAppend<T>(a: seq<T>, b: seq<T>, keep: T -> bool)
    ensures Filter(a + b, keep) == Filter(a, keep) + Filter(b, keep)
    decreases |b|
  {
    if b == [] {
      assert a + b == a;
    } else {
      var init, last := b[..|b| - 1], b[|b| - 1];
      var extra := if keep(last) then [last] else [];
      assert b == init + [last];
      assert a + b == (a + init) + [last];
      calc {
        Filter(a + b, keep);
        { FilterSnoc(a + init, last, keep); }
        Filter(a + init, keep) + extra;
        { FilterAppend(a, init, keep); }
        Filter(a, keep) + Filter(init, keep) + extra;
        { FilterSnoc(init, last, keep); }
        Filter(a, keep) + Filter(b, keep);
      }
    }
  }

  lemma FilterSnoc<T>(xs: seq<T>, x: T, keep: T -> bool)
    ensures Filter(xs + [x], keep) == Filter(xs, keep) + (if keep(x) then [x] else [])
  {
    assert (xs + [x])[..|xs|] == xs;
  }

  /** A filter that keeps everything returns the list unchanged. */
  lemma {:induction false} FilterAll<T>(xs: seq<T>, keep: T -> bool)
    requires forall x :: x in xs ==> keep(x)
    ensures Filter(xs, keep) == xs
  {
    if xs != [] {
      FilterAll(xs[..|xs| - 1], keep);
      assert xs == xs[..|xs| - 1] + [xs[|xs| - 1]];
    }
  }

  /** `xs.reduce((sum, x) => sum + f(x), 0)`. */
  function Sum<T>(xs: seq<T>, f: T -> nat): nat
  {
    if xs == [] then 0 else Sum(xs[..|xs| - 1], f) + f(xs[|xs| - 1])
  }

  /** Sums are bounded by the bounds of their terms. */
  lemma {:induction false} SumBounds<T>(xs: seq<T>, f: T -> nat, lo: nat, hi: nat)
    requires forall x :: x in xs ==> lo <= f(x) <= hi
    ensures |xs| * lo <= Sum(xs, f) <= |xs| * hi
  {
    if xs != [] {
      var init, last := xs[..|xs| - 1], xs[|xs| - 1];
      SumBounds(init, f, lo, hi);
      assert last in xs;
      assert Sum(xs, f) == Sum(init, f) + f(last);
      MulStep(|init|, lo);
      MulStep(|init|, hi);
    }
  }

  lemma MulStep(n: nat, c: nat)
    ensures (n + 1) * c == n * c + c
  {
  }

  /** A filter that keeps more keeps at least as many elements, and a sum over it is at least as large. */
  lemma {:induction false} FilterMonotone<T>(xs: seq<T>, p: T -> bool, q: T -> bool, f: T -> nat)
    requires forall x :: p(x) ==> q(x)
    ensures |Filter(xs, p)| <= |Filter(xs, q)|
    ensures Sum(Filter(xs, p), f) <= Sum(Filter(xs, q), f)
  {
    if xs != [] {
      FilterMonotone(xs[..|xs| - 1], p, q, f);
    }
  }

  /** Filtering never increases a sum of natural numbers. */
  lemma {:induction false} FilterSumAtMost<T>(xs: seq<T>, p: T -> bool, f: T -> nat)
    ensures |Filter(xs, p)| <= |xs|
    ensures Sum(Filter(xs, p), f) <= Sum(xs, f)
  {
    if xs != [] {
      FilterSumAtMost(xs[..|xs| - 1], p, f);
    }
  }

  /** The number of elements that pass plus the number that fail is the length. */
  lemma {:induction false} FilterSplit<T>(xs: seq<T>, p: T -> bool, q: T -> bool)
    requires forall x :: q(x) == !p(x)
    ensures |Filter(xs, p)| + |Filter(xs, q)| == |xs|
  {
    if xs != [] {
      FilterSplit(xs[..|xs| - 1], p, q);
    }
  }

  predicate NoDup<T(==)>(xs: seq<T>)
  {
    forall i, j :: 0 <= i < j < |xs| ==> xs[i] != xs[j]
  }

  /** A filter keeps a subsequence, so a list without duplicates stays without duplicates. */
  lemma {:induction false} FilterNoDup<T>(xs: seq<T>, keep: T -> bool)
    requires NoDup(xs)
    ensures NoDup(Filter(xs, keep))
  {
    if xs != [] {
      var init, last := xs[..|xs| - 1], xs[|xs| - 1];
      assert NoDup(init);
      FilterNoDup(init, keep);
      assert last !in init;
      assert last !in Filter(init, keep);
    }
  }
}
