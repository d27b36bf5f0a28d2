/**
 * `Array.prototype.sort` with a comparator of the form `(a, b) => key(b) - key(a)`:
 * a stable sort into non-increasing key order.  It is written as insertion
 * sort: each element goes after every earlier element whose key is at least
 * as large, so elements with equal keys keep their relative order.
 */
module Sorting {

  predicate NonIncreasing<T>(xs: seq<T>, key: T -> int)
  {
    forall i, j :: 0 <= i < j < |xs| ==> key(xs[i]) >= key(xs[j])
  }

  /** Putting an element in front of a sorted list keeps it sorted when the element's key is at least the head's. */
  lemma Cons<T>(a: T, t: seq<T>, key: T -> int)
    requires NonIncreasing(t, key) && (t != [] ==> key(a) >= key(t[0]))
    ensures NonIncreasing([a] + t, key)
  {
    var r := [a] + t;
    forall i, j | 0 <= i < j < |r| ensures key(r[i]) >= key(r[j]) {
      if i == 0 && j > 1 {
        assert key(t[0]) >= key(t[j - 1]);
      }
    }
  }

  /** Inserts `x` after every element whose key is at least key(x). */
  function Insert<T>(x: T, xs: seq<T>, key: T -> int): (r: seq<T>)
    requires NonIncreasing(xs, key)
    ensures |r| == |xs| + 1
    ensures r[0] == x || (xs != [] && r[0] == xs[0])
    ensures NonIncreasing(r, key)
  {
    if xs == [] || key(x) > key(xs[0]) then
      Cons(x, xs, key);
      [x] + xs
    else
      var tail := Insert(x, xs[1..], key);
      assert xs[1..] != [] ==> key(xs[0]) >= key(xs[1]);
      Cons(xs[0], tail, key);
      [xs[0]] + tail
  }

  /** Insertion adds exactly the one element. */
  lemma {:induction false} InsertPermutes<T>(x: T, xs: seq<T>, key: T -> int)
    requires NonIncreasing(xs, key)
    ensures multiset(Insert(x, xs, key)) == multiset(xs) + multiset{x}
  {
    if xs == [] || key(x) > key(xs[0]) {
      assert Insert(x, xs, key) == [x] + xs;
    } else {
      var h, t := xs[0], Insert(x, xs[1..], key);
      assert Insert(x, xs, key) == [h] + t;
      calc {
        multiset(Insert(x, xs, key));
        multiset([h]) + multiset(t);
        { InsertPermutes(x, xs[1..], key); }
        multiset([h]) + multiset(xs[1..]) + multiset{x};
        { assert xs == [h] + xs[1..]; }
        multiset(xs) + multiset{x};
      }
    }
  }

  /** The sorted copy: non-increasing by key and a permutation of the input. */
  function SortDesc<T>(xs: seq<T>, key: T -> int): (r: seq<T>)
    ensures NonIncreasing(r, key)
    ensures multiset(r) == multiset(xs) && |r| == |xs|
  {
    if xs == [] then []
    else
      assert xs == xs[..|xs| - 1] + [xs[|xs| - 1]];
      InsertPermutes(xs[|xs| - 1], SortDesc(xs[..|xs| - 1], key), key);
      Insert(xs[|xs| - 1], SortDesc(xs[..|xs| - 1], key), key)
  }
}
