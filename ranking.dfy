/**
 * The ranking of the catalog: a stable sort by descending key, written as
 * an insertion sort. Sorting with a descending key keeps elements with equal
 * keys in their original order, so the result is unique: it is sorted, it is
 * a permutation of the input, and for every key value it lists the elements
 * with that key in input order.
 */
module Ranking {
  import opened Sequences

  /** Put x before the first element whose key is not greater than x's. */
  function Insert<T>(x: T, ys: seq<T>, key: T -> real): (r: seq<T>)
    ensures multiset(r) == multiset(ys) + multiset{x}
  {
    if ys == [] || key(ys[0]) <= key(x) then [x] + ys
    else
      assert ys == [ys[0]] + ys[1..];
      [ys[0]] + Insert(x, ys[1..], key)
  }

  function SortDesc<T>(xs: seq<T>, key: T -> real): (r: seq<T>)
    ensures multiset(r) == multiset(xs)
  {
    if xs == [] then []
    else
      assert xs == [xs[0]] + xs[1..];
      Insert(xs[0], SortDesc(xs[1..], key), key)
  }

  predicate SortedDesc<T>(xs: seq<T>, key: T -> real) {
    forall i, j :: 0 <= i < j < |xs| ==> key(xs[i]) >= key(xs[j])
  }

  /** The elements whose key is k, in order. */
  function WithKey<T>(xs: seq<T>, key: T -> real, k: real): seq<T> {
    if xs == [] then []
    else if key(xs[0]) == k then [xs[0]] + WithKey(xs[1..], key, k)
    else WithKey(xs[1..], key, k)
  }

  lemma {:induction false} InsertBounded<T>(x: T, ys: seq<T>, key: T -> real, b: real)
    requires key(x) <= b && forall i :: 0 <= i < |ys| ==> key(ys[i]) <= b
    ensures forall i :: 0 <= i < |Insert(x, ys, key)| ==> key(Insert(x, ys, key)[i]) <= b
  {
    if ys != [] && key(ys[0]) > key(x) {
      InsertBounded(x, ys[1..], key, b);
    }
  }

  lemma {:induction false} InsertSorted<T>(x: T, ys: seq<T>, key: T -> real)
    requires SortedDesc(ys, key)
    ensures SortedDesc(Insert(x, ys, key), key)
  {
    if ys != [] && key(ys[0]) > key(x) {
      InsertSorted(x, ys[1..], key);
      InsertBounded(x, ys[1..], key, key(ys[0]));
    }
  }

  /** The ranking is in non-increasing key order. */
  lemma {:induction false} SortDescSorted<T>(xs: seq<T>, key: T -> real)
    ensures SortedDesc(SortDesc(xs, key), key)
  {
    if xs != [] {
      SortDescSorted(xs[1..], key);
      InsertSorted(xs[0], SortDesc(xs[1..], key), key);
    }
  }

  lemma {:induction false} InsertWithKey<T>(x: T, ys: seq<T>, key: T -> real, k: real)
    ensures WithKey(Insert(x, ys, key), key, k)
            == if key(x) == k then [x] + WithKey(ys, key, k) else WithKey(ys, key, k)
  {
    if ys != [] && key(ys[0]) > key(x) {
      InsertWithKey(x, ys[1..], key, k);
      assert Insert(x, ys, key)[1..] == Insert(x, ys[1..], key);
    } else {
      assert ([x] + ys)[1..] == ys;
    }
  }

  /** Stability: for every key value, the elements with that key keep their input order. */
  lemma {:induction false} SortDescStable<T>(xs: seq<T>, key: T -> real, k: real)
    ensures WithKey(SortDesc(xs, key), key, k) == WithKey(xs, key, k)
  {
    if xs != [] {
      SortDescStable(xs[1..], key, k);
      InsertWithKey(xs[0], SortDesc(xs[1..], key), key, k);
    }
  }

  lemma {:induction false} InsertDistinct<T>(x: T, ys: seq<T>, key: T -> real)
    requires Distinct(ys) && x !in ys
    ensures Distinct(Insert(x, ys, key))
  {
    if ys != [] && key(ys[0]) > key(x) {
      var tail := ys[1..];
      assert forall j :: 0 <= j < |tail| ==> tail[j] == ys[j + 1];
      InsertDistinct(x, tail, key);
      var r := Insert(x, tail, key);
      assert ys[0] !in multiset(tail) + multiset{x};
      assert ys[0] !in r;
      assert Insert(x, ys, key) == [ys[0]] + r;
    }
  }

  /** Ranking a list without repetitions gives a list without repetitions. */
  lemma {:induction false} SortDescDistinct<T>(xs: seq<T>, key: T -> real)
    requires Distinct(xs)
    ensures Distinct(SortDesc(xs, key))
  {
    if xs != [] {
      var tail := xs[1..];
      assert forall j :: 0 <= j < |tail| ==> tail[j] == xs[j + 1];
      SortDescDistinct(tail, key);
      assert xs[0] !in multiset(SortDesc(tail, key));
      InsertDistinct(xs[0], SortDesc(tail, key), key);
    }
  }
}
