/** Small facts about sequences shared by the other modules. */
module Sequences {

  /** No element occurs twice. */
  predicate Distinct<T(==)>(xs: seq<T>) {
    forall i, j :: 0 <= i < j < |xs| ==> xs[i] != xs[j]
  }

  /** Every element of `xs` occurs in `ys`. */
  predicate AllIn<T(==)>(xs: seq<T>, ys: seq<T>) {
    forall i :: 0 <= i < |xs| ==> xs[i] in ys
  }

  /** How often `x` occurs in `xs`. */
  function CountOf<T(==)>(xs: seq<T>, x: T): nat {
    if xs == [] then 0 else (if xs[0] == x then 1 else 0) + CountOf(xs[1..], x)
  }

  /** Counts add up over a concatenation. */
  lemma {:induction false} CountOfConcat<T>(a: seq<T>, b: seq<T>, x: T)
    ensures CountOf(a + b, x) == CountOf(a, x) + CountOf(b, x)
  {
    if a == [] {
      assert a + b == b;
    } else {
      assert (a + b)[1..] == a[1..] + b;
      CountOfConcat(a[1..], b, x);
    }
  }

  /** An element occurs at most as often as the list is long, and not at all when no entry equals it. */
  lemma {:induction false} CountOfBound<T>(xs: seq<T>, x: T)
    ensures CountOf(xs, x) <= |xs|
    ensures (forall i :: 0 <= i < |xs| ==> xs[i] != x) ==> CountOf(xs, x) == 0
  {
    if xs != [] {
      CountOfBound(xs[1..], x);
      assert forall i :: 0 <= i < |xs| - 1 ==> xs[1..][i] == xs[i + 1];
    }
  }

  /** Two lists without repeats and with no element in common join into one without repeats. */
  lemma DistinctJoin<T>(a: seq<T>, b: seq<T>)
    requires Distinct(a) && Distinct(b)
    requires forall i, j :: 0 <= i < |a| && 0 <= j < |b| ==> a[i] != b[j]
    ensures Distinct(a + b)
  {
    forall i, j | 0 <= i < j < |a + b|
      ensures (a + b)[i] != (a + b)[j]
    {
      if j < |a| {
        assert (a + b)[i] == a[i] && (a + b)[j] == a[j];
      } else if i >= |a| {
        assert (a + b)[i] == b[i - |a|] && (a + b)[j] == b[j - |a|];
      } else {
        assert (a + b)[i] == a[i] && (a + b)[j] == b[j - |a|];
      }
    }
  }

  /** Two lists with the same multiset have the same elements. */
  lemma SameElements<T>(a: seq<T>, b: seq<T>)
    requires multiset(a) == multiset(b)
    ensures forall i :: 0 <= i < |a| ==> a[i] in b
    ensures forall i :: 0 <= i < |b| ==> b[i] in a
  {
    forall i | 0 <= i < |a|
      ensures a[i] in b
    {
      assert a[i] in multiset(b);
    }
    forall i | 0 <= i < |b|
      ensures b[i] in a
    {
      assert b[i] in multiset(a);
    }
  }

  /** `idx` picks the elements of `r` out of `xs`, at strictly increasing positions. */
  predicate Picks<T(==)>(idx: seq<int>, r: seq<T>, xs: seq<T>) {
    && |idx| == |r|
    && (forall k :: 0 <= k < |idx| ==> 0 <= idx[k] < |xs| && xs[idx[k]] == r[k])
    && (forall k, l :: 0 <= k < l < |idx| ==> idx[k] < idx[l])
  }

  /** `r` lists some of the elements of `xs`, in the order they have in `xs`. */
  ghost predicate SubsequenceOf<T>(r: seq<T>, xs: seq<T>) {
    exists idx :: Picks(idx, r, xs)
  }

  /** A pick out of all but the last element extends to the whole list, with or without the last element. */
  lemma PicksSnoc<T>(idx: seq<int>, r: seq<T>, xs: seq<T>)
    requires |xs| > 0 && Picks(idx, r, xs[..|xs| - 1])
    ensures Picks(idx, r, xs)
    ensures Picks(idx + [|xs| - 1], r + [xs[|xs| - 1]], xs)
  {
    var n := |xs| - 1;
    forall k | 0 <= k < |idx|
      ensures xs[idx[k]] == r[k]
    {
      assert xs[..n][idx[k]] == xs[idx[k]];
    }
  }

  /** A pick out of all but the first element extends to the whole list, with or without the first element. */
  lemma PicksCons<T>(idx: seq<int>, r: seq<T>, xs: seq<T>)
    requires |xs| > 0 && Picks(idx, r, xs[1..])
    ensures Picks(ShiftedUp(idx), r, xs)
    ensures Picks([0] + ShiftedUp(idx), [xs[0]] + r, xs)
  {
    var sh := ShiftedUp(idx);
    forall k | 0 <= k < |idx|
      ensures xs[sh[k]] == r[k]
    {
      assert xs[1..][idx[k]] == xs[idx[k] + 1];
    }
    var both := [0] + sh;
    forall k | 0 <= k < |both|
      ensures 0 <= both[k] < |xs| && xs[both[k]] == ([xs[0]] + r)[k]
    {
      if k > 0 {
        assert both[k] == sh[k - 1];
      }
    }
  }

  function ShiftedUp(idx: seq<int>): (r: seq<int>)
    ensures |r| == |idx| && forall k :: 0 <= k < |idx| ==> r[k] == idx[k] + 1
  {
    seq(|idx|, k requires 0 <= k < |idx| => idx[k] + 1)
  }
}
