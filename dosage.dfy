/**
 * The numeric side of dosage calculation, as functions on sequences of
 * percentages (one entry per selected plant, in list order): nominal
 * percents by role, the per-plant clamp, the per-family proportional
 * shrink, and the global shrink to 100. DosageBounds proves the bounds the
 * formula promises; the methods that update the plants are proved equal
 * to these functions.
 */
module Dosage {
  import opened Plants
  import opened Sequences

  // ---------------------------------------------------------------------
  // Sums
  // ---------------------------------------------------------------------

  function SumTo(v: seq<real>, n: nat): real
    requires n <= |v|
  {
    if n == 0 then 0.0 else SumTo(v, n - 1) + v[n - 1]
  }

  function Sum(v: seq<real>): real {
    SumTo(v, |v|)
  }

  /** The sum of the entries whose family is `f`, among the first n. */
  function FamilySumTo(fams: seq<string>, v: seq<real>, f: string, n: nat): real
    requires |fams| == |v| && n <= |v|
  {
    if n == 0 then 0.0
    else FamilySumTo(fams, v, f, n - 1) + (if fams[n - 1] == f then v[n - 1] else 0.0)
  }

  function FamilySum(fams: seq<string>, v: seq<real>, f: string): real
    requires |fams| == |v|
  {
    FamilySumTo(fams, v, f, |v|)
  }

  predicate NonNegative(v: seq<real>) {
    forall i :: 0 <= i < |v| ==> v[i] >= 0.0
  }

  predicate LimitsNonNegative(lims: seq<Option<real>>) {
    forall i :: 0 <= i < |lims| && lims[i].Some? ==> lims[i].value >= 0.0
  }

  /**
   * The family limit that governs family `f`: the one carried by the first
   * member of the family in list order (None when that member has none, or
   * when no entry belongs to `f`).
   */
  function LeaderLimit(fams: seq<string>, lims: seq<Option<real>>, f: string): (r: Option<real>)
    requires |fams| == |lims|
    ensures LimitsNonNegative(lims) && r.Some? ==> r.value >= 0.0
  {
    if fams == [] then None
    else if fams[0] == f then lims[0]
    else LeaderLimit(fams[1..], lims[1..], f)
  }

  /** When index i is the first of its family, its limit is the family's limit. */
  lemma {:induction false} LeaderLimitAt(fams: seq<string>, lims: seq<Option<real>>, i: nat)
    requires |fams| == |lims| && i < |fams|
    requires forall j :: 0 <= j < i ==> fams[j] != fams[i]
    ensures LeaderLimit(fams, lims, fams[i]) == lims[i]
  {
    if i > 0 {
      assert fams[1..][i - 1] == fams[i] && lims[1..][i - 1] == lims[i];
      LeaderLimitAt(fams[1..], lims[1..], i - 1);
    }
  }

  // ---------------------------------------------------------------------
  // The stages
  // ---------------------------------------------------------------------

  /**
   * Nominal percent of one plant: a sole primary gets 40, each of two
   * primaries 30, a secondary 20, a support 10; any other case (three or
   * more primaries, an unknown role) keeps the percent the plant already has.
   */
  function Nominal(role: string, primaries: nat, current: real): real {
    if role == PRIMARY then (if primaries == 1 then 40.0 else if primaries == 2 then 30.0 else current)
    else if role == SECONDARY then 20.0
    else if role == SUPPORT then 10.0
    else current
  }

  function Nominals(roles: seq<string>, current: seq<real>): seq<real>
    requires |roles| == |current|
  {
    seq(|roles|, i requires 0 <= i < |roles| => Nominal(roles[i], CountOf(roles, PRIMARY), current[i]))
  }

  /** Each percent clamped from above to the plant's maximum. */
  function Clamped(v: seq<real>, maxima: seq<real>): seq<real>
    requires |v| == |maxima|
  {
    seq(|v|, i requires 0 <= i < |v| => if v[i] > maxima[i] then maxima[i] else v[i])
  }

  /**
   * The factor family `f` is scaled by: max_sum / family sum when the family
   * is over its limit, and no scaling (None) otherwise. A family sum of 0
   * above a negative limit would divide by zero; it is left unscaled.
   */
  function FamilyRatio(fams: seq<string>, lims: seq<Option<real>>, v: seq<real>, f: string): Option<real>
    requires |fams| == |lims| == |v|
  {
    match LeaderLimit(fams, lims, f)
    case Some(m) =>
      var total := FamilySum(fams, v, f);
      if total > m && total != 0.0 then Some(m / total) else None
    case None => None
  }

  /** Entry i after its family's limit. */
  function ScaledInFamily(fams: seq<string>, lims: seq<Option<real>>, v: seq<real>, i: nat): real
    requires |fams| == |lims| == |v| && i < |v|
  {
    match FamilyRatio(fams, lims, v, fams[i])
    case Some(ratio) => v[i] * ratio
    case None => v[i]
  }

  function FamilyScaled(fams: seq<string>, lims: seq<Option<real>>, v: seq<real>): seq<real>
    requires |fams| == |lims| == |v|
  {
    seq(|v|, i requires 0 <= i < |v| => ScaledInFamily(fams, lims, v, i))
  }

  /** `v` with the families of `done` already brought within their limits, the others untouched. */
  function ScaledFor(fams: seq<string>, lims: seq<Option<real>>, v: seq<real>, done: set<string>): seq<real>
    requires |fams| == |lims| == |v|
  {
    seq(|v|, i requires 0 <= i < |v| => if fams[i] in done then ScaledInFamily(fams, lims, v, i) else v[i])
  }

  /** Every member of family `f` multiplied by `r`. */
  function Rescaled(fams: seq<string>, v: seq<real>, f: string, r: real): seq<real>
    requires |fams| == |v|
  {
    seq(|v|, i requires 0 <= i < |v| => if fams[i] == f then v[i] * r else v[i])
  }

  /** Every entry multiplied by `r`. */
  function ScaledBy(v: seq<real>, r: real): seq<real> {
    seq(|v|, i requires 0 <= i < |v| => v[i] * r)
  }

  /** Every entry scaled by 100 / total when the total exceeds 100. */
  function Normalized(v: seq<real>): seq<real> {
    if Sum(v) > 100.0 then ScaledBy(v, 100.0 / Sum(v)) else v
  }

  /** Role percents, then per-plant clamp, then family limits, then the global 100. */
  function Dosages(roles: seq<string>, maxima: seq<real>, fams: seq<string>, lims: seq<Option<real>>,
                   current: seq<real>): seq<real>
    requires |roles| == |maxima| == |fams| == |lims| == |current|
  {
    Normalized(FamilyScaled(fams, lims, Clamped(Nominals(roles, current), maxima)))
  }

  // ---------------------------------------------------------------------
  // Lemmas
  // ---------------------------------------------------------------------

  /** A non-negative value scaled by a factor in [0, 1] stays between 0 and itself. */
  lemma ShrinkWithin(x: real, r: real)
    requires 0.0 <= x && 0.0 <= r <= 1.0
    ensures 0.0 <= x * r <= x
  {
    assert x - x * r == x * (1.0 - r);
  }

  lemma QuotientTimes(a: real, b: real)
    requires b != 0.0
    ensures (a / b) * b == a && b * (a / b) == a
  {
  }

  lemma QuotientBelowOne(a: real, b: real)
    requires 0.0 <= a < b
    ensures 0.0 <= a / b < 1.0
  {
    QuotientTimes(a, b);
  }

  lemma {:induction false} SumScaled(v: seq<real>, w: seq<real>, r: real, n: nat)
    requires |v| == |w| && n <= |v|
    requires forall k :: 0 <= k < n ==> w[k] == v[k] * r
    ensures SumTo(w, n) == SumTo(v, n) * r
  {
    if n > 0 {
      SumScaled(v, w, r, n - 1);
      calc {
        SumTo(w, n);
        SumTo(v, n - 1) * r + v[n - 1] * r;
        (SumTo(v, n - 1) + v[n - 1]) * r;
      }
    }
  }

  lemma {:induction false} FamilySumScaled(fams: seq<string>, v: seq<real>, w: seq<real>, f: string, r: real, n: nat)
    requires |fams| == |v| == |w| && n <= |v|
    requires forall k :: 0 <= k < n && fams[k] == f ==> w[k] == v[k] * r
    ensures FamilySumTo(fams, w, f, n) == FamilySumTo(fams, v, f, n) * r
  {
    if n > 0 {
      FamilySumScaled(fams, v, w, f, r, n - 1);
      if fams[n - 1] == f {
        calc {
          FamilySumTo(fams, w, f, n);
          FamilySumTo(fams, v, f, n - 1) * r + v[n - 1] * r;
          (FamilySumTo(fams, v, f, n - 1) + v[n - 1]) * r;
        }
      }
    }
  }

  /** A family sum depends only on the family's own entries. */
  lemma {:induction false} FamilySumAgree(fams: seq<string>, v: seq<real>, w: seq<real>, f: string, n: nat)
    requires |fams| == |v| == |w| && n <= |v|
    requires forall k :: 0 <= k < n && fams[k] == f ==> w[k] == v[k]
    ensures FamilySumTo(fams, w, f, n) == FamilySumTo(fams, v, f, n)
  {
    if n > 0 {
      FamilySumAgree(fams, v, w, f, n - 1);
    }
  }

  lemma {:induction false} FamilySumMonotone(fams: seq<string>, v: seq<real>, w: seq<real>, f: string, n: nat)
    requires |fams| == |v| == |w| && n <= |v|
    requires forall k :: 0 <= k < n ==> w[k] <= v[k]
    ensures FamilySumTo(fams, w, f, n) <= FamilySumTo(fams, v, f, n)
  {
    if n > 0 {
      FamilySumMonotone(fams, v, w, f, n - 1);
    }
  }

  lemma {:induction false} SumNonNegative(v: seq<real>, n: nat)
    requires n <= |v| && NonNegative(v)
    ensures SumTo(v, n) >= 0.0
  {
    if n > 0 {
      SumNonNegative(v, n - 1);
    }
  }

  lemma {:induction false} FamilySumNonNegative(fams: seq<string>, v: seq<real>, f: string, n: nat)
    requires |fams| == |v| && n <= |v| && NonNegative(v)
    ensures FamilySumTo(fams, v, f, n) >= 0.0
  {
    if n > 0 {
      FamilySumNonNegative(fams, v, f, n - 1);
    }
  }

  /** With non-negative limits, a family is only ever shrunk: its ratio lies in [0, 1). */
  lemma FamilyRatioRange(fams: seq<string>, lims: seq<Option<real>>, v: seq<real>, f: string)
    requires |fams| == |lims| == |v| && LimitsNonNegative(lims)
    requires FamilyRatio(fams, lims, v, f).Some?
    ensures 0.0 <= FamilyRatio(fams, lims, v, f).value < 1.0
  {
    var m := LeaderLimit(fams, lims, f).value;
    var total := FamilySum(fams, v, f);
    QuotientBelowOne(m, total);
  }

  /** The family shrink never raises a percent nor makes it negative. */
  lemma FamilyScaledShrinks(fams: seq<string>, lims: seq<Option<real>>, v: seq<real>)
    requires |fams| == |lims| == |v|
    requires NonNegative(v) && LimitsNonNegative(lims)
    ensures forall i :: 0 <= i < |v| ==> 0.0 <= FamilyScaled(fams, lims, v)[i] <= v[i]
  {
    forall i | 0 <= i < |v|
      ensures 0.0 <= FamilyScaled(fams, lims, v)[i] <= v[i]
    {
      var r := FamilyRatio(fams, lims, v, fams[i]);
      if r.Some? {
        FamilyRatioRange(fams, lims, v, fams[i]);
        ShrinkWithin(v[i], r.value);
      }
    }
  }

  /** After the family shrink, every family whose first member carries a limit sums to at most that limit. */
  lemma FamilyScaledWithinLimit(fams: seq<string>, lims: seq<Option<real>>, v: seq<real>, f: string)
    requires |fams| == |lims| == |v| && LimitsNonNegative(lims)
    requires LeaderLimit(fams, lims, f).Some?
    ensures FamilySum(fams, FamilyScaled(fams, lims, v), f) <= LeaderLimit(fams, lims, f).value
  {
    var r := FamilyRatio(fams, lims, v, f);
    if r.Some? {
      FamilyScaledSum(fams, lims, v, f, r.value);
      QuotientTimes(LeaderLimit(fams, lims, f).value, FamilySum(fams, v, f));
    } else {
      FamilyScaledSum(fams, lims, v, f, 1.0);
    }
  }

  /**
   * A family's sum after the shrink is its sum before times its ratio, or
   * unchanged when it has none.
   */
  lemma FamilyScaledSum(fams: seq<string>, lims: seq<Option<real>>, v: seq<real>, f: string, ratio: real)
    requires |fams| == |lims| == |v|
    requires FamilyRatio(fams, lims, v, f) == Some(ratio) || (FamilyRatio(fams, lims, v, f).None? && ratio == 1.0)
    ensures FamilySum(fams, FamilyScaled(fams, lims, v), f) == FamilySum(fams, v, f) * ratio
  {
    var w := FamilyScaled(fams, lims, v);
    forall k | 0 <= k < |v| && fams[k] == f
      ensures w[k] == v[k] * ratio
    {
      assert w[k] == ScaledInFamily(fams, lims, v, k);
    }
    FamilySumScaled(fams, v, w, f, ratio, |v|);
  }

  /** The global shrink never raises a percent nor makes it negative, and the total ends at most 100. */
  lemma NormalizedBounds(v: seq<real>)
    requires NonNegative(v)
    ensures |Normalized(v)| == |v|
    ensures forall i :: 0 <= i < |v| ==> 0.0 <= Normalized(v)[i] <= v[i]
    ensures Sum(Normalized(v)) <= 100.0
  {
    var w := Normalized(v);
    if Sum(v) > 100.0 {
      var ratio := 100.0 / Sum(v);
      QuotientBelowOne(100.0, Sum(v));
      forall i | 0 <= i < |v|
        ensures 0.0 <= w[i] <= v[i]
      {
        ShrinkWithin(v[i], ratio);
      }
      SumScaled(v, w, ratio, |v|);
      QuotientTimes(100.0, Sum(v));
    }
  }

  /**
   * The dosage guarantees: every percent lies between 0 and the plant's
   * (possibly capped) maximum, every family whose first member carries a
   * limit sums to at most that limit, and the whole formula to at most 100.
   * They hold because the clamp comes first and both shrinks use a ratio in
   * [0, 1), so a later step never breaks an earlier bound.
   */
  lemma DosageBounds(roles: seq<string>, maxima: seq<real>, fams: seq<string>, lims: seq<Option<real>>,
                     current: seq<real>)
    requires |roles| == |maxima| == |fams| == |lims| == |current|
    requires NonNegative(maxima) && NonNegative(current) && LimitsNonNegative(lims)
    ensures var w := Dosages(roles, maxima, fams, lims, current);
      && |w| == |roles|
      && (forall i :: 0 <= i < |w| ==> 0.0 <= w[i] <= maxima[i])
      && Sum(w) <= 100.0
      && (forall f :: LeaderLimit(fams, lims, f).Some? ==> FamilySum(fams, w, f) <= LeaderLimit(fams, lims, f).value)
  {
    var nominal := Nominals(roles, current);
    var clamped := Clamped(nominal, maxima);
    assert NonNegative(clamped);
    var scaled := FamilyScaled(fams, lims, clamped);
    FamilyScaledShrinks(fams, lims, clamped);
    NormalizedBounds(scaled);
    var w := Normalized(scaled);
    forall f | LeaderLimit(fams, lims, f).Some?
      ensures FamilySum(fams, w, f) <= LeaderLimit(fams, lims, f).value
    {
      FamilyScaledWithinLimit(fams, lims, clamped, f);
      FamilySumMonotone(fams, scaled, w, f, |w|);
    }
  }

  /**
   * Family limits can be applied one family at a time: a family not yet
   * handled still has its original sum, and handling it rescales exactly its
   * members by its ratio (or leaves everything as it is).
   */
  lemma ScaledForStep(fams: seq<string>, lims: seq<Option<real>>, v: seq<real>, done: set<string>, f: string)
    requires |fams| == |lims| == |v| && f !in done
    ensures FamilySum(fams, ScaledFor(fams, lims, v, done), f) == FamilySum(fams, v, f)
    ensures FamilyRatio(fams, lims, v, f).Some? ==>
              ScaledFor(fams, lims, v, done + {f})
              == Rescaled(fams, ScaledFor(fams, lims, v, done), f, FamilyRatio(fams, lims, v, f).value)
    ensures FamilyRatio(fams, lims, v, f).None? ==>
              ScaledFor(fams, lims, v, done + {f}) == ScaledFor(fams, lims, v, done)
  {
    var before, after := ScaledFor(fams, lims, v, done), ScaledFor(fams, lims, v, done + {f});
    FamilySumAgree(fams, v, before, f, |v|);
    if FamilyRatio(fams, lims, v, f).Some? {
      var r := FamilyRatio(fams, lims, v, f).value;
      forall i | 0 <= i < |v|
        ensures after[i] == Rescaled(fams, before, f, r)[i]
      {
        if fams[i] == f {
          assert after[i] == v[i] * r;
        }
      }
    }
  }

  lemma ScaledForAll(fams: seq<string>, lims: seq<Option<real>>, v: seq<real>, done: set<string>)
    requires |fams| == |lims| == |v|
    requires forall i :: 0 <= i < |fams| ==> fams[i] in done
    ensures ScaledFor(fams, lims, v, done) == FamilyScaled(fams, lims, v)
  {
  }
}
