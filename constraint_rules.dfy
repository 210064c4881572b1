/**
 * The rule semantics behind the constraint engine, as pure functions on
 * rules, profiles and plant states: which safety rule excludes a plant,
 * what the conditional limits do to its maximum and role, and what the
 * antagonism entries do to its score and exclusion status. The methods in
 * module ConstraintEngine are proved against these definitions.
 */
module ConstraintRules {
  import opened Plants
  import opened Profiles
  import opened Sequences

  // ---------------------------------------------------------------------
  // Safety: a triggered "exclude" rule rejects the plant.
  // ---------------------------------------------------------------------

  predicate ExcludesUnder(r: Rule, conditions: map<string, bool>) {
    r.action.Exclude? && Holds(conditions, r.condition)
  }

  /** The condition of the first rule, in rule order, that excludes the plant. */
  function FirstExclusion(rules: seq<Rule>, conditions: map<string, bool>): Option<string> {
    if rules == [] then None
    else if ExcludesUnder(rules[0], conditions) then Some(rules[0].condition)
    else FirstExclusion(rules[1..], conditions)
  }

  /** The plant is rejected exactly when some "exclude" rule's condition holds; no other action rejects. */
  lemma {:induction false} FirstExclusionNoneIff(rules: seq<Rule>, conditions: map<string, bool>)
    ensures FirstExclusion(rules, conditions).None?
            <==> forall i :: 0 <= i < |rules| ==> !ExcludesUnder(rules[i], conditions)
  {
    if rules != [] {
      FirstExclusionNoneIff(rules[1..], conditions);
      if !ExcludesUnder(rules[0], conditions) {
        forall i | 1 <= i < |rules|
          ensures rules[i] == rules[1..][i - 1]
        {
        }
      }
    }
  }

  /** The reported condition is that of the first triggered "exclude" rule. */
  lemma {:induction false} FirstExclusionAt(rules: seq<Rule>, conditions: map<string, bool>, i: nat)
    requires i < |rules| && ExcludesUnder(rules[i], conditions)
    requires forall j :: 0 <= j < i ==> !ExcludesUnder(rules[j], conditions)
    ensures FirstExclusion(rules, conditions) == Some(rules[i].condition)
  {
    if i > 0 {
      assert rules[1..][i - 1] == rules[i];
      FirstExclusionAt(rules[1..], conditions, i - 1);
    }
  }

  /** The exclusion reason check_safety leaves on the plant. */
  function SafetyVerdict(rules: seq<Rule>, conditions: map<string, bool>): (r: Option<Exclusion>)
    ensures r.None? <==> FirstExclusion(rules, conditions).None?
  {
    match FirstExclusion(rules, conditions)
    case Some(k) => Some(UnsafeUnder(k))
    case None => None
  }

  // ---------------------------------------------------------------------
  // Conditional limits: cap_percent lowers the maximum, set_role overrides
  // the role, each triggered rule overwrites the adjustment note.
  // ---------------------------------------------------------------------

  predicate CapTriggered(r: Rule, conditions: map<string, bool>) {
    r.action.CapPercent? && Holds(conditions, r.condition)
  }

  predicate RoleTriggered(r: Rule, conditions: map<string, bool>) {
    r.action.SetRole? && Holds(conditions, r.condition)
  }

  function LimitStep(s: PlantState, r: Rule, conditions: map<string, bool>): PlantState {
    if !Holds(conditions, r.condition) then s
    else match r.action
      case CapPercent(cap) =>
        if s.maxPercent > cap then s.(maxPercent := cap, reasons := [Capped(cap, r.condition)]) else s
      case SetRole(role) => s.(finalRole := role, reasons := [Shifted(role, r.condition)])
      case _ => s
  }

  /** The rules applied one after another, in rule order. */
  function ApplyLimits(rules: seq<Rule>, conditions: map<string, bool>, s: PlantState): (t: PlantState)
    ensures t.relevanceScore == s.relevanceScore && t.finalPercent == s.finalPercent
    ensures t.exclusion == s.exclusion
    decreases |rules|
  {
    if rules == [] then s
    else LimitStep(ApplyLimits(rules[..|rules| - 1], conditions, s), rules[|rules| - 1], conditions)
  }

  /**
   * The maximum after the limits is the minimum of the old maximum and of
   * every triggered cap: never above any of them, and equal to one of them.
   */
  lemma {:induction false} LimitsCapIsMinimum(rules: seq<Rule>, conditions: map<string, bool>, s: PlantState)
    ensures ApplyLimits(rules, conditions, s).maxPercent <= s.maxPercent
    ensures forall i :: 0 <= i < |rules| && CapTriggered(rules[i], conditions) ==>
              ApplyLimits(rules, conditions, s).maxPercent <= rules[i].action.cap
    ensures || ApplyLimits(rules, conditions, s).maxPercent == s.maxPercent
            || exists i :: 0 <= i < |rules| && CapTriggered(rules[i], conditions) &&
                 ApplyLimits(rules, conditions, s).maxPercent == rules[i].action.cap
    decreases |rules|
  {
    if rules != [] {
      var n := |rules| - 1;
      var init := rules[..n];
      LimitsCapIsMinimum(init, conditions, s);
      assert forall i :: 0 <= i < n ==> init[i] == rules[i];
      var t := ApplyLimits(init, conditions, s);
      if t.maxPercent != s.maxPercent {
        var i :| 0 <= i < |init| && CapTriggered(init[i], conditions) && t.maxPercent == init[i].action.cap;
        assert CapTriggered(rules[i], conditions);
      }
    }
  }

  /**
   * The final role is the value of the last triggered set_role rule, and
   * the role the plant came in with when no set_role rule triggers.
   */
  lemma {:induction false} LimitsRoleIsLastSetRole(rules: seq<Rule>, conditions: map<string, bool>, s: PlantState)
    ensures (forall i :: 0 <= i < |rules| ==> !RoleTriggered(rules[i], conditions)) ==>
              ApplyLimits(rules, conditions, s).finalRole == s.finalRole
    ensures forall i :: 0 <= i < |rules| && RoleTriggered(rules[i], conditions) &&
                        (forall j :: i < j < |rules| ==> !RoleTriggered(rules[j], conditions)) ==>
              ApplyLimits(rules, conditions, s).finalRole == rules[i].action.role
    decreases |rules|
  {
    if rules != [] {
      var n := |rules| - 1;
      var init := rules[..n];
      LimitsRoleIsLastSetRole(init, conditions, s);
      var t := ApplyLimits(init, conditions, s);
      assert ApplyLimits(rules, conditions, s) == LimitStep(t, rules[n], conditions);
      if !RoleTriggered(rules[n], conditions) {
        assert ApplyLimits(rules, conditions, s).finalRole == t.finalRole;
        assert forall i :: 0 <= i < n ==> init[i] == rules[i];
      }
    }
  }

  predicate CapsNonNegative(rules: seq<Rule>) {
    forall i :: 0 <= i < |rules| && rules[i].action.CapPercent? ==> rules[i].action.cap >= 0.0
  }

  // ---------------------------------------------------------------------
  // Screening of one ranked plant (the loop body of the safe-list pass).
  // ---------------------------------------------------------------------

  /** An empty final role falls back to the catalog role. */
  function DefaultRole(s: PlantState, role: string): PlantState {
    if s.finalRole == "" then s.(finalRole := role) else s
  }

  /**
   * The state of a plant after check_safety and, when it passes, the
   * conditional limits and the default-role fallback.
   */
  function Screened(rules: seq<Rule>, role: string, conditions: map<string, bool>, s: PlantState): PlantState {
    match FirstExclusion(rules, conditions)
    case Some(k) => s.(exclusion := Some(UnsafeUnder(k)))
    case None => DefaultRole(ApplyLimits(rules, conditions, s.(exclusion := None)), role)
  }

  /**
   * Screening never raises the maximum, keeps it non-negative when the caps
   * are, leaves score and percent alone, clears the exclusion of a plant that
   * passes, and gives it a non-empty role when its catalog role is non-empty.
   */
  lemma ScreenedKeeps(rules: seq<Rule>, role: string, conditions: map<string, bool>, s: PlantState)
    ensures var t := Screened(rules, role, conditions, s);
      && t.maxPercent <= s.maxPercent
      && (CapsNonNegative(rules) && s.maxPercent >= 0.0 ==> t.maxPercent >= 0.0)
      && t.relevanceScore == s.relevanceScore && t.finalPercent == s.finalPercent
      && (FirstExclusion(rules, conditions).None? ==> t.exclusion == None && (role != "" ==> t.finalRole != ""))
      && (FirstExclusion(rules, conditions).Some? ==> t.finalRole == s.finalRole && t.maxPercent == s.maxPercent)
  {
    LimitsCapIsMinimum(rules, conditions, s.(exclusion := None));
  }

  // ---------------------------------------------------------------------
  // Antagonisms among the selected plants.
  // ---------------------------------------------------------------------

  /** No condition, or one without ">=", always triggers; "key>=n" triggers iff key_level >= n. */
  predicate ConditionTriggers(c: ClashCondition, p: Profile) {
    match c
    case NoCondition => true
    case WithoutAtLeast => true
    case AtLeast(key, threshold) => Level(p, key) >= threshold
  }

  /** An entry is considered when its opponent is selected, and triggers when its condition does. */
  predicate Triggered(a: Antagonism, ids: set<string>, p: Profile) {
    a.opponent in ids && ConditionTriggers(a.condition, p)
  }

  /** Some triggered entry asks for exclusion. */
  predicate ClashExcludes(ants: seq<Antagonism>, ids: set<string>, p: Profile) {
    exists i :: 0 <= i < |ants| && Triggered(ants[i], ids, p) && ants[i].action.ExcludePlant?
  }

  function ClashStep(s: PlantState, a: Antagonism, ids: set<string>, p: Profile): PlantState {
    if !Triggered(a, ids, p) then s
    else match a.action
      case ExcludePlant => s.(exclusion := Some(AntagonismWith(a.opponent)))
      case Penalize(x) =>
        s.(relevanceScore := s.relevanceScore - x, reasons := s.reasons + [AntagonismPenalty(x, a.opponent)])
  }

  /** A plant's antagonism entries applied one after another, in entry order. */
  function ApplyClashes(ants: seq<Antagonism>, ids: set<string>, p: Profile, s: PlantState): (t: PlantState)
    ensures t.maxPercent == s.maxPercent && t.finalRole == s.finalRole && t.finalPercent == s.finalPercent
    decreases |ants|
  {
    if ants == [] then s
    else ClashStep(ApplyClashes(ants[..|ants| - 1], ids, p, s), ants[|ants| - 1], ids, p)
  }

  /** Total penalty of the triggered entries that do not exclude. */
  function PenaltyTotal(ants: seq<Antagonism>, ids: set<string>, p: Profile): real {
    if ants == [] then 0.0
    else
      var a := ants[0];
      (if Triggered(a, ids, p) && a.action.Penalize? then a.action.penalty else 0.0)
      + PenaltyTotal(ants[1..], ids, p)
  }

  lemma {:induction false} PenaltyTotalSnoc(ants: seq<Antagonism>, a: Antagonism, ids: set<string>, p: Profile)
    ensures PenaltyTotal(ants + [a], ids, p)
            == PenaltyTotal(ants, ids, p) + (if Triggered(a, ids, p) && a.action.Penalize? then a.action.penalty else 0.0)
  {
    if ants != [] {
      assert (ants + [a])[1..] == ants[1..] + [a];
      PenaltyTotalSnoc(ants[1..], a, ids, p);
    }
  }

  /**
   * After the antagonism entries the score has dropped by exactly the total
   * penalty; the exclusion names the opponent of the last triggered "exclude"
   * entry, and is untouched when there is none.
   */
  lemma {:induction false} ClashesEffect(ants: seq<Antagonism>, ids: set<string>, p: Profile, s: PlantState)
    ensures ApplyClashes(ants, ids, p, s).relevanceScore == s.relevanceScore - PenaltyTotal(ants, ids, p)
    ensures !ClashExcludes(ants, ids, p) ==> ApplyClashes(ants, ids, p, s).exclusion == s.exclusion
    ensures forall i :: 0 <= i < |ants| && Triggered(ants[i], ids, p) && ants[i].action.ExcludePlant? &&
                        (forall j :: i < j < |ants| ==> !(Triggered(ants[j], ids, p) && ants[j].action.ExcludePlant?)) ==>
              ApplyClashes(ants, ids, p, s).exclusion == Some(AntagonismWith(ants[i].opponent))
    decreases |ants|
  {
    if ants != [] {
      var n := |ants| - 1;
      var init := ants[..n];
      ClashesEffect(init, ids, p, s);
      assert init + [ants[n]] == ants;
      PenaltyTotalSnoc(init, ants[n], ids, p);
      assert forall i :: 0 <= i < n ==> init[i] == ants[i];
      if ClashExcludes(init, ids, p) {
        var i :| 0 <= i < |init| && Triggered(init[i], ids, p) && init[i].action.ExcludePlant?;
        assert Triggered(ants[i], ids, p) && ants[i].action.ExcludePlant?;
      }
    }
  }

  /** The ids marked for exclusion: those of plants with a triggered "exclude" entry against the set. */
  function ExcludedIds(ps: seq<Plant>, p: Profile): set<string> {
    set q | q in ps && ClashExcludes(q.antagonisms, Ids(ps), p) :: q.id
  }

  /** The plants whose id is not in `ids`, in their original order. */
  function WithoutIds(ps: seq<Plant>, ids: set<string>): (r: seq<Plant>)
    ensures forall i :: 0 <= i < |r| ==> r[i] in ps && r[i].id !in ids
    ensures forall i :: 0 <= i < |ps| && ps[i].id !in ids ==> ps[i] in r
    ensures |r| <= |ps|
    ensures Distinct(ps) ==> Distinct(r)
  {
    if ps == [] then []
    else if ps[0].id in ids then WithoutIds(ps[1..], ids)
    else [ps[0]] + WithoutIds(ps[1..], ids)
  }

  /** The survivors keep their original order. */
  lemma {:induction false} WithoutIdsInOrder(ps: seq<Plant>, ids: set<string>)
    ensures SubsequenceOf(WithoutIds(ps, ids), ps)
  {
    if ps == [] {
      assert Picks([], WithoutIds(ps, ids), ps);
    } else {
      WithoutIdsInOrder(ps[1..], ids);
      var tidx :| Picks(tidx, WithoutIds(ps[1..], ids), ps[1..]);
      PicksCons(tidx, WithoutIds(ps[1..], ids), ps);
      if ps[0].id in ids {
        assert Picks(ShiftedUp(tidx), WithoutIds(ps, ids), ps);
      } else {
        assert Picks([0] + ShiftedUp(tidx), WithoutIds(ps, ids), ps);
      }
    }
  }

  /** Entries triggered against a set stay triggered against any larger set. */
  lemma ClashExcludesGrows(ants: seq<Antagonism>, small: set<string>, large: set<string>, p: Profile)
    requires small <= large
    ensures ClashExcludes(ants, small, p) ==> ClashExcludes(ants, large, p)
  {
    if ClashExcludes(ants, small, p) {
      var i :| 0 <= i < |ants| && Triggered(ants[i], small, p) && ants[i].action.ExcludePlant?;
      assert Triggered(ants[i], large, p);
    }
  }

  /**
   * No plant that survives the antagonism pass has a triggered "exclude"
   * entry, neither against the whole selected set nor against the survivors.
   */
  lemma SurvivorsCompatible(ps: seq<Plant>, p: Profile)
    ensures forall q :: q in WithoutIds(ps, ExcludedIds(ps, p)) ==> !ClashExcludes(q.antagonisms, Ids(ps), p)
    ensures forall q :: q in WithoutIds(ps, ExcludedIds(ps, p)) ==>
              !ClashExcludes(q.antagonisms, Ids(WithoutIds(ps, ExcludedIds(ps, p))), p)
  {
    var kept := WithoutIds(ps, ExcludedIds(ps, p));
    forall q | q in ps && ClashExcludes(q.antagonisms, Ids(ps), p)
      ensures q.id in ExcludedIds(ps, p)
    {
    }
    assert Ids(kept) <= Ids(ps);
    forall q | q in kept
      ensures !ClashExcludes(q.antagonisms, Ids(kept), p)
    {
      ClashExcludesGrows(q.antagonisms, Ids(kept), Ids(ps), p);
    }
  }
}
