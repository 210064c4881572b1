/**
 * The constraint engine's static operations, which update plants in place:
 * the safety check, the antagonism check among selected plants, the
 * conditional limits and the functional-family limits. Each is proved equal
 * to the matching definition of modules ConstraintRules and Dosage.
 */
module ConstraintEngine {
  import opened Sequences
  import opened Plants
  import opened Profiles
  import opened ConstraintRules
  import opened Dosage

  /**
   * Whether the plant is safe under the profile's conditions. The exclusion
   * reason is cleared, then set to the condition of the first triggered
   * "exclude" rule, at which point the remaining rules are not looked at.
   */
  method CheckSafety(plant: Plant, profile: Profile) returns (safe: bool)
    modifies plant
    ensures safe <==> FirstExclusion(plant.rules, profile.conditions).None?
    ensures plant.State() == old(plant.State()).(exclusion := SafetyVerdict(plant.rules, profile.conditions))
  {
    plant.exclusionReason := None;
    var rules := plant.rules;
    for i := 0 to |rules|
      invariant forall j :: 0 <= j < i ==> !ExcludesUnder(rules[j], profile.conditions)
      invariant plant.State() == old(plant.State()).(exclusion := None)
    {
      var rule := rules[i];
      if Holds(profile.conditions, rule.condition) {
        if rule.action.Exclude? {
          plant.exclusionReason := Some(UnsafeUnder(rule.condition));
          FirstExclusionAt(rules, profile.conditions, i);
          return false;
        }
      }
    }
    FirstExclusionNoneIff(rules, profile.conditions);
    return true;
  }

  /**
   * Applies the plant's triggered cap_percent and set_role rules in order:
   * a cap lowers max_percent when it is below it, a role rule overwrites the
   * final role; either records its own note in place of the previous one.
   */
  method ApplyConditionalLimits(plant: Plant, profile: Profile)
    modifies plant
    ensures plant.State() == ApplyLimits(plant.rules, profile.conditions, old(plant.State()))
  {
    var rules := plant.rules;
    for i := 0 to |rules|
      invariant plant.State() == ApplyLimits(rules[..i], profile.conditions, old(plant.State()))
    {
      assert rules[..i + 1][..i] == rules[..i];
      var rule := rules[i];
      if Holds(profile.conditions, rule.condition) {
        match rule.action {
          case CapPercent(cap) =>
            if plant.maxPercent > cap {
              plant.maxPercent := cap;
              plant.adjustmentReason := [Capped(cap, rule.condition)];
            }
          case SetRole(newRole) =>
            plant.finalRole := newRole;
            plant.adjustmentReason := [Shifted(newRole, rule.condition)];
          case _ =>
        }
      }
    }
    assert rules[..|rules|] == rules;
  }

  /**
   * Applies every plant's antagonism entries whose opponent is among the
   * selected ids: a triggered "exclude" entry marks the plant's id for
   * removal and records the opponent, any other triggered entry subtracts
   * its penalty. Removal happens only after every plant has been examined,
   * so every plant is judged against the full selected set.
   */
  method CheckAntagonisms(selected: seq<Plant>, profile: Profile) returns (kept: seq<Plant>)
    requires Distinct(selected)
    modifies selected
    ensures kept == WithoutIds(selected, ExcludedIds(selected, profile))
    ensures forall i :: 0 <= i < |selected| ==>
              selected[i].State() == ApplyClashes(selected[i].antagonisms, Ids(selected), profile, old(selected[i].State()))
    ensures forall i :: 0 <= i < |kept| ==>
              && !ClashExcludes(kept[i].antagonisms, Ids(selected), profile)
              && !ClashExcludes(kept[i].antagonisms, Ids(kept), profile)
              && kept[i].exclusionReason == old(kept[i].exclusionReason)
  {
    var ids := set p | p in selected :: p.id;
    var toExclude: set<string> := {};
    for i := 0 to |selected|
      invariant toExclude == ExcludedAmong(selected[..i], ids, profile)
      invariant forall j :: 0 <= j < i ==>
                  selected[j].State() == ApplyClashes(selected[j].antagonisms, ids, profile, old(selected[j].State()))
      invariant forall j :: i <= j < |selected| ==> selected[j].State() == old(selected[j].State())
    {
      var excludes := ClashesOf(selected[i], ids, profile);
      ExcludedAmongSnoc(selected, i, ids, profile);
      if excludes {
        toExclude := toExclude + {selected[i].id};
      }
    }
    assert selected[..|selected|] == selected;
    kept := WithoutIds(selected, toExclude);
    SurvivorsCompatible(selected, profile);
    forall i | 0 <= i < |kept|
      ensures kept[i].exclusionReason == old(kept[i].exclusionReason)
    {
      var q := kept[i];
      var j :| 0 <= j < |selected| && selected[j] == q;
      ClashesEffect(q.antagonisms, Ids(selected), profile, old(q.State()));
    }
  }

  /** The ids of the plants of `ps` that one of their own entries excludes. */
  ghost function ExcludedAmong(ps: seq<Plant>, ids: set<string>, profile: Profile): set<string> {
    set q | q in ps && ClashExcludes(q.antagonisms, ids, profile) :: q.id
  }

  lemma ExcludedAmongSnoc(ps: seq<Plant>, i: nat, ids: set<string>, profile: Profile)
    requires i < |ps|
    ensures ExcludedAmong(ps[..i + 1], ids, profile)
         == ExcludedAmong(ps[..i], ids, profile) + (if ClashExcludes(ps[i].antagonisms, ids, profile) then {ps[i].id} else {})
  {
    assert ps[..i + 1] == ps[..i] + [ps[i]];
  }

  /**
   * One plant's pass over its antagonism entries: a triggered entry either
   * records the opponent as the exclusion reason or subtracts its penalty.
   * Returns whether an "exclude" entry triggered.
   */
  method ClashesOf(p: Plant, ids: set<string>, profile: Profile) returns (excludes: bool)
    modifies p
    ensures excludes == ClashExcludes(p.antagonisms, ids, profile)
    ensures p.State() == ApplyClashes(p.antagonisms, ids, profile, old(p.State()))
  {
    var ants := p.antagonisms;
    excludes := false;
    for k := 0 to |ants|
      invariant p.State() == ApplyClashes(ants[..k], ids, profile, old(p.State()))
      invariant excludes == ClashExcludes(ants[..k], ids, profile)
    {
      assert ants[..k + 1][..k] == ants[..k];
      var ant := ants[k];
      if ant.opponent in ids {
        var triggered := true;
        match ant.condition {
          case AtLeast(key, threshold) =>
            var userVal := Level(profile, key);
            if userVal < threshold {
              triggered := false;
            }
          case _ =>
        }
        if triggered {
          match ant.action {
            case ExcludePlant =>
              excludes := true;
              p.exclusionReason := Some(AntagonismWith(ant.opponent));
            case Penalize(penalty) =>
              p.relevanceScore := p.relevanceScore - penalty;
              p.adjustmentReason := p.adjustmentReason + [AntagonismPenalty(penalty, ant.opponent)];
          }
        }
      }
    }
    assert ants[..|ants|] == ants;
  }

  /**
   * Groups the plants by functional family in order of first appearance;
   * for each family whose first member carries a limit, a family total above
   * the limit scales every member by limit / total.
   */
  method ValidateFamilyLimits(plants: seq<Plant>)
    requires Distinct(plants)
    modifies plants
    ensures Percents(plants) == FamilyScaled(Families(plants), FamilyLimits(plants), old(Percents(plants)))
    ensures forall i :: 0 <= i < |plants| ==>
              plants[i].State() == old(plants[i].State()).(finalPercent := plants[i].finalPercent)
  {
    ghost var fams := Families(plants);
    ghost var lims := FamilyLimits(plants);
    ghost var v0 := Percents(plants);
    var seen: set<string> := {};
    for i := 0 to |plants|
      invariant forall j :: 0 <= j < i ==> plants[j].familyFunctional in seen
      invariant forall j :: 0 <= j < |plants| ==>
                  plants[j].State() == old(plants[j].State()).(finalPercent := plants[j].finalPercent)
      invariant Percents(plants) == ScaledFor(fams, lims, v0, seen)
    {
      var fam := plants[i].familyFunctional;
      if fam !in seen {
        LimitFamily(plants, i, v0, seen);
        seen := seen + {fam};
      }
    }
    ScaledForAll(fams, lims, v0, seen);
  }

  /**
   * The step for plants[i], the first member of its family: when it carries
   * a limit and the family's total is above it, the family is scaled by
   * limit / total.
   */
  method LimitFamily(plants: seq<Plant>, i: nat, ghost v0: seq<real>, ghost seen: set<string>)
    requires Distinct(plants) && i < |plants| == |v0|
    requires plants[i].familyFunctional !in seen
    requires forall j :: 0 <= j < i ==> plants[j].familyFunctional in seen
    requires Percents(plants) == ScaledFor(Families(plants), FamilyLimits(plants), v0, seen)
    modifies plants
    ensures Percents(plants) == ScaledFor(Families(plants), FamilyLimits(plants), v0, seen + {plants[i].familyFunctional})
    ensures forall k :: 0 <= k < |plants| ==>
              plants[k].State() == old(plants[k].State()).(finalPercent := plants[k].finalPercent)
  {
    ghost var fams, lims := Families(plants), FamilyLimits(plants);
    var fam := plants[i].familyFunctional;
    LeaderLimitAt(fams, lims, i);
    ScaledForStep(fams, lims, v0, seen, fam);
    var limit := plants[i].familyLimit;
    if limit.Some? {
      var maxSum := limit.value;
      var current := FamilyTotal(plants, fam);
      if current > maxSum && current != 0.0 {
        ScaleFamily(plants, fam, maxSum / current);
      }
    }
  }

  /** The sum of the final percents of the members of family `fam`. */
  method FamilyTotal(plants: seq<Plant>, fam: string) returns (total: real)
    ensures total == FamilySum(Families(plants), Percents(plants), fam)
  {
    total := 0.0;
    for j := 0 to |plants|
      invariant total == FamilySumTo(Families(plants), Percents(plants), fam, j)
    {
      if plants[j].familyFunctional == fam {
        total := total + plants[j].finalPercent;
      }
    }
  }

  /** Multiplies the final percent of every member of family `fam` by `ratio`. */
  method ScaleFamily(plants: seq<Plant>, fam: string, ratio: real)
    requires Distinct(plants)
    modifies plants
    ensures Percents(plants) == Rescaled(Families(plants), old(Percents(plants)), fam, ratio)
    ensures forall k :: 0 <= k < |plants| ==>
              plants[k].State() == old(plants[k].State()).(finalPercent := plants[k].finalPercent)
  {
    ghost var v := Percents(plants);
    ghost var scaled := Rescaled(Families(plants), v, fam, ratio);
    for j := 0 to |plants|
      invariant forall k :: 0 <= k < |plants| ==>
                  plants[k].State() == old(plants[k].State()).(finalPercent := plants[k].finalPercent)
      invariant forall k :: 0 <= k < j ==> plants[k].finalPercent == scaled[k]
      invariant forall k :: j <= k < |plants| ==> plants[k].finalPercent == v[k]
    {
      if plants[j].familyFunctional == fam {
        var shrunk := plants[j].finalPercent * ratio;
        assert shrunk == scaled[j];
        plants[j].finalPercent := shrunk;
      }
    }
    assert Percents(plants) == scaled;
  }
}
