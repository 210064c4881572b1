/**
 * The formulator: a catalog of plants loaded once, and the pipeline that
 * turns a request into a formula (scoring, safety screening and conditional
 * limits, selection by role, synergies, antagonisms, dosages, output).
 * Every stage updates the catalog's plants in place. A request overwrites
 * every plant's relevance and clears every plant's exclusion before
 * screening it; the maximum, the final role, the final percent and the notes
 * are never reset, so they carry over from one request to the next.
 */
module Formulator {
  import opened Sequences
  import opened Plants
  import opened Profiles
  import opened ConstraintRules
  import opened ConstraintEngine
  import opened Dosage
  import opened Ranking
  import opened Formulation

  /** One catalog record, with the defaults of absent fields already filled in. */
  datatype Entry = Entry(
    id: string,
    name: string,
    familyFunctional: string,
    role: string,
    maxPercent: real,
    rules: seq<Rule>,
    familyLimit: Option<real>,
    scores: map<string, int>,
    synergies: seq<Synergy>,
    antagonisms: seq<Antagonism>)

  /** The plant was built from the record and has not been through a request yet. */
  ghost predicate Loaded(p: Plant, e: Entry)
    reads p
  {
    && p.id == e.id && p.name == e.name && p.familyFunctional == e.familyFunctional && p.role == e.role
    && p.rules == e.rules && p.familyLimit == e.familyLimit && p.scores == e.scores
    && p.synergies == e.synergies && p.antagonisms == e.antagonisms
    && p.State() == PlantState(e.maxPercent, 0.0, "", 0.0, None, [])
  }

  /** The plant's own numbers are non-negative. */
  ghost predicate PlantSound(p: Plant)
    reads p
  {
    && p.maxPercent >= 0.0 && p.finalPercent >= 0.0 && CapsNonNegative(p.rules)
    && (p.familyLimit.Some? ==> p.familyLimit.value >= 0.0)
  }

  /**
   * The dosage guarantees of a formula: each percent between 0 and the
   * plant's maximum, each limited family within its limit, the total at most 100.
   */
  ghost predicate DosesWithinBounds(ps: seq<Plant>)
    reads ps
  {
    && (forall i :: 0 <= i < |ps| ==> 0.0 <= ps[i].finalPercent <= ps[i].maxPercent)
    && Sum(Percents(ps)) <= 100.0
    && (forall f :: LeaderLimit(Families(ps), FamilyLimits(ps), f).Some? ==>
          FamilySum(Families(ps), Percents(ps), f) <= LeaderLimit(Families(ps), FamilyLimits(ps), f).value)
  }

  /** A prefix of the candidates of a role: plants of the list with that role, none twice. */
  lemma TakenCandidates(ranked: seq<Plant>, role: string, n: nat)
    requires Distinct(ranked)
    ensures Distinct(Take(Candidates(ranked, role), n))
    ensures forall i :: 0 <= i < |Take(Candidates(ranked, role), n)| ==>
              Take(Candidates(ranked, role), n)[i] in ranked && Take(Candidates(ranked, role), n)[i].finalRole == role
  {
    CandidatesExact(ranked, role);
  }

  /** The selection has no plant twice and takes its plants from the ranked list. */
  lemma SelectionDistinct(ranked: seq<Plant>, primary: seq<Plant>, secondary: seq<Plant>, support: seq<Plant>, n: nat)
    requires Distinct(ranked)
    requires primary == Take(Candidates(ranked, PRIMARY), 2)
    requires secondary == Take(Candidates(ranked, SECONDARY), 3)
    requires support == Take(Candidates(ranked, SUPPORT), n)
    ensures Distinct(primary + secondary + support)
    ensures forall i :: 0 <= i < |primary + secondary + support| ==> (primary + secondary + support)[i] in ranked
  {
    TakenCandidates(ranked, PRIMARY, 2);
    TakenCandidates(ranked, SECONDARY, 3);
    TakenCandidates(ranked, SUPPORT, n);
    assert PRIMARY != SECONDARY && PRIMARY != SUPPORT && SECONDARY != SUPPORT;
    DistinctJoin(primary, secondary);
    DistinctJoin(primary + secondary, support);
  }

  /** A plant's state once a request has scored and screened it, from its state before the request. */
  ghost function Prepared(p: Plant, profile: Profile): (r: PlantState)
    reads p
    ensures r.finalPercent == p.finalPercent
  {
    var scored := p.State().(relevanceScore := Relevance(p.scores, profile.priorities) as real);
    ScreenedKeeps(p.rules, p.role, profile.conditions, scored);
    Screened(p.rules, p.role, profile.conditions, scored)
  }

  ghost function PreparedStates(ps: seq<Plant>, profile: Profile): seq<PlantState>
    reads ps
  {
    seq(|ps|, i requires 0 <= i < |ps| reads ps => Prepared(ps[i], profile))
  }

  /**
   * A plant's state after the composition stage: a selected plant gets its
   * synergies and then its antagonism entries, both against the selection;
   * any other plant is left as it was.
   */
  function Composed(p: Plant, selected: seq<Plant>, profile: Profile, s: PlantState): (r: PlantState)
    ensures r.maxPercent == s.maxPercent && r.finalRole == s.finalRole && r.finalPercent == s.finalPercent
    ensures p !in selected ==> r == s
  {
    if p in selected then ApplyClashes(p.antagonisms, Ids(selected), profile, Synergized(s, p.synergies, Ids(selected))) else s
  }

  /** The states of a list's plants after the composition stage, from their states before it. */
  function ComposedStates(ps: seq<Plant>, selected: seq<Plant>, profile: Profile, pre: seq<PlantState>): seq<PlantState>
    requires |pre| == |ps|
  {
    seq(|ps|, i requires 0 <= i < |ps| => Composed(ps[i], selected, profile, pre[i]))
  }

  /** Dropping plants never raises the number holding a role. */
  lemma {:induction false} RolesWithout(ps: seq<Plant>, ids: set<string>, role: string)
    ensures CountOf(Roles(WithoutIds(ps, ids)), role) <= CountOf(Roles(ps), role)
  {
    if ps != [] {
      RolesWithout(ps[1..], ids, role);
      assert Roles(ps)[1..] == Roles(ps[1..]);
      if ps[0].id !in ids {
        var rest := WithoutIds(ps[1..], ids);
        assert WithoutIds(ps, ids) == [ps[0]] + rest;
        assert Roles([ps[0]] + rest)[1..] == Roles(rest);
      }
    }
  }

  /** Each plant taken from a role's candidates holds that role. */
  lemma TakenHoldRole(ps: seq<Plant>, st: seq<PlantState>, role: string, n: nat)
    requires |st| == |ps|
    requires forall j :: 0 <= j < |ps| ==> ps[j].finalRole == st[j].finalRole
    ensures forall k :: 0 <= k < |Take(CandidatesIn(ps, st, role), n)| ==> Roles(Take(CandidatesIn(ps, st, role), n))[k] == role
  {
    CandidatesInExact(ps, st, role);
    var c := CandidatesIn(ps, st, role);
    forall k | 0 <= k < |Take(c, n)|
      ensures Roles(Take(c, n))[k] == role
    {
      assert k < |c| && Take(c, n)[k] == c[k];
      var j :| 0 <= j < |ps| && ps[j] == c[k] && st[j].relevanceScore > 0.0 && st[j].finalRole == role;
      assert Roles(Take(c, n))[k] == ps[j].finalRole;
    }
  }

  /** How often a role occurs among the survivors of three lists is at most its count in each, added up. */
  lemma RoleCountParts(p: seq<Plant>, s: seq<Plant>, u: seq<Plant>, ids: set<string>, role: string)
    ensures CountOf(Roles(WithoutIds(p + s + u, ids)), role) <= CountOf(Roles(p), role) + CountOf(Roles(s), role) + CountOf(Roles(u), role)
  {
    RolesWithout(p + s + u, ids, role);
    assert Roles(p + s + u) == Roles(p) + Roles(s) + Roles(u);
    CountOfConcat(Roles(p) + Roles(s), Roles(u), role);
    CountOfConcat(Roles(p), Roles(s), role);
  }

  /**
   * Whatever the antagonism pass removes, the formula holds at most two
   * primary, three secondary and two support plants, as long as the plants
   * still hold the roles they were selected with.
   */
  lemma SelectionRoleBounds(ps: seq<Plant>, st: seq<PlantState>, ids: set<string>)
    requires |st| == |ps|
    requires forall j :: 0 <= j < |ps| ==> ps[j].finalRole == st[j].finalRole
    ensures var kept := WithoutIds(SelectionIn(ps, st), ids);
      && CountOf(Roles(kept), PRIMARY) <= 2
      && CountOf(Roles(kept), SECONDARY) <= 3
      && CountOf(Roles(kept), SUPPORT) <= 2
  {
    var p := Take(CandidatesIn(ps, st, PRIMARY), 2);
    var s := Take(CandidatesIn(ps, st, SECONDARY), 3);
    var n := Min(2, 5 - |p| - |s|);
    var u := Take(CandidatesIn(ps, st, SUPPORT), n);
    assert SelectionIn(ps, st) == p + s + u;
    TakenHoldRole(ps, st, PRIMARY, 2);
    TakenHoldRole(ps, st, SECONDARY, 3);
    TakenHoldRole(ps, st, SUPPORT, n);
    assert PRIMARY != SECONDARY && PRIMARY != SUPPORT && SECONDARY != SUPPORT;
    RoleCountParts(p, s, u, ids, PRIMARY);
    RoleCountParts(p, s, u, ids, SECONDARY);
    RoleCountParts(p, s, u, ids, SUPPORT);
    CountOfBound(Roles(p), PRIMARY);
    CountOfBound(Roles(s), PRIMARY);
    CountOfBound(Roles(u), PRIMARY);
    CountOfBound(Roles(p), SECONDARY);
    CountOfBound(Roles(s), SECONDARY);
    CountOfBound(Roles(u), SECONDARY);
    CountOfBound(Roles(p), SUPPORT);
    CountOfBound(Roles(s), SUPPORT);
    CountOfBound(Roles(u), SUPPORT);
  }

  /**
   * Plants drawn from a list whose plants all reached their scored and
   * screened state are in that state too; screening leaves percents alone
   * and keeps numbers non-negative.
   */
  twostate lemma PreparedAmong(new all: seq<Plant>, new sub: seq<Plant>, profile: Profile)
    requires forall i :: 0 <= i < |all| ==> old(allocated(all[i]))
    requires forall i :: 0 <= i < |all| ==> all[i].State() == old(Prepared(all[i], profile))
    requires forall k :: 0 <= k < |sub| ==> sub[k] in all
    ensures States(sub) == old(PreparedStates(sub, profile)) && Percents(sub) == old(Percents(sub))
    ensures forall k :: 0 <= k < |sub| ==> old(PlantSound(sub[k])) ==> PlantSound(sub[k])
  {
    forall k | 0 <= k < |sub|
      ensures sub[k].State() == old(Prepared(sub[k], profile))
      ensures sub[k].finalPercent == old(sub[k].finalPercent)
      ensures old(PlantSound(sub[k])) ==> PlantSound(sub[k])
    {
      var i :| 0 <= i < |all| && all[i] == sub[k];
      var q := sub[k];
      ScreenedKeeps(q.rules, q.role, profile.conditions, old(q.State()).(relevanceScore := Relevance(q.scores, profile.priorities) as real));
    }
    assert States(sub) == old(PreparedStates(sub, profile));
  }

  /**
   * The composition of a selection drawn from the safe list, seen from the
   * whole catalog, whose states on entry were `pre`: composing leaves every
   * percent alone and keeps numbers non-negative.
   */
  twostate lemma ComposedAmong(new all: seq<Plant>, new safe: seq<Plant>, new selected: seq<Plant>, profile: Profile, new pre: seq<PlantState>)
    requires forall i :: 0 <= i < |all| ==> old(allocated(all[i]))
    requires old(States(all)) == pre
    requires forall k :: 0 <= k < |safe| ==> safe[k] in all
    requires forall k :: 0 <= k < |selected| ==> selected[k] in safe
    requires forall k :: 0 <= k < |safe| ==> safe[k].State() == Composed(safe[k], selected, profile, old(safe[k].State()))
    requires forall i :: 0 <= i < |all| && all[i] !in safe ==> all[i].State() == old(all[i].State())
    ensures ComposedStates(all, selected, profile, pre) == States(all)
    ensures Percents(all) == old(Percents(all))
    ensures forall i :: 0 <= i < |all| ==> old(PlantSound(all[i])) ==> PlantSound(all[i])
  {
    forall i | 0 <= i < |all|
      ensures all[i].State() == Composed(all[i], selected, profile, pre[i])
    {
      assert old(States(all))[i] == old(all[i].State());
      if all[i] in safe {
        var k :| 0 <= k < |safe| && safe[k] == all[i];
      }
    }
    assert States(all) == ComposedStates(all, selected, profile, pre);
    forall i | 0 <= i < |all|
      ensures Percents(all)[i] == old(Percents(all))[i]
    {
      assert States(all)[i] == ComposedStates(all, selected, profile, pre)[i];
    }
  }

  /**
   * The plants left after composing a safe list drawn from the catalog are
   * catalog plants that pass screening and carry no exclusion.
   */
  twostate lemma SurvivorsAmong(new all: seq<Plant>, new safe: seq<Plant>, new kept: seq<Plant>, profile: Profile)
    requires forall i :: 0 <= i < |all| ==> old(allocated(all[i]))
    requires forall k :: 0 <= k < |safe| ==> safe[k] in all
    requires forall k :: 0 <= k < |safe| ==>
               && FirstExclusion(safe[k].rules, profile.conditions).None?
               && old(safe[k].exclusionReason) == None
    requires forall k :: 0 <= k < |kept| ==> kept[k] in safe && kept[k].exclusionReason == old(kept[k].exclusionReason)
    ensures forall k :: 0 <= k < |kept| ==>
              && kept[k] in all
              && FirstExclusion(kept[k].rules, profile.conditions).None?
              && kept[k].exclusionReason == None
  {
    forall k | 0 <= k < |kept|
      ensures kept[k] in all && FirstExclusion(kept[k].rules, profile.conditions).None? && kept[k].exclusionReason == None
    {
      var j :| 0 <= j < |safe| && safe[j] == kept[k];
    }
  }

  /** When no plant of a list changed its percent, no plant drawn from it did. */
  twostate lemma PercentsAmong(new all: seq<Plant>, new sub: seq<Plant>)
    requires forall i :: 0 <= i < |all| ==> old(allocated(all[i]))
    requires forall k :: 0 <= k < |sub| ==> sub[k] in all
    requires Percents(all) == old(Percents(all))
    ensures Percents(sub) == old(Percents(sub))
  {
    forall k | 0 <= k < |sub|
      ensures sub[k].finalPercent == old(sub[k].finalPercent)
    {
      var i :| 0 <= i < |all| && all[i] == sub[k];
      assert Percents(all)[i] == old(Percents(all))[i];
    }
    assert Percents(sub) == old(Percents(sub));
  }

  /** Plants drawn from a list of sound plants are sound. */
  lemma SoundAmong(all: seq<Plant>, sub: seq<Plant>)
    requires forall k :: 0 <= k < |sub| ==> sub[k] in all
    ensures (forall i :: 0 <= i < |all| ==> PlantSound(all[i])) ==> forall k :: 0 <= k < |sub| ==> PlantSound(sub[k])
  {
    if forall i :: 0 <= i < |all| ==> PlantSound(all[i]) {
      forall k | 0 <= k < |sub|
        ensures PlantSound(sub[k])
      {
        var i :| 0 <= i < |all| && all[i] == sub[k];
      }
    }
  }

  /**
   * Dosages computed for plants whose numbers are non-negative meet the
   * dosage guarantees, and leave the plants' numbers non-negative.
   */
  twostate lemma DosesOfSoundPlants(kept: seq<Plant>)
    requires forall i :: 0 <= i < |kept| ==> old(PlantSound(kept[i]))
    requires Percents(kept) == Dosages(old(Roles(kept)), old(Maxima(kept)), Families(kept), FamilyLimits(kept), old(Percents(kept)))
    requires forall i :: 0 <= i < |kept| ==> kept[i].State() == old(kept[i].State()).(finalPercent := kept[i].finalPercent)
    ensures DosesWithinBounds(kept)
    ensures forall i :: 0 <= i < |kept| ==> PlantSound(kept[i])
  {
    var roles, maxima, current := old(Roles(kept)), old(Maxima(kept)), old(Percents(kept));
    var fams, lims := Families(kept), FamilyLimits(kept);
    forall i | 0 <= i < |kept|
      ensures maxima[i] >= 0.0 && current[i] >= 0.0 && (lims[i].Some? ==> lims[i].value >= 0.0)
      ensures Maxima(kept)[i] == maxima[i]
    {
      assert old(PlantSound(kept[i]));
    }
    assert Maxima(kept) == maxima;
    DosageBounds(roles, maxima, fams, lims, current);
    var w := Percents(kept);
    forall i | 0 <= i < |kept|
      ensures 0.0 <= kept[i].finalPercent <= kept[i].maxPercent
    {
      assert kept[i].finalPercent == w[i] && kept[i].maxPercent == maxima[i];
    }
    assert Sum(w) <= 100.0;
    assert forall f :: LeaderLimit(fams, lims, f).Some? ==> FamilySum(fams, w, f) <= LeaderLimit(fams, lims, f).value;
  }

  class HerbalFormulator {
    /** The catalog, in file order; the list itself never changes, its plants do. */
    const db: seq<Plant>

    /** Builds one fresh plant per record. */
    constructor (entries: seq<Entry>)
      ensures |db| == |entries| && Valid()
      ensures forall i :: 0 <= i < |db| ==> fresh(db[i]) && Loaded(db[i], entries[i])
    {
      var ps: seq<Plant> := [];
      for i := 0 to |entries|
        invariant |ps| == i && Distinct(ps)
        invariant forall j :: 0 <= j < i ==> fresh(ps[j]) && Loaded(ps[j], entries[j])
      {
        var e := entries[i];
        var p := new Plant(e.id, e.name, e.familyFunctional, e.role, e.maxPercent,
                           e.rules, e.familyLimit, e.scores, e.synergies, e.antagonisms);
        ps := ps + [p];
      }
      db := ps;
    }

    /** Each catalog plant is a separate object. */
    ghost predicate Valid() {
      Distinct(db)
    }

    /** Every plant's maximum, percent, caps and family limit are non-negative. */
    ghost predicate Sound()
      reads db
    {
      forall i :: 0 <= i < |db| ==> PlantSound(db[i])
    }

    /**
     * A request: the profile gains its threshold flags; the catalog is
     * scored and ranked; the safe plants get their conditional limits; the
     * composition is selected by role; synergies and antagonisms are applied
     * to the selection; the survivors get their dosages and are formatted.
     * The ghost results name the intermediate lists: the safe list, the
     * composition chosen from it and the plants that survive antagonisms.
     * The formula has at most five plants, at most two primary, three
     * secondary and two support, none of which has a triggered "exclude"
     * rule or a triggered antagonism exclusion against the others. Every
     * catalog plant ends in its scored, screened and composed state, and
     * only the survivors' percents change, to their dosages. On a catalog
     * whose numbers are non-negative, every percent lies between 0 and the
     * plant's maximum, each limited family stays within its limit and the
     * percents sum to at most 100.
     */
    method GenerateFormula(request: Profile)
      returns (formula: Formula, ghost safe: seq<Plant>, ghost selected: seq<Plant>, ghost chosen: seq<Plant>)
      requires Valid()
      modifies db
      ensures safe == Passing(SortDesc(db, RelevanceKey(request.priorities)), WithThresholdFlags(request).conditions)
      ensures selected == SelectionIn(safe, old(PreparedStates(safe, WithThresholdFlags(request))))
      ensures chosen == WithoutIds(selected, ExcludedIds(selected, WithThresholdFlags(request)))
      ensures formula == FormatOutput(chosen)
      ensures |chosen| <= 5 && Distinct(chosen) && AllIn(chosen, db)
      ensures CountOf(Roles(chosen), PRIMARY) <= 2 && CountOf(Roles(chosen), SECONDARY) <= 3 && CountOf(Roles(chosen), SUPPORT) <= 2
      ensures forall i :: 0 <= i < |chosen| ==>
                && FirstExclusion(chosen[i].rules, WithThresholdFlags(request).conditions).None?
                && chosen[i].exclusionReason == None
                && !ClashExcludes(chosen[i].antagonisms, Ids(chosen), WithThresholdFlags(request))
      ensures forall i :: 0 <= i < |db| ==>
                db[i].State() == Composed(db[i], selected, WithThresholdFlags(request),
                                          old(PreparedStates(db, WithThresholdFlags(request)))[i]).(finalPercent := db[i].finalPercent)
      ensures forall i :: 0 <= i < |db| && db[i] !in chosen ==> db[i].finalPercent == old(Percents(db))[i]
      ensures Percents(chosen) == Dosages(Roles(chosen), Maxima(chosen), Families(chosen), FamilyLimits(chosen), old(Percents(chosen)))
      ensures old(Sound()) ==> Sound() && DosesWithinBounds(chosen)
    {
      var profile := WithThresholdFlags(request);
      ghost var pre := PreparedStates(db, profile);
      var kept;
      kept, safe, selected := RankAndCompose(profile, pre);
      PercentsAmong(db, kept);
      ghost var mid := ComposedStates(db, selected, profile, pre);
      DoseInCatalog(kept, mid);
      chosen := kept;
      formula := FormatOutput(kept);
    }

    /**
     * The stages up to the dosages: scoring, ranking and screening of the
     * catalog, then selection by role, synergies and antagonisms within the
     * selection. The ghost parameter names the states the catalog's plants
     * reach by scoring and screening; the ghost results name the safe list
     * and the composition chosen from it. No percent changes.
     */
    method RankAndCompose(profile: Profile, ghost pre: seq<PlantState>)
      returns (kept: seq<Plant>, ghost safe: seq<Plant>, ghost selected: seq<Plant>)
      requires Valid() && pre == PreparedStates(db, profile)
      modifies db
      ensures safe == Passing(SortDesc(db, RelevanceKey(profile.priorities)), profile.conditions)
      ensures selected == SelectionIn(safe, old(PreparedStates(safe, profile)))
      ensures kept == WithoutIds(selected, ExcludedIds(selected, profile))
      ensures States(db) == ComposedStates(db, selected, profile, pre)
      ensures Percents(db) == old(Percents(db))
      ensures |kept| <= 5 && Distinct(kept)
      ensures CountOf(Roles(kept), PRIMARY) <= 2 && CountOf(Roles(kept), SECONDARY) <= 3 && CountOf(Roles(kept), SUPPORT) <= 2
      ensures forall i :: 0 <= i < |kept| ==>
                && kept[i] in db
                && FirstExclusion(kept[i].rules, profile.conditions).None?
                && kept[i].exclusionReason == None
                && !ClashExcludes(kept[i].antagonisms, Ids(kept), profile)
      ensures old(Sound()) ==> Sound()
    {
      var safeList := RankSafe(profile);
      safe := safeList;
      selected := SelectionIn(safe, old(PreparedStates(safe, profile)));
      kept := ComposeInCatalog(safeList, profile, selected, pre);
    }

    /**
     * Selection, synergies and antagonisms over the safe list, seen from the
     * whole catalog: the selected plants take their composed state, every
     * other plant keeps its state. The ghost parameters name the selection
     * and the catalog's states on entry.
     */
    method ComposeInCatalog(safe: seq<Plant>, profile: Profile, ghost selected: seq<Plant>, ghost pre: seq<PlantState>)
      returns (kept: seq<Plant>)
      requires Valid() && Distinct(safe)
      requires forall i :: 0 <= i < |safe| ==>
                 && safe[i] in db
                 && FirstExclusion(safe[i].rules, profile.conditions).None?
                 && safe[i].exclusionReason == None
      requires selected == SelectionIn(safe, States(safe)) && States(db) == pre
      modifies db
      ensures kept == WithoutIds(selected, ExcludedIds(selected, profile))
      ensures States(db) == ComposedStates(db, selected, profile, pre)
      ensures Percents(db) == old(Percents(db))
      ensures |kept| <= 5 && Distinct(kept)
      ensures CountOf(Roles(kept), PRIMARY) <= 2 && CountOf(Roles(kept), SECONDARY) <= 3 && CountOf(Roles(kept), SUPPORT) <= 2
      ensures forall i :: 0 <= i < |kept| ==>
                && kept[i] in db
                && FirstExclusion(kept[i].rules, profile.conditions).None?
                && kept[i].exclusionReason == None
                && !ClashExcludes(kept[i].antagonisms, Ids(kept), profile)
      ensures old(Sound()) ==> Sound()
    {
      kept := ComposeSelection(safe, profile);
      ComposedAmong(db, safe, selected, profile, pre);
      SurvivorsAmong(db, safe, kept, profile);
    }

    /**
     * The dosage stage over the surviving plants, seen from the whole
     * catalog: only the survivors' percents change. The ghost parameter
     * names the catalog's states on entry.
     */
    method DoseInCatalog(kept: seq<Plant>, ghost mid: seq<PlantState>)
      requires Valid() && Distinct(kept) && States(db) == mid
      requires forall i :: 0 <= i < |kept| ==> kept[i] in db
      modifies db
      ensures Percents(kept) == Dosages(Roles(kept), Maxima(kept), Families(kept), FamilyLimits(kept), old(Percents(kept)))
      ensures forall i :: 0 <= i < |db| ==> db[i].State() == mid[i].(finalPercent := db[i].finalPercent)
      ensures forall i :: 0 <= i < |db| && db[i] !in kept ==> db[i].finalPercent == mid[i].finalPercent
      ensures forall i :: 0 <= i < |kept| ==> kept[i].exclusionReason == old(kept[i].exclusionReason)
      ensures Roles(kept) == old(Roles(kept))
      ensures old(Sound()) ==> Sound() && DosesWithinBounds(kept)
    {
      SoundAmong(db, kept);
      CalculateDosages(kept);
      if old(Sound()) {
        DosesOfSoundPlants(kept);
      }
    }

    /**
     * Scoring and ranking of the catalog, then the safety pass with the
     * conditional limits: the safe plants, in ranked order.
     */
    method RankSafe(profile: Profile) returns (safe: seq<Plant>)
      requires Valid()
      modifies db
      ensures safe == Passing(SortDesc(db, RelevanceKey(profile.priorities)), profile.conditions)
      ensures States(db) == old(PreparedStates(db, profile)) && Percents(db) == old(Percents(db))
      ensures States(safe) == old(PreparedStates(safe, profile))
      ensures Distinct(safe)
      ensures forall i :: 0 <= i < |safe| ==>
                && safe[i] in db
                && FirstExclusion(safe[i].rules, profile.conditions).None?
                && safe[i].exclusionReason == None
      ensures old(Sound()) ==> Sound()
    {
      var ranked := ScorePlants(profile.priorities);
      label Scored:
      SameElements(ranked, db);
      safe := ScreenRanked(ranked, profile);
      forall i | 0 <= i < |ranked|
        ensures ranked[i].State() == old(Prepared(ranked[i], profile))
      {
      }
      PreparedAmong(ranked, db, profile);
      PreparedAmong(ranked, safe, profile);
      forall k | 0 <= k < |safe|
        ensures safe[k] in db
      {
        var j :| 0 <= j < |ranked| && ranked[j] == safe[k];
      }
    }

    /**
     * Selection by role among the safe plants, then synergies and
     * antagonisms within the selection: the plants that remain.
     */
    method ComposeSelection(safe: seq<Plant>, profile: Profile) returns (kept: seq<Plant>)
      requires Distinct(safe)
      modifies safe
      ensures var selected := SelectionIn(safe, old(States(safe)));
        && Distinct(selected) && (forall i :: 0 <= i < |selected| ==> selected[i] in safe)
        && kept == WithoutIds(selected, ExcludedIds(selected, profile))
      ensures forall i :: 0 <= i < |safe| ==>
                safe[i].State() == Composed(safe[i], SelectionIn(safe, old(States(safe))), profile, old(safe[i].State()))
      ensures |kept| <= 5 && Distinct(kept)
      ensures CountOf(Roles(kept), PRIMARY) <= 2 && CountOf(Roles(kept), SECONDARY) <= 3 && CountOf(Roles(kept), SUPPORT) <= 2
      ensures forall i :: 0 <= i < |kept| ==>
                && kept[i] in safe
                && kept[i].exclusionReason == old(kept[i].exclusionReason)
                && !ClashExcludes(kept[i].antagonisms, Ids(kept), profile)
    {
      ghost var st := States(safe);
      var primary, secondary, support := SelectComposition(safe);
      var selected := primary + secondary + support;
      assert selected == SelectionIn(safe, st);
      SelectionDistinct(safe, primary, secondary, support, Min(2, 5 - |primary| - |secondary|));
      ApplySynergies(selected);
      label AfterSynergies:
      kept := CheckAntagonisms(selected, profile);
      forall i | 0 <= i < |safe|
        ensures safe[i].State() == Composed(safe[i], selected, profile, old(safe[i].State()))
        ensures safe[i].finalRole == st[i].finalRole
      {
        if safe[i] in selected {
          var j :| 0 <= j < |selected| && selected[j] == safe[i];
        }
      }
      SelectionRoleBounds(safe, st, ExcludedIds(selected, profile));
      forall i | 0 <= i < |kept|
        ensures kept[i] in safe && kept[i].exclusionReason == old(kept[i].exclusionReason)
      {
        var j :| 0 <= j < |selected| && selected[j] == kept[i];
        assert old@AfterSynergies(kept[i].exclusionReason) == old(kept[i].exclusionReason);
      }
    }

    /**
     * Sets every plant's relevance score to the sum of its scores over the
     * priorities, then returns the catalog ranked by descending score; plants
     * with equal scores keep their catalog order.
     */
    method ScorePlants(priorities: seq<string>) returns (ranked: seq<Plant>)
      requires Valid()
      modifies db
      ensures forall i :: 0 <= i < |db| ==>
                db[i].State() == old(db[i].State()).(relevanceScore := Relevance(db[i].scores, priorities) as real)
      ensures ranked == SortDesc(db, RelevanceKey(priorities))
      ensures multiset(ranked) == multiset(db) && Distinct(ranked)
      ensures forall i :: 0 <= i < |ranked| ==> ranked[i] in db
      ensures forall i :: 0 <= i < |ranked| ==>
                ranked[i].State() == old(ranked[i].State()).(relevanceScore := Relevance(ranked[i].scores, priorities) as real)
    {
      for i := 0 to |db|
        invariant forall j :: 0 <= j < i ==>
                    db[j].State() == old(db[j].State()).(relevanceScore := Relevance(db[j].scores, priorities) as real)
        invariant forall j :: i <= j < |db| ==> db[j].State() == old(db[j].State())
      {
        var plant := db[i];
        var score := 0;
        for k := 0 to |priorities|
          invariant score == Relevance(plant.scores, priorities[..k])
        {
          assert priorities[..k + 1][..k] == priorities[..k];
          var prio := priorities[k];
          score := score + (if prio in plant.scores then plant.scores[prio] else 0);
        }
        assert priorities[..|priorities|] == priorities;
        plant.relevanceScore := score as real;
      }
      ranked := SortDesc(db, RelevanceKey(priorities));
      SortDescDistinct(db, RelevanceKey(priorities));
      SameElements(ranked, db);
      forall k | 0 <= k < |ranked|
        ensures ranked[k].State() == old(ranked[k].State()).(relevanceScore := Relevance(ranked[k].scores, priorities) as real)
      {
        var i :| 0 <= i < |db| && db[i] == ranked[k];
      }
    }

    /**
     * The safety pass over the ranked plants: each is checked; one that
     * passes gets its conditional limits and, if it has no final role yet,
     * its catalog role, and is kept. Returns the kept plants in ranked order.
     */
    method ScreenRanked(ranked: seq<Plant>, profile: Profile) returns (safe: seq<Plant>)
      requires Distinct(ranked)
      modifies ranked
      ensures forall i :: 0 <= i < |ranked| ==>
                ranked[i].State() == Screened(ranked[i].rules, ranked[i].role, profile.conditions, old(ranked[i].State()))
      ensures safe == Passing(ranked, profile.conditions)
      ensures forall i :: 0 <= i < |safe| ==> safe[i].exclusionReason == None
      ensures forall i :: 0 <= i < |ranked| ==> old(PlantSound(ranked[i])) ==> PlantSound(ranked[i])
    {
      safe := [];
      for i := 0 to |ranked|
        invariant safe == Passing(ranked[..i], profile.conditions)
        invariant forall j :: 0 <= j < i ==>
                    ranked[j].State() == Screened(ranked[j].rules, ranked[j].role, profile.conditions, old(ranked[j].State()))
        invariant forall j :: i <= j < |ranked| ==> ranked[j].State() == old(ranked[j].State())
      {
        assert ranked[..i + 1][..i] == ranked[..i];
        var p := ranked[i];
        var ok := ScreenPlant(p, profile);
        if ok {
          safe := safe + [p];
        }
      }
      assert ranked[..|ranked|] == ranked;
      forall i | 0 <= i < |ranked|
        ensures old(PlantSound(ranked[i])) ==> PlantSound(ranked[i])
      {
        var q := ranked[i];
        ScreenedKeeps(q.rules, q.role, profile.conditions, old(q.State()));
      }
      forall i | 0 <= i < |safe|
        ensures safe[i].exclusionReason == None
      {
        var q := safe[i];
        ScreenedKeeps(q.rules, q.role, profile.conditions, old(q.State()));
      }
    }

    /**
     * One plant of the safety pass: checked, and when it passes, given its
     * conditional limits and, if it has no final role yet, its catalog role.
     */
    method ScreenPlant(p: Plant, profile: Profile) returns (ok: bool)
      modifies p
      ensures ok <==> FirstExclusion(p.rules, profile.conditions).None?
      ensures p.State() == Screened(p.rules, p.role, profile.conditions, old(p.State()))
      ensures old(PlantSound(p)) ==> PlantSound(p)
    {
      ScreenedKeeps(p.rules, p.role, profile.conditions, p.State());
      ok := CheckSafety(p, profile);
      if ok {
        ApplyConditionalLimits(p, profile);
        if p.finalRole == "" {
          p.finalRole := p.role;
        }
      }
    }

    /**
     * Picks, among the plants with a positive score, the first two primary,
     * the first three secondary, and as many of the first support plants as
     * keep the support count at most two and the total at most five.
     */
    method SelectComposition(ranked: seq<Plant>) returns (primary: seq<Plant>, secondary: seq<Plant>, support: seq<Plant>)
      ensures primary == Take(Candidates(ranked, PRIMARY), 2)
      ensures secondary == Take(Candidates(ranked, SECONDARY), 3)
      ensures |primary| + |secondary| <= 5
      ensures support == Take(Candidates(ranked, SUPPORT), Min(2, 5 - |primary| - |secondary|))
      ensures |primary| <= 2 && |secondary| <= 3 && |support| <= 2 && |primary| + |secondary| + |support| <= 5
    {
      primary, secondary, support := [], [], [];
      var primaryCandidates := Candidates(ranked, PRIMARY);
      if |primaryCandidates| > 0 {
        primary := primary + [primaryCandidates[0]];
        if |primaryCandidates| > 1 {
          primary := primary + [primaryCandidates[1]];
        }
      }
      assert primary == Take(primaryCandidates, 2);
      var secondaryCandidates := Candidates(ranked, SECONDARY);
      for i := 0 to |secondaryCandidates|
        invariant secondary == secondaryCandidates[..Min(3, i)]
      {
        if |secondary| < 3 {
          assert secondaryCandidates[..i + 1] == secondaryCandidates[..i] + [secondaryCandidates[i]];
          secondary := secondary + [secondaryCandidates[i]];
        }
      }
      assert secondary == Take(secondaryCandidates, 3);
      var supportCandidates := Candidates(ranked, SUPPORT);
      ghost var budget: nat := Min(2, 5 - |primary| - |secondary|);
      for i := 0 to |supportCandidates|
        invariant support == supportCandidates[..Min(budget, i)]
      {
        var currentTotal := |primary| + |secondary| + |support|;
        if currentTotal < 5 && |support| < 2 {
          assert supportCandidates[..i + 1] == supportCandidates[..i] + [supportCandidates[i]];
          support := support + [supportCandidates[i]];
        }
      }
      assert support == Take(supportCandidates, budget);
    }

    /**
     * Adds to each selected plant the bonus of every synergy entry whose
     * partner is selected, noting each bonus.
     */
    method ApplySynergies(selected: seq<Plant>)
      requires Distinct(selected)
      modifies selected
      ensures forall i :: 0 <= i < |selected| ==>
                selected[i].State() == Synergized(old(selected[i].State()), selected[i].synergies, Ids(selected))
    {
      var ids := set p | p in selected :: p.id;
      for i := 0 to |selected|
        invariant forall j :: 0 <= j < i ==>
                    selected[j].State() == Synergized(old(selected[j].State()), selected[j].synergies, ids)
        invariant forall j :: i <= j < |selected| ==> selected[j].State() == old(selected[j].State())
      {
        SynergiesOf(selected[i], ids);
      }
    }

    /** One plant's pass over its synergy entries. */
    method SynergiesOf(p: Plant, ids: set<string>)
      modifies p
      ensures p.State() == Synergized(old(p.State()), p.synergies, ids)
    {
      var syns := p.synergies;
      for k := 0 to |syns|
        invariant p.State() == Synergized(old(p.State()), syns[..k], ids)
      {
        assert syns[..k + 1][..k] == syns[..k];
        var syn := syns[k];
        if syn.partner in ids {
          var bonus := syn.bonus;
          p.relevanceScore := p.relevanceScore + bonus;
          p.adjustmentReason := p.adjustmentReason + [SynergyBonus(bonus)];
        }
      }
      assert syns[..|syns|] == syns;
    }

    /**
     * Assigns nominal percents by role, clamps each to its plant's maximum,
     * applies the family limits and finally scales the whole formula down
     * to 100 when it exceeds it.
     */
    method CalculateDosages(all: seq<Plant>)
      requires Distinct(all)
      modifies all
      ensures Percents(all) == Dosages(old(Roles(all)), old(Maxima(all)), Families(all), FamilyLimits(all), old(Percents(all)))
      ensures forall i :: 0 <= i < |all| ==> all[i].State() == old(all[i].State()).(finalPercent := all[i].finalPercent)
      ensures Roles(all) == old(Roles(all)) && Maxima(all) == old(Maxima(all))
    {
      ghost var roles, maxima, v := Roles(all), Maxima(all), Percents(all);
      AssignNominal(all);
      ghost var nominal := Percents(all);
      ApplyCaps(all);
      ghost var clamped := Percents(all);
      assert clamped == Clamped(Nominals(roles, v), maxima);
      ValidateFamilyLimits(all);
      ghost var limited := Percents(all);
      assert limited == FamilyScaled(Families(all), FamilyLimits(all), clamped);
      forall k | 0 <= k < |all|
        ensures Maxima(all)[k] == maxima[k] && Roles(all)[k] == roles[k]
      {
      }
      assert Maxima(all) == maxima && Roles(all) == roles;
      Normalize(all);
    }

    /** 40 for a lone primary, 30 each for two, 20 per secondary, 10 per support. */
    method AssignNominal(all: seq<Plant>)
      requires Distinct(all)
      modifies all
      ensures Percents(all) == Nominals(Roles(all), old(Percents(all)))
      ensures forall i :: 0 <= i < |all| ==> all[i].State() == old(all[i].State()).(finalPercent := all[i].finalPercent)
      ensures Roles(all) == old(Roles(all)) && Maxima(all) == old(Maxima(all))
    {
      var primaries := CountOf(Roles(all), PRIMARY);
      ghost var roles := Roles(all);
      ghost var v := Percents(all);
      ghost var target := Nominals(roles, v);
      for i := 0 to |all|
        invariant forall k :: 0 <= k < |all| ==> all[k].State() == old(all[k].State()).(finalPercent := all[k].finalPercent)
        invariant forall k :: 0 <= k < |all| ==> all[k].finalPercent == if k < i then target[k] else v[k]
      {
        var p := all[i];
        assert target[i] == Nominal(p.finalRole, primaries, p.finalPercent);
        if p.finalRole == PRIMARY {
          if primaries == 1 {
            p.finalPercent := 40.0;
          } else if primaries == 2 {
            p.finalPercent := 30.0;
          }
        } else if p.finalRole == SECONDARY {
          p.finalPercent := 20.0;
        } else if p.finalRole == SUPPORT {
          p.finalPercent := 10.0;
        }
      }
      assert Percents(all) == target;
      assert Roles(all) == roles;
    }

    /** A percent above the plant's maximum becomes the maximum. */
    method ApplyCaps(all: seq<Plant>)
      requires Distinct(all)
      modifies all
      ensures Percents(all) == Clamped(old(Percents(all)), Maxima(all))
      ensures forall i :: 0 <= i < |all| ==> all[i].State() == old(all[i].State()).(finalPercent := all[i].finalPercent)
      ensures Roles(all) == old(Roles(all)) && Maxima(all) == old(Maxima(all))
    {
      ghost var v := Percents(all);
      ghost var target := Clamped(v, Maxima(all));
      for i := 0 to |all|
        invariant forall k :: 0 <= k < |all| ==> all[k].State() == old(all[k].State()).(finalPercent := all[k].finalPercent)
        invariant forall k :: 0 <= k < |all| ==> all[k].finalPercent == if k < i then target[k] else v[k]
      {
        var p := all[i];
        if p.finalPercent > p.maxPercent {
          p.finalPercent := p.maxPercent;
        }
      }
      assert Percents(all) == target;
    }

    /** When the percents sum to more than 100, every one is scaled by 100 / total. */
    method Normalize(all: seq<Plant>)
      requires Distinct(all)
      modifies all
      ensures Percents(all) == Normalized(old(Percents(all)))
      ensures forall i :: 0 <= i < |all| ==> all[i].State() == old(all[i].State()).(finalPercent := all[i].finalPercent)
      ensures Roles(all) == old(Roles(all)) && Maxima(all) == old(Maxima(all))
    {
      var total := TotalPercent(all);
      if total > 100.0 {
        ScaleAll(all, 100.0 / total);
      }
    }

    /** Multiplies every final percent by `ratio`. */
    method ScaleAll(all: seq<Plant>, ratio: real)
      requires Distinct(all)
      modifies all
      ensures Percents(all) == ScaledBy(old(Percents(all)), ratio)
      ensures forall i :: 0 <= i < |all| ==> all[i].State() == old(all[i].State()).(finalPercent := all[i].finalPercent)
    {
      ghost var v := Percents(all);
      ghost var target := ScaledBy(v, ratio);
      for i := 0 to |all|
        invariant forall k :: 0 <= k < |all| ==> all[k].State() == old(all[k].State()).(finalPercent := all[k].finalPercent)
        invariant forall k :: 0 <= k < |all| ==> all[k].finalPercent == if k < i then target[k] else v[k]
      {
        var scaled := all[i].finalPercent * ratio;
        assert scaled == target[i];
        all[i].finalPercent := scaled;
      }
      assert Percents(all) == target;
    }

    /** The sum of the final percents. */
    method TotalPercent(all: seq<Plant>) returns (total: real)
      ensures total == Sum(Percents(all))
    {
      total := 0.0;
      for i := 0 to |all|
        invariant total == SumTo(Percents(all), i)
      {
        total := total + all[i].finalPercent;
      }
    }
  }
}
