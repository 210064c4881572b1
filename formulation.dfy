/**
 * The pure side of the formulator's stages: the relevance score of a plant
 * for a list of priorities, the safe list and the per-role candidate lists,
 * the synergy bonuses, and the numeric projection of the output.
 */
module Formulation {
  import opened Sequences
  import opened Plants
  import opened ConstraintRules
  import opened Dosage

  // ---------------------------------------------------------------------
  // Relevance
  // ---------------------------------------------------------------------

  /** A priority the plant has no score for contributes 0. */
  function Lookup(scores: map<string, int>, key: string): int {
    if key in scores then scores[key] else 0
  }

  /** The sum of the plant's scores over the priorities, a repeated priority counted each time. */
  function Relevance(scores: map<string, int>, priorities: seq<string>): int {
    if |priorities| == 0 then 0
    else Relevance(scores, priorities[..|priorities| - 1]) + Lookup(scores, priorities[|priorities| - 1])
  }

  /** The ranking key: the relevance as a float. */
  function RelevanceKey(priorities: seq<string>): Plant -> real {
    (p: Plant) => Relevance(p.scores, priorities) as real
  }

  lemma {:induction false} RelevanceConcat(scores: map<string, int>, a: seq<string>, b: seq<string>)
    ensures Relevance(scores, a + b) == Relevance(scores, a) + Relevance(scores, b)
  {
    if |b| == 0 {
      assert a + b == a;
    } else {
      assert (a + b)[..|a + b| - 1] == a + b[..|b| - 1];
      RelevanceConcat(scores, a, b[..|b| - 1]);
    }
  }

  /**
   * The relevance depends only on how often each priority is listed, not on
   * the order of the list.
   */
  lemma {:induction false} RelevanceOrderFree(scores: map<string, int>, a: seq<string>, b: seq<string>)
    requires multiset(a) == multiset(b)
    ensures Relevance(scores, a) == Relevance(scores, b)
  {
    if |a| == 0 {
      assert |multiset(b)| == 0;
    } else {
      var x := a[|a| - 1];
      var front := a[..|a| - 1];
      assert x in multiset(b);
      var j :| 0 <= j < |b| && b[j] == x;
      MultisetRemoveLast(a);
      MultisetRemoveAt(b, j);
      RelevanceOrderFree(scores, front, b[..j] + b[j + 1..]);
      RelevanceRemoveAt(scores, b, j);
    }
  }

  /** Taking one priority out of the list takes its score out of the relevance. */
  lemma RelevanceRemoveAt(scores: map<string, int>, b: seq<string>, j: nat)
    requires j < |b|
    ensures Relevance(scores, b) == Relevance(scores, b[..j] + b[j + 1..]) + Lookup(scores, b[j])
  {
    var left := b[..j] + [b[j]];
    assert left[..|left| - 1] == b[..j];
    RelevanceConcat(scores, left, b[j + 1..]);
    RelevanceConcat(scores, b[..j], b[j + 1..]);
    assert b == left + b[j + 1..];
  }

  lemma MultisetRemoveLast<T>(a: seq<T>)
    requires |a| > 0
    ensures multiset(a[..|a| - 1]) == multiset(a) - multiset{a[|a| - 1]}
  {
    assert a == a[..|a| - 1] + [a[|a| - 1]];
  }

  lemma MultisetRemoveAt<T>(b: seq<T>, j: nat)
    requires j < |b|
    ensures multiset(b[..j] + b[j + 1..]) == multiset(b) - multiset{b[j]}
  {
    assert b == b[..j] + [b[j]] + b[j + 1..];
  }

  /** A plant scored on none of the priorities has relevance 0. */
  lemma {:induction false} RelevanceUnscored(scores: map<string, int>, priorities: seq<string>)
    requires forall i :: 0 <= i < |priorities| ==> priorities[i] !in scores
    ensures Relevance(scores, priorities) == 0
  {
    if |priorities| > 0 {
      RelevanceUnscored(scores, priorities[..|priorities| - 1]);
    }
  }

  // ---------------------------------------------------------------------
  // The safe list and the candidate lists
  // ---------------------------------------------------------------------

  /** The plants with no triggered "exclude" rule, in ranked order. */
  function Passing(ps: seq<Plant>, conditions: map<string, bool>): (r: seq<Plant>)
    ensures |r| <= |ps|
    ensures forall i :: 0 <= i < |r| ==> r[i] in ps && FirstExclusion(r[i].rules, conditions).None?
    ensures forall i :: 0 <= i < |ps| && FirstExclusion(ps[i].rules, conditions).None? ==> ps[i] in r
    ensures Distinct(ps) ==> Distinct(r)
  {
    if |ps| == 0 then []
    else
      var last := ps[|ps| - 1];
      assert forall i :: 0 <= i < |ps| - 1 ==> ps[..|ps| - 1][i] == ps[i];
      Passing(ps[..|ps| - 1], conditions) + (if FirstExclusion(last.rules, conditions).None? then [last] else [])
  }

  /** The safe list keeps the ranked order. */
  lemma {:induction false} PassingInOrder(ps: seq<Plant>, conditions: map<string, bool>)
    ensures SubsequenceOf(Passing(ps, conditions), ps)
  {
    if |ps| == 0 {
      assert Picks([], Passing(ps, conditions), ps);
    } else {
      var front := ps[..|ps| - 1];
      PassingInOrder(front, conditions);
      var fidx :| Picks(fidx, Passing(front, conditions), front);
      PicksSnoc(fidx, Passing(front, conditions), ps);
      if FirstExclusion(ps[|ps| - 1].rules, conditions).None? {
        assert Picks(fidx + [|ps| - 1], Passing(ps, conditions), ps);
      } else {
        assert Picks(fidx, Passing(ps, conditions), ps);
      }
    }
  }

  /** The plants whose state in `st` has a positive score and the given final role, in order. */
  function CandidatesIn(ps: seq<Plant>, st: seq<PlantState>, role: string): (r: seq<Plant>)
    requires |st| == |ps|
    ensures |r| <= |ps|
  {
    if |ps| == 0 then []
    else
      var n := |ps| - 1;
      CandidatesIn(ps[..n], st[..n], role) + (if st[n].relevanceScore > 0.0 && st[n].finalRole == role then [ps[n]] else [])
  }

  /** The plants with a positive score and the given final role, in order. */
  function Candidates(ps: seq<Plant>, role: string): (r: seq<Plant>)
    reads ps
    ensures |r| <= |ps|
  {
    CandidatesIn(ps, States(ps), role)
  }

  /** Each candidate is a plant of the list whose state has a positive score and the role. */
  lemma {:induction false} CandidatesInExact(ps: seq<Plant>, st: seq<PlantState>, role: string)
    requires |st| == |ps|
    ensures forall k :: 0 <= k < |CandidatesIn(ps, st, role)| ==>
              exists j :: 0 <= j < |ps| && ps[j] == CandidatesIn(ps, st, role)[k] && st[j].relevanceScore > 0.0 && st[j].finalRole == role
  {
    if |ps| > 0 {
      var n := |ps| - 1;
      CandidatesInExact(ps[..n], st[..n], role);
      var front := CandidatesIn(ps[..n], st[..n], role);
      var r := CandidatesIn(ps, st, role);
      assert r == front + (if st[n].relevanceScore > 0.0 && st[n].finalRole == role then [ps[n]] else []);
      forall k | 0 <= k < |CandidatesIn(ps, st, role)|
        ensures exists j :: 0 <= j < |ps| && ps[j] == CandidatesIn(ps, st, role)[k] && st[j].relevanceScore > 0.0 && st[j].finalRole == role
      {
        if k < |front| {
          var j :| 0 <= j < n && ps[..n][j] == front[k] && st[..n][j].relevanceScore > 0.0 && st[..n][j].finalRole == role;
          assert ps[j] == r[k] && st[j] == st[..n][j];
        } else {
          assert ps[n] == r[k];
        }
      }
    } else {
      assert CandidatesIn(ps, st, role) == [];
    }
  }

  /**
   * The candidates are exactly the plants with a positive score and the
   * role, each once.
   */
  lemma {:induction false} CandidatesExact(ps: seq<Plant>, role: string)
    ensures forall i :: 0 <= i < |Candidates(ps, role)| ==>
              var q := Candidates(ps, role)[i]; q in ps && q.relevanceScore > 0.0 && q.finalRole == role
    ensures forall i :: 0 <= i < |ps| && ps[i].relevanceScore > 0.0 && ps[i].finalRole == role ==> ps[i] in Candidates(ps, role)
    ensures Distinct(ps) ==> Distinct(Candidates(ps, role))
  {
    CandidatesInExact(ps, States(ps), role);
    forall i | 0 <= i < |Candidates(ps, role)|
      ensures var q := Candidates(ps, role)[i]; q in ps && q.relevanceScore > 0.0 && q.finalRole == role
    {
      var j :| 0 <= j < |ps| && ps[j] == Candidates(ps, role)[i] && States(ps)[j].relevanceScore > 0.0 && States(ps)[j].finalRole == role;
      assert States(ps)[j] == ps[j].State();
    }
    if |ps| > 0 {
      var front := ps[..|ps| - 1];
      CandidatesExact(front, role);
      assert States(ps)[..|ps| - 1] == States(front);
      assert forall i :: 0 <= i < |front| ==> front[i] == ps[i];
    }
  }

  /** A role's candidates keep the ranked order. */
  lemma {:induction false} CandidatesInOrder(ps: seq<Plant>, role: string)
    ensures SubsequenceOf(Candidates(ps, role), ps)
  {
    if |ps| == 0 {
      assert Picks([], Candidates(ps, role), ps);
    } else {
      var front := ps[..|ps| - 1];
      CandidatesInOrder(front, role);
      assert States(ps)[..|ps| - 1] == States(front);
      var fidx :| Picks(fidx, Candidates(front, role), front);
      PicksSnoc(fidx, Candidates(front, role), ps);
      var last := ps[|ps| - 1];
      if last.relevanceScore > 0.0 && last.finalRole == role {
        assert Picks(fidx + [|ps| - 1], Candidates(ps, role), ps);
      } else {
        assert Picks(fidx, Candidates(ps, role), ps);
      }
    }
  }

  function Min(a: int, b: int): int {
    if a <= b then a else b
  }

  /** The first n elements, or all of them when there are fewer. */
  function Take<T>(xs: seq<T>, n: nat): (r: seq<T>)
    ensures |r| <= n && |r| <= |xs|
    ensures |r| == n || |r| == |xs|
  {
    xs[..Min(n, |xs|)]
  }

  /**
   * The composition chosen from `ps` when their states are `st`: the first
   * two primary and three secondary candidates, then support candidates up
   * to two of them and five plants in all.
   */
  function SelectionIn(ps: seq<Plant>, st: seq<PlantState>): seq<Plant>
    requires |st| == |ps|
  {
    var primary := Take(CandidatesIn(ps, st, PRIMARY), 2);
    var secondary := Take(CandidatesIn(ps, st, SECONDARY), 3);
    primary + secondary + Take(CandidatesIn(ps, st, SUPPORT), Min(2, 5 - |primary| - |secondary|))
  }

  // ---------------------------------------------------------------------
  // Synergies
  // ---------------------------------------------------------------------

  /** A state after the synergy pass: the selected partners' bonuses added, one note each. */
  function Synergized(s: PlantState, syns: seq<Synergy>, ids: set<string>): PlantState {
    s.(relevanceScore := s.relevanceScore + SynergyTotal(syns, ids), reasons := s.reasons + SynergyNotes(syns, ids))
  }

  /** The sum of the bonuses of the entries whose partner is among `ids`. */
  function SynergyTotal(syns: seq<Synergy>, ids: set<string>): real {
    if |syns| == 0 then 0.0
    else
      var last := syns[|syns| - 1];
      SynergyTotal(syns[..|syns| - 1], ids) + (if last.partner in ids then last.bonus else 0.0)
  }

  /** One bonus note per entry whose partner is among `ids`, in entry order. */
  function SynergyNotes(syns: seq<Synergy>, ids: set<string>): seq<Note> {
    if |syns| == 0 then []
    else
      var last := syns[|syns| - 1];
      SynergyNotes(syns[..|syns| - 1], ids) + (if last.partner in ids then [SynergyBonus(last.bonus)] else [])
  }

  /** The bonuses recorded in a list of notes. */
  function NotedBonus(notes: seq<Note>): real {
    if |notes| == 0 then 0.0
    else NotedBonus(notes[..|notes| - 1]) + (if notes[|notes| - 1].SynergyBonus? then notes[|notes| - 1].bonus else 0.0)
  }

  /**
   * Only entries whose partner is selected count: the notes record exactly
   * the bonus added, and a plant with no selected partner gets nothing.
   */
  lemma {:induction false} SynergyNotesMatchTotal(syns: seq<Synergy>, ids: set<string>)
    ensures NotedBonus(SynergyNotes(syns, ids)) == SynergyTotal(syns, ids)
    ensures (forall i :: 0 <= i < |syns| ==> syns[i].partner !in ids) ==>
              SynergyNotes(syns, ids) == [] && SynergyTotal(syns, ids) == 0.0
    ensures |SynergyNotes(syns, ids)| <= |syns|
  {
    if |syns| > 0 {
      var front := syns[..|syns| - 1];
      var last := syns[|syns| - 1];
      SynergyNotesMatchTotal(front, ids);
      var notes := SynergyNotes(front, ids);
      if last.partner in ids {
        var all := notes + [SynergyBonus(last.bonus)];
        assert SynergyNotes(syns, ids) == all;
        assert all[..|all| - 1] == notes;
        assert NotedBonus(all) == NotedBonus(notes) + last.bonus;
      } else {
        assert SynergyNotes(syns, ids) == notes;
        assert SynergyTotal(syns, ids) == SynergyTotal(front, ids);
        if forall i :: 0 <= i < |syns| ==> syns[i].partner !in ids {
          assert forall i :: 0 <= i < |front| ==> front[i] == syns[i];
        }
      }
    }
  }

  /** With non-negative bonuses, synergies never lower a score. */
  lemma {:induction false} SynergyTotalNonNegative(syns: seq<Synergy>, ids: set<string>)
    requires forall i :: 0 <= i < |syns| ==> syns[i].bonus >= 0.0
    ensures SynergyTotal(syns, ids) >= 0.0
  {
    if |syns| > 0 {
      SynergyTotalNonNegative(syns[..|syns| - 1], ids);
    }
  }

  // ---------------------------------------------------------------------
  // Output
  // ---------------------------------------------------------------------

  const TOTAL_GRAMS: real := 4.0

  datatype Component = Component(name: string, role: string, percent: real, grams: real, reasons: seq<Note>)

  datatype Formula = Formula(totalGrams: real, components: seq<Component>)

  /** One component per plant, in order; the grams are the plant's share of the total weight. */
  function FormatOutput(ps: seq<Plant>): (f: Formula)
    reads ps
  {
    Formula(TOTAL_GRAMS, seq(|ps|, i requires 0 <= i < |ps| reads ps =>
      Component(ps[i].name, ps[i].finalRole, ps[i].finalPercent,
                ps[i].finalPercent / 100.0 * TOTAL_GRAMS, ps[i].adjustmentReason)))
  }

  function GramsTo(cs: seq<Component>, n: nat): real
    requires n <= |cs|
  {
    if n == 0 then 0.0 else GramsTo(cs, n - 1) + cs[n - 1].grams
  }

  function PercentsOf(cs: seq<Component>): seq<real> {
    seq(|cs|, i requires 0 <= i < |cs| => cs[i].percent)
  }

  /**
   * The grams of a formatted formula are its percents scaled to the total
   * weight, so percents that sum to at most 100 give at most 4 grams.
   */
  lemma GramsWithinTotal(ps: seq<Plant>)
    ensures PercentsOf(FormatOutput(ps).components) == Percents(ps)
    ensures GramsTo(FormatOutput(ps).components, |ps|) == Sum(Percents(ps)) / 100.0 * TOTAL_GRAMS
    ensures Sum(Percents(ps)) <= 100.0 ==> GramsTo(FormatOutput(ps).components, |ps|) <= TOTAL_GRAMS
  {
    var cs := FormatOutput(ps).components;
    GramsScale(cs, Percents(ps), |ps|);
  }

  lemma {:induction false} GramsScale(cs: seq<Component>, v: seq<real>, n: nat)
    requires |cs| == |v| && n <= |v|
    requires forall i :: 0 <= i < |cs| ==> cs[i].grams == v[i] / 100.0 * TOTAL_GRAMS
    ensures GramsTo(cs, n) == SumTo(v, n) / 100.0 * TOTAL_GRAMS
  {
    if n > 0 {
      GramsScale(cs, v, n - 1);
    }
  }
}
