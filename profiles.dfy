/**
 * A formulation request: the ordered priority axes, the named boolean
 * conditions, and the three numeric levels (anxiety, insomnia, stress),
 * together with the condition flags that the levels raise on their own.
 */
module Profiles {

  datatype Profile = Profile(
    priorities: seq<string>,
    conditions: map<string, bool>,
    anxietyLevel: int,
    insomniaLevel: int,
    stressLevel: int)

  const HIGH_ANXIETY: string := "high_anxiety"
  const ACTIVE_ANXIETY: string := "active_anxiety"
  const INSOMNIA: string := "insomnia"
  const HIGH_STRESS: string := "high_stress"

  /** A condition is present when it is mapped to true; a key that is not there reads as false. */
  predicate Holds(conditions: map<string, bool>, key: string) {
    key in conditions && conditions[key]
  }

  /**
   * The level looked up for the name `key`: the profile field `key` + "_level".
   * Only the three levels exist; every other name reads as 0.
   */
  function Level(p: Profile, key: string): int {
    if key == "anxiety" then p.anxietyLevel
    else if key == "insomnia" then p.insomniaLevel
    else if key == "stress" then p.stressLevel
    else 0
  }

  /** The flag `key` is raised by one of the level thresholds. */
  predicate Raised(p: Profile, key: string) {
    || (key == HIGH_ANXIETY && p.anxietyLevel >= 7)
    || (key == ACTIVE_ANXIETY && p.anxietyLevel >= 5)
    || (key == INSOMNIA && p.insomniaLevel >= 7)
    || (key == HIGH_STRESS && p.stressLevel >= 7)
  }

  /**
   * The profile the pipeline works with: a copy of the request whose
   * conditions gain the threshold flags. A raised flag is set to true
   * (overriding a false the request may carry); nothing is ever cleared.
   */
  function WithThresholdFlags(p: Profile): (q: Profile)
    ensures q.priorities == p.priorities
    ensures q.anxietyLevel == p.anxietyLevel && q.insomniaLevel == p.insomniaLevel && q.stressLevel == p.stressLevel
    ensures forall k :: Holds(q.conditions, k) <==> Holds(p.conditions, k) || Raised(p, k)
    ensures forall k :: k in q.conditions <==> k in p.conditions || Raised(p, k)
  {
    var c0 := p.conditions;
    var c1 := if p.anxietyLevel >= 7 then c0[HIGH_ANXIETY := true] else c0;
    var c2 := if p.anxietyLevel >= 5 then c1[ACTIVE_ANXIETY := true] else c1;
    var c3 := if p.insomniaLevel >= 7 then c2[INSOMNIA := true] else c2;
    var c4 := if p.stressLevel >= 7 then c3[HIGH_STRESS := true] else c3;
    p.(conditions := c4)
  }
}
