/**
 * Catalog entries. A plant's catalog data (identity, roles, rules, scores,
 * interactions) never changes; its runtime fields (relevance, final role and
 * percent, the possibly capped maximum, the exclusion, the audit notes) are
 * updated in place by the pipeline stages. A request overwrites every
 * relevance and clears every exclusion before screening; the maximum, the
 * final role, the final percent and the notes carry over to the next request.
 */
module Plants {
  import opened Sequences

  datatype Option<T> = None | Some(value: T)

  const PRIMARY: string := "primary"
  const SECONDARY: string := "secondary"
  const SUPPORT: string := "support"

  /** What a standalone constraint rule does when its condition holds. */
  datatype Action = Exclude | CapPercent(cap: real) | SetRole(role: string) | OtherAction

  /** One entry of constraints["conditions"]. */
  datatype Rule = Rule(condition: string, action: Action)

  datatype Synergy = Synergy(partner: string, bonus: real)

  /**
   * The condition of an antagonism entry: none (or empty), a well-formed
   * "key>=n", or a text without ">=" (which the engine does not test).
   */
  datatype ClashCondition = NoCondition | AtLeast(key: string, threshold: int) | WithoutAtLeast

  /** "exclude", or any other action, which penalizes by `penalty` (0 when absent). */
  datatype ClashAction = ExcludePlant | Penalize(penalty: real)

  datatype Antagonism = Antagonism(opponent: string, condition: ClashCondition, action: ClashAction)

  /** Why a plant was dropped: a safety condition, or an antagonism with another plant. */
  datatype Exclusion = UnsafeUnder(condition: string) | AntagonismWith(opponent: string)

  /** One entry of the adjustment rationale. */
  datatype Note =
    | Capped(cap: real, condition: string)
    | Shifted(role: string, condition: string)
    | SynergyBonus(bonus: real)
    | AntagonismPenalty(penalty: real, opponent: string)

  /** The runtime fields of a plant, as one value. */
  datatype PlantState = PlantState(
    maxPercent: real,
    relevanceScore: real,
    finalRole: string,
    finalPercent: real,
    exclusion: Option<Exclusion>,
    reasons: seq<Note>)

  class Plant {
    const id: string
    const name: string
    const familyFunctional: string
    const role: string
    /** constraints["conditions"], in order */
    const rules: seq<Rule>
    /** constraints["global_family_limit"]["max_sum"]; None when the limit is absent or empty */
    const familyLimit: Option<real>
    const scores: map<string, int>
    const synergies: seq<Synergy>
    const antagonisms: seq<Antagonism>

    var maxPercent: real
    var relevanceScore: real
    var finalRole: string
    var finalPercent: real
    var exclusionReason: Option<Exclusion>
    var adjustmentReason: seq<Note>

    constructor (id: string, name: string, familyFunctional: string, role: string, maxPercent: real,
                 rules: seq<Rule>, familyLimit: Option<real>, scores: map<string, int>,
                 synergies: seq<Synergy>, antagonisms: seq<Antagonism>)
      ensures this.id == id && this.name == name && this.familyFunctional == familyFunctional
      ensures this.role == role && this.rules == rules && this.familyLimit == familyLimit
      ensures this.scores == scores && this.synergies == synergies && this.antagonisms == antagonisms
      ensures State() == PlantState(maxPercent, 0.0, "", 0.0, None, [])
    {
      this.id, this.name, this.familyFunctional, this.role := id, name, familyFunctional, role;
      this.rules, this.familyLimit, this.scores := rules, familyLimit, scores;
      this.synergies, this.antagonisms := synergies, antagonisms;
      this.maxPercent := maxPercent;
      relevanceScore, finalRole, finalPercent := 0.0, "", 0.0;
      exclusionReason, adjustmentReason := None, [];
    }

    function State(): PlantState
      reads this
    {
      PlantState(maxPercent, relevanceScore, finalRole, finalPercent, exclusionReason, adjustmentReason)
    }
  }

  /** The ids of the plants of a list. */
  function Ids(ps: seq<Plant>): set<string> {
    set p | p in ps :: p.id
  }

  /** The runtime state of each plant of a list. */
  function States(ps: seq<Plant>): seq<PlantState>
    reads ps
  {
    seq(|ps|, i requires 0 <= i < |ps| reads ps => ps[i].State())
  }

  function Percents(ps: seq<Plant>): seq<real>
    reads ps
  {
    seq(|ps|, i requires 0 <= i < |ps| reads ps => ps[i].finalPercent)
  }

  function Roles(ps: seq<Plant>): seq<string>
    reads ps
  {
    seq(|ps|, i requires 0 <= i < |ps| reads ps => ps[i].finalRole)
  }

  function Maxima(ps: seq<Plant>): seq<real>
    reads ps
  {
    seq(|ps|, i requires 0 <= i < |ps| reads ps => ps[i].maxPercent)
  }

  function Families(ps: seq<Plant>): seq<string> {
    seq(|ps|, i requires 0 <= i < |ps| => ps[i].familyFunctional)
  }

  function FamilyLimits(ps: seq<Plant>): seq<Option<real>> {
    seq(|ps|, i requires 0 <= i < |ps| => ps[i].familyLimit)
  }
}
