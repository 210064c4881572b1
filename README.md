# Herbal formulation engine — Dafny model

This project models the formulation pipeline of `herbal_engine.py`. The
pipeline turns a user profile into a herbal formula of at most five plants
with a percentage and a weight in grams for each. One request runs these
stages over a catalog of `Plant` records:

1. The profile's numeric levels raise condition flags (anxiety ≥ 7 gives
   `high_anxiety`, anxiety ≥ 5 gives `active_anxiety`, insomnia ≥ 7 gives
   `insomnia`, stress ≥ 7 gives `high_stress`).
2. Every catalog plant is scored against the priorities. The catalog is
   then ranked by descending score with a stable sort.
3. Safety screening runs next. A plant with a triggered `exclude` rule is
   dropped. A plant that passes gets its triggered `cap_percent` and
   `set_role` rules, and its catalog role when it has no final role yet.
4. Plants are selected by role among those with a positive score: at most
   2 primaries, 3 secondaries and 2 supports, and at most 5 in all.
5. Each selected plant gets the bonus of every synergy entry whose partner
   is also selected.
6. Antagonisms are applied among the selected plants. A triggered entry
   either penalises its plant or excludes it. Exclusions are decided
   against the whole selection before anything is removed.
7. Dosages are computed in four steps:
   - nominal percents by role (40 for a lone primary, 30 each for two
     primaries, 20 per secondary, 10 per support);
   - a clamp to each plant's maximum;
   - a proportional shrink of every functional family above its limit;
   - a proportional shrink of the whole formula to 100.
8. The output lists name, role, percent and grams (4 g in total).

## Structure

Plants are objects whose runtime fields the stages update in place, so
`Plants.Plant` is a class:

- its catalog data are `const` fields;
- its runtime fields (maximum, relevance, final role, final percent,
  exclusion reason, adjustment notes) are `var` fields;
- `State()` packs the runtime fields into one `PlantState` value.

Every stage that mutates plants is a method. Its postcondition ties each
plant's new `State()` to a pure function of the old one, or ties the list
of percents to a pure function of the old percents. A stage that returns a
list of plants states that list as a pure function too. The pipeline
methods chain these: `GenerateFormula` names the safe list, the selection
and the surviving plants as such functions of the catalog, and gives every
catalog plant's end state. The pure functions live in their own modules,
and the properties are proved about them as lemmas:

- `ConstraintRules`: safety, conditional limits, antagonisms.
- `Dosage`: nominal percents, clamp, family shrink, normalisation.
- `Ranking`: the stable descending sort.
- `Formulation`: relevance, the safe list, the candidate lists, synergies,
  the output projection.

The imperative code lives in two places:

- `ConstraintEngine` holds the engine's static methods.
- `Formulator.HerbalFormulator` owns the catalog (`db`, a sequence of
  distinct plant objects) and runs the pipeline.

Some source loops are split into helper methods, each with its own
contract:

- the inner loops over a plant's rules, entries or family members
  (`ClashesOf`, `SynergiesOf`, `LimitFamily`, `ScaleFamily`, `ScaleAll`);
- the safe-list loop body (`ScreenPlant`);
- the pipeline's stages up to the dosages (`RankAndCompose`, which runs
  `RankSafe` and then `ComposeSelection`);
- the same stages seen from the whole catalog (`ComposeInCatalog`,
  `DoseInCatalog`), which add that every other catalog plant is left
  alone.

The three role passes that assign nominal percents are done in one pass
(`AssignNominal`). The role lists are disjoint, so the result is the same.

A request resets only part of a plant's runtime state. Scoring
overwrites every catalog plant's relevance (herbal_engine.py:199), and the
safety check clears every plant's exclusion reason (herbal_engine.py:54).
The maximum, the final role, the final percent and the adjustment notes
are never reset, and the model keeps that:

- a maximum capped in one request (herbal_engine.py:113-115) stays capped
  in the next;
- a final role set in one request is kept, because the default-role step
  (herbal_engine.py:174) only fills an empty role;
- the synergy and penalty notes (herbal_engine.py:211, 99) keep growing;
- a plant that was dosed and is not chosen keeps its old percent.

So two identical requests need not give the same formula or leave the
catalog in the same state.

The code adds a repeated priority's score once per occurrence
(herbal_engine.py:197-198), and `Formulation.Relevance` does the same.
The relevance does not depend on the order of the priorities
(`RelevanceOrderFree`).

## Model

| member | source | states |
|---|---|---|
| Profiles.WithThresholdFlags | herbal_engine.py:152-164 | The working profile keeps the request's priorities and levels. A condition holds in it iff it held in the request or one of the four level thresholds raises it. |
| Plants.Plant.constructor | herbal_engine.py:13-34 | A new plant carries its catalog data. Its runtime fields start at their defaults: score 0, empty final role, percent 0, no exclusion, no notes. |
| Formulator.HerbalFormulator.constructor | herbal_engine.py:145-148 | One fresh plant per catalog record, in record order, no plant twice. |
| ConstraintRules.FirstExclusionNoneIff | herbal_engine.py:52-63 | The plant passes iff no rule with action `exclude` has a true condition. No other action can reject it. |
| ConstraintRules.FirstExclusionAt | herbal_engine.py:56-62 | When a rule is the first triggered `exclude` rule, the reported condition is that rule's. |
| ConstraintEngine.CheckSafety | herbal_engine.py:52-63 | Returns true iff no `exclude` rule triggers. The exclusion reason ends as the first triggered rule's condition, or cleared. Nothing else on the plant changes. |
| ConstraintRules.ApplyLimits | herbal_engine.py:104-119 | Applying the rules in order never changes the score, the percent or the exclusion reason. |
| ConstraintRules.LimitsCapIsMinimum | herbal_engine.py:110-115 | The maximum never rises. It ends at most every triggered cap, and equals the old maximum or one of those caps. So it is the minimum of them. |
| ConstraintRules.LimitsRoleIsLastSetRole | herbal_engine.py:116-119 | The final role is the value of the last triggered `set_role` rule. It is unchanged when no `set_role` rule triggers. |
| ConstraintEngine.ApplyConditionalLimits | herbal_engine.py:104-119 | The plant's new state is the ordered fold of its rules over the old state, as `ApplyLimits` defines it. |
| ConstraintRules.ScreenedKeeps | herbal_engine.py:170-175 | Screening one plant never raises its maximum, and keeps it non-negative when the caps are. Score and percent are untouched. A plant that passes has no exclusion, and a non-empty final role when its catalog role is non-empty. A rejected plant keeps its role and maximum. |
| Formulator.HerbalFormulator.ScreenPlant | herbal_engine.py:172-174 | Returns whether the plant passes the safety check. The new state is the screened state, and the plant's numbers stay non-negative. |
| Formulation.Passing | herbal_engine.py:170-175 | The safe list contains exactly the ranked plants without a triggered `exclude` rule, none twice (order: `PassingInOrder`). |
| Formulation.PassingInOrder | herbal_engine.py:170-175 | The safe list is a subsequence of the ranked list: its plants appear at strictly increasing ranked positions. |
| Formulator.HerbalFormulator.ScreenRanked | herbal_engine.py:170-175 | Returns exactly `Passing` of the ranked list. Every ranked plant ends in its screened state, each safe plant has no exclusion reason, and non-negative numbers stay non-negative. |
| Formulation.RelevanceConcat | herbal_engine.py:196-198 | The relevance over two concatenated priority lists is the sum of the two relevances. |
| Formulation.RelevanceOrderFree | herbal_engine.py:196-198 | Two priority lists with the same multiset of entries give the same relevance. Each repetition counts. |
| Formulation.RelevanceRemoveAt | herbal_engine.py:197-198 | Removing one priority from the list removes exactly its score (0 when the plant has none) from the relevance. |
| Formulation.RelevanceUnscored | herbal_engine.py:198 | A plant with no score for any listed priority has relevance 0. |
| Formulator.HerbalFormulator.ScorePlants | herbal_engine.py:194-200 | Each catalog plant's score becomes `Formulation.Relevance`, the sum of its scores over the priorities (0 for a missing one), and nothing else on it changes. The result is the stable descending sort of the catalog: a permutation of it with no plant twice. |
| Ranking.SortDesc | herbal_engine.py:200 | The ranking is a permutation (same multiset) of its input. |
| Ranking.SortDescSorted | herbal_engine.py:200 | The ranking is in non-increasing key order. |
| Ranking.SortDescStable | herbal_engine.py:200 | For every key value, the plants with that key appear in catalog order, so ties keep catalog order. |
| Ranking.SortDescDistinct | herbal_engine.py:200 | Ranking a list without repeats gives a list without repeats. |
| Formulation.CandidatesExact | herbal_engine.py:216-230 | A role's candidates are exactly the plants with a positive score and that final role, none twice (order: `CandidatesInOrder`). |
| Formulation.CandidatesInOrder | herbal_engine.py:216-230 | A role's candidates are a subsequence of the ranked list, so the prefix taken for the role follows rank order. |
| Formulator.HerbalFormulator.SelectComposition | herbal_engine.py:214-236 | Primaries are the first 2 primary candidates and secondaries the first 3 secondary ones. Supports are the first min(2, 5 − primaries − secondaries) support candidates. So there are at most 2/3/2 of each and at most 5 in all. |
| Formulator.TakenCandidates | herbal_engine.py:219-234 | Each selected role list has no repeats and holds only ranked plants with that role. |
| Formulator.SelectionDistinct | herbal_engine.py:180-183 | The flattened selection (primaries, then secondaries, then supports) has no plant twice and takes every plant from the safe list. |
| Formulation.SynergyNotesMatchTotal | herbal_engine.py:205-211 | The recorded bonus notes add up to exactly the score added. A plant with no selected partner gets no bonus and no note. |
| Formulation.SynergyTotalNonNegative | herbal_engine.py:209-210 | With non-negative bonuses, synergies never lower a score. |
| Formulator.HerbalFormulator.SynergiesOf | herbal_engine.py:206-211 | One plant's score rises by exactly the bonuses of its entries whose partner is selected, with one note each (`Formulation.Synergized`). Nothing else changes. |
| Formulator.HerbalFormulator.ApplySynergies | herbal_engine.py:202-212 | Every selected plant gets exactly its own synergy total and notes against the selected ids. The list itself is unchanged. |
| ConstraintRules.ApplyClashes | herbal_engine.py:74-99 | Antagonism entries never change a plant's maximum, final role or percent. |
| ConstraintRules.ClashesEffect | herbal_engine.py:91-99 | The score drops by exactly the total penalty of the triggered non-exclude entries. The exclusion reason names the opponent of the last triggered `exclude` entry, and is untouched when there is none. |
| ConstraintEngine.ClashesOf | herbal_engine.py:75-99 | Returns whether a triggered `exclude` entry exists for the plant. The plant's new state is the ordered fold of its entries, where an entry triggers when its opponent is selected and its condition holds. A `key>=n` condition holds iff the key's level is at least n, and any other condition always holds (`ConstraintRules.ConditionTriggers`, herbal_engine.py:81-89). |
| ConstraintRules.WithoutIds | herbal_engine.py:101 | The filter keeps exactly the plants whose id is not marked. No plant appears twice. |
| ConstraintRules.WithoutIdsInOrder | herbal_engine.py:101 | The survivors are a subsequence of the selection: they keep their original relative order. |
| ConstraintRules.SurvivorsCompatible | herbal_engine.py:71-101 | No surviving plant has a triggered `exclude` entry, neither against the full selected set nor against the survivors. |
| ConstraintEngine.CheckAntagonisms | herbal_engine.py:66-101 | The result is the selection without the plants whose own entries exclude them, judged against the full selected id set, in original order. Every plant's state is its entry fold against that full set. A survivor's exclusion reason is unchanged. |
| Formulator.HerbalFormulator.AssignNominal | herbal_engine.py:240-249 | Percents become 40 for a lone primary, 30 each for two, 20 per secondary and 10 per support. Other plants keep their percent. |
| Formulator.HerbalFormulator.ApplyCaps | herbal_engine.py:252-253 | Each percent above its plant's maximum becomes the maximum; the rest are unchanged. |
| Dosage.LeaderLimitAt | herbal_engine.py:130-131 | The limit that governs a family is the one carried by its first member in list order. |
| Dosage.FamilyRatioRange | herbal_engine.py:137-138 | With non-negative limits, a family's scaling ratio lies in [0, 1). |
| Dosage.FamilyScaledShrinks | herbal_engine.py:130-139 | The family shrink never raises a percent and never makes one negative. |
| Dosage.FamilyScaledSum | herbal_engine.py:135-139 | A family's sum after the shrink is its old sum times its ratio, or unchanged when it is within its limit. |
| Dosage.FamilyScaledWithinLimit | herbal_engine.py:130-139 | After the shrink, every family whose first member carries a limit sums to at most that limit. |
| Dosage.ScaledForStep | herbal_engine.py:130-139 | Families can be handled one at a time. A family not yet handled still has its original sum, and handling it rescales exactly its members by its ratio. |
| Dosage.ScaledForAll | herbal_engine.py:124-139 | Once every family has been handled, the percents are the family-scaled percents. |
| ConstraintEngine.FamilyTotal | herbal_engine.py:135 | Returns the sum of the percents of the family's members. |
| ConstraintEngine.ScaleFamily | herbal_engine.py:139 | Every member of the family is multiplied by the ratio, and every other percent is unchanged. |
| ConstraintEngine.LimitFamily | herbal_engine.py:130-139 | Handling the family of its first member scales exactly that family by limit / total when its total is above its limit, and leaves it alone otherwise. |
| ConstraintEngine.ValidateFamilyLimits | herbal_engine.py:122-140 | The new percents are the family-scaled old percents. Only percents change. |
| Formulator.HerbalFormulator.TotalPercent | herbal_engine.py:259 | Returns the sum of the percents. |
| Formulator.HerbalFormulator.ScaleAll | herbal_engine.py:261-262 | Every percent is multiplied by the ratio. |
| Formulator.HerbalFormulator.Normalize | herbal_engine.py:258-262 | When the percents sum to more than 100, each is scaled by 100 / total; otherwise they are unchanged. |
| Dosage.NormalizedBounds | herbal_engine.py:258-262 | The final shrink never raises a percent or makes one negative, and leaves the total at most 100. |
| Dosage.DosageBounds | herbal_engine.py:238-263 | With non-negative maxima, percents and limits, the dosage percents obey three bounds: each lies between 0 and its plant's (possibly capped) maximum, each limited family sums to at most its limit, and the total is at most 100. |
| Formulator.HerbalFormulator.CalculateDosages | herbal_engine.py:238-263 | The new percents are exactly role nominals, then the clamp, then the family shrink, then normalisation, computed from the old roles, maxima and percents. Only percents change. |
| Formulator.DosesOfSoundPlants | herbal_engine.py:238-263 | Dosages computed for plants with non-negative numbers meet the dosage bounds, and leave the numbers non-negative. |
| Formulation.GramsWithinTotal | herbal_engine.py:265-278 | The formula built by `Formulation.FormatOutput` lists each plant's name, role and percent in order, and its grams are its percent's share of 4 g. Percents summing to at most 100 give at most 4 g in all. |
| Formulation.CandidatesInExact | herbal_engine.py:216-230 | Every candidate of a role, computed from a list of plant states, is a plant of the list whose state has a positive score and that final role. |
| Formulator.RolesWithout | herbal_engine.py:101 | Dropping plants by id never raises the number of plants holding a role. |
| Formulator.SelectionRoleBounds | herbal_engine.py:214-236 | Whatever ids the antagonism pass removes, the survivors of a selection hold at most 2 primary, 3 secondary and 2 support plants. |
| Formulator.Composed | herbal_engine.py:202-212 | A plant's state after the composition stage: a selected plant gets its synergies, then its antagonism entries, both against the selected ids. Its maximum, final role and percent never change, and a plant that was not selected keeps its whole state. |
| Formulator.HerbalFormulator.RankSafe | herbal_engine.py:166-177 | The safe list is exactly `Passing` of the catalog's stable descending ranking by relevance. Every catalog plant ends in its scored and screened state, and no percent changes. The safe plants are distinct catalog plants; none has a triggered `exclude` rule or an exclusion reason. Non-negative numbers stay non-negative. |
| Formulator.HerbalFormulator.ComposeSelection | herbal_engine.py:179-187 | The result is exactly the role selection of the safe list, without the plants its antagonisms exclude. The selection has no plant twice, and every safe plant ends in its `Composed` state. At most five distinct safe plants remain: at most 2 primary, 3 secondary and 2 support. None has a triggered `exclude` antagonism against the others, and each keeps its exclusion reason. |
| Formulator.HerbalFormulator.RankAndCompose | herbal_engine.py:165-187 | The safe list, the selection and the survivors are the ranking, selection and antagonism functions chained over the catalog. Every catalog plant ends scored, screened and composed, and no percent changes. The survivors obey the role bounds and the safety and antagonism guarantees. |
| Formulator.HerbalFormulator.ComposeInCatalog | herbal_engine.py:179-187 | The composition stage seen from the whole catalog: every catalog plant ends in its `Composed` state and no percent changes. The survivors are catalog plants that pass screening, carry no exclusion and obey the role bounds. |
| Formulator.HerbalFormulator.DoseInCatalog | herbal_engine.py:189 | The dosage stage seen from the whole catalog: the survivors' percents become their dosages, and every other field of every catalog plant, and every other plant's percent, is unchanged. |
| Formulator.HerbalFormulator.GenerateFormula | herbal_engine.py:151-192 | The threshold flags are added to the request. The safe list is `Passing` of the stable ranking, the selection is taken by role from it, and the formula lists exactly the selected plants that no antagonism excludes, formatted in order. The formula has at most five distinct catalog plants: at most 2 primary, 3 secondary and 2 support. None has a triggered `exclude` rule, an exclusion reason, or a triggered `exclude` antagonism against the others. Every catalog plant ends scored, screened and composed. The chosen plants' percents are their dosages; every other plant keeps its percent. If the catalog's numbers are non-negative, they stay so and the dosage bounds hold: each percent between 0 and its maximum, each limited family within its limit, total at most 100. |

## Left out

- Catalog loading from JSON and the logging calls are not modelled. The constructor takes the records as a sequence of `Entry` values, with absent fields already defaulted: no rules, cap 100, `max_sum` 100, bonus 0, penalty 0, antagonism action `penalize`.
- A `global_family_limit` that is absent or empty is modelled as no limit (`None`).
- `min_percent`, `family_botanical`, `family` and `attributes` are not modelled, because the pipeline never reads them.
- Output formatting keeps only the numbers. Rounding of percent and grams, `capitalize()` of the role and `strip()` of the reason text are not modelled, because they only affect presentation.
- Reason texts are modelled as lists of tagged notes: a cap or role note replaces the list, and a bonus or penalty note is appended. The exact wording is not modelled.
- Conditions are a map to booleans. Non-boolean truthy values in the request are not modelled.
- The request-dictionary defaults (missing priorities, conditions or levels) are not modelled. `GenerateFormula` takes an already built profile.
- Antagonism conditions are well formed: none, `key>=n` with the key already trimmed, or a text without `>=`. The `ValueError` that a bad integer or a second `>=` raises in the source is not modelled.
- A synergy or antagonism entry without a partner id is not modelled. In the source such an entry never matches a selected plant.
- A `set_role` rule without a value is not modelled. In the source it leaves the final role empty (`None`) until the default-role step fills it.
- Dosage.FamilyRatio: a family whose total is 0 but above a negative `max_sum` raises `ZeroDivisionError` in the source. The model leaves that family unscaled instead. A catalog with non-negative limits never reaches this case.
- ConstraintEngine.CheckAntagonisms: requires the selected list to hold each plant object once. The pipeline only passes sub-lists of the distinct catalog, so this always holds; a list holding the same object twice is not modelled.
- ConstraintEngine.ValidateFamilyLimits: requires each plant object to appear once in the list, for the same reason as CheckAntagonisms.
- Formulator.HerbalFormulator.ScreenRanked: requires each plant object to appear once in the list, for the same reason as CheckAntagonisms.
- Formulator.HerbalFormulator.CalculateDosages: requires each plant object to appear once in the list, for the same reason as CheckAntagonisms.
- Formulator.HerbalFormulator.ApplySynergies: requires each plant object to appear once in the list, for the same reason as CheckAntagonisms.
- Formulator.HerbalFormulator.GenerateFormula: the dosage bounds are promised only for a catalog whose maxima, caps, percents and family limits are non-negative. With negative data the bounds do not hold in the source either.
- Percentages and scores are exact reals. Floating-point rounding in the scaling steps, and precision loss in `float(score)` for huge integer sums, are not modelled.
- Concurrent requests sharing the catalog (several web sessions at once) are not modelled. The model covers one request at a time, on a catalog that may carry state from earlier requests.
