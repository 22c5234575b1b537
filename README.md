# Charm probability engine — a Dafny model

This project models the core of a charm calculator for a hunting game. A player
asks for up to three skills, each at a level, and up to three decoration
slots. The calculator answers how likely an appraised charm is to meet the
request, broken down by rarity, template and slot pattern.

A charm is drawn in stages:
1. A rarity is drawn, R1..R10, with a weight.
2. One of that rarity's templates is drawn, each equally likely.
3. Each position of the template draws one entry of its skill group, in
   proportion to the entry's weight.
4. One of the template's slot patterns is drawn, in proportion to its weight.

The model covers four parts of the program:
- The calculator: range filtering of rarities; the backtracking search for
  assignments of the requested skills to template positions; the per-template
  skill and slot probabilities; the sort by total probability; expected-time
  estimation and its display; the failure analysis.
- The suggestion advisor: recommended and best-compatible levels, template
  compatibility, the level-adjustment hint, and its own failure analysis.
- The data queries over the loaded tables: skill and group lookup, maximum and
  available levels, group kinds, and the skill categories.
- The selection state of the page: three slot requirements and up to three
  wanted skills, with the operations that change them and the criteria built
  from them.

Files, one module each:

| file | module | models |
|---|---|---|
| wrappers.dfy | Wrappers | Option / Result |
| seq_util.dfy | SeqUtil | `indexOf` and `find`, `Set.add` on arrays |
| catalog.dfy | CatalogTypes | the loaded tables, group and entry lookup, weights |
| charm_data.dfy | CharmData | `data.js` queries |
| slot_matcher.dfy | Decimal, SlotMatcher | decimal text, slot sorting, matching, slot labels |
| enumeration.dfy | Enumeration | `findSkillGroupCombinations` (class `CombinationSearch`) |
| feasibility.dfy | Feasibility | `findSkillAssignment`, `canTemplateAccommodateSkills` |
| probability.dfy | Probability | per-assignment products, the summed skill probability, the exact chance |
| coverage.dfy | Coverage | when the exact chance is positive |
| pipeline.dfy | Pipeline | `calculateTemplateMatches`, `calculateCharmProbability`, under the summed and the exact skill probability |
| time_estimate.dfy | TimeEstimate | `calculateExpectedTime`, `formatTimeEstimation` |
| diagnostics.dfy | Diagnostics | the calculator's `analyzeFailure` |
| advisor.dfy | Advisor | `suggestion.js` |
| charm_ui.dfy | CharmUi | the selection state of `ui.js` (class `CharmUI`) |

Modelling choices:
- Every loop in the source is a `method` with a `while` loop.
  - Each such method is proved equal to a recursive specification function,
    and the properties are proved about that function.
  - The backtracking search keeps its mutable accumulator, current assignment
    and used-index set as fields of a class.
  - `findSkillAssignment` mutates a `Set` that its caller owns. Here that set
    is a class, `UsedIndices`.
  - The slot array of the page is an `array<int>`.
- Probabilities are `real`. The data is assumed to have positive weights, so
  that every division in the source is defined.
- The results pipeline is written once over a skill probability
  (`Pipeline.Reading`). The methods compute it with the summed probability
  that the source returns; the exact chance is the corrected reading of the
  finding below.
- JavaScript string comparison on rarity keys is lexicographic order on
  character sequences (`StrLess`).
- The data manager's tables become a `Catalog` value whose three tables are
  `Option`s. A table not yet loaded is `None`, and every query handles that
  case as the source does.

## Model

| member | source | states |
|---|---|---|
| SeqUtil.FirstIndex | public/js/suggestion.js:204 | the position of the first element satisfying the test, or -1 exactly when none does |
| SeqUtil.AddDistinct | public/js/data.js:165-172 | adding to a set-like array keeps its elements distinct, contains the new element and all old ones, and changes nothing when the element is present |
| CatalogTypes.FindEntry | public/js/calculator.js:183-187 | finds an entry granting the skill at the wanted level exactly when one exists |
| CatalogTypes.FindEntryFirst | public/js/calculator.js:183-187 | when several entries grant the skill at the level, the first of them is found, so its weight is the one used |
| CatalogTypes.FindGroup | public/js/calculator.js:177-180 | finds a group with the id exactly when one exists; the result is the first group of the table with that id |
| CatalogTypes.FindGroupFirst | public/js/calculator.js:177-180 | `find` returns the first group with the id |
| CatalogTypes.TotalWeight | public/js/calculator.js:231-234 | with positive weights, the total is at least every single weight, so each share is at most 1 |
| CatalogTypes.PatternWeight | public/js/calculator.js:86-88 | with positive weights, each slot pattern's weight is at most the sum |
| CatalogTypes.WithoutSkill | public/js/suggestion.js:20-22 | the filter keeps exactly the skills with a different id and never grows |
| CatalogTypes.WithoutSkillAppend | public/js/ui.js:325-331 | filtering distributes over concatenation |
| CatalogTypes.WithoutSkillIdempotent | public/js/ui.js:325-331 | removing a skill twice equals removing it once |
| CharmData.GetSkillById | public/js/data.js:128-131 | `None` while skills are unloaded or no skill has the id; otherwise the first skill with that id |
| CharmData.GetSkillGroupById | public/js/data.js:136-139 | `None` while groups are unloaded or no group has the id; otherwise the first group of the table with that id |
| CharmData.EntriesMaxBounds | public/js/data.js:149-153 | the running maximum over a group's entries bounds every level of the skill and is attained or is the start value |
| CharmData.GroupsMaxBounds | public/js/data.js:147-155 | the same over all groups |
| CharmData.MaxSkillLevelBounds | public/js/data.js:144-157 | the maximum level is at least 1, bounds every level the groups offer, and is offered unless it is the default 1 |
| CharmData.MaxSkillLevel | public/js/data.js:144-157 | `getMaxSkillLevel` (rows: CharmData.MaxSkillLevelBounds, CharmData.GetMaxSkillLevel) |
| CharmData.GetMaxSkillLevel | public/js/data.js:144-157 | the nested loops compute the maximum level of the specification |
| CharmData.InsertSorted | public/js/data.js:165-174 | inserting a level keeps the list ascending and adds exactly that level |
| CharmData.EntriesLevelsExact | public/js/data.js:167-171 | the levels collected from entries are ascending and are exactly the levels with an entry |
| CharmData.GroupsLevelsExact | public/js/data.js:165-172 | the same over all groups |
| CharmData.AvailableLevelsExact | public/js/data.js:162-175 | available levels are strictly ascending, are exactly the levels some group offers, and are `[1]` when no group offers the skill |
| CharmData.AvailableLevels | public/js/data.js:162-175 | `getAvailableSkillLevels` (rows: CharmData.AvailableLevelsExact, CharmData.GetAvailableSkillLevels) |
| CharmData.AvailableInGroupsIsListed | public/js/data.js:180-188 | every level `isSkillAvailableInGroups` accepts is among the available levels |
| CharmData.IsSkillAvailableInGroups | public/js/data.js:180-188 | `isSkillAvailableInGroups` (row: CharmData.AvailableInGroupsIsListed) |
| CharmData.MaxSkillLevelIsLastAvailable | public/js/data.js:144-175 | the maximum level is the last of the available levels |
| CharmData.AvailableLevelsInRange | public/js/data.js:162-175 | with levels from 1, every available level lies between 1 and the maximum |
| CharmData.GetAvailableSkillLevels | public/js/data.js:162-175 | the loop computes the available levels of the specification |
| CharmData.GroupTypesOfExact | public/js/data.js:193-213 | the group kinds of a skill are distinct and are exactly the kinds of groups containing it |
| CharmData.SkillGroupTypesExact | public/js/data.js:193-213 | the same, and empty while groups are unloaded |
| CharmData.GetSkillGroupTypes | public/js/data.js:193-213 | the loop computes the group kinds of the specification |
| CharmData.ClassSound | public/js/data.js:301-310 | each class lists only skills of the input with that class |
| CharmData.TraditionSound | public/js/data.js:234-282 | each traditional category lists only skills of that tradition |
| CharmData.ClassStep | public/js/data.js:301-310 | each skill goes to exactly one of the four classes |
| CharmData.ClassesPartition | public/js/data.js:301-310 | the four classes together hold every skill exactly once |
| CharmData.TraditionsPartition | public/js/data.js:234-310 | attack, defense, element and utility partition the skills |
| CharmData.WithGroupTypeExact | public/js/data.js:285-299 | a group-kind category holds exactly the skills with a group of that kind |
| CharmData.CategorizeSkills | public/js/data.js:218-314 | nothing while skills are unloaded, otherwise the categories of the specification |
| Decimal.DigitChar | public/js/calculator.js:298 | a digit character with the given value |
| Decimal.NatToString | public/js/calculator.js:298 | decimal text is nonempty, all digits, without a leading zero |
| Decimal.ParseNatToString | public/js/calculator.js:298 | reading the decimal text gives back the number |
| SlotMatcher.InsertSlot | public/js/calculator.js:253-263 | insertion adds exactly the slot to the multiset |
| SlotMatcher.InsertSlotSorted | public/js/calculator.js:253-257 | insertion keeps the order: weapon slots first, the others descending |
| SlotMatcher.SortSlots | public/js/calculator.js:253-263 | the sort is a permutation into that order |
| SlotMatcher.SortedHeads | public/js/calculator.js:253-263 | two sorted permutations of each other start alike |
| SlotMatcher.SortedUnique | public/js/calculator.js:253-271 | two sorted permutations of each other are equal |
| SlotMatcher.MatchesSlotCriteriaIff | public/js/calculator.js:246-273 | a pattern matches exactly when no slots are requested or it has the requested slots with multiplicity, in any order |
| SlotMatcher.MatchesSlotCriteria | public/js/calculator.js:246-273 | `matchesSlotCriteria` (row: SlotMatcher.MatchesSlotCriteriaIff) |
| SlotMatcher.SlotLabelShape | public/js/calculator.js:294-301 | a slot label is bracketed, has no inner closing bracket, and reads back as the slot (`W1` for -1) |
| SlotMatcher.FormatSlotPatternRoundTrip | public/js/calculator.js:294-301 | the rendered pattern reads back as the same slots in the same order |
| SlotMatcher.FormatSlotPattern | public/js/calculator.js:294-301 | `formatSlotPattern` (row: SlotMatcher.FormatSlotPatternRoundTrip) |
| Enumeration.PrependAll | public/js/calculator.js:166-169 | every collected assignment is the current prefix followed by one suffix |
| Enumeration.ExtensionsSound | public/js/calculator.js:165-202 | every assignment found places each remaining skill at an unused position whose group grants it |
| Enumeration.BlockElementSound | public/js/calculator.js:186-199 | extending a valid suffix by a fitting unused position is valid |
| Enumeration.ExtensionsFromSound | public/js/calculator.js:173-201 | what the loop from position g finds is valid and starts at g or later |
| Enumeration.ExtensionsComplete | public/js/calculator.js:165-202 | every valid assignment is found |
| Enumeration.ExtensionsFromComplete | public/js/calculator.js:173-201 | every valid assignment starting at g or later is found from g |
| Enumeration.PrependAllDistinct | public/js/calculator.js:166-169 | prefixing keeps a list of assignments duplicate-free |
| Enumeration.ExtensionsDistinct | public/js/calculator.js:165-202 | the search finds each assignment once |
| Enumeration.ExtensionsFromDistinct | public/js/calculator.js:173-201 | the loop over positions finds each assignment once |
| Enumeration.EnumerateExact | public/js/calculator.js:161-207 | the result is duplicate-free and holds exactly the valid assignments |
| Enumeration.IndicesOf | public/js/calculator.js:191-197 | the used positions are those of the assignment, as many as its skills |
| Enumeration.ValidNeedsPositions | public/js/calculator.js:128-131 | a valid assignment needs at least as many positions as skills |
| Enumeration.TooManyTargetsEnumerateNothing | public/js/calculator.js:128-131 | with more skills than positions nothing is found |
| Enumeration.ExtensionsFromStep | public/js/calculator.js:173-201 | one step of the loop over positions appends that position's block |
| Enumeration.CombinationSearch.constructor | public/js/calculator.js:162-165 | the search starts with nothing collected and nothing used |
| Enumeration.CombinationSearch.Backtrack | public/js/calculator.js:165-202 | appends every completion of the current assignment, restoring assignment and used set |
| Enumeration.CombinationSearch.TryGroup | public/js/calculator.js:174-200 | trying one position appends the completions through it and undoes its marks |
| Enumeration.FindSkillGroupCombinations | public/js/calculator.js:161-207 | returns the enumeration of the specification |
| Feasibility.UsedIndices.constructor | public/js/suggestion.js:115 | a new used set is empty |
| Feasibility.IndicesPrepend | public/js/suggestion.js:157-166 | the positions of an extended assignment are its first plus the rest |
| Feasibility.FindSkillAssignment | public/js/suggestion.js:126-175 | true exactly when an assignment of the remaining skills exists (false while groups are unloaded); leaves the used set as it was on failure and adds the first assignment's positions on success |
| Feasibility.CanTemplateAccommodateSkills | public/js/suggestion.js:103-117 | computes whether the template accommodates the skills |
| Feasibility.AccommodatesIff | public/js/suggestion.js:103-117 | a template accommodates the skills exactly when groups are loaded and a valid assignment exists |
| Probability.Scaled | public/js/calculator.js:235-236 | scaling by a share in [0,1] stays within [0, a] and is positive exactly when the share is |
| Probability.Factor | public/js/calculator.js:216-236 | each position's share lies in (0, 1] |
| Probability.Product | public/js/calculator.js:212-241 | a product of shares lies in (0, 1] |
| Probability.ProductStep | public/js/calculator.js:214-237 | one more position multiplies the product by its share |
| Probability.ProductExtend | public/js/calculator.js:236 | the running product after one more step is the product over the longer prefix |
| Probability.AssignmentShare | public/js/calculator.js:216-235 | the lookups compute the position's share |
| Probability.CalculateCombinationProbability | public/js/calculator.js:212-241 | the loop computes the product of the shares |
| Probability.EnumeratedFactorsFound | public/js/calculator.js:216-229 | for enumerated assignments every group and entry lookup succeeds |
| Probability.SumProducts | public/js/calculator.js:144-153 | the sum is nonnegative, and positive for a nonempty list of assignments |
| Probability.CalculateSkillCombinationProbability | public/js/calculator.js:126-156 | the method computes the summed probability of the specification |
| Probability.SkillProbabilityPositiveIff | public/js/calculator.js:126-156 | the summed probability is positive exactly when a valid assignment exists |
| Probability.SkillProbability | public/js/calculator.js:126-156 | `calculateSkillCombinationProbability` as written: 0 with more skills than positions, else the sum over enumerated assignments (rows: Probability.CalculateSkillCombinationProbability, Probability.SkillProbabilityPositiveIff) |
| Probability.SkillProbabilityNoTargets | public/js/calculator.js:133-153 | with no skills requested the summed probability is 1 |
| Probability.RemoveFirst | public/js/calculator.js:171-199 | striking one copy of a drawn skill from those still needed |
| Probability.Chance | public/js/calculator.js:126-156 | the chance that the later positions' draws grant what is still needed lies in [0, 1] |
| Probability.DrawSum | public/js/calculator.js:231-235 | the weighted sum over a group's entries is at most the group's total weight |
| Probability.CorrectedSkillProbability | public/js/calculator.js:126-156 | the skill probability of the intended reading is a probability in [0, 1], and 1 when nothing is requested |
| Probability.OverlapEnumeration | public/js/calculator.js:161-207 | in the example, the search finds the skill at either of the two positions |
| Probability.SkillProbabilityOverCounts | public/js/calculator.js:144-153 | the summed skill probability of the example is 2, while the exact chance is 1 |
| Probability.OverlapExample | public/js/calculator.js:126-156 | two positions whose groups always grant skill `a` at level 1, and a request for `a` level 1 (row: Probability.SkillProbabilityOverCounts) |
| Coverage.CoverPermutation | public/js/calculator.js:165-202 | whether positions can grant the skills does not depend on the order the skills are listed in |
| Coverage.CoverRemove | public/js/calculator.js:165-202 | needing fewer skills keeps a coverable request coverable |
| Coverage.HelpsSplit | public/js/calculator.js:231-235 | some entry of a group helps exactly when one of its earlier entries or its last entry helps |
| Coverage.DrawSumPositive | public/js/calculator.js:231-235 | a group's weighted sum is positive exactly when one of its entries helps |
| Coverage.ChancePositiveIff | public/js/calculator.js:126-156 | the exact chance is positive exactly when the positions can grant every needed skill |
| Coverage.DistinctSwap | public/js/calculator.js:191-197 | swapping two positions keeps them distinct |
| Coverage.DistinctDrop | public/js/calculator.js:191-197 | dropping a position keeps the rest distinct, in order, without it |
| Coverage.DistinctInsert | public/js/calculator.js:191-197 | inserting an unused position keeps positions distinct |
| Coverage.RemoveFirstAt | public/js/calculator.js:171-199 | striking a needed skill removes it at some position where it occurs |
| Coverage.SwapPlacement | public/js/calculator.js:165-202 | two equal skills may trade positions |
| Coverage.DropPlacement | public/js/calculator.js:165-202 | a placement using the current position, without that skill, places the rest further on |
| Coverage.InsertPlacement | public/js/calculator.js:165-202 | a fitting skill at the current position extends a placement of the rest |
| Coverage.PlacementAtHead | public/js/calculator.js:165-202 | a placement using the current position splits into that skill and a placement of the rest |
| Coverage.PlacementSkipsHead | public/js/calculator.js:165-202 | a placement not using the current position places everything further on |
| Coverage.PlacementCovers | public/js/calculator.js:165-202 | a placement shows the positions can grant the skills |
| Coverage.CoverPlacement | public/js/calculator.js:165-202 | coverable skills have a placement |
| Coverage.Positions | public/js/calculator.js:191-197 | the positions an assignment uses |
| Coverage.Assign | public/js/calculator.js:191-197 | the assignment placing each skill at the given position |
| Coverage.CoverIffValid | public/js/calculator.js:161-207 | coverable exactly when the search finds some assignment |
| Coverage.CorrectedAgreesOnEmission | public/js/calculator.js:81 | the exact chance is positive exactly when the summed one is, so both readings return results for the same rarities, templates and slot patterns |
| Pipeline.StrLessTotal | public/js/calculator.js:27-28 | key order is irreflexive, asymmetric and total on distinct keys |
| Pipeline.StrLessTransitive | public/js/calculator.js:27-28 | key order is transitive |
| Pipeline.InterfaceWindow | public/js/ui.js:460-461 | the page's range R5..R8 admits R5, R6, R7, R8 and not R1, R4, R9 or R10 (R10 sorts before R5 as text) |
| Pipeline.InRange | public/js/calculator.js:27-29 | a rarity key passes when no bound is set or it lies, as text, between the set bounds (row: Pipeline.InterfaceWindow) |
| Pipeline.Joint | public/js/calculator.js:90-92 | the total probability as the product of the four factors (row: Pipeline.JointBounds) |
| Pipeline.JointBounds | public/js/calculator.js:91-92 | with the template and socket shares in (0, 1], the total probability is positive exactly when the skill probability is, and at most the rarity weight times it; within the rarity weight only when the skill probability is at most 1 |
| Pipeline.MatchingPatterns | public/js/calculator.js:69-71 | keeps exactly the slot patterns that match the request |
| Pipeline.PatternResultsNone | public/js/calculator.js:81 | with no skill probability a template contributes nothing |
| Pipeline.ResultsFor | public/js/calculator.js:94-116 | one result per matching pattern |
| Pipeline.ResultsForAt | public/js/calculator.js:94-116 | the k-th result belongs to the k-th matching pattern |
| Pipeline.ResultsForSnoc | public/js/calculator.js:94-116 | one more matching pattern adds its result at the end |
| Pipeline.PatternResultsAll | public/js/calculator.js:69-118 | with a positive skill probability, each matching pattern yields its result, in pattern order |
| Pipeline.SkillChance | public/js/calculator.js:75-79 | the skill probability of a reading: the sum as written, the exact chance as intended; both non-negative and positive exactly when an assignment exists, the intended one at most 1 |
| Pipeline.ChanceOfFaithful | public/js/calculator.js:75-81 | both readings give a skill probability that is non-negative and positive exactly when the skills can be assigned, the only fact the membership lemmas need |
| Pipeline.MakeResult | public/js/calculator.js:81-116 | the result of one socket pattern under a reading (row: Pipeline.MakeResultSound) |
| Pipeline.TemplateMatches | public/js/calculator.js:56-121 | `calculateTemplateMatches` under a reading (rows: Pipeline.TemplateMatchesExact, Pipeline.TemplateMatchesMember) |
| Pipeline.TemplateMatchesExact | public/js/calculator.js:56-121 | for any skill probability that is positive exactly when an assignment exists, including the summed one of `calculateSkillCombinationProbability`: no results without an assignment; otherwise one result per matching pattern, in order |
| Pipeline.MakeResultSound | public/js/calculator.js:75-116 | a result records its template, rarity and pattern; its probability is the summed skill probability as written (the exact chance under the intended reading) and positive; its total is the product of rarity weight, template share, that probability and socket share, positive and at most the rarity weight times the probability; its count of assignments is positive. Under the intended reading only: probability at most 1 and total at most the rarity weight |
| Pipeline.CalculateTemplateMatches | public/js/calculator.js:56-121 | the loop, calling `calculateSkillCombinationProbability` for each matching pattern, computes the template's results as written (summed skill probability) |
| Pipeline.InsertByTotal | public/js/calculator.js:50 | insertion adds exactly the result |
| Pipeline.InsertByTotalSorted | public/js/calculator.js:50 | insertion keeps the results most probable first |
| Pipeline.SortByTotal | public/js/calculator.js:50 | the sort is a permutation, most probable first |
| Pipeline.LoadedIsCalculable | public/js/calculator.js:13-51 | loaded tables with positive weights meet every division's precondition |
| Pipeline.CharmProbability | public/js/calculator.js:13-51 | `calculateCharmProbability` under a reading (rows: Pipeline.CharmProbabilityMember, Pipeline.CharmProbabilitySound) |
| Pipeline.TemplateMatchesMember | public/js/calculator.js:56-121 | under either reading, a result comes from a template exactly when one of its matching patterns yields it and the skills can be assigned |
| Pipeline.TemplateResultsStep | public/js/calculator.js:31-45 | one more template adds exactly its results |
| Pipeline.TemplateResultsNext | public/js/calculator.js:32-45 | one more template appends exactly its matches |
| Pipeline.TemplateResultsMember | public/js/calculator.js:31-45 | a rarity's results are exactly those some template emits |
| Pipeline.RarityResultsStep | public/js/calculator.js:25-46 | one more rarity adds its results when in range, nothing otherwise |
| Pipeline.RarityResultsNext | public/js/calculator.js:26-46 | one more rarity appends its templates' results when in range, nothing otherwise |
| Pipeline.RarityResultsMember | public/js/calculator.js:25-46 | the collected results are exactly those some in-range rarity emits |
| Pipeline.RarityEmitter | public/js/calculator.js:31-45 | an emitted result names the template that emits it |
| Pipeline.RarityEmitted | public/js/calculator.js:31-45 | a result some template emits is emitted by the rarity |
| Pipeline.CatalogEmitter | public/js/calculator.js:25-46 | an emitted result names its in-range rarity |
| Pipeline.CatalogEmitted | public/js/calculator.js:25-46 | a result an in-range rarity emits is emitted |
| Pipeline.EmittedWitness | public/js/calculator.js:25-46 | an emitted result names its rarity, template and pattern |
| Pipeline.WitnessEmitted | public/js/calculator.js:25-46 | a result with such a rarity, template and pattern is emitted |
| Pipeline.CharmProbabilityMember | public/js/calculator.js:13-51 | under either reading: nothing while a table is unloaded; otherwise a result is returned exactly when a matching pattern of an assignable template of an in-range rarity yields it |
| Pipeline.CharmProbabilitySound | public/js/calculator.js:13-51 | under either reading the results come most probable first and each is genuine: positive probability and total, total at most rarity weight times probability; under the intended reading also probability at most 1 and total at most the rarity weight |
| Pipeline.EmittedGenuine | public/js/calculator.js:81-116 | an emitted result is genuine under its reading |
| Pipeline.GenuineResult | public/js/calculator.js:81-116 | a result from an in-range rarity, a template and a matching pattern is genuine under its reading |
| Pipeline.EmittedBounds | public/js/calculator.js:81-116 | an emitted result names its rarity, template and matching pattern and has the bounds of MakeResultSound |
| Pipeline.CalculateRarityMatches | public/js/calculator.js:31-46 | the loop over templates computes the rarity's results as written |
| Pipeline.CollectInRange | public/js/calculator.js:25-47 | the loop over rarities computes the in-range results as written |
| Pipeline.CalculateCharmProbability | public/js/calculator.js:13-51 | the method computes the results as written: summed skill probabilities, sorted by the totals they give |
| Pipeline.OverlapCatalog | public/js/calculator.js:126-156 | a loaded catalog with positive weights: one rarity of weight 0.5 whose single template has the overlap example's two positions and one socket pattern |
| Pipeline.OverlapEmitted | public/js/calculator.js:13-121 | the overlap catalog's result is returned under either reading |
| Pipeline.OverlapResultExceeds | public/js/calculator.js:75-92 | as written the returned result has skill probability 2 and total 1, twice its rarity's weight 0.5; as intended it has probability 1 and total 0.5 |
| TimeEstimate.Round | public/js/calculator.js:307 | the nearest integer, halves upward |
| TimeEstimate.CalculateExpectedTime | public/js/calculator.js:306-318 | the appraisals round 1/p; minutes are appraisals times minutes each; hours and minutes split the total |
| TimeEstimate.LikelyNeedsOneAppraisal | public/js/calculator.js:306-318 | a probability above 2/3 needs one appraisal |
| TimeEstimate.Decomposition | public/js/calculator.js:324-327 | days, hours and minutes recombine to the total, with hours below 24 and minutes below 60 |
| TimeEstimate.PartsOfFaithful | public/js/calculator.js:329-332 | the parts add up to the time, are one to three, nonzero except a lone "0 minutes", in descending units, and end in minutes unless minutes are 0 |
| TimeEstimate.TimePartsFaithful | public/js/calculator.js:323-332 | the same for a total number of minutes |
| TimeEstimate.TimeParts | public/js/calculator.js:323-332 | the parts of a total number of minutes (row: TimeEstimate.TimePartsFaithful) |
| TimeEstimate.DigitRun | public/js/calculator.js:330-332 | the leading digits of a text |
| TimeEstimate.DigitRunOf | public/js/calculator.js:330-332 | a number followed by a non-digit reads as that many digits |
| TimeEstimate.ReadOnePart | public/js/calculator.js:330-332 | a rendered part reads back as its amount and unit |
| TimeEstimate.ReadJoin | public/js/calculator.js:337 | joined parts read back as the parts |
| TimeEstimate.ReadAfterConnector | public/js/calculator.js:334-335 | the connector is skipped before a number |
| TimeEstimate.ReadConnected | public/js/calculator.js:334-335 | a first part, the connector and the rest read back as the parts |
| TimeEstimate.FormatRoundTrip | public/js/calculator.js:323-338 | the displayed estimate reads back as the total minutes, so no two totals display alike |
| TimeEstimate.FormatTimeEstimation | public/js/calculator.js:323-338 | `formatTimeEstimation` (row: TimeEstimate.FormatRoundTrip) |
| TimeEstimate.ParseTimeEstimation | public/js/calculator.js:323-338 | reads a displayed estimate back as minutes, the inverse that TimeEstimate.FormatRoundTrip proves |
| TimeEstimate.ConnectorIff | public/js/calculator.js:334-335 | the connector appears exactly when there is at least a day and a remainder |
| TimeEstimate.NoConnectorInJoin | public/js/calculator.js:337 | plain joining never writes the connector |
| Diagnostics.SkillMapGet | public/js/calculator.js:380-384 | `Map` lookup: none exactly when no skill has the id, else the last skill with it |
| Diagnostics.GroupsWithSkill | public/js/calculator.js:391-405 | one label at most per group |
| Diagnostics.GroupsWithSkillExact | public/js/calculator.js:391-407 | no labels exactly when no group has the skill; each group having it contributes its label |
| Diagnostics.CeilingExact | public/js/calculator.js:392-404 | the maximum level bounds every occurrence and is attained or 0 |
| Diagnostics.CheckSkillCases | public/js/calculator.js:383-424 | an unknown skill gives one reason and no issue; a known one gives one issue, a reason exactly when unavailable or too high, and a lowering suggestion exactly when available but too high |
| Diagnostics.SkillFindingsKinds | public/js/calculator.js:383-425 | the skill check yields only unknown, unavailable or too-high reasons and only lowering suggestions |
| Diagnostics.SkillFindingsInclude | public/js/calculator.js:383-425 | each requested skill's findings appear in the result |
| Diagnostics.CheckSkill | public/js/calculator.js:383-425 | the findings for one requested skill (rows: Diagnostics.SkillFindingsKinds, Diagnostics.SkillFindingsInclude) |
| Diagnostics.UnknownOnlyForMissing | public/js/calculator.js:385-388 | an unknown-skill reason names a requested skill absent from the skills table |
| Diagnostics.PatternLabels | public/js/calculator.js:431-433 | the labels stay distinct and are those before plus those of the patterns |
| Diagnostics.TemplateLabels | public/js/calculator.js:430-434 | the same over templates |
| Diagnostics.RarityLabels | public/js/calculator.js:428-436 | the same over rarities |
| Diagnostics.CompatibleRarities | public/js/calculator.js:439-478 | the keys are distinct and are exactly those of rarities with a compatible template |
| Diagnostics.AnalyzeNotLoaded | public/js/calculator.js:348-363 | while a table is unloaded the analysis says so, suggests waiting and reports nothing else |
| Diagnostics.AnalyzeCriteriaChecks | public/js/calculator.js:481-505 | each criteria reason and suggestion appears exactly when its condition holds |
| Diagnostics.CriteriaFindingsExact | public/js/calculator.js:481-505 | the same for the criteria check alone |
| Diagnostics.AnalyzeCompatibility | public/js/calculator.js:439-478 | compatible rarities are distinct and exact, and the flag says whether any template is compatible |
| Diagnostics.AnyCompatible | public/js/calculator.js:464-478 | some rarity is compatible exactly when some template is |
| Diagnostics.AnalyzeSlotPatterns | public/js/calculator.js:427-436 | the listed slot patterns are distinct and exactly those of any template |
| Diagnostics.AnalyzeSkillChecks | public/js/calculator.js:383-425 | the analysis holds each requested skill's findings |
| Diagnostics.ScanGroups | public/js/calculator.js:391-405 | the loop computes the labels and the maximum level |
| Diagnostics.CheckSkills | public/js/calculator.js:383-425 | the loop computes the skill findings |
| Diagnostics.AddPatternLabels | public/js/calculator.js:431-433 | the loop adds the pattern labels |
| Diagnostics.CollectSlotPatterns | public/js/calculator.js:428-436 | the loops collect all slot pattern labels |
| Diagnostics.CheckTemplate | public/js/calculator.js:447-467 | computes whether a template is compatible |
| Diagnostics.CheckRarity | public/js/calculator.js:443-471 | computes whether a rarity has a compatible template |
| Diagnostics.FindCompatibleRarities | public/js/calculator.js:439-478 | the loop computes the compatible rarities and whether there are any |
| Diagnostics.AnalyzeFailure | public/js/calculator.js:343-508 | computes the analysis of the specification |
| Diagnostics.Analyze | public/js/calculator.js:343-508 | the calculator's `analyzeFailure` (rows: Diagnostics.AnalyzeNotLoaded through Diagnostics.AnalyzeFailure) |
| Diagnostics.CheckCriteria | public/js/calculator.js:481-505 | computes the criteria findings |
| Advisor.CompatibleIff | public/js/suggestion.js:82-95 | compatible exactly when the tables are loaded and some template of some rarity has a valid assignment |
| Advisor.Compatible | public/js/suggestion.js:82-95 | `checkTemplateCompatibility` (row: Advisor.CompatibleIff) |
| Advisor.AnyTemplateAccommodates | public/js/suggestion.js:88-92 | true exactly when some template accommodates the skills |
| Advisor.CheckTemplateCompatibility | public/js/suggestion.js:82-95 | computes compatibility |
| Advisor.AsTarget | public/js/suggestion.js:69-72 | a level of 0 becomes 1; other levels are kept |
| Advisor.AsTargets | public/js/suggestion.js:69-72 | converts each skill |
| Advisor.IsSkillCombinationValid | public/js/suggestion.js:61-75 | computes validity |
| Advisor.CombinationValidIff | public/js/suggestion.js:61-75 | more than three skills are never valid; one to three are valid exactly when some template has an assignment |
| Advisor.CombinationValid | public/js/suggestion.js:61-75 | `isSkillCombinationValid` (row: Advisor.CombinationValidIff) |
| Advisor.HighestFitting | public/js/suggestion.js:45-53 | the highest position whose level fits, or -1 exactly when none fits |
| Advisor.BestCompatibleLevelSpec | public/js/suggestion.js:38-54 | the best level is the highest available level that fits, and -1 when none fits |
| Advisor.BestCompatibleLevel | public/js/suggestion.js:38-54 | `getBestCompatibleLevel` (rows: Advisor.BestCompatibleLevelSpec, Advisor.GetBestCompatibleLevel) |
| Advisor.GetBestCompatibleLevel | public/js/suggestion.js:38-54 | the loop from the highest level computes the best level |
| Advisor.GetRecommendedLevel | public/js/suggestion.js:15-30 | computes the recommended level |
| Advisor.RecommendedLevelSpec | public/js/suggestion.js:15-30 | ignores the skill's own entry; alone it is the game maximum; otherwise an available level that fits next to the others, when there is one |
| Advisor.RecommendedLevel | public/js/suggestion.js:15-30 | `getRecommendedLevel` (rows: Advisor.RecommendedLevelSpec, Advisor.GetRecommendedLevel) |
| Advisor.NameOrId | public/js/suggestion.js:221-223 | the skill's name when known, else its id |
| Advisor.FindLevelAdjustmentSuggestion | public/js/suggestion.js:184-233 | only with one chosen skill the new skill cannot join; the chosen skill drops to the next lower available level, at which the new skill fits |
| Advisor.AdjustmentFacts | public/js/suggestion.js:200-211 | the level before the chosen one in the available list is lower and the highest lower available level |
| Advisor.AdjustmentOffered | public/js/suggestion.js:184-233 | with one chosen skill above the lowest level, the new skill unable to join, and fitting at the next lower level, the adjustment is offered |
| Advisor.AloneHints | public/js/suggestion.js:276-284 | one "search alone" hint per requested skill |
| Advisor.LoweredLevelSpec | public/js/suggestion.js:293-307 | the highest lower level at which the combination becomes compatible, or 0 when none does |
| Advisor.LoweredLevel | public/js/suggestion.js:293-307 | the downward search for a compatible level (rows: Advisor.LoweredLevelSpec, Advisor.LowerSearch) |
| Advisor.LevelChecksPaired | public/js/suggestion.js:252-264 | each skill above the game maximum gets a reason and a lowering suggestion, and every reason is one of those |
| Advisor.CombinationAdviceSpec | public/js/suggestion.js:267-311 | incompatible requests get the reason, the alternatives header and, for several skills, search-alone hints; compatible ones get nothing |
| Advisor.FailureHints | public/js/suggestion.js:272-311 | the alternatives list holds the header, the search-alone hints exactly for several skills, and no generic hint |
| Advisor.AdviseSpec | public/js/suggestion.js:240-318 | the analysis holds every level and compatibility finding exactly when due |
| Advisor.Advise | public/js/suggestion.js:240-318 | the advisor's failure analysis (row: Advisor.AdviseSpec) |
| Advisor.LevelChecksSuggestions | public/js/suggestion.js:252-264 | the level checks suggest only lowering to the maximum |
| Advisor.LevelChecks | public/js/suggestion.js:252-264 | the level checks of the advisor's `analyzeFailure` (rows: Advisor.LevelChecksPaired, Advisor.LevelChecksSuggestions) |
| Advisor.LoweringHintsKind | public/js/suggestion.js:287-311 | the lowering hints only suggest trying a level |
| Advisor.LoweringHintsSpec | public/js/suggestion.js:287-311 | each hint names a lower level at which the combination is compatible, the highest such |
| Advisor.LowerSearch | public/js/suggestion.js:293-307 | the downward loop finds the lowered level |
| Advisor.CollectAloneHints | public/js/suggestion.js:277-283 | the loop collects the search-alone hints |
| Advisor.CollectLoweringHints | public/js/suggestion.js:287-311 | the loop collects the lowering hints |
| Advisor.AdviseCombination | public/js/suggestion.js:267-311 | computes the compatibility advice |
| Advisor.AnalyzeFailure | public/js/suggestion.js:240-318 | computes the analysis, failing when the skills table is missing |
| CharmUi.NextSlot | public/js/ui.js:120-129 | a click keeps a slot's value legal and always changes it |
| CharmUi.ClickCycle | public/js/ui.js:122-129 | five clicks restore a slot, fewer never do, and from 0 the clicks give 1, 2, 3, -1 |
| CharmUi.SelectedIff | public/js/ui.js:248-250 | `some` and `find` agree on whether a skill is selected |
| CharmUi.SkillCompatibleSpec | public/js/ui.js:255-264 | a compatible skill starts at an available level that fits; an incompatible one fits at no level; alone any skill is compatible at its maximum |
| CharmUi.SkillCompatible | public/js/ui.js:255-264 | whether a skill may be added next to the selection (row: CharmUi.SkillCompatibleSpec) |
| CharmUi.InitialLevelInRange | public/js/ui.js:302-312 | a newly selected skill starts between 1 and its maximum |
| CharmUi.AfterSelectSpec | public/js/ui.js:294-320 | selecting keeps at most three distinct skills with levels in range, and appends the skill only when new and room remains |
| CharmUi.AfterSelect | public/js/ui.js:294-320 | the selection after choosing a skill (row: CharmUi.AfterSelectSpec) |
| CharmUi.RemoveKeepsUnique | public/js/ui.js:325-331 | removal keeps ids distinct |
| CharmUi.RemoveSpec | public/js/ui.js:325-331 | after removal the skill is gone, the others stay, and removing again changes nothing |
| CharmUi.WithLevelKeeps | public/js/ui.js:336-375 | changing one level keeps every other entry and every id |
| CharmUi.IncreasedSpec | public/js/ui.js:336-346 | only the skill's level changes, by one, staying in range |
| CharmUi.DecreasedSpec | public/js/ui.js:351-360 | only the skill's level changes, by one down, staying in range |
| CharmUi.LevelSetSpec | public/js/ui.js:365-375 | only the skill's level changes, to the given level, staying in range |
| CharmUi.NonZeroSlots | public/js/ui.js:459 | exactly the slots that carry a requirement |
| CharmUi.PositiveLevels | public/js/ui.js:456-458 | exactly the skills with a positive level |
| CharmUi.NonZeroSlotsAppend | public/js/ui.js:459 | the slot filter distributes over concatenation |
| CharmUi.CriteriaOfReachableState | public/js/ui.js:455-462 | a reachable page state asks for its skills unchanged, legal slots and rarities R5 to R8 |
| CharmUi.CharmUI.constructor | public/js/ui.js:6-9 | the page starts with three empty slots and no skills |
| CharmUi.CharmUI.ToggleSlot | public/js/ui.js:120-133 | only the clicked slot changes, to its next value |
| CharmUi.CharmUI.IsSkillCompatible | public/js/ui.js:255-264 | computes compatibility against the selection |
| CharmUi.CharmUI.SelectSkill | public/js/ui.js:294-320 | the selection becomes the specified one, slots untouched, with the specified message |
| CharmUi.CharmUI.RemoveSkill | public/js/ui.js:325-331 | the skill is filtered out, slots untouched |
| CharmUi.CharmUI.IncreaseSkillLevel | public/js/ui.js:336-346 | the selection becomes the raised one, slots untouched |
| CharmUi.CharmUI.DecreaseSkillLevel | public/js/ui.js:351-360 | the selection becomes the lowered one, slots untouched |
| CharmUi.CharmUI.SetSkillLevel | public/js/ui.js:365-375 | the selection becomes the one with the level set, slots untouched |

## Left out

- `formatProbability` (calculator.js:278-289): it formats a floating-point value with `toFixed`, and the model has no floating-point text.
- TimeEstimate.Round: `Math.round` on IEEE doubles is modelled as exact rounding of a real, halves upward; floating-point error is not modelled.
- TimeEstimate.CalculateExpectedTime: the default `minutesPerAppraisal = 2` (calculator.js:306) is not modelled; the minutes per appraisal are always passed.
- TimeEstimate.CalculateExpectedTime: requires a positive probability. The source divides by zero otherwise, and the page only calls it for results it has shown, which are positive.
- Positive weights: every member that divides requires positive rarity, entry and pattern weights. This is a property of the shipped data files, and the source does not check it.
- CharmData.IsSkillAvailableInGroups: the default `level = 1` (data.js:180) is not modelled; the level is always passed.
- `skillSlotMismatch` in the calculator's analysis is always false in the source. The model leaves the field out.
- Message text: reasons and suggestions are datatype constructors carrying the names and numbers the source interpolates. The Chinese wording is not modelled.
- `detailedSkills`, the `skillMap` built in `calculateCharmProbability` but never read, and the fields of a result that only echo inputs for display.
- Data loading: `loadData` and `fetch` are I/O. The model takes the three tables as `Option`s, with `None` for a table not yet loaded.
- DOM, rendering, charts, messages shown on screen, `app.js` and `image_exporter.js`.
- CharmUi.CharmUI: the selection's operations take the catalog as a parameter instead of reading a global data manager. `performCalculation` is modelled only as far as building the criteria (CharmUi.CriteriaOfReachableState); the calculation itself is Pipeline.CalculateCharmProbability.
- CharmUi.CharmUI.SelectSkill: a selected skill keeps only its id and level, not the other fields the source copies from the skill record.
- Search order of `findSkillGroupCombinations` is kept, but the search arrays are immutable sequences held in class fields, not one shared JavaScript array mutated with `push` and `pop`.

## Findings

| source | as written | input that shows it | evidently intended | confidence | as-written member | corrected member |
|---|---|---|---|---|---|---|
| public/js/calculator.js:126-156 | the skill probability of a template is the sum, over all assignments of requested skills to positions, of the product of the draw shares | two template positions whose groups both always grant skill `a` at level 1, and a request for `a` level 1 (Probability.OverlapExample): the sum is 2, so in a catalog of one rarity of weight 0.5 holding that template the result has probability 2 and total 1, above the rarity's weight | the chance that the template's independent draws grant every requested skill, a value in [0, 1] | not executed | Probability.SkillProbabilityOverCounts, Pipeline.OverlapResultExceeds | Probability.CorrectedSkillProbability, Pipeline.CharmProbabilitySound |

The pipeline is written once for either skill probability (Pipeline.Reading).
`AsWritten` is the sum that `calculateSkillCombinationProbability` returns, and
the methods (Pipeline.CalculateCharmProbability and the loops under it) compute
that. `Intended` is the exact chance (Probability.CorrectedSkillProbability).
Both are positive for the same inputs (Coverage.CorrectedAgreesOnEmission), so
the two readings return a result for the same rarity, template and slot pattern
(Pipeline.CharmProbabilityMember). The probabilities and totals of those results
differ, and so can their order after the sort. For example, template A has one
position drawing skill `s` with share 0.7, and template B has two positions
drawing `s` with share 0.4 each. As written, B's skill probability is 0.8 and
A's is 0.7; as intended, B's is 0.64 and A's is 0.7. Only under `Intended` are
a result's probability at most 1 and its total at most its rarity's weight
(Pipeline.CharmProbabilitySound).
