/** The compatibility advisor (`public/js/suggestion.js`): whether a set of
    (skill, level) pairs fits some charm template, the best level a skill can
    take next to the skills already chosen, the one-rank lowering hint, and
    the advisor's own failure report. */
module Advisor {
  import opened Wrappers
  import opened SeqUtil
  import opened CatalogTypes
  import opened CharmData
  import opened Enumeration
  import opened Feasibility
  import Diagnostics

  /** The most skills a charm template holds. */
  const MaxSkills: nat := 3

  // ---------------------------------------------------------------------------
  // checkTemplateCompatibility

  /** Both tables are loaded and some template of some rarity accommodates
      the pairs. */
  predicate Compatible(c: Catalog, targets: seq<SkillLevel>)
  {
    && c.rarities.Some? && c.skillGroups.Some?
    && exists q, t | q in c.rarities.value && t in q.templates :: Accommodates(c, t, targets)
  }

  /** Compatibility is the existence of a valid assignment into some
      template. */
  lemma CompatibleIff(c: Catalog, targets: seq<SkillLevel>)
    ensures Compatible(c, targets) <==>
              && c.rarities.Some? && c.skillGroups.Some?
              && exists q, t | q in c.rarities.value && t in q.templates ::
                   exists x :: ValidCombination(Instance(t.skillGroups, c.skillGroups.value, targets), x)
  {
    forall t: Template ensures Accommodates(c, t, targets) <==>
        c.skillGroups.Some? && exists x :: ValidCombination(Instance(t.skillGroups, c.skillGroups.value, targets), x)
    {
      AccommodatesIff(c, t, targets);
    }
  }

  /** The inner loop: the first template that accommodates the pairs ends it. */
  method AnyTemplateAccommodates(c: Catalog, templates: seq<Template>, targets: seq<SkillLevel>) returns (ok: bool)
    ensures ok == exists t | t in templates :: Accommodates(c, t, targets)
  {
    var i := 0;
    while i < |templates|
      invariant 0 <= i <= |templates|
      invariant forall j | 0 <= j < i :: !Accommodates(c, templates[j], targets)
    {
      var fits := CanTemplateAccommodateSkills(c, templates[i], targets);
      if fits {
        return true;
      }
      i := i + 1;
    }
    return false;
  }

  /** `checkTemplateCompatibility(targetSkills)`: false while a table is
      missing, otherwise a search over rarities and templates that stops at
      the first fit. */
  method CheckTemplateCompatibility(c: Catalog, targets: seq<SkillLevel>) returns (ok: bool)
    ensures ok == Compatible(c, targets)
  {
    if c.rarities.None? || c.skillGroups.None? {
      return false;
    }
    var rarities := c.rarities.value;
    var i := 0;
    while i < |rarities|
      invariant 0 <= i <= |rarities|
      invariant forall j, t | 0 <= j < i && t in rarities[j].templates :: !Accommodates(c, t, targets)
    {
      var found := AnyTemplateAccommodates(c, rarities[i].templates, targets);
      if found {
        return true;
      }
      i := i + 1;
    }
    return false;
  }

  // ---------------------------------------------------------------------------
  // isSkillCombinationValid

  /** `skill.level || 1`: a missing (zero) level counts as level 1. */
  function AsTarget(s: SkillLevel): (r: SkillLevel)
    ensures r.skillId == s.skillId && r.level != 0
    ensures s.level == 0 ==> r.level == 1
    ensures s.level != 0 ==> r == s
  {
    if s.level == 0 then SkillLevel(s.skillId, 1) else s
  }

  function AsTargets(skills: seq<SkillLevel>): (r: seq<SkillLevel>)
    ensures |r| == |skills| && forall i | 0 <= i < |r| :: r[i] == AsTarget(skills[i])
  {
    if |skills| == 0 then [] else [AsTarget(skills[0])] + AsTargets(skills[1..])
  }

  /** What `isSkillCombinationValid` answers: yes when there is nothing to
      check against or nothing to check, no for more than three skills,
      otherwise template compatibility. */
  predicate CombinationValid(c: Catalog, testSkills: seq<SkillLevel>)
  {
    if c.rarities.None? || c.skillGroups.None? || |testSkills| == 0 then true
    else if |testSkills| > MaxSkills then false
    else Compatible(c, AsTargets(testSkills))
  }

  method IsSkillCombinationValid(c: Catalog, testSkills: seq<SkillLevel>) returns (ok: bool)
    ensures ok == CombinationValid(c, testSkills)
  {
    if c.rarities.None? || c.skillGroups.None? || |testSkills| == 0 {
      return true;
    }
    if |testSkills| > MaxSkills {
      return false;
    }
    ok := CheckTemplateCompatibility(c, AsTargets(testSkills));
  }

  /** With both tables loaded, one to three pairs are valid exactly when some
      template of some rarity has a valid assignment for them (missing
      levels read as 1); more than three never are. */
  lemma CombinationValidIff(c: Catalog, testSkills: seq<SkillLevel>)
    requires c.rarities.Some? && c.skillGroups.Some?
    ensures |testSkills| > MaxSkills ==> !CombinationValid(c, testSkills)
    ensures 0 < |testSkills| <= MaxSkills ==>
              (CombinationValid(c, testSkills) <==>
                 exists q, t | q in c.rarities.value && t in q.templates ::
                   exists x :: ValidCombination(Instance(t.skillGroups, c.skillGroups.value, AsTargets(testSkills)), x))
  {
    if 0 < |testSkills| <= MaxSkills {
      assert CombinationValid(c, testSkills) == Compatible(c, AsTargets(testSkills));
      CompatibleIff(c, AsTargets(testSkills));
    }
  }

  // ---------------------------------------------------------------------------
  // getBestCompatibleLevel

  /** The skill at `level` fits next to `current`. */
  predicate FitsAt(c: Catalog, skillId: string, current: seq<SkillLevel>, level: int)
  {
    CombinationValid(c, current + [SkillLevel(skillId, level)])
  }

  /** `FitsAt` as a test on levels. */
  function FitsNextTo(c: Catalog, skillId: string, current: seq<SkillLevel>): int -> bool
  {
    (level: int) => FitsAt(c, skillId, current, level)
  }

  /** Tries `levels[..n]` from the top down: the position of the first
      that passes `fits`, or -1. */
  function HighestFitting(fits: int -> bool, levels: seq<int>, n: nat): (k: int)
    requires n <= |levels|
    ensures -1 <= k < n
    ensures k == -1 <==> forall j | 0 <= j < n :: !fits(levels[j])
    ensures k >= 0 ==> fits(levels[k]) && forall j | k < j < n :: !fits(levels[j])
  {
    if n == 0 then -1
    else if fits(levels[n - 1]) then n - 1
    else HighestFitting(fits, levels, n - 1)
  }

  /** `getBestCompatibleLevel(skillId, currentSkills)`: 1 while the rarity
      table is missing. */
  function BestCompatibleLevel(c: Catalog, skillId: string, current: seq<SkillLevel>): int
  {
    if c.rarities.None? then 1
    else
      var levels := AvailableLevels(c, skillId);
      var k := HighestFitting(FitsNextTo(c, skillId, current), levels, |levels|);
      if k < 0 then -1 else levels[k]
  }

  /** The best level is the highest available level at which the skill fits
      next to the current ones; -1 when none fits (with levels from 1, -1 is
      never itself a level); 1 while the rarity table is missing. */
  lemma BestCompatibleLevelSpec(c: Catalog, skillId: string, current: seq<SkillLevel>)
    requires c.rarities.Some?
    ensures var r := BestCompatibleLevel(c, skillId, current);
            var levels := AvailableLevels(c, skillId);
            && (r != -1 ==> r in levels && FitsAt(c, skillId, current, r)
                              && forall l | l in levels && l > r :: !FitsAt(c, skillId, current, l))
            && ((forall l | l in levels :: !FitsAt(c, skillId, current, l)) ==> r == -1)
            && (LevelsFromOne(c) ==> (r == -1 <==> forall l | l in levels :: !FitsAt(c, skillId, current, l)))
  {
    var levels := AvailableLevels(c, skillId);
    var r := BestCompatibleLevel(c, skillId, current);
    var fits := FitsNextTo(c, skillId, current);
    var k := HighestFitting(fits, levels, |levels|);
    AvailableLevelsExact(c, skillId);
    if k >= 0 {
      assert r == levels[k] && fits(levels[k]);
      forall l | l in levels && l > r ensures !FitsAt(c, skillId, current, l) {
        var j :| 0 <= j < |levels| && levels[j] == l;
        assert !fits(levels[j]);
      }
    } else {
      forall l | l in levels ensures !FitsAt(c, skillId, current, l) {
        var j :| 0 <= j < |levels| && levels[j] == l;
        assert !fits(levels[j]);
      }
    }
    if LevelsFromOne(c) {
      AvailableLevelsInRange(c, skillId);
    }
  }

  /** `getBestCompatibleLevel` as the source runs it: the available levels
      from the highest down, returning the first that fits. */
  method GetBestCompatibleLevel(c: Catalog, skillId: string, current: seq<SkillLevel>) returns (level: int)
    ensures level == BestCompatibleLevel(c, skillId, current)
  {
    if c.rarities.None? {
      return 1;
    }
    var levels := GetAvailableSkillLevels(c, skillId);
    ghost var fits := FitsNextTo(c, skillId, current);
    var n := |levels|;
    while n > 0
      invariant 0 <= n <= |levels|
      invariant forall j | n <= j < |levels| :: !fits(levels[j])
    {
      var ok := IsSkillCombinationValid(c, current + [SkillLevel(skillId, levels[n - 1])]);
      assert ok == fits(levels[n - 1]);
      if ok {
        ghost var k := HighestFitting(fits, levels, |levels|);
        assert k == n - 1;
        return levels[n - 1];
      }
      n := n - 1;
    }
    return -1;
  }

  // ---------------------------------------------------------------------------
  // getRecommendedLevel

  /** `getRecommendedLevel(skillId, selectedSkills)`: the skill's own entry
      is set aside; alone it gets its maximum level, otherwise the best level
      that fits next to the others. */
  function RecommendedLevel(c: Catalog, skillId: string, selected: seq<SkillLevel>): int
  {
    if c.rarities.None? then 1
    else
      var current := WithoutSkill(selected, skillId);
      if current == [] then MaxSkillLevel(c, skillId) else BestCompatibleLevel(c, skillId, current)
  }

  method GetRecommendedLevel(c: Catalog, skillId: string, selected: seq<SkillLevel>) returns (level: int)
    ensures level == RecommendedLevel(c, skillId, selected)
  {
    if c.rarities.None? {
      return 1;
    }
    var current := WithoutSkill(selected, skillId);
    if current == [] {
      level := GetMaxSkillLevel(c, skillId);
    } else {
      level := GetBestCompatibleLevel(c, skillId, current);
    }
  }

  /** The recommendation ignores the skill's own entry, is the maximum level
      when no other skill is chosen, and is otherwise -1 or a level that
      fits next to the others. */
  lemma RecommendedLevelSpec(c: Catalog, skillId: string, selected: seq<SkillLevel>)
    ensures RecommendedLevel(c, skillId, selected) == RecommendedLevel(c, skillId, WithoutSkill(selected, skillId))
    ensures c.rarities.Some? && (forall s | s in selected :: s.skillId == skillId) ==>
              RecommendedLevel(c, skillId, selected) == MaxSkillLevel(c, skillId) >= 1
    ensures var r := RecommendedLevel(c, skillId, selected);
            c.rarities.Some? && (exists s | s in selected :: s.skillId != skillId) && r != -1 ==>
              r in AvailableLevels(c, skillId) && FitsAt(c, skillId, WithoutSkill(selected, skillId), r)
  {
    WithoutSkillIdempotent(selected, skillId);
    MaxSkillLevelBounds(c, skillId);
    var current := WithoutSkill(selected, skillId);
    if exists s | s in selected :: s.skillId != skillId {
      var s :| s in selected && s.skillId != skillId;
      assert s in current;
    }
    if c.rarities.Some? {
      BestCompatibleLevelSpec(c, skillId, current);
    }
  }

  // ---------------------------------------------------------------------------
  // findLevelAdjustmentSuggestion

  datatype Adjustment =
    | NoAdjustment
    | Adjustment(originalSkillId: string, originalSkillName: string, newLevel: int, newSkillLevel: int)

  /** `getSkillById(id)?.nameZh || id`: the name, or the id when the skill is
      unknown or unnamed. */
  function NameOrId(c: Catalog, skillId: string): (r: string)
    ensures r == skillId || (GetSkillById(c, skillId).Some? && r == GetSkillById(c, skillId).value.name)
  {
    match GetSkillById(c, skillId)
    case Some(s) => if s.name != "" then s.name else skillId
    case None => skillId
  }

  /** `findLevelAdjustmentSuggestion(newSkillId, selectedSkills)`: with one
      skill chosen and the new skill fitting at no level, the chosen skill is
      lowered by one available rank; the hint is given when the new skill
      then fits at some level. */
  function FindLevelAdjustmentSuggestion(c: Catalog, newSkillId: string, selected: seq<SkillLevel>): (r: Adjustment)
    ensures |selected| != 1 ==> r == NoAdjustment
    ensures r.Adjustment? ==>
              var original := selected[0];
              var levels := AvailableLevels(c, original.skillId);
              && |selected| == 1
              && BestCompatibleLevel(c, newSkillId, selected) <= -1
              && r.originalSkillId == original.skillId
              && original.level in levels
              && r.newLevel in levels && r.newLevel < original.level
              && (forall l | l in levels && l < original.level :: l <= r.newLevel)
              && r.newSkillLevel == BestCompatibleLevel(c, newSkillId, [SkillLevel(original.skillId, r.newLevel)])
              && r.newSkillLevel > -1
  {
    if |selected| != 1 then NoAdjustment
    else
      var original := selected[0];
      if BestCompatibleLevel(c, newSkillId, selected) > -1 then NoAdjustment
      else
        var levels := AvailableLevels(c, original.skillId);
        var index := FirstIndex(levels, (l: int) => l == original.level);
        if index <= 0 then NoAdjustment
        else
          var lowered := levels[index - 1];
          var newSkillLevel := BestCompatibleLevel(c, newSkillId, [SkillLevel(original.skillId, lowered)]);
          if newSkillLevel > -1 then
            AdjustmentFacts(c, original.skillId, original.level, index);
            Adjustment(original.skillId, NameOrId(c, original.skillId), lowered, newSkillLevel)
          else NoAdjustment
  }

  /** The rank below the chosen level is the highest available level under
      it. */
  lemma AdjustmentFacts(c: Catalog, skillId: string, level: int, index: int)
    requires var levels := AvailableLevels(c, skillId);
             0 < index < |levels| && levels[index] == level
    ensures var levels := AvailableLevels(c, skillId);
            && level in levels && levels[index - 1] < level
            && forall l | l in levels && l < level :: l <= levels[index - 1]
  {
    var levels := AvailableLevels(c, skillId);
    AvailableLevelsExact(c, skillId);
    forall l | l in levels && l < level ensures l <= levels[index - 1] {
      var k :| 0 <= k < |levels| && levels[k] == l;
    }
  }

  /** The converse: one skill chosen, the new skill fitting at no level, a
      lower rank available, and the new skill fitting next to it, always
      give the hint. */
  lemma AdjustmentOffered(c: Catalog, newSkillId: string, selected: seq<SkillLevel>, index: nat)
    requires |selected| == 1 && BestCompatibleLevel(c, newSkillId, selected) <= -1
    requires var levels := AvailableLevels(c, selected[0].skillId);
             0 < index < |levels| && levels[index] == selected[0].level
             && BestCompatibleLevel(c, newSkillId, [SkillLevel(selected[0].skillId, levels[index - 1])]) > -1
    ensures FindLevelAdjustmentSuggestion(c, newSkillId, selected).Adjustment?
  {
    var levels := AvailableLevels(c, selected[0].skillId);
    AvailableLevelsExact(c, selected[0].skillId);
    var found := FirstIndex(levels, (l: int) => l == selected[0].level);
    assert ((l: int) => l == selected[0].level)(levels[index]);
  }

  // ---------------------------------------------------------------------------
  // The advisor's failure report

  datatype AdviceReason =
    | AboveGameMax(skillName: string, level: int, maxLevel: int)
    | NoTemplateHasCombination

  datatype AdviceSuggestion =
    | LowerToMax(skillName: string, maxLevel: int)
    | ConsiderAlternatives
    | SearchAlone(skillName: string, level: int)
    | TryLevel(skillName: string, level: int)
    | AdjustCombination

  datatype Advice = Advice(reasons: seq<AdviceReason>, suggestions: seq<AdviceSuggestion>)

  /** `skillMap.get(id)?.nameZh || id`, with the map built from the skill
      table (the last skill with an id wins). */
  function DisplayName(skills: seq<Skill>, skillId: string): string
  {
    match Diagnostics.SkillMapGet(skills, skillId)
    case Some(s) => if s.name != "" then s.name else skillId
    case None => skillId
  }

  /** Step 1: every requested level above the game's maximum for its skill. */
  function LevelChecks(c: Catalog, skills: seq<Skill>, targets: seq<SkillLevel>): Advice
  {
    if |targets| == 0 then Advice([], [])
    else
      var a := LevelChecks(c, skills, targets[..|targets| - 1]);
      var t := targets[|targets| - 1];
      var maxLevel := MaxSkillLevel(c, t.skillId);
      if t.level > maxLevel then
        var name := DisplayName(skills, t.skillId);
        Advice(a.reasons + [AboveGameMax(name, t.level, maxLevel)], a.suggestions + [LowerToMax(name, maxLevel)])
      else a
  }

  /** One hint per requested skill: look for it on its own. */
  function AloneHints(skills: seq<Skill>, targets: seq<SkillLevel>): (r: seq<AdviceSuggestion>)
    ensures |r| == |targets|
    ensures forall k | 0 <= k < |r| :: r[k] == SearchAlone(DisplayName(skills, targets[k].skillId), targets[k].level)
  {
    if |targets| == 0 then []
    else
      var t := targets[|targets| - 1];
      AloneHints(skills, targets[..|targets| - 1]) + [SearchAlone(DisplayName(skills, t.skillId), t.level)]
  }

  /** The lowering search for one skill: from `level` down to 1, the first
      level at which the skill, next to the other requested skills, fits some
      template; 0 when none does. */
  function LoweredLevel(c: Catalog, others: seq<SkillLevel>, skillId: string, level: int): (r: int)
    decreases level
  {
    if level < 1 then 0
    else if Compatible(c, others + [SkillLevel(skillId, level)]) then level
    else LoweredLevel(c, others, skillId, level - 1)
  }

  /** The lowered level is the highest level from `level` down to 1 that
      fits, or 0 when none does. */
  lemma {:induction false} LoweredLevelSpec(c: Catalog, others: seq<SkillLevel>, skillId: string, level: int)
    decreases level
    ensures var r := LoweredLevel(c, others, skillId, level);
            && (r == 0 || (1 <= r <= level && Compatible(c, others + [SkillLevel(skillId, r)])))
            && forall l | r < l <= level && 1 <= l :: !Compatible(c, others + [SkillLevel(skillId, l)])
  {
    if level >= 1 && !Compatible(c, others + [SkillLevel(skillId, level)]) {
      LoweredLevelSpec(c, others, skillId, level - 1);
    }
  }

  /** Step 3b: a lowering hint for each requested skill that has one. */
  function LoweringHints(c: Catalog, skills: seq<Skill>, all: seq<SkillLevel>, targets: seq<SkillLevel>): seq<AdviceSuggestion>
  {
    if |targets| == 0 then []
    else
      var t := targets[|targets| - 1];
      var lowered := LoweredLevel(c, WithoutSkill(all, t.skillId), t.skillId, t.level - 1);
      LoweringHints(c, skills, all, targets[..|targets| - 1])
        + (if lowered >= 1 then [TryLevel(DisplayName(skills, t.skillId), lowered)] else [])
  }

  /** Steps 2 and 3: when a non-empty request fits no template, the reason,
      the heading, the per-skill search hints (for more than one skill) and
      the lowering hints. */
  function CombinationAdvice(c: Catalog, skills: seq<Skill>, targets: seq<SkillLevel>): Advice
  {
    if !Compatible(c, targets) && |targets| > 0 then
      Advice([NoTemplateHasCombination],
             [ConsiderAlternatives]
             + (if |targets| > 1 then AloneHints(skills, targets) else [])
             + LoweringHints(c, skills, targets, targets))
    else Advice([], [])
  }

  /** `analyzeFailure(criteria)` of the advisor. Building the skill map
      dereferences the skill table, so the report fails while that table is
      missing. */
  function Advise(c: Catalog, targets: seq<SkillLevel>): Result<Advice, string>
  {
    if c.skills.None? then Failure("skill table not loaded")
    else
      var skills := c.skills.value;
      var checks := LevelChecks(c, skills, targets);
      var general := CombinationAdvice(c, skills, targets);
      var reasons := checks.reasons + general.reasons;
      var suggestions := checks.suggestions + general.suggestions;
      Success(Advice(reasons, if |reasons| > 0 && |suggestions| == 0 then [AdjustCombination] else suggestions))
  }

  lemma {:induction false} LevelChecksPaired(c: Catalog, skills: seq<Skill>, targets: seq<SkillLevel>)
    ensures |LevelChecks(c, skills, targets).reasons| == |LevelChecks(c, skills, targets).suggestions|
    ensures forall t | t in targets && t.level > MaxSkillLevel(c, t.skillId) ::
              AboveGameMax(DisplayName(skills, t.skillId), t.level, MaxSkillLevel(c, t.skillId)) in LevelChecks(c, skills, targets).reasons
              && LowerToMax(DisplayName(skills, t.skillId), MaxSkillLevel(c, t.skillId)) in LevelChecks(c, skills, targets).suggestions
    ensures forall r | r in LevelChecks(c, skills, targets).reasons ::
              exists t | t in targets :: r == AboveGameMax(DisplayName(skills, t.skillId), t.level, MaxSkillLevel(c, t.skillId))
                                         && t.level > MaxSkillLevel(c, t.skillId)
  {
    if |targets| > 0 {
      var init := targets[..|targets| - 1];
      LevelChecksPaired(c, skills, init);
      assert targets == init + [targets[|targets| - 1]];
    }
  }

  /** The combination step: the "no template" reason and its heading appear
      exactly when a non-empty request fits no template, the per-skill
      search hints exactly when, in addition, more than one skill is
      requested, and the step never reports a level above the maximum. */
  lemma CombinationAdviceSpec(c: Catalog, skills: seq<Skill>, targets: seq<SkillLevel>)
    ensures var g := CombinationAdvice(c, skills, targets);
            && (g.reasons == [NoTemplateHasCombination] <==> |targets| > 0 && !Compatible(c, targets))
            && (g.reasons == [] <==> !(|targets| > 0 && !Compatible(c, targets)))
            && (ConsiderAlternatives in g.suggestions <==> |targets| > 0 && !Compatible(c, targets))
            && ((exists k | 0 <= k < |targets| :: SearchAlone(DisplayName(skills, targets[k].skillId), targets[k].level) in g.suggestions)
                <==> |targets| > 1 && !Compatible(c, targets))
            && (g.reasons != [] ==> g.suggestions != [])
            && AdjustCombination !in g.suggestions
            && forall s | s in g.suggestions :: !s.LowerToMax?
  {
    var failed := |targets| > 0 && !Compatible(c, targets);
    var g := CombinationAdvice(c, skills, targets);
    if failed {
      var alone := if |targets| > 1 then AloneHints(skills, targets) else [];
      var lowering := LoweringHints(c, skills, targets, targets);
      assert g == Advice([NoTemplateHasCombination], [ConsiderAlternatives] + alone + lowering);
      LoweringHintsKind(c, skills, targets, targets);
      FailureHints(skills, targets, alone, lowering);
    } else {
      assert g == Advice([], []);
    }
  }

  lemma FailureHints(skills: seq<Skill>, targets: seq<SkillLevel>, alone: seq<AdviceSuggestion>, lowering: seq<AdviceSuggestion>)
    requires alone == if |targets| > 1 then AloneHints(skills, targets) else []
    requires forall s | s in lowering :: s.TryLevel?
    ensures var all := [ConsiderAlternatives] + alone + lowering;
            && ConsiderAlternatives in all
            && ((exists k | 0 <= k < |targets| :: SearchAlone(DisplayName(skills, targets[k].skillId), targets[k].level) in all)
                <==> |targets| > 1)
            && AdjustCombination !in all
            && forall s | s in all :: !s.LowerToMax?
  {
    var all := [ConsiderAlternatives] + alone + lowering;
    if |targets| > 1 {
      assert all[1] == SearchAlone(DisplayName(skills, targets[0].skillId), targets[0].level);
    }
  }

  /** What the advisor reports: every level above the game's maximum gives
      a reason and a lowering suggestion; the "no template" reason appears
      exactly when a non-empty request fits no template, with the per-skill
      search hints only for more than one skill; and since every reason
      comes with a suggestion, the generic fallback suggestion is never
      added. */
  lemma AdviseSpec(c: Catalog, targets: seq<SkillLevel>)
    requires c.skills.Some?
    ensures Advise(c, targets).Success?
    ensures var a := Advise(c, targets).value;
            && (forall t | t in targets && t.level > MaxSkillLevel(c, t.skillId) ::
                  AboveGameMax(DisplayName(c.skills.value, t.skillId), t.level, MaxSkillLevel(c, t.skillId)) in a.reasons
                  && LowerToMax(DisplayName(c.skills.value, t.skillId), MaxSkillLevel(c, t.skillId)) in a.suggestions)
            && (NoTemplateHasCombination in a.reasons <==> |targets| > 0 && !Compatible(c, targets))
            && (ConsiderAlternatives in a.suggestions <==> |targets| > 0 && !Compatible(c, targets))
            && ((exists k | 0 <= k < |targets| :: SearchAlone(DisplayName(c.skills.value, targets[k].skillId), targets[k].level) in a.suggestions)
                <==> |targets| > 1 && !Compatible(c, targets))
            && AdjustCombination !in a.suggestions
  {
    var skills := c.skills.value;
    var checks := LevelChecks(c, skills, targets);
    var g := CombinationAdvice(c, skills, targets);
    LevelChecksPaired(c, skills, targets);
    LevelChecksSuggestions(c, skills, targets);
    CombinationAdviceSpec(c, skills, targets);
    var a := Advise(c, targets).value;
    assert a.reasons == checks.reasons + g.reasons;
    assert a.suggestions == checks.suggestions + g.suggestions;
  }

  lemma {:induction false} LevelChecksSuggestions(c: Catalog, skills: seq<Skill>, targets: seq<SkillLevel>)
    ensures forall s | s in LevelChecks(c, skills, targets).suggestions :: s.LowerToMax?
  {
    if |targets| > 0 {
      LevelChecksSuggestions(c, skills, targets[..|targets| - 1]);
    }
  }

  lemma {:induction false} LoweringHintsKind(c: Catalog, skills: seq<Skill>, all: seq<SkillLevel>, targets: seq<SkillLevel>)
    ensures forall s | s in LoweringHints(c, skills, all, targets) :: s.TryLevel?
  {
    if |targets| > 0 {
      LoweringHintsKind(c, skills, all, targets[..|targets| - 1]);
    }
  }

  /** Each lowering hint names, for its skill, the highest level below the
      requested one at which the skill fits next to the other requested
      skills. */
  lemma {:induction false} LoweringHintsSpec(c: Catalog, skills: seq<Skill>, all: seq<SkillLevel>, targets: seq<SkillLevel>)
    ensures forall h | h in LoweringHints(c, skills, all, targets) ::
              exists t | t in targets :: h.TryLevel? && h.skillName == DisplayName(skills, t.skillId)
                && 1 <= h.level < t.level
                && Compatible(c, WithoutSkill(all, t.skillId) + [SkillLevel(t.skillId, h.level)])
                && forall l | h.level < l < t.level :: !Compatible(c, WithoutSkill(all, t.skillId) + [SkillLevel(t.skillId, l)])
  {
    if |targets| > 0 {
      var init := targets[..|targets| - 1];
      var t := targets[|targets| - 1];
      LoweringHintsSpec(c, skills, all, init);
      LoweredLevelSpec(c, WithoutSkill(all, t.skillId), t.skillId, t.level - 1);
      assert targets == init + [t];
    }
  }

  /** The lowering search for one requested skill as the source runs it:
      from one below the requested level down to 1, stopping at the first
      level that fits. */
  method LowerSearch(c: Catalog, targets: seq<SkillLevel>, target: SkillLevel) returns (found: int)
    ensures found == LoweredLevel(c, WithoutSkill(targets, target.skillId), target.skillId, target.level - 1)
  {
    var level := target.level - 1;
    while level >= 1
      invariant LoweredLevel(c, WithoutSkill(targets, target.skillId), target.skillId, target.level - 1)
             == LoweredLevel(c, WithoutSkill(targets, target.skillId), target.skillId, level)
    {
      var otherSkills := WithoutSkill(targets, target.skillId);
      var testSkills := otherSkills + [SkillLevel(target.skillId, level)];
      var ok := CheckTemplateCompatibility(c, testSkills);
      if ok {
        return level;
      }
      level := level - 1;
    }
    return 0;
  }

  /** Step 3a as the source runs it: a search hint per requested skill. */
  method CollectAloneHints(skills: seq<Skill>, targets: seq<SkillLevel>) returns (hints: seq<AdviceSuggestion>)
    ensures hints == AloneHints(skills, targets)
  {
    hints := [];
    var i := 0;
    while i < |targets|
      invariant 0 <= i <= |targets|
      invariant hints == AloneHints(skills, targets[..i])
    {
      assert targets[..i + 1][..i] == targets[..i];
      hints := hints + [SearchAlone(DisplayName(skills, targets[i].skillId), targets[i].level)];
      i := i + 1;
    }
    assert targets[..i] == targets;
  }

  /** Step 3b as the source runs it: the lowering search for each requested
      skill. */
  method CollectLoweringHints(c: Catalog, skills: seq<Skill>, targets: seq<SkillLevel>) returns (hints: seq<AdviceSuggestion>)
    ensures hints == LoweringHints(c, skills, targets, targets)
  {
    hints := [];
    var j := 0;
    while j < |targets|
      invariant 0 <= j <= |targets|
      invariant hints == LoweringHints(c, skills, targets, targets[..j])
    {
      assert targets[..j + 1][..j] == targets[..j];
      var lowered := LowerSearch(c, targets, targets[j]);
      if lowered >= 1 {
        hints := hints + [TryLevel(DisplayName(skills, targets[j].skillId), lowered)];
      }
      j := j + 1;
    }
    assert targets[..j] == targets;
  }

  /** Steps 2 and 3 as the source runs them. */
  method AdviseCombination(c: Catalog, skills: seq<Skill>, targets: seq<SkillLevel>) returns (g: Advice)
    ensures g == CombinationAdvice(c, skills, targets)
  {
    var possible := CheckTemplateCompatibility(c, targets);
    if possible || |targets| == 0 {
      return Advice([], []);
    }
    var alone: seq<AdviceSuggestion> := [];
    if |targets| > 1 {
      alone := CollectAloneHints(skills, targets);
    }
    var lowering := CollectLoweringHints(c, skills, targets);
    g := Advice([NoTemplateHasCombination], [ConsiderAlternatives] + alone + lowering);
  }

  /** The advisor's `analyzeFailure(criteria)` as the source runs it, on
      `criteria.targetSkills`. */
  method AnalyzeFailure(c: Catalog, targets: seq<SkillLevel>) returns (r: Result<Advice, string>)
    ensures r == Advise(c, targets)
  {
    if c.skills.None? {
      return Failure("skill table not loaded");
    }
    var skills := c.skills.value;
    var reasons: seq<AdviceReason> := [];
    var suggestions: seq<AdviceSuggestion> := [];
    var i := 0;
    while i < |targets|
      invariant 0 <= i <= |targets|
      invariant Advice(reasons, suggestions) == LevelChecks(c, skills, targets[..i])
    {
      var targetSkill := targets[i];
      assert targets[..i + 1][..i] == targets[..i];
      var maxLevel := GetMaxSkillLevel(c, targetSkill.skillId);
      if targetSkill.level > maxLevel {
        var name := DisplayName(skills, targetSkill.skillId);
        reasons := reasons + [AboveGameMax(name, targetSkill.level, maxLevel)];
        suggestions := suggestions + [LowerToMax(name, maxLevel)];
      }
      i := i + 1;
    }
    assert targets[..i] == targets;
    var general := AdviseCombination(c, skills, targets);
    assert LevelChecks(c, skills, targets) == Advice(reasons, suggestions);
    reasons := reasons + general.reasons;
    suggestions := suggestions + general.suggestions;
    if |reasons| > 0 && |suggestions| == 0 {
      suggestions := [AdjustCombination];
    }
    r := Success(Advice(reasons, suggestions));
    assert c.skills.value == skills;
  }
}
