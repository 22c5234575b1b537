/** The calculator's failure report (`analyzeFailure` in
    `public/js/calculator.js`), shown when a search returns no results. The
    checks are independent: each appends its own reasons and suggestions,
    and none stops the others. Messages are modelled as tagged values that
    carry the names and numbers the on-screen text mentions. */
module Diagnostics {
  import opened Wrappers
  import opened SeqUtil
  import opened CatalogTypes
  import opened CharmData
  import opened SlotMatcher
  import opened Enumeration
  import opened Pipeline

  /** The most skills and sockets any charm template supports. */
  const MaxTargets: nat := 3

  datatype Reason =
    | DataNotLoaded
    | UnknownSkill(skillId: string)
    | SkillUnavailable(skillName: string)
    | LevelTooHigh(skillName: string, level: int, maxLevel: int)
    | NoCriteria
    | TooManySkills
    | TooManySlots

  datatype Suggestion =
    | WaitForData
    | LowerLevelTo(skillName: string, maxLevel: int)
    | ChooseCriteria
    | FewerSkills
    | FewerSlots
    | TryRarities(rarities: seq<string>)

  /** What the report says about one requested skill. */
  datatype SkillIssue = SkillIssue(skillId: string, skillName: string, level: int,
                                   availableInGroups: seq<string>, maxLevelInGroups: int)

  datatype Analysis = Analysis(
    reasons: seq<Reason>,
    suggestions: seq<Suggestion>,
    skillIssues: seq<SkillIssue>,
    requestedSlots: seq<int>,
    availableSlotPatterns: seq<string>,
    hasCompatibleTemplates: bool,
    compatibleRarities: seq<string>,
    skillSlotMismatch: bool)

  // ---------------------------------------------------------------------------
  // The per-skill checks

  /** `new Map(skills.map(s => [s.id, s])).get(skillId)`: a later skill with
      the same id overwrites an earlier one, so the last one is found. */
  function SkillMapGet(skills: seq<Skill>, skillId: string): (r: Option<Skill>)
    ensures r.None? <==> forall s | s in skills :: s.id != skillId
    ensures r.Some? ==> exists i | 0 <= i < |skills| :: skills[i] == r.value && r.value.id == skillId
                          && forall j | i < j < |skills| :: skills[j].id != skillId
  {
    if |skills| == 0 then None
    else
      var last := skills[|skills| - 1];
      var init := skills[..|skills| - 1];
      assert skills == init + [last];
      if last.id == skillId then Some(last) else SkillMapGet(init, skillId)
  }

  /** The labels of the groups that hold the skill at any level, in table
      order (one per group, repeated labels kept). */
  function GroupsWithSkill(groups: seq<SkillGroup>, skillId: string): (r: seq<string>)
    ensures |r| <= |groups|
  {
    if |groups| == 0 then []
    else
      var init := GroupsWithSkill(groups[..|groups| - 1], skillId);
      var g := groups[|groups| - 1];
      if MentionsSkill(g, skillId) then init + [g.labelZh] else init
  }

  /** The reasons, suggestions and issue record the checks of one skill add. */
  datatype Findings = Findings(reasons: seq<Reason>, suggestions: seq<Suggestion>, issues: seq<SkillIssue>)

  function Combine(a: Findings, b: Findings): Findings
  {
    Findings(a.reasons + b.reasons, a.suggestions + b.suggestions, a.issues + b.issues)
  }

  /** One requested skill: unknown ids stop at a reason; otherwise a skill no
      group holds, or a level above the highest any group holds, is reported,
      and the skill's issue record is added either way. */
  function CheckSkill(skills: seq<Skill>, groups: seq<SkillGroup>, t: SkillLevel): Findings
  {
    match SkillMapGet(skills, t.skillId)
    case None => Findings([UnknownSkill(t.skillId)], [], [])
    case Some(skill) =>
      var labels := GroupsWithSkill(groups, t.skillId);
      var maxLevel := GroupsMax(0, groups, t.skillId);
      var issue := SkillIssue(t.skillId, skill.name, t.level, labels, maxLevel);
      if labels == [] then Findings([SkillUnavailable(skill.name)], [], [issue])
      else if t.level > maxLevel then
        Findings([LevelTooHigh(skill.name, t.level, maxLevel)], [LowerLevelTo(skill.name, maxLevel)], [issue])
      else Findings([], [], [issue])
  }

  /** The checks of every requested skill, in request order. */
  function SkillFindings(skills: seq<Skill>, groups: seq<SkillGroup>, targets: seq<SkillLevel>): Findings
  {
    if |targets| == 0 then Findings([], [], [])
    else Combine(SkillFindings(skills, groups, targets[..|targets| - 1]),
                 CheckSkill(skills, groups, targets[|targets| - 1]))
  }

  /** The list is empty exactly when no group holds the skill, and every
      group that holds it has its label listed. */
  lemma {:induction false} GroupsWithSkillExact(groups: seq<SkillGroup>, skillId: string)
    ensures GroupsWithSkill(groups, skillId) == [] <==> forall g | g in groups :: !MentionsSkill(g, skillId)
    ensures forall g | g in groups && MentionsSkill(g, skillId) :: g.labelZh in GroupsWithSkill(groups, skillId)
  {
    if |groups| > 0 {
      var init := groups[..|groups| - 1];
      GroupsWithSkillExact(init, skillId);
      assert groups == init + [groups[|groups| - 1]];
    }
  }

  /** The level ceiling of an unavailable skill is 0, and otherwise it is
      the highest level some group holds for the skill. */
  lemma CeilingExact(groups: seq<SkillGroup>, skillId: string)
    ensures forall l | OccursIn(groups, skillId, l) :: l <= GroupsMax(0, groups, skillId)
    ensures GroupsMax(0, groups, skillId) == 0 || OccursIn(groups, skillId, GroupsMax(0, groups, skillId))
  {
    GroupsMaxBounds(0, groups, skillId);
  }

  /** Some group of the table holds the skill at some level. */
  predicate Available(groups: seq<SkillGroup>, skillId: string)
  {
    exists g | g in groups :: MentionsSkill(g, skillId)
  }

  /** Exactly what the check of one skill reports: an unknown id gives its
      reason and nothing else; a known skill always gets its issue record,
      plus one reason when no group holds it, or a reason and the matching
      suggestion when the level is above every group's ceiling. */
  lemma CheckSkillCases(skills: seq<Skill>, groups: seq<SkillGroup>, t: SkillLevel)
    ensures var f := CheckSkill(skills, groups, t);
            && ((forall s | s in skills :: s.id != t.skillId) ==> f == Findings([UnknownSkill(t.skillId)], [], []))
            && ((exists s | s in skills :: s.id == t.skillId) ==>
                  && |f.issues| == 1 && f.issues[0].skillId == t.skillId && f.issues[0].level == t.level
                  && f.issues[0].maxLevelInGroups == GroupsMax(0, groups, t.skillId)
                  && (f.reasons == [] <==> Available(groups, t.skillId) && t.level <= GroupsMax(0, groups, t.skillId))
                  && |f.reasons| <= 1
                  && (f.suggestions == [LowerLevelTo(f.issues[0].skillName, GroupsMax(0, groups, t.skillId))]
                      <==> Available(groups, t.skillId) && t.level > GroupsMax(0, groups, t.skillId))
                  && (f.suggestions == [] <==> !Available(groups, t.skillId) || t.level <= GroupsMax(0, groups, t.skillId)))
  {
    GroupsWithSkillExact(groups, t.skillId);
  }

  /** The per-skill checks only ever report unknown or unavailable skills and
      levels that are too high, and only ever suggest lowering a level. */
  lemma {:induction false} SkillFindingsKinds(skills: seq<Skill>, groups: seq<SkillGroup>, targets: seq<SkillLevel>)
    ensures forall r | r in SkillFindings(skills, groups, targets).reasons ::
              r.UnknownSkill? || r.SkillUnavailable? || r.LevelTooHigh?
    ensures forall g | g in SkillFindings(skills, groups, targets).suggestions :: g.LowerLevelTo?
  {
    if |targets| > 0 {
      SkillFindingsKinds(skills, groups, targets[..|targets| - 1]);
    }
  }

  /** Each requested skill's check is part of the report: its reasons, its
      suggestions and its issue record all appear. */
  lemma {:induction false} SkillFindingsInclude(skills: seq<Skill>, groups: seq<SkillGroup>, targets: seq<SkillLevel>, i: nat)
    requires i < |targets|
    ensures var f := SkillFindings(skills, groups, targets);
            var one := CheckSkill(skills, groups, targets[i]);
            && (forall r | r in one.reasons :: r in f.reasons)
            && (forall g | g in one.suggestions :: g in f.suggestions)
            && (forall x | x in one.issues :: x in f.issues)
  {
    if i < |targets| - 1 {
      SkillFindingsInclude(skills, groups, targets[..|targets| - 1], i);
    }
  }

  /** An unknown-skill reason is only ever given for a requested id that no
      skill has. */
  lemma {:induction false} UnknownOnlyForMissing(skills: seq<Skill>, groups: seq<SkillGroup>, targets: seq<SkillLevel>)
    ensures forall id | UnknownSkill(id) in SkillFindings(skills, groups, targets).reasons ::
              (exists t | t in targets :: t.skillId == id) && forall s | s in skills :: s.id != id
  {
    if |targets| > 0 {
      var init := targets[..|targets| - 1];
      var t := targets[|targets| - 1];
      UnknownOnlyForMissing(skills, groups, init);
      assert targets == init + [t];
    }
  }

  // ---------------------------------------------------------------------------
  // The socket layouts on offer

  /** The `Set` of formatted socket layouts, filled pattern by pattern. */
  function PatternLabels(acc: seq<string>, patterns: seq<SlotPattern>): (r: seq<string>)
    ensures Distinct(acc) ==> Distinct(r)
    ensures forall s :: s in r <==> s in acc || exists p | p in patterns :: FormatSlotPattern(p.slots) == s
  {
    if |patterns| == 0 then acc
    else
      var init := patterns[..|patterns| - 1];
      assert patterns == init + [patterns[|patterns| - 1]];
      AddDistinct(PatternLabels(acc, init), FormatSlotPattern(patterns[|patterns| - 1].slots))
  }

  function TemplateLabels(acc: seq<string>, templates: seq<Template>): (r: seq<string>)
    ensures Distinct(acc) ==> Distinct(r)
    ensures forall s :: s in r <==> (s in acc
              || exists t, p | t in templates && p in t.slotPatterns :: FormatSlotPattern(p.slots) == s)
  {
    if |templates| == 0 then acc
    else
      var init := templates[..|templates| - 1];
      assert templates == init + [templates[|templates| - 1]];
      PatternLabels(TemplateLabels(acc, init), templates[|templates| - 1].slotPatterns)
  }

  /** Every socket layout of every template of every rarity, each once, in
      first-seen order. */
  function RarityLabels(acc: seq<string>, rarities: seq<Rarity>): (r: seq<string>)
    ensures Distinct(acc) ==> Distinct(r)
    ensures forall s :: s in r <==> (s in acc
              || exists q, t, p | q in rarities && t in q.templates && p in t.slotPatterns :: FormatSlotPattern(p.slots) == s)
  {
    if |rarities| == 0 then acc
    else
      var init := rarities[..|rarities| - 1];
      assert rarities == init + [rarities[|rarities| - 1]];
      TemplateLabels(RarityLabels(acc, init), rarities[|rarities| - 1].templates)
  }

  // ---------------------------------------------------------------------------
  // The compatibility scan

  /** A template passes all three tests together: enough positions, a socket
      layout that matches the request, and (for a non-empty request) an
      assignment of the requested skills to its positions. */
  predicate TemplateCompatible(table: seq<SkillGroup>, template: Template, criteria: Criteria)
  {
    && |criteria.targetSkills| <= |template.skillGroups|
    && (exists p | p in template.slotPatterns :: MatchesSlotCriteria(p, criteria.targetSlots))
    && (|criteria.targetSkills| == 0
        || |Enumerate(Instance(template.skillGroups, table, criteria.targetSkills))| > 0)
  }

  predicate RarityCompatible(table: seq<SkillGroup>, rarity: Rarity, criteria: Criteria)
  {
    exists t | t in rarity.templates :: TemplateCompatible(table, t, criteria)
  }

  /** The `Set` of compatible rarity keys, filled in table order. */
  function CompatibleRarities(table: seq<SkillGroup>, rarities: seq<Rarity>, criteria: Criteria): (r: seq<string>)
    ensures Distinct(r)
    ensures forall k :: k in r <==> exists q | q in rarities :: q.key == k && RarityCompatible(table, q, criteria)
  {
    if |rarities| == 0 then []
    else
      var init := rarities[..|rarities| - 1];
      var q := rarities[|rarities| - 1];
      assert rarities == init + [q];
      var acc := CompatibleRarities(table, init, criteria);
      if RarityCompatible(table, q, criteria) then AddDistinct(acc, q.key) else acc
  }

  // ---------------------------------------------------------------------------
  // The whole report

  /** The criteria-level checks, in the source's order. */
  function CriteriaFindings(criteria: Criteria, compatible: seq<string>): Findings
  {
    var none := if |criteria.targetSkills| == 0 && |criteria.targetSlots| == 0
                then Findings([NoCriteria], [ChooseCriteria], []) else Findings([], [], []);
    var skills := if |criteria.targetSkills| > MaxTargets
                  then Findings([TooManySkills], [FewerSkills], []) else Findings([], [], []);
    var slots := if |criteria.targetSlots| > MaxTargets
                 then Findings([TooManySlots], [FewerSlots], []) else Findings([], [], []);
    var alternatives := if |compatible| > 0 then Findings([], [TryRarities(compatible)], []) else Findings([], [], []);
    Combine(Combine(Combine(none, skills), slots), alternatives)
  }

  /** `analyzeFailure(criteria)`. */
  function Analyze(c: Catalog, criteria: Criteria): Analysis
  {
    if c.rarities.None? || c.skillGroups.None? || c.skills.None? then
      Analysis([DataNotLoaded], [WaitForData], [], criteria.targetSlots, [], false, [], false)
    else
      var table := c.skillGroups.value;
      var perSkill := SkillFindings(c.skills.value, table, criteria.targetSkills);
      var compatible := CompatibleRarities(table, c.rarities.value, criteria);
      var general := CriteriaFindings(criteria, compatible);
      var all := Combine(perSkill, general);
      Analysis(all.reasons, all.suggestions, all.issues, criteria.targetSlots,
               RarityLabels([], c.rarities.value), |compatible| > 0, compatible, false)
  }

  /** While a table is missing the report only says to wait for the data. */
  lemma AnalyzeNotLoaded(c: Catalog, criteria: Criteria)
    requires c.rarities.None? || c.skillGroups.None? || c.skills.None?
    ensures var a := Analyze(c, criteria);
            && a.reasons == [DataNotLoaded] && a.suggestions == [WaitForData]
            && a.skillIssues == [] && a.availableSlotPatterns == []
            && !a.hasCompatibleTemplates && a.compatibleRarities == []
            && a.requestedSlots == criteria.targetSlots
  {
  }

  /** The criteria-level checks: too many skills and too many sockets each
      add their reason and suggestion, an empty request adds its own, and
      the rarities worth trying are suggested exactly when there are some. */
  lemma AnalyzeCriteriaChecks(c: Catalog, criteria: Criteria)
    requires c.rarities.Some? && c.skillGroups.Some? && c.skills.Some?
    ensures var a := Analyze(c, criteria);
            && (TooManySkills in a.reasons <==> |criteria.targetSkills| > MaxTargets)
            && (FewerSkills in a.suggestions <==> |criteria.targetSkills| > MaxTargets)
            && (TooManySlots in a.reasons <==> |criteria.targetSlots| > MaxTargets)
            && (FewerSlots in a.suggestions <==> |criteria.targetSlots| > MaxTargets)
            && (NoCriteria in a.reasons <==> |criteria.targetSkills| == 0 && |criteria.targetSlots| == 0)
            && (ChooseCriteria in a.suggestions <==> |criteria.targetSkills| == 0 && |criteria.targetSlots| == 0)
            && (TryRarities(a.compatibleRarities) in a.suggestions <==> a.compatibleRarities != [])
            && DataNotLoaded !in a.reasons
  {
    var table := c.skillGroups.value;
    var perSkill := SkillFindings(c.skills.value, table, criteria.targetSkills);
    var compatible := CompatibleRarities(table, c.rarities.value, criteria);
    var general := CriteriaFindings(criteria, compatible);
    SkillFindingsKinds(c.skills.value, table, criteria.targetSkills);
    CriteriaFindingsExact(criteria, compatible);
    var a := Analyze(c, criteria);
    assert a.reasons == perSkill.reasons + general.reasons;
    assert a.suggestions == perSkill.suggestions + general.suggestions;
    assert a.compatibleRarities == compatible;
  }

  lemma CriteriaFindingsExact(criteria: Criteria, compatible: seq<string>)
    ensures var f := CriteriaFindings(criteria, compatible);
            && (TooManySkills in f.reasons <==> |criteria.targetSkills| > MaxTargets)
            && (FewerSkills in f.suggestions <==> |criteria.targetSkills| > MaxTargets)
            && (TooManySlots in f.reasons <==> |criteria.targetSlots| > MaxTargets)
            && (FewerSlots in f.suggestions <==> |criteria.targetSlots| > MaxTargets)
            && (NoCriteria in f.reasons <==> |criteria.targetSkills| == 0 && |criteria.targetSlots| == 0)
            && (ChooseCriteria in f.suggestions <==> |criteria.targetSkills| == 0 && |criteria.targetSlots| == 0)
            && (TryRarities(compatible) in f.suggestions <==> compatible != [])
            && DataNotLoaded !in f.reasons
            && f.issues == []
  {
  }

  /** The compatibility verdict: a rarity is listed, once, exactly when one
      of its templates passes the count, socket and assignment tests
      together, and some template is compatible exactly when a rarity is
      listed. */
  lemma AnalyzeCompatibility(c: Catalog, criteria: Criteria)
    requires c.rarities.Some? && c.skillGroups.Some? && c.skills.Some?
    ensures var a := Analyze(c, criteria);
            && Distinct(a.compatibleRarities)
            && (forall k :: k in a.compatibleRarities <==>
                  exists q | q in c.rarities.value :: q.key == k && RarityCompatible(c.skillGroups.value, q, criteria))
            && (a.hasCompatibleTemplates <==>
                  exists q, t | q in c.rarities.value && t in q.templates :: TemplateCompatible(c.skillGroups.value, t, criteria))
  {
    var table := c.skillGroups.value;
    var compatible := CompatibleRarities(table, c.rarities.value, criteria);
    assert Analyze(c, criteria).compatibleRarities == compatible;
    assert Analyze(c, criteria).hasCompatibleTemplates == (|compatible| > 0);
    AnyCompatible(table, c.rarities.value, criteria);
  }

  lemma AnyCompatible(table: seq<SkillGroup>, rarities: seq<Rarity>, criteria: Criteria)
    ensures |CompatibleRarities(table, rarities, criteria)| > 0 <==>
              exists q, t | q in rarities && t in q.templates :: TemplateCompatible(table, t, criteria)
  {
    var compatible := CompatibleRarities(table, rarities, criteria);
    if exists q, t | q in rarities && t in q.templates :: TemplateCompatible(table, t, criteria) {
      var q, t :| q in rarities && t in q.templates && TemplateCompatible(table, t, criteria);
      assert RarityCompatible(table, q, criteria);
      assert q.key in compatible;
    }
    if |compatible| > 0 {
      var k := compatible[0];
      assert k in compatible;
      var q :| q in rarities && q.key == k && RarityCompatible(table, q, criteria);
      assert RarityCompatible(table, q, criteria);
      var t :| t in q.templates && TemplateCompatible(table, t, criteria);
    }
  }

  /** Every socket layout on offer is listed once, and nothing else is. */
  lemma AnalyzeSlotPatterns(c: Catalog, criteria: Criteria)
    requires c.rarities.Some? && c.skillGroups.Some? && c.skills.Some?
    ensures var a := Analyze(c, criteria);
            && Distinct(a.availableSlotPatterns)
            && forall s :: s in a.availableSlotPatterns <==>
                 exists q, t, p | q in c.rarities.value && t in q.templates && p in t.slotPatterns :: FormatSlotPattern(p.slots) == s
  {
  }

  /** The per-skill part of the report: every requested skill's own checks
      appear in it, and an unknown-skill reason names a requested id that
      no skill has. */
  lemma AnalyzeSkillChecks(c: Catalog, criteria: Criteria)
    requires c.rarities.Some? && c.skillGroups.Some? && c.skills.Some?
    ensures var a := Analyze(c, criteria);
            && (forall i | 0 <= i < |criteria.targetSkills| ::
                  var one := CheckSkill(c.skills.value, c.skillGroups.value, criteria.targetSkills[i]);
                  && (forall r | r in one.reasons :: r in a.reasons)
                  && (forall g | g in one.suggestions :: g in a.suggestions)
                  && (forall x | x in one.issues :: x in a.skillIssues))
            && forall id | UnknownSkill(id) in a.reasons ::
                 (exists t | t in criteria.targetSkills :: t.skillId == id) && forall s | s in c.skills.value :: s.id != id
  {
    var skills := c.skills.value;
    var table := c.skillGroups.value;
    forall i | 0 <= i < |criteria.targetSkills|
      ensures var one := CheckSkill(skills, table, criteria.targetSkills[i]);
              var a := Analyze(c, criteria);
              && (forall r | r in one.reasons :: r in a.reasons)
              && (forall g | g in one.suggestions :: g in a.suggestions)
              && (forall x | x in one.issues :: x in a.skillIssues)
    {
      SkillFindingsInclude(skills, table, criteria.targetSkills, i);
    }
    UnknownOnlyForMissing(skills, table, criteria.targetSkills);
  }

  // ---------------------------------------------------------------------------
  // The report as the source builds it

  /** The scan of the group table for one skill: the labels of the groups
      holding it and the running maximum of their levels, from 0. */
  method ScanGroups(groups: seq<SkillGroup>, skillId: string) returns (labels: seq<string>, maxLevel: int)
    ensures labels == GroupsWithSkill(groups, skillId)
    ensures maxLevel == GroupsMax(0, groups, skillId)
  {
    labels := [];
    maxLevel := 0;
    var i := 0;
    while i < |groups|
      invariant 0 <= i <= |groups|
      invariant labels == GroupsWithSkill(groups[..i], skillId)
      invariant maxLevel == GroupsMax(0, groups[..i], skillId)
    {
      var group := groups[i];
      assert groups[..i + 1][..i] == groups[..i];
      if exists e | e in group.entries :: e.skillId == skillId {
        labels := labels + [group.labelZh];
        maxLevel := EntriesMax(maxLevel, group.entries, skillId);
      } else {
        EntriesMaxBounds(maxLevel, group.entries, skillId);
      }
      i := i + 1;
    }
    assert groups[..i] == groups;
  }

  /** The `forEach` over the requested skills. */
  method CheckSkills(skills: seq<Skill>, groups: seq<SkillGroup>, targets: seq<SkillLevel>) returns (f: Findings)
    ensures f == SkillFindings(skills, groups, targets)
  {
    f := Findings([], [], []);
    var i := 0;
    while i < |targets|
      invariant 0 <= i <= |targets|
      invariant f == SkillFindings(skills, groups, targets[..i])
    {
      var targetSkill := targets[i];
      assert targets[..i + 1][..i] == targets[..i];
      var skill := SkillMapGet(skills, targetSkill.skillId);
      if skill.None? {
        f := f.(reasons := f.reasons + [UnknownSkill(targetSkill.skillId)]);
      } else {
        var availableGroups, maxLevel := ScanGroups(groups, targetSkill.skillId);
        var name := skill.value.name;
        if availableGroups == [] {
          f := f.(reasons := f.reasons + [SkillUnavailable(name)]);
        } else if targetSkill.level > maxLevel {
          f := f.(reasons := f.reasons + [LevelTooHigh(name, targetSkill.level, maxLevel)],
                  suggestions := f.suggestions + [LowerLevelTo(name, maxLevel)]);
        }
        f := f.(issues := f.issues + [SkillIssue(targetSkill.skillId, name, targetSkill.level, availableGroups, maxLevel)]);
      }
      i := i + 1;
    }
    assert targets[..i] == targets;
  }

  /** Adds the formatted layouts of one template to the `Set`. */
  method AddPatternLabels(acc: seq<string>, patterns: seq<SlotPattern>) returns (labels: seq<string>)
    ensures labels == PatternLabels(acc, patterns)
  {
    labels := acc;
    var i := 0;
    while i < |patterns|
      invariant 0 <= i <= |patterns|
      invariant labels == PatternLabels(acc, patterns[..i])
    {
      assert patterns[..i + 1][..i] == patterns[..i];
      labels := AddDistinct(labels, FormatSlotPattern(patterns[i].slots));
      i := i + 1;
    }
    assert patterns[..i] == patterns;
  }

  /** The `Set` of every layout of every template of every rarity. */
  method CollectSlotPatterns(rarities: seq<Rarity>) returns (labels: seq<string>)
    ensures labels == RarityLabels([], rarities)
  {
    labels := [];
    var i := 0;
    while i < |rarities|
      invariant 0 <= i <= |rarities|
      invariant labels == RarityLabels([], rarities[..i])
    {
      var templates := rarities[i].templates;
      ghost var before := labels;
      var j := 0;
      while j < |templates|
        invariant 0 <= j <= |templates|
        invariant labels == TemplateLabels(before, templates[..j])
      {
        assert templates[..j + 1][..j] == templates[..j];
        labels := AddPatternLabels(labels, templates[j].slotPatterns);
        j := j + 1;
      }
      assert templates[..j] == templates;
      assert rarities[..i + 1][..i] == rarities[..i];
      i := i + 1;
    }
    assert rarities[..i] == rarities;
  }

  /** The three tests on one template, each evaluated in full. */
  method CheckTemplate(table: seq<SkillGroup>, template: Template, criteria: Criteria) returns (ok: bool)
    ensures ok == TemplateCompatible(table, template, criteria)
  {
    var skillCompatible := |criteria.targetSkills| <= |template.skillGroups|;
    var slotCompatible := exists p | p in template.slotPatterns :: MatchesSlotCriteria(p, criteria.targetSlots);
    var skillGroupCompatible := |criteria.targetSkills| == 0;
    if !skillGroupCompatible {
      var combinations := FindSkillGroupCombinations(template.skillGroups, table, criteria.targetSkills);
      skillGroupCompatible := |combinations| > 0;
    }
    ok := skillCompatible && slotCompatible && skillGroupCompatible;
  }

  /** The templates of one rarity: the flag is raised by any that passes. */
  method CheckRarity(table: seq<SkillGroup>, rarity: Rarity, criteria: Criteria) returns (found: bool)
    ensures found == RarityCompatible(table, rarity, criteria)
  {
    found := false;
    var i := 0;
    while i < |rarity.templates|
      invariant 0 <= i <= |rarity.templates|
      invariant found == exists j | 0 <= j < i :: TemplateCompatible(table, rarity.templates[j], criteria)
    {
      var ok := CheckTemplate(table, rarity.templates[i], criteria);
      if ok {
        found := true;
      }
      i := i + 1;
    }
  }

  /** The scan over the rarities: the overall flag and the `Set` of
      compatible rarity keys. */
  method FindCompatibleRarities(table: seq<SkillGroup>, rarities: seq<Rarity>, criteria: Criteria)
    returns (hasAny: bool, compatible: seq<string>)
    ensures compatible == CompatibleRarities(table, rarities, criteria)
    ensures hasAny == (|compatible| > 0)
  {
    hasAny := false;
    compatible := [];
    var i := 0;
    while i < |rarities|
      invariant 0 <= i <= |rarities|
      invariant compatible == CompatibleRarities(table, rarities[..i], criteria)
      invariant hasAny == (|compatible| > 0)
    {
      assert rarities[..i + 1][..i] == rarities[..i];
      var found := CheckRarity(table, rarities[i], criteria);
      if found {
        compatible := AddDistinct(compatible, rarities[i].key);
        hasAny := true;
      }
      i := i + 1;
    }
    assert rarities[..i] == rarities;
  }

  /** `analyzeFailure(criteria)` as the source runs it. */
  method AnalyzeFailure(c: Catalog, criteria: Criteria) returns (a: Analysis)
    ensures a == Analyze(c, criteria)
  {
    if c.rarities.None? || c.skillGroups.None? || c.skills.None? {
      return Analysis([DataNotLoaded], [WaitForData], [], criteria.targetSlots, [], false, [], false);
    }
    var table := c.skillGroups.value;
    var perSkill := CheckSkills(c.skills.value, table, criteria.targetSkills);
    var patterns := CollectSlotPatterns(c.rarities.value);
    var hasAny, compatible := FindCompatibleRarities(table, c.rarities.value, criteria);
    var general := CheckCriteria(criteria, compatible);
    a := Analysis(perSkill.reasons + general.reasons, perSkill.suggestions + general.suggestions, perSkill.issues,
                  criteria.targetSlots, patterns, hasAny, compatible, false);
  }

  /** The criteria-level checks, appended one after another. */
  method CheckCriteria(criteria: Criteria, compatible: seq<string>) returns (f: Findings)
    ensures f == CriteriaFindings(criteria, compatible)
  {
    f := Findings([], [], []);
    if |criteria.targetSkills| == 0 && |criteria.targetSlots| == 0 {
      f := f.(reasons := f.reasons + [NoCriteria], suggestions := f.suggestions + [ChooseCriteria]);
    }
    if |criteria.targetSkills| > MaxTargets {
      f := f.(reasons := f.reasons + [TooManySkills], suggestions := f.suggestions + [FewerSkills]);
    }
    if |criteria.targetSlots| > MaxTargets {
      f := f.(reasons := f.reasons + [TooManySlots], suggestions := f.suggestions + [FewerSlots]);
    }
    if |compatible| > 0 {
      f := f.(suggestions := f.suggestions + [TryRarities(compatible)]);
    }
  }
}
