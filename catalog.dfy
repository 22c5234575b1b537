/** The charm catalog as the calculator sees it once it has been loaded: the
    skill table, the skill-group table and the rarity table, each of which may
    still be absent (the data manager holds `null` until loading finishes). */
module CatalogTypes {
  import opened Wrappers
  import opened SeqUtil

  /** One weighted outcome of a skill group: drawing it grants `skillId` at `level`. */
  datatype Entry = Entry(skillId: string, level: int, weight: real)

  /** A weighted draw table; the `groupId` prefix says which charm slot it feeds. */
  datatype SkillGroup = SkillGroup(groupId: string, entries: seq<Entry>, labelZh: string)

  /** A socket layout: -1 is the weapon socket, positive values are socket sizes. */
  datatype SlotPattern = SlotPattern(slots: seq<int>, weight: real)

  /** A template: an ordered list of group positions (one independent draw each,
      referenced by `groupId`) and the socket layouts it can roll. */
  datatype Template = Template(labelZh: string, skillGroups: seq<string>, slotPatterns: seq<SlotPattern>)

  /** One entry of `Object.entries(rarities.rarities)`: the rarity key ("R5" …),
      its weight and its templates. */
  datatype Rarity = Rarity(key: string, weight: real, templates: seq<Template>)

  datatype Skill = Skill(id: string, name: string)

  /** The data manager's three tables; `None` is a table not loaded yet. */
  datatype Catalog = Catalog(
    skills: Option<seq<Skill>>,
    skillGroups: Option<seq<SkillGroup>>,
    rarities: Option<seq<Rarity>>)

  /** A (skill, level) pair: `{skillId, level}` in calculation criteria and
      `{id, level}` in the user's selection. */
  datatype SkillLevel = SkillLevel(skillId: string, level: int)

  /** An entry grants exactly the requested skill at exactly the requested level. */
  predicate Grants(e: Entry, t: SkillLevel)
  {
    e.skillId == t.skillId && e.level == t.level
  }

  /** `group.entries.some(entry => entry.skillId === t.skillId && entry.level === t.level)` */
  predicate HasEntry(entries: seq<Entry>, t: SkillLevel)
  {
    exists e | e in entries :: Grants(e, t)
  }

  /** `group.entries.find(...)` with the same test: the first granting entry. */
  function FindEntry(entries: seq<Entry>, t: SkillLevel): (r: Option<Entry>)
    ensures r.Some? <==> HasEntry(entries, t)
    ensures r.Some? ==> r.value in entries && Grants(r.value, t)
  {
    if |entries| == 0 then None
    else if Grants(entries[0], t) then Some(entries[0])
    else
      assert entries == [entries[0]] + entries[1..];
      FindEntry(entries[1..], t)
  }

  /** An entry listed twice resolves to its first occurrence, so its weight is
      the one the factor uses. */
  lemma {:induction false} FindEntryFirst(entries: seq<Entry>, t: SkillLevel, i: nat)
    requires i < |entries| && Grants(entries[i], t)
    requires forall j | 0 <= j < i :: !Grants(entries[j], t)
    ensures FindEntry(entries, t) == Some(entries[i])
  {
    if i > 0 {
      FindEntryFirst(entries[1..], t, i - 1);
    }
  }

  /** `skillGroups.groups.find(g => g.groupId === groupId)`: the first group with
      that id, so a duplicated id always resolves to its first occurrence. */
  function FindGroup(groups: seq<SkillGroup>, groupId: string): (r: Option<SkillGroup>)
    ensures r.None? <==> forall g | g in groups :: g.groupId != groupId
    ensures r.Some? ==> r.value in groups && r.value.groupId == groupId
    ensures r.Some? ==> exists i | 0 <= i < |groups| :: groups[i] == r.value
                          && forall j | 0 <= j < i :: groups[j].groupId != groupId
  {
    if |groups| == 0 then None
    else if groups[0].groupId == groupId then Some(groups[0])
    else
      assert groups == [groups[0]] + groups[1..];
      FindGroup(groups[1..], groupId)
  }

  /** A duplicated id resolves to its first occurrence. */
  lemma {:induction false} FindGroupFirst(groups: seq<SkillGroup>, groupId: string, i: nat)
    requires i < |groups| && groups[i].groupId == groupId
    requires forall j | 0 <= j < i :: groups[j].groupId != groupId
    ensures FindGroup(groups, groupId) == Some(groups[i])
  {
    if i > 0 {
      FindGroupFirst(groups[1..], groupId, i - 1);
    }
  }

  /** The group a template position refers to exists and can draw `t`. */
  predicate Offers(table: seq<SkillGroup>, groupId: string, t: SkillLevel)
  {
    match FindGroup(table, groupId)
    case None => false
    case Some(g) => HasEntry(g.entries, t)
  }

  predicate PositiveEntries(entries: seq<Entry>)
  {
    forall e | e in entries :: e.weight > 0.0
  }

  /** `group.entries.reduce((sum, entry) => sum + entry.weight, 0)`; with
      positive weights every entry's weight is a part of the total. */
  function TotalWeight(entries: seq<Entry>): (r: real)
    ensures PositiveEntries(entries) ==> forall e | e in entries :: 0.0 < e.weight <= r
    ensures PositiveEntries(entries) ==> 0.0 <= r
  {
    if |entries| == 0 then 0.0
    else
      assert entries == entries[..|entries| - 1] + [entries[|entries| - 1]];
      TotalWeight(entries[..|entries| - 1]) + entries[|entries| - 1].weight
  }

  /** `template.slotPatterns.reduce((sum, sp) => sum + sp.weight, 0)` */
  function PatternWeight(patterns: seq<SlotPattern>): (r: real)
    ensures (forall p | p in patterns :: p.weight > 0.0) ==> forall p | p in patterns :: 0.0 < p.weight <= r
  {
    if |patterns| == 0 then 0.0
    else
      assert patterns == patterns[..|patterns| - 1] + [patterns[|patterns| - 1]];
      PatternWeight(patterns[..|patterns| - 1]) + patterns[|patterns| - 1].weight
  }

  /** The data invariant every weight division relies on: all draw weights are
      positive (entries, slot patterns and rarities). */
  predicate PositiveWeights(c: Catalog)
  {
    && (c.skillGroups.Some? ==> forall g | g in c.skillGroups.value :: PositiveEntries(g.entries))
    && (c.rarities.Some? ==> forall r | r in c.rarities.value :: r.weight > 0.0)
    && (c.rarities.Some? ==> forall r, t, p | r in c.rarities.value && t in r.templates && p in t.slotPatterns :: p.weight > 0.0)
  }

  /** Every entry grants a level of at least 1, as the shipped tables do. */
  predicate LevelsFromOne(c: Catalog)
  {
    c.skillGroups.Some? ==> forall g, e | g in c.skillGroups.value && e in g.entries :: e.level >= 1
  }

  /** `list.filter(s => s.id !== skillId)`: the pairs for other skills, in
      their original order. */
  function WithoutSkill(s: seq<SkillLevel>, skillId: string): (r: seq<SkillLevel>)
    ensures forall x :: x in r <==> x in s && x.skillId != skillId
    ensures |r| <= |s|
  {
    if |s| == 0 then []
    else
      var init := s[..|s| - 1];
      var last := s[|s| - 1];
      assert s == init + [last];
      WithoutSkill(init, skillId) + (if last.skillId != skillId then [last] else [])
  }

  /** Filtering distributes over concatenation, so the kept pairs stay in
      their relative order. */
  lemma {:induction false} WithoutSkillAppend(a: seq<SkillLevel>, b: seq<SkillLevel>, skillId: string)
    ensures WithoutSkill(a + b, skillId) == WithoutSkill(a, skillId) + WithoutSkill(b, skillId)
  {
    if |b| > 0 {
      var init := b[..|b| - 1];
      var last := b[|b| - 1];
      var kept := if last.skillId != skillId then [last] else [];
      calc {
        WithoutSkill(a + b, skillId);
        { assert (a + b)[..|a + b| - 1] == a + init; assert (a + b)[|a + b| - 1] == last; }
        WithoutSkill(a + init, skillId) + kept;
        { WithoutSkillAppend(a, init, skillId); }
        WithoutSkill(a, skillId) + WithoutSkill(init, skillId) + kept;
        WithoutSkill(a, skillId) + (WithoutSkill(init, skillId) + kept);
        WithoutSkill(a, skillId) + WithoutSkill(b, skillId);
      }
    } else {
      assert a + b == a;
    }
  }

  /** Filtering twice is filtering once. */
  lemma {:induction false} WithoutSkillIdempotent(s: seq<SkillLevel>, skillId: string)
    ensures WithoutSkill(WithoutSkill(s, skillId), skillId) == WithoutSkill(s, skillId)
  {
    if |s| > 0 {
      var init := s[..|s| - 1];
      var last := s[|s| - 1];
      WithoutSkillIdempotent(init, skillId);
      var kept := if last.skillId != skillId then [last] else [];
      WithoutSkillAppend(WithoutSkill(init, skillId), kept, skillId);
    }
  }
}
