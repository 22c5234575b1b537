/** The data manager's lookup helpers (`public/js/data.js`): queries over the
    loaded tables, each with the default it answers while a table is absent. */
module CharmData {
  import opened Wrappers
  import opened SeqUtil
  import opened CatalogTypes

  function Max(a: int, b: int): int
  {
    if a >= b then a else b
  }

  // ---------------------------------------------------------------------------
  // Lookups by id

  /** `getSkillById`: the first skill with this id; nothing while the skill
      table is absent. */
  function GetSkillById(c: Catalog, skillId: string): (r: Option<Skill>)
    ensures c.skills.None? ==> r.None?
    ensures r.Some? ==> c.skills.Some? && r.value in c.skills.value && r.value.id == skillId
    ensures c.skills.Some? && r.None? ==> forall s | s in c.skills.value :: s.id != skillId
    ensures r.Some? ==> exists i | 0 <= i < |c.skills.value| :: c.skills.value[i] == r.value
                          && forall j | 0 <= j < i :: c.skills.value[j].id != skillId
  {
    if c.skills.None? then None
    else
      var k := FirstIndex(c.skills.value, (s: Skill) => s.id == skillId);
      if k < 0 then None else Some(c.skills.value[k])
  }

  /** `getSkillGroupById`: the first group with this id; nothing while the group
      table is absent. */
  function GetSkillGroupById(c: Catalog, groupId: string): (r: Option<SkillGroup>)
    ensures c.skillGroups.None? ==> r.None?
    ensures r.Some? ==> c.skillGroups.Some? && r.value in c.skillGroups.value && r.value.groupId == groupId
    ensures c.skillGroups.Some? && r.None? ==> forall g | g in c.skillGroups.value :: g.groupId != groupId
    ensures r.Some? ==> exists i | 0 <= i < |c.skillGroups.value| :: c.skillGroups.value[i] == r.value
                          && forall j | 0 <= j < i :: c.skillGroups.value[j].groupId != groupId
  {
    if c.skillGroups.None? then None
    else FindGroup(c.skillGroups.value, groupId)
  }

  // ---------------------------------------------------------------------------
  // Where a skill occurs

  /** Some group of the table has an entry for `skillId` at exactly `level`. */
  predicate OccursIn(groups: seq<SkillGroup>, skillId: string, level: int)
  {
    exists g | g in groups :: HasEntry(g.entries, SkillLevel(skillId, level))
  }

  /** `isSkillAvailableInGroups(skillId, level)`: false while the group table is
      absent, otherwise whether some group can draw that skill at that level. */
  predicate IsSkillAvailableInGroups(c: Catalog, skillId: string, level: int)
  {
    c.skillGroups.Some? && OccursIn(c.skillGroups.value, skillId, level)
  }

  // ---------------------------------------------------------------------------
  // getMaxSkillLevel

  /** The running maximum of `acc` and the levels of the entries for `skillId`
      (the inner `forEach` over one group's entries). */
  function EntriesMax(acc: int, entries: seq<Entry>, skillId: string): int
  {
    if |entries| == 0 then acc
    else
      var m := EntriesMax(acc, entries[..|entries| - 1], skillId);
      var e := entries[|entries| - 1];
      if e.skillId == skillId then Max(m, e.level) else m
  }

  /** The same running maximum carried across the groups (the outer `forEach`). */
  function GroupsMax(acc: int, groups: seq<SkillGroup>, skillId: string): int
  {
    if |groups| == 0 then acc
    else EntriesMax(GroupsMax(acc, groups[..|groups| - 1], skillId), groups[|groups| - 1].entries, skillId)
  }

  /** `getMaxSkillLevel`: starts from 1, so a skill that never occurs (or an
      absent table) answers 1. */
  function MaxSkillLevel(c: Catalog, skillId: string): int
  {
    if c.skillGroups.None? then 1 else GroupsMax(1, c.skillGroups.value, skillId)
  }

  lemma {:induction false} EntriesMaxBounds(acc: int, entries: seq<Entry>, skillId: string)
    ensures EntriesMax(acc, entries, skillId) >= acc
    ensures forall e | e in entries && e.skillId == skillId :: e.level <= EntriesMax(acc, entries, skillId)
    ensures EntriesMax(acc, entries, skillId) == acc
         || exists e | e in entries :: e.skillId == skillId && e.level == EntriesMax(acc, entries, skillId)
  {
    if |entries| > 0 {
      var init := entries[..|entries| - 1];
      EntriesMaxBounds(acc, init, skillId);
      assert entries == init + [entries[|entries| - 1]];
    }
  }

  lemma {:induction false} GroupsMaxBounds(acc: int, groups: seq<SkillGroup>, skillId: string)
    ensures GroupsMax(acc, groups, skillId) >= acc
    ensures forall l | OccursIn(groups, skillId, l) :: l <= GroupsMax(acc, groups, skillId)
    ensures GroupsMax(acc, groups, skillId) == acc || OccursIn(groups, skillId, GroupsMax(acc, groups, skillId))
  {
    if |groups| > 0 {
      var init := groups[..|groups| - 1];
      var last := groups[|groups| - 1];
      var m := GroupsMax(acc, init, skillId);
      GroupsMaxBounds(acc, init, skillId);
      EntriesMaxBounds(m, last.entries, skillId);
      assert groups == init + [last];
      var r := GroupsMax(acc, groups, skillId);
      forall l | OccursIn(groups, skillId, l) ensures l <= r {
        var g :| g in groups && HasEntry(g.entries, SkillLevel(skillId, l));
        if g == last {
          var e :| e in g.entries && Grants(e, SkillLevel(skillId, l));
        } else {
          assert g in init;
          assert OccursIn(init, skillId, l);
        }
      }
      if r != acc {
        if r == m {
          assert OccursIn(init, skillId, r);
          var g :| g in init && HasEntry(g.entries, SkillLevel(skillId, r));
          assert g in groups;
        } else {
          var e :| e in last.entries && e.skillId == skillId && e.level == r;
          assert Grants(e, SkillLevel(skillId, r));
          assert HasEntry(last.entries, SkillLevel(skillId, r));
        }
      }
    }
  }

  /** The maximum level is at least 1, bounds every level the tables hold for
      the skill, and is 1 unless it is itself one of those levels. */
  lemma MaxSkillLevelBounds(c: Catalog, skillId: string)
    ensures MaxSkillLevel(c, skillId) >= 1
    ensures forall l | IsSkillAvailableInGroups(c, skillId, l) :: l <= MaxSkillLevel(c, skillId)
    ensures MaxSkillLevel(c, skillId) == 1 || IsSkillAvailableInGroups(c, skillId, MaxSkillLevel(c, skillId))
    ensures (forall l :: !IsSkillAvailableInGroups(c, skillId, l)) ==> MaxSkillLevel(c, skillId) == 1
  {
    if c.skillGroups.Some? {
      GroupsMaxBounds(1, c.skillGroups.value, skillId);
    }
  }

  /** `getMaxSkillLevel` as the source runs it: an accumulator updated in two
      nested loops. */
  method GetMaxSkillLevel(c: Catalog, skillId: string) returns (maxLevel: int)
    ensures maxLevel == MaxSkillLevel(c, skillId)
  {
    if c.skillGroups.None? {
      return 1;
    }
    var groups := c.skillGroups.value;
    maxLevel := 1;
    var i := 0;
    while i < |groups|
      invariant 0 <= i <= |groups|
      invariant maxLevel == GroupsMax(1, groups[..i], skillId)
    {
      var entries := groups[i].entries;
      var j := 0;
      while j < |entries|
        invariant 0 <= j <= |entries|
        invariant maxLevel == EntriesMax(GroupsMax(1, groups[..i], skillId), entries[..j], skillId)
      {
        if entries[j].skillId == skillId {
          maxLevel := Max(maxLevel, entries[j].level);
        }
        assert entries[..j + 1][..j] == entries[..j];
        j := j + 1;
      }
      assert entries[..j] == entries;
      assert groups[..i + 1][..i] == groups[..i];
      i := i + 1;
    }
    assert groups[..i] == groups;
  }

  // ---------------------------------------------------------------------------
  // getAvailableSkillLevels

  predicate Ascending(s: seq<int>)
  {
    forall i, j | 0 <= i < j < |s| :: s[i] < s[j]
  }

  /** Adding a level to the `Set` that is later sorted ascending: the model keeps
      the set as an ascending sequence and inserts in place, skipping a level
      already present. */
  function InsertSorted(s: seq<int>, x: int): (r: seq<int>)
    ensures Ascending(s) ==> Ascending(r)
    ensures forall y :: y in r <==> y in s || y == x
  {
    if |s| == 0 then [x]
    else if x < s[0] then [x] + s
    else if x == s[0] then s
    else
      assert Ascending(s) ==> Ascending(s[1..]) by {
        if Ascending(s) {
          forall i, j | 0 <= i < j < |s[1..]| ensures s[1..][i] < s[1..][j] {
            assert s[1..][i] == s[i + 1] && s[1..][j] == s[j + 1];
          }
        }
      }
      var t := InsertSorted(s[1..], x);
      assert Ascending(s) ==> Ascending([s[0]] + t) by {
        if Ascending(s) {
          assert Ascending(t);
          forall y | y in t ensures s[0] < y {
            if y != x {
              var k :| 0 <= k < |s[1..]| && s[1..][k] == y;
              assert y == s[k + 1];
            }
          }
          forall i, j | 0 <= i < j < |[s[0]] + t| ensures ([s[0]] + t)[i] < ([s[0]] + t)[j] {
            assert ([s[0]] + t)[j] == t[j - 1] && t[j - 1] in t;
            if i > 0 {
              assert ([s[0]] + t)[i] == t[i - 1];
            }
          }
        }
      }
      [s[0]] + t
  }

  /** The levels collected from one group's entries. */
  function EntriesLevels(acc: seq<int>, entries: seq<Entry>, skillId: string): seq<int>
  {
    if |entries| == 0 then acc
    else
      var s := EntriesLevels(acc, entries[..|entries| - 1], skillId);
      var e := entries[|entries| - 1];
      if e.skillId == skillId then InsertSorted(s, e.level) else s
  }

  /** The levels collected across all groups. */
  function GroupsLevels(acc: seq<int>, groups: seq<SkillGroup>, skillId: string): seq<int>
  {
    if |groups| == 0 then acc
    else EntriesLevels(GroupsLevels(acc, groups[..|groups| - 1], skillId), groups[|groups| - 1].entries, skillId)
  }

  /** `getAvailableSkillLevels`: the sorted distinct levels, `[1]` when there
      are none or the table is absent. */
  function AvailableLevels(c: Catalog, skillId: string): seq<int>
  {
    if c.skillGroups.None? then [1]
    else
      var levels := GroupsLevels([], c.skillGroups.value, skillId);
      if |levels| == 0 then [1] else levels
  }

  lemma {:induction false} EntriesLevelsExact(acc: seq<int>, entries: seq<Entry>, skillId: string)
    requires Ascending(acc)
    ensures Ascending(EntriesLevels(acc, entries, skillId))
    ensures forall l :: l in EntriesLevels(acc, entries, skillId) <==> l in acc || HasEntry(entries, SkillLevel(skillId, l))
  {
    if |entries| > 0 {
      var init := entries[..|entries| - 1];
      var last := entries[|entries| - 1];
      EntriesLevelsExact(acc, init, skillId);
      assert entries == init + [last];
      forall l ensures HasEntry(entries, SkillLevel(skillId, l)) <==> HasEntry(init, SkillLevel(skillId, l)) || Grants(last, SkillLevel(skillId, l)) {
        if HasEntry(entries, SkillLevel(skillId, l)) {
          var e :| e in entries && Grants(e, SkillLevel(skillId, l));
          if e != last { assert e in init; }
        }
      }
    }
  }

  lemma {:induction false} GroupsLevelsExact(acc: seq<int>, groups: seq<SkillGroup>, skillId: string)
    requires Ascending(acc)
    ensures Ascending(GroupsLevels(acc, groups, skillId))
    ensures forall l :: l in GroupsLevels(acc, groups, skillId) <==> l in acc || OccursIn(groups, skillId, l)
  {
    if |groups| > 0 {
      var init := groups[..|groups| - 1];
      var last := groups[|groups| - 1];
      GroupsLevelsExact(acc, init, skillId);
      EntriesLevelsExact(GroupsLevels(acc, init, skillId), last.entries, skillId);
      assert groups == init + [last];
      forall l ensures OccursIn(groups, skillId, l) <==> OccursIn(init, skillId, l) || HasEntry(last.entries, SkillLevel(skillId, l)) {
        if OccursIn(groups, skillId, l) {
          var g :| g in groups && HasEntry(g.entries, SkillLevel(skillId, l));
          if g != last { assert g in init; }
        }
        if OccursIn(init, skillId, l) {
          var g :| g in init && HasEntry(g.entries, SkillLevel(skillId, l));
          assert g in groups;
        }
      }
    }
  }

  /** The available levels are strictly ascending (so free of duplicates), never
      empty, and are exactly the levels the tables hold for the skill, or `[1]`
      when they hold none or are absent. */
  lemma AvailableLevelsExact(c: Catalog, skillId: string)
    ensures Ascending(AvailableLevels(c, skillId)) && |AvailableLevels(c, skillId)| > 0
    ensures (exists l :: IsSkillAvailableInGroups(c, skillId, l)) ==>
              forall l :: l in AvailableLevels(c, skillId) <==> IsSkillAvailableInGroups(c, skillId, l)
    ensures (forall l :: !IsSkillAvailableInGroups(c, skillId, l)) ==> AvailableLevels(c, skillId) == [1]
  {
    if c.skillGroups.Some? {
      var levels := GroupsLevels([], c.skillGroups.value, skillId);
      GroupsLevelsExact([], c.skillGroups.value, skillId);
      if |levels| > 0 {
        assert IsSkillAvailableInGroups(c, skillId, levels[0]);
      }
    }
  }

  /** A pair the group table offers is always among the skill's available
      levels. */
  lemma AvailableInGroupsIsListed(c: Catalog, skillId: string, level: int)
    requires IsSkillAvailableInGroups(c, skillId, level)
    ensures level in AvailableLevels(c, skillId)
  {
    AvailableLevelsExact(c, skillId);
  }

  /** The two level queries agree: the maximum level is the last available
      level, raised to 1 if that is lower. */
  lemma MaxSkillLevelIsLastAvailable(c: Catalog, skillId: string)
    ensures var levels := AvailableLevels(c, skillId);
            |levels| > 0 && MaxSkillLevel(c, skillId) == Max(1, levels[|levels| - 1])
    ensures forall l | l in AvailableLevels(c, skillId) :: l <= MaxSkillLevel(c, skillId)
  {
    var levels := AvailableLevels(c, skillId);
    var m := MaxSkillLevel(c, skillId);
    AvailableLevelsExact(c, skillId);
    MaxSkillLevelBounds(c, skillId);
    var last := levels[|levels| - 1];
    if exists l :: IsSkillAvailableInGroups(c, skillId, l) {
      assert IsSkillAvailableInGroups(c, skillId, last);
      assert last <= m;
      forall l | l in levels ensures l <= last {
        var k :| 0 <= k < |levels| && levels[k] == l;
      }
      if m != 1 {
        assert m in levels;
      }
    }
  }

  /** With the shipped data (levels from 1), every available level lies in
      `[1, getMaxSkillLevel]`. */
  lemma AvailableLevelsInRange(c: Catalog, skillId: string)
    requires LevelsFromOne(c)
    ensures forall l | l in AvailableLevels(c, skillId) :: 1 <= l <= MaxSkillLevel(c, skillId)
  {
    AvailableLevelsExact(c, skillId);
    MaxSkillLevelIsLastAvailable(c, skillId);
    forall l | l in AvailableLevels(c, skillId) ensures 1 <= l {
      if exists l' :: IsSkillAvailableInGroups(c, skillId, l') {
        assert IsSkillAvailableInGroups(c, skillId, l);
        var g :| g in c.skillGroups.value && HasEntry(g.entries, SkillLevel(skillId, l));
        var e :| e in g.entries && Grants(e, SkillLevel(skillId, l));
      }
    }
  }

  /** `getAvailableSkillLevels` as the source runs it: two nested loops adding
      each matching level to a set, then the ascending order of that set. */
  method GetAvailableSkillLevels(c: Catalog, skillId: string) returns (levels: seq<int>)
    ensures levels == AvailableLevels(c, skillId)
  {
    if c.skillGroups.None? {
      return [1];
    }
    var groups := c.skillGroups.value;
    levels := [];
    var i := 0;
    while i < |groups|
      invariant 0 <= i <= |groups|
      invariant levels == GroupsLevels([], groups[..i], skillId)
    {
      var entries := groups[i].entries;
      var j := 0;
      while j < |entries|
        invariant 0 <= j <= |entries|
        invariant levels == EntriesLevels(GroupsLevels([], groups[..i], skillId), entries[..j], skillId)
      {
        if entries[j].skillId == skillId {
          levels := InsertSorted(levels, entries[j].level);
        }
        assert entries[..j + 1][..j] == entries[..j];
        j := j + 1;
      }
      assert entries[..j] == entries;
      assert groups[..i + 1][..i] == groups[..i];
      i := i + 1;
    }
    assert groups[..i] == groups;
    if |levels| == 0 {
      levels := [1];
    }
  }

  // ---------------------------------------------------------------------------
  // getSkillGroupTypes

  /** The four group kinds, told apart by the `groupId` prefix. */
  datatype GroupType = WeaponSkill | ArmorSlot1 | ArmorSlot2 | ArmorSlot3

  /** The prefix tests, in the source's order; other prefixes have no kind. */
  function Classify(groupId: string): Option<GroupType>
  {
    if "weapon_skill_" <= groupId then Some(WeaponSkill)
    else if "armor_slot1_" <= groupId then Some(ArmorSlot1)
    else if "armor_slot2_" <= groupId then Some(ArmorSlot2)
    else if "armor_slot3_" <= groupId then Some(ArmorSlot3)
    else None
  }

  /** `group.entries.some(entry => entry.skillId === skillId)` */
  predicate MentionsSkill(g: SkillGroup, skillId: string)
  {
    exists e | e in g.entries :: e.skillId == skillId
  }

  /** The kinds collected group by group into a `Set` (first-insertion order). */
  function GroupTypesOf(groups: seq<SkillGroup>, skillId: string): seq<GroupType>
  {
    if |groups| == 0 then []
    else
      var acc := GroupTypesOf(groups[..|groups| - 1], skillId);
      var g := groups[|groups| - 1];
      if MentionsSkill(g, skillId) && Classify(g.groupId).Some? then AddDistinct(acc, Classify(g.groupId).value)
      else acc
  }

  /** `getSkillGroupTypes`: empty while the group table is absent. */
  function SkillGroupTypes(c: Catalog, skillId: string): seq<GroupType>
  {
    if c.skillGroups.None? then [] else GroupTypesOf(c.skillGroups.value, skillId)
  }

  /** A group of kind `t` holds the skill. */
  predicate HasKind(groups: seq<SkillGroup>, skillId: string, t: GroupType)
  {
    exists g | g in groups :: MentionsSkill(g, skillId) && Classify(g.groupId) == Some(t)
  }

  lemma {:induction false} GroupTypesOfExact(groups: seq<SkillGroup>, skillId: string)
    ensures Distinct(GroupTypesOf(groups, skillId))
    ensures forall t :: t in GroupTypesOf(groups, skillId) <==> HasKind(groups, skillId, t)
  {
    if |groups| > 0 {
      var init := groups[..|groups| - 1];
      var last := groups[|groups| - 1];
      GroupTypesOfExact(init, skillId);
      assert groups == init + [last];
      forall t ensures HasKind(groups, skillId, t) <==> HasKind(init, skillId, t) || (MentionsSkill(last, skillId) && Classify(last.groupId) == Some(t)) {
        if HasKind(groups, skillId, t) {
          var g :| g in groups && MentionsSkill(g, skillId) && Classify(g.groupId) == Some(t);
          if g != last { assert g in init; }
        }
        if HasKind(init, skillId, t) {
          var g :| g in init && MentionsSkill(g, skillId) && Classify(g.groupId) == Some(t);
          assert g in groups;
        }
      }
    }
  }

  /** The labels are distinct, and a kind is listed exactly when some group of
      that kind holds the skill. */
  lemma SkillGroupTypesExact(c: Catalog, skillId: string)
    ensures Distinct(SkillGroupTypes(c, skillId))
    ensures forall t :: t in SkillGroupTypes(c, skillId) <==> c.skillGroups.Some? && HasKind(c.skillGroups.value, skillId, t)
  {
    if c.skillGroups.Some? {
      GroupTypesOfExact(c.skillGroups.value, skillId);
    }
  }

  /** `getSkillGroupTypes` as the source runs it: a loop adding to a `Set`. */
  method GetSkillGroupTypes(c: Catalog, skillId: string) returns (types: seq<GroupType>)
    ensures types == SkillGroupTypes(c, skillId)
  {
    if c.skillGroups.None? {
      return [];
    }
    var groups := c.skillGroups.value;
    types := [];
    var i := 0;
    while i < |groups|
      invariant 0 <= i <= |groups|
      invariant types == GroupTypesOf(groups[..i], skillId)
    {
      var group := groups[i];
      if MentionsSkill(group, skillId) {
        if "weapon_skill_" <= group.groupId {
          types := AddDistinct(types, WeaponSkill);
        } else if "armor_slot1_" <= group.groupId {
          types := AddDistinct(types, ArmorSlot1);
        } else if "armor_slot2_" <= group.groupId {
          types := AddDistinct(types, ArmorSlot2);
        } else if "armor_slot3_" <= group.groupId {
          types := AddDistinct(types, ArmorSlot3);
        }
      }
      assert groups[..i + 1][..i] == groups[..i];
      i := i + 1;
    }
    assert groups[..i] == groups;
  }

  // ---------------------------------------------------------------------------
  // categorizeSkills

  /** The fixed "traditional" categories; attack is tested first, then defense,
      then element, and everything else is utility. */
  datatype Tradition = Attack | Defense | Element | Utility

  const AttackSkills: seq<string> := [
    "attack", "critical_eye", "weakness_exploit", "critical_boost", "agitator",
    "peak_performance", "critical_element", "critical_status", "critical_draw",
    "punishing_draw", "slugger", "stamina_thief"]

  const DefenseSkills: seq<string> := [
    "guard", "defense_boost", "divine_blessing", "recovery_up", "recovery_speed",
    "poison_resistance", "sleep_resistance", "paralysis_resistance", "stun_resistance",
    "earplugs", "tremor_resistance", "windproof", "fire_resistance", "water_resistance",
    "thunder_resistance", "ice_resistance", "dragon_resistance", "flinch_free"]

  const ElementSkills: seq<string> := [
    "fire_attack", "water_attack", "thunder_attack", "ice_attack", "dragon_attack",
    "poison_attack", "sleep_attack", "paralysis_attack", "blast_attack"]

  function TraditionOf(skillId: string): Tradition
  {
    if skillId in AttackSkills then Attack
    else if skillId in DefenseSkills then Defense
    else if skillId in ElementSkills then Element
    else Utility
  }

  /** The category arrays the selector shows; `all` is the skill table itself. */
  datatype Categories = Categories(
    all: seq<Skill>,
    weaponSkills: seq<Skill>, armorSlot1: seq<Skill>, armorSlot2: seq<Skill>, armorSlot3: seq<Skill>,
    attack: seq<Skill>, defense: seq<Skill>, element: seq<Skill>, utility: seq<Skill>)

  /** The skills whose group kinds include `t`, in table order. */
  function WithGroupType(c: Catalog, skills: seq<Skill>, t: GroupType): seq<Skill>
  {
    if |skills| == 0 then []
    else
      var s := skills[|skills| - 1];
      WithGroupType(c, skills[..|skills| - 1], t) + (if t in SkillGroupTypes(c, s.id) then [s] else [])
  }

  /** The skills that `classify` puts in tradition `t`, in table order. */
  function WithClass(skills: seq<Skill>, classify: string -> Tradition, t: Tradition): seq<Skill>
  {
    if |skills| == 0 then []
    else
      var s := skills[|skills| - 1];
      WithClass(skills[..|skills| - 1], classify, t) + (if classify(s.id) == t then [s] else [])
  }

  /** The skills of tradition `t`, in table order. */
  function WithTradition(skills: seq<Skill>, t: Tradition): seq<Skill>
  {
    WithClass(skills, TraditionOf, t)
  }

  function Categorized(c: Catalog, skills: seq<Skill>): Categories
  {
    Categories(skills,
      WithGroupType(c, skills, WeaponSkill), WithGroupType(c, skills, ArmorSlot1),
      WithGroupType(c, skills, ArmorSlot2), WithGroupType(c, skills, ArmorSlot3),
      WithTradition(skills, Attack), WithTradition(skills, Defense),
      WithTradition(skills, Element), WithTradition(skills, Utility))
  }

  /** Each skill lands only in the class `classify` gives it. */
  lemma {:induction false} ClassSound(skills: seq<Skill>, classify: string -> Tradition, t: Tradition)
    ensures forall s | s in WithClass(skills, classify, t) :: s in skills && classify(s.id) == t
  {
    if |skills| > 0 {
      var init := skills[..|skills| - 1];
      ClassSound(init, classify, t);
      assert skills == init + [skills[|skills| - 1]];
    }
  }

  /** Each skill lands only in the category of its own tradition. */
  lemma TraditionSound(skills: seq<Skill>, t: Tradition)
    ensures forall s | s in WithTradition(skills, t) :: s in skills && TraditionOf(s.id) == t
  {
    ClassSound(skills, TraditionOf, t);
  }

  /** The last skill joins its own class and leaves the others alone. */
  lemma ClassDelta(skills: seq<Skill>, classify: string -> Tradition, u: Tradition)
    requires |skills| > 0
    ensures multiset(WithClass(skills, classify, u))
         == multiset(WithClass(skills[..|skills| - 1], classify, u))
            + (if classify(skills[|skills| - 1].id) == u then multiset{skills[|skills| - 1]} else multiset{})
  {
  }

  /** Adding `s` to exactly the class `k` adds it once to the four together. */
  lemma FourWay(a: multiset<Skill>, d: multiset<Skill>, e: multiset<Skill>, u: multiset<Skill>,
                a': multiset<Skill>, d': multiset<Skill>, e': multiset<Skill>, u': multiset<Skill>,
                s: Skill, k: Tradition)
    requires a' == a + (if k == Attack then multiset{s} else multiset{})
    requires d' == d + (if k == Defense then multiset{s} else multiset{})
    requires e' == e + (if k == Element then multiset{s} else multiset{})
    requires u' == u + (if k == Utility then multiset{s} else multiset{})
    ensures a' + d' + e' + u' == a + d + e + u + multiset{s}
  {
  }

  /** The last skill adds itself to exactly one of the four classes. */
  lemma ClassStep(skills: seq<Skill>, classify: string -> Tradition)
    requires |skills| > 0
    ensures multiset(WithClass(skills, classify, Attack)) + multiset(WithClass(skills, classify, Defense))
          + multiset(WithClass(skills, classify, Element)) + multiset(WithClass(skills, classify, Utility))
         == multiset(WithClass(skills[..|skills| - 1], classify, Attack))
          + multiset(WithClass(skills[..|skills| - 1], classify, Defense))
          + multiset(WithClass(skills[..|skills| - 1], classify, Element))
          + multiset(WithClass(skills[..|skills| - 1], classify, Utility))
          + multiset{skills[|skills| - 1]}
  {
    var init := skills[..|skills| - 1];
    ClassDelta(skills, classify, Attack);
    ClassDelta(skills, classify, Defense);
    ClassDelta(skills, classify, Element);
    ClassDelta(skills, classify, Utility);
    FourWay(multiset(WithClass(init, classify, Attack)), multiset(WithClass(init, classify, Defense)),
            multiset(WithClass(init, classify, Element)), multiset(WithClass(init, classify, Utility)),
            multiset(WithClass(skills, classify, Attack)), multiset(WithClass(skills, classify, Defense)),
            multiset(WithClass(skills, classify, Element)), multiset(WithClass(skills, classify, Utility)),
            skills[|skills| - 1], classify(skills[|skills| - 1].id));
  }

  /** The four classes partition the skill list, whatever the classifier. */
  lemma {:induction false} ClassesPartition(skills: seq<Skill>, classify: string -> Tradition)
    ensures multiset(WithClass(skills, classify, Attack)) + multiset(WithClass(skills, classify, Defense))
          + multiset(WithClass(skills, classify, Element)) + multiset(WithClass(skills, classify, Utility))
         == multiset(skills)
  {
    if |skills| > 0 {
      var init := skills[..|skills| - 1];
      var last := skills[|skills| - 1];
      calc {
        multiset(WithClass(skills, classify, Attack)) + multiset(WithClass(skills, classify, Defense))
          + multiset(WithClass(skills, classify, Element)) + multiset(WithClass(skills, classify, Utility));
      == { ClassStep(skills, classify); }
        multiset(WithClass(init, classify, Attack)) + multiset(WithClass(init, classify, Defense))
          + multiset(WithClass(init, classify, Element)) + multiset(WithClass(init, classify, Utility))
          + multiset{last};
      == { ClassesPartition(init, classify); }
        multiset(init) + multiset{last};
      == { assert skills == init + [last]; }
        multiset(skills);
      }
    }
  }

  /** The four traditional categories partition the skill list: together they
      hold every skill exactly as often as the list does. */
  lemma TraditionsPartition(skills: seq<Skill>)
    ensures multiset(WithTradition(skills, Attack)) + multiset(WithTradition(skills, Defense))
          + multiset(WithTradition(skills, Element)) + multiset(WithTradition(skills, Utility))
         == multiset(skills)
  {
    ClassesPartition(skills, TraditionOf);
  }

  /** A group category holds exactly the skills some group of that kind draws. */
  lemma {:induction false} WithGroupTypeExact(c: Catalog, skills: seq<Skill>, t: GroupType)
    ensures forall s :: s in WithGroupType(c, skills, t) <==> s in skills && t in SkillGroupTypes(c, s.id)
  {
    if |skills| > 0 {
      var init := skills[..|skills| - 1];
      WithGroupTypeExact(c, init, t);
      assert skills == init + [skills[|skills| - 1]];
    }
  }

  /** `categorizeSkills` as the source runs it: one pass over the skills that
      pushes each one into its group categories and its traditional category.
      Absent skills give no categories (the source's `{}`). */
  method CategorizeSkills(c: Catalog) returns (r: Option<Categories>)
    ensures c.skills.None? ==> r.None?
    ensures c.skills.Some? ==> r == Some(Categorized(c, c.skills.value))
  {
    if c.skills.None? {
      return None;
    }
    var skills := c.skills.value;
    var weapon, slot1, slot2, slot3 := [], [], [], [];
    var attack, defense, element, utility := [], [], [], [];
    var i := 0;
    while i < |skills|
      invariant 0 <= i <= |skills|
      invariant weapon == WithGroupType(c, skills[..i], WeaponSkill)
      invariant slot1 == WithGroupType(c, skills[..i], ArmorSlot1)
      invariant slot2 == WithGroupType(c, skills[..i], ArmorSlot2)
      invariant slot3 == WithGroupType(c, skills[..i], ArmorSlot3)
      invariant attack == WithTradition(skills[..i], Attack)
      invariant defense == WithTradition(skills[..i], Defense)
      invariant element == WithTradition(skills[..i], Element)
      invariant utility == WithTradition(skills[..i], Utility)
    {
      var skill := skills[i];
      var groupTypes := GetSkillGroupTypes(c, skill.id);
      if WeaponSkill in groupTypes {
        weapon := weapon + [skill];
      }
      if ArmorSlot1 in groupTypes {
        slot1 := slot1 + [skill];
      }
      if ArmorSlot2 in groupTypes {
        slot2 := slot2 + [skill];
      }
      if ArmorSlot3 in groupTypes {
        slot3 := slot3 + [skill];
      }
      if skill.id in AttackSkills {
        attack := attack + [skill];
      } else if skill.id in DefenseSkills {
        defense := defense + [skill];
      } else if skill.id in ElementSkills {
        element := element + [skill];
      } else {
        utility := utility + [skill];
      }
      assert skills[..i + 1][..i] == skills[..i];
      i := i + 1;
    }
    assert skills[..i] == skills;
    return Some(Categories(skills, weapon, slot1, slot2, slot3, attack, defense, element, utility));
  }
}
