/** The selection state of the charm page: the three wanted slot levels the
    user cycles through, the up to three wanted skills with their levels, and
    the calculation criteria built from both. Rendering, messages shown on
    screen and the calculation that follows every change are not part of
    this module; the data manager's tables are passed in as a `Catalog`. */
module CharmUi {
  import opened SeqUtil
  import opened CatalogTypes
  import opened CharmData
  import opened Pipeline
  import opened Advisor

  /** The page offers three slots. */
  const SlotCount := 3
  /** At most three skills can be wanted at once. */
  const MaxSelected := 3

  // ---------------------------------------------------------------
  // Slots

  /** A slot shows one of -1 (a weapon slot), 0 (no requirement) or 1..3. */
  predicate SlotValue(s: int)
  {
    -1 <= s <= 3
  }

  /** One click on a slot: 0 -> 1 -> 2 -> 3 -> -1 -> 0. */
  function NextSlot(s: int): (r: int)
    ensures SlotValue(s) ==> SlotValue(r)
    ensures r != s
  {
    if s == 3 then -1
    else if s == -1 then 0
    else s + 1
  }

  /** The value after `n` clicks. */
  function Clicked(s: int, n: nat): int
  {
    if n == 0 then s else NextSlot(Clicked(s, n - 1))
  }

  /** The cycle has length five: five clicks restore every slot value and
      no smaller positive number of clicks does; from an empty slot the
      clicks visit 1, 2, 3 and the weapon slot in that order. */
  lemma {:induction false} ClickCycle(s: int)
    requires SlotValue(s)
    ensures Clicked(s, 5) == s
    ensures forall n | 0 < n < 5 :: Clicked(s, n) != s
    ensures Clicked(0, 1) == 1 && Clicked(0, 2) == 2 && Clicked(0, 3) == 3 && Clicked(0, 4) == -1
  {
    assert Clicked(s, 1) == NextSlot(s);
    assert Clicked(s, 2) == NextSlot(NextSlot(s));
    assert Clicked(s, 3) == NextSlot(NextSlot(NextSlot(s)));
    assert Clicked(s, 4) == NextSlot(NextSlot(NextSlot(NextSlot(s))));
    assert Clicked(s, 5) == NextSlot(NextSlot(NextSlot(NextSlot(NextSlot(s)))));
  }

  // ---------------------------------------------------------------
  // Wanted skills

  /** `isSkillSelected`: some wanted skill has this id. */
  predicate Selected(selected: seq<SkillLevel>, skillId: string)
  {
    exists s | s in selected :: s.skillId == skillId
  }

  /** The test `find` applies to each wanted skill. */
  function HasId(skillId: string): SkillLevel -> bool
  {
    (s: SkillLevel) => s.skillId == skillId
  }

  /** `selectedSkills.find(s => s.id === skillId)`, as a position. */
  function FindSkill(selected: seq<SkillLevel>, skillId: string): int
  {
    FirstIndex(selected, HasId(skillId))
  }

  /** No id is wanted twice. */
  predicate UniqueIds(selected: seq<SkillLevel>)
  {
    forall i, j | 0 <= i < j < |selected| :: selected[i].skillId != selected[j].skillId
  }

  /** Every wanted level lies between 1 and the game's maximum for its skill. */
  predicate LevelsInRange(c: Catalog, selected: seq<SkillLevel>)
  {
    forall s | s in selected :: 1 <= s.level <= MaxSkillLevel(c, s.skillId)
  }

  /** `some` and `find` agree: a skill is wanted exactly when `find` has a
      position for it, and that position holds the skill. */
  lemma SelectedIff(selected: seq<SkillLevel>, skillId: string)
    ensures Selected(selected, skillId) <==> FindSkill(selected, skillId) >= 0
    ensures FindSkill(selected, skillId) >= 0 ==> selected[FindSkill(selected, skillId)].skillId == skillId
  {
    var k := FindSkill(selected, skillId);
    if Selected(selected, skillId) {
      var s :| s in selected && s.skillId == skillId;
      var i :| 0 <= i < |selected| && selected[i] == s;
      assert HasId(skillId)(selected[i]);
    }
    if k >= 0 {
      assert HasId(skillId)(selected[k]);
      assert selected[k] in selected;
    }
  }

  /** `isSkillCompatible`: with no other wanted skill any skill fits; with
      three wanted none can be added; otherwise some available level of the
      skill must fit next to the others. */
  function SkillCompatible(c: Catalog, selected: seq<SkillLevel>, skillId: string): bool
  {
    var current := WithoutSkill(selected, skillId);
    if current == [] then true
    else if |selected| >= MaxSelected then false
    else BestCompatibleLevel(c, skillId, current) != -1
  }

  /** The level a newly wanted skill starts at: the recommended level when
      it is compatible, else the game's maximum for it. */
  function InitialLevel(c: Catalog, selected: seq<SkillLevel>, skillId: string): int
  {
    if SkillCompatible(c, selected, skillId) then RecommendedLevel(c, skillId, selected)
    else MaxSkillLevel(c, skillId)
  }

  /** What `selectSkill` says on screen besides the change itself. */
  datatype Notice = NoNotice | LimitReached | IncompatibleWarning

  /** The wanted skills after `selectSkill`. */
  function AfterSelect(c: Catalog, selected: seq<SkillLevel>, skillId: string): seq<SkillLevel>
  {
    if Selected(selected, skillId) || |selected| >= MaxSelected then selected
    else selected + [SkillLevel(skillId, InitialLevel(c, selected, skillId))]
  }

  /** The message `selectSkill` shows. */
  function SelectNotice(c: Catalog, selected: seq<SkillLevel>, skillId: string): Notice
  {
    if Selected(selected, skillId) then NoNotice
    else if |selected| >= MaxSelected then LimitReached
    else if SkillCompatible(c, selected, skillId) then NoNotice
    else IncompatibleWarning
  }

  /** A compatible skill starts at a level that fits next to the other
      wanted skills (when there are others and the rarity table is loaded);
      an incompatible one has no available level that fits. */
  lemma SkillCompatibleSpec(c: Catalog, selected: seq<SkillLevel>, skillId: string)
    requires c.rarities.Some?
    ensures var current := WithoutSkill(selected, skillId);
            SkillCompatible(c, selected, skillId) && current != [] ==>
              InitialLevel(c, selected, skillId) in AvailableLevels(c, skillId)
              && FitsAt(c, skillId, current, InitialLevel(c, selected, skillId))
    ensures var current := WithoutSkill(selected, skillId);
            LevelsFromOne(c) && current != [] && |selected| < MaxSelected && !SkillCompatible(c, selected, skillId) ==>
              forall l | l in AvailableLevels(c, skillId) :: !FitsAt(c, skillId, current, l)
    ensures WithoutSkill(selected, skillId) == [] ==>
              SkillCompatible(c, selected, skillId) && InitialLevel(c, selected, skillId) == MaxSkillLevel(c, skillId)
  {
    var current := WithoutSkill(selected, skillId);
    BestCompatibleLevelSpec(c, skillId, current);
    WithoutSkillIdempotent(selected, skillId);
  }

  /** Either way a newly wanted skill starts between 1 and the game's
      maximum for it, provided the game data only lists levels from 1. */
  lemma InitialLevelInRange(c: Catalog, selected: seq<SkillLevel>, skillId: string)
    requires LevelsFromOne(c)
    ensures 1 <= InitialLevel(c, selected, skillId) <= MaxSkillLevel(c, skillId)
  {
    MaxSkillLevelBounds(c, skillId);
    var current := WithoutSkill(selected, skillId);
    if c.rarities.Some? && current != [] && SkillCompatible(c, selected, skillId) {
      BestCompatibleLevelSpec(c, skillId, current);
      AvailableLevelsInRange(c, skillId);
    }
  }

  /** `selectSkill` adds exactly the new skill, at the end, unless it is
      already wanted or three are; the wanted skills stay at most three,
      with distinct ids and (with data listing levels from 1) in range. */
  lemma AfterSelectSpec(c: Catalog, selected: seq<SkillLevel>, skillId: string)
    requires |selected| <= MaxSelected && UniqueIds(selected)
    ensures var r := AfterSelect(c, selected, skillId);
            && |r| <= MaxSelected && UniqueIds(r)
            && (Selected(r, skillId) <==> Selected(selected, skillId) || |selected| < MaxSelected)
            && (r == selected || (r == selected + [SkillLevel(skillId, InitialLevel(c, selected, skillId))]
                                  && !Selected(selected, skillId) && |selected| < MaxSelected))
            && (LevelsFromOne(c) && LevelsInRange(c, selected) ==> LevelsInRange(c, r))
  {
    var r := AfterSelect(c, selected, skillId);
    if !Selected(selected, skillId) && |selected| < MaxSelected {
      var added := SkillLevel(skillId, InitialLevel(c, selected, skillId));
      assert r[|selected|] == added;
      forall i, j | 0 <= i < j < |r| ensures r[i].skillId != r[j].skillId {
        if j == |selected| {
          assert selected[i] in selected;
        }
      }
      assert Selected(r, skillId) by { assert added in r; }
      if LevelsFromOne(c) {
        InitialLevelInRange(c, selected, skillId);
      }
    }
  }

  /** Dropping one id keeps the remaining ids distinct. */
  lemma {:induction false} RemoveKeepsUnique(selected: seq<SkillLevel>, skillId: string)
    requires UniqueIds(selected)
    ensures UniqueIds(WithoutSkill(selected, skillId))
  {
    if |selected| > 0 {
      var init := selected[..|selected| - 1];
      var last := selected[|selected| - 1];
      assert UniqueIds(init);
      RemoveKeepsUnique(init, skillId);
      var ri := WithoutSkill(init, skillId);
      var r := WithoutSkill(selected, skillId);
      if last.skillId != skillId {
        assert r == ri + [last];
        forall i, j | 0 <= i < j < |r| ensures r[i].skillId != r[j].skillId {
          if j == |ri| {
            assert ri[i] in init;
            var k :| 0 <= k < |init| && init[k] == ri[i];
            assert selected[k] == init[k];
          }
        }
      } else {
        assert r == ri;
      }
    }
  }

  /** `removeSkill` drops that id and nothing else: the result has no entry
      with it, keeps distinct ids, keeps every other id, and removing twice
      is removing once. */
  lemma RemoveSpec(selected: seq<SkillLevel>, skillId: string)
    requires UniqueIds(selected)
    ensures var r := WithoutSkill(selected, skillId);
            && !Selected(r, skillId) && UniqueIds(r)
            && (forall id | id != skillId :: Selected(r, id) <==> Selected(selected, id))
            && WithoutSkill(r, skillId) == r
  {
    WithoutSkillIdempotent(selected, skillId);
    RemoveKeepsUnique(selected, skillId);
    var r := WithoutSkill(selected, skillId);
    forall id | id != skillId ensures Selected(r, id) <==> Selected(selected, id) {
      if Selected(selected, id) {
        var s :| s in selected && s.skillId == id;
        assert s in r;
      }
    }
  }

  /** The wanted skills with the level at position `k` replaced. */
  function WithLevel(selected: seq<SkillLevel>, k: int, level: int): (r: seq<SkillLevel>)
    requires 0 <= k < |selected|
  {
    selected[k := SkillLevel(selected[k].skillId, level)]
  }

  /** `increaseSkillLevel`: one up, unless already at the game's maximum. */
  function Increased(c: Catalog, selected: seq<SkillLevel>, skillId: string): seq<SkillLevel>
  {
    var k := FindSkill(selected, skillId);
    if k < 0 then selected
    else if selected[k].level < MaxSkillLevel(c, skillId) then WithLevel(selected, k, selected[k].level + 1)
    else selected
  }

  /** `decreaseSkillLevel`: one down, unless already at 1. */
  function Decreased(selected: seq<SkillLevel>, skillId: string): seq<SkillLevel>
  {
    var k := FindSkill(selected, skillId);
    if k < 0 then selected
    else if selected[k].level > 1 then WithLevel(selected, k, selected[k].level - 1)
    else selected
  }

  /** `setSkillLevel`: the given level, when it lies between 1 and the
      game's maximum. */
  function LevelSet(c: Catalog, selected: seq<SkillLevel>, skillId: string, level: int): seq<SkillLevel>
  {
    var k := FindSkill(selected, skillId);
    if k < 0 then selected
    else if 1 <= level <= MaxSkillLevel(c, skillId) then WithLevel(selected, k, level)
    else selected
  }

  /** Replacing one level keeps the ids at every position and every other
      entry, and keeps every level in range when the new one is. */
  lemma WithLevelKeeps(c: Catalog, selected: seq<SkillLevel>, k: int, level: int)
    requires 0 <= k < |selected|
    ensures var r := WithLevel(selected, k, level);
            && |r| == |selected|
            && r[k] == SkillLevel(selected[k].skillId, level)
            && (forall i | 0 <= i < |r| && i != k :: r[i] == selected[i])
            && (forall i | 0 <= i < |r| :: r[i].skillId == selected[i].skillId)
            && (UniqueIds(selected) ==> UniqueIds(r))
            && (LevelsInRange(c, selected) && 1 <= level <= MaxSkillLevel(c, selected[k].skillId) ==> LevelsInRange(c, r))
  {
    var r := WithLevel(selected, k, level);
    if LevelsInRange(c, selected) && 1 <= level <= MaxSkillLevel(c, selected[k].skillId) {
      forall s | s in r ensures 1 <= s.level <= MaxSkillLevel(c, s.skillId) {
        var i :| 0 <= i < |r| && r[i] == s;
        if i != k {
          assert selected[i] in selected;
        }
      }
    }
  }

  /** `increaseSkillLevel` keeps the ids and every level between 1 and the
      game's maximum, and changes nothing but the named skill's level, by
      one step up. */
  lemma IncreasedSpec(c: Catalog, selected: seq<SkillLevel>, skillId: string)
    requires LevelsInRange(c, selected)
    ensures var r := Increased(c, selected, skillId);
            && LevelsInRange(c, r) && |r| == |selected|
            && (forall i | 0 <= i < |r| :: r[i].skillId == selected[i].skillId)
            && (forall i | 0 <= i < |r| && r[i].skillId != skillId :: r[i] == selected[i])
            && (r != selected ==> exists i | 0 <= i < |r| :: r[i].skillId == skillId && r[i].level == selected[i].level + 1)
  {
    var k := FindSkill(selected, skillId);
    SelectedIff(selected, skillId);
    if k >= 0 {
      var s := selected[k];
      assert s in selected;
      WithLevelKeeps(c, selected, k, s.level + 1);
    }
  }

  /** `decreaseSkillLevel` keeps the ids and every level between 1 and the
      game's maximum, and changes nothing but the named skill's level, by
      one step down. */
  lemma DecreasedSpec(c: Catalog, selected: seq<SkillLevel>, skillId: string)
    requires LevelsInRange(c, selected)
    ensures var r := Decreased(selected, skillId);
            && LevelsInRange(c, r) && |r| == |selected|
            && (forall i | 0 <= i < |r| :: r[i].skillId == selected[i].skillId)
            && (forall i | 0 <= i < |r| && r[i].skillId != skillId :: r[i] == selected[i])
            && (r != selected ==> exists i | 0 <= i < |r| :: r[i].skillId == skillId && r[i].level == selected[i].level - 1)
  {
    var k := FindSkill(selected, skillId);
    SelectedIff(selected, skillId);
    if k >= 0 {
      var s := selected[k];
      assert s in selected;
      WithLevelKeeps(c, selected, k, s.level - 1);
    }
  }

  /** `setSkillLevel` keeps the ids and every level between 1 and the
      game's maximum, and changes nothing but the named skill's level, to
      the level given. */
  lemma LevelSetSpec(c: Catalog, selected: seq<SkillLevel>, skillId: string, level: int)
    requires LevelsInRange(c, selected)
    ensures var r := LevelSet(c, selected, skillId, level);
            && LevelsInRange(c, r) && |r| == |selected|
            && (forall i | 0 <= i < |r| :: r[i].skillId == selected[i].skillId)
            && (forall i | 0 <= i < |r| && r[i].skillId != skillId :: r[i] == selected[i])
            && (r != selected ==> exists i | 0 <= i < |r| :: r[i] == SkillLevel(skillId, level))
  {
    var k := FindSkill(selected, skillId);
    SelectedIff(selected, skillId);
    if k >= 0 {
      WithLevelKeeps(c, selected, k, level);
    }
  }

  // ---------------------------------------------------------------
  // Criteria

  /** `charmSlots.filter(slot => slot !== 0)`. */
  function NonZeroSlots(slots: seq<int>): (r: seq<int>)
    ensures forall x :: x in r <==> x in slots && x != 0
    ensures |r| <= |slots|
  {
    if |slots| == 0 then []
    else
      var init := slots[..|slots| - 1];
      var last := slots[|slots| - 1];
      assert slots == init + [last];
      NonZeroSlots(init) + (if last != 0 then [last] else [])
  }

  /** The wanted skills whose level is set and positive. */
  function PositiveLevels(selected: seq<SkillLevel>): (r: seq<SkillLevel>)
    ensures forall x :: x in r <==> x in selected && x.level > 0
    ensures |r| <= |selected|
  {
    if |selected| == 0 then []
    else
      var init := selected[..|selected| - 1];
      var last := selected[|selected| - 1];
      assert selected == init + [last];
      PositiveLevels(init) + (if last.level > 0 then [last] else [])
  }

  /** The criteria `performCalculation` hands to the calculator: every rarity
      from R5 to R8. */
  function ToCriteria(slots: seq<int>, selected: seq<SkillLevel>): Criteria
  {
    Criteria(PositiveLevels(selected), NonZeroSlots(slots), "R5", "R8")
  }

  /** Dropping the empty slots keeps the others in their order. */
  lemma {:induction false} NonZeroSlotsAppend(a: seq<int>, b: seq<int>)
    ensures NonZeroSlots(a + b) == NonZeroSlots(a) + NonZeroSlots(b)
  {
    if |b| > 0 {
      var init := b[..|b| - 1];
      NonZeroSlotsAppend(a, init);
      assert (a + b)[..|a + b| - 1] == a + init;
    } else {
      assert a + b == a;
    }
  }

  /** From a state the controls can reach, every wanted skill goes into the
      criteria unchanged and in order, and the slot requirements are at most
      three, each -1 or 1..3. */
  lemma {:induction false} CriteriaOfReachableState(c: Catalog, slots: seq<int>, selected: seq<SkillLevel>)
    requires LevelsInRange(c, selected)
    requires forall i | 0 <= i < |slots| :: SlotValue(slots[i])
    ensures var criteria := ToCriteria(slots, selected);
            && criteria.targetSkills == selected
            && |criteria.targetSlots| <= |slots|
            && (forall x | x in criteria.targetSlots :: x == -1 || 1 <= x <= 3)
            && criteria.minRarity == "R5" && criteria.maxRarity == "R8"
  {
    if |selected| > 0 {
      var init := selected[..|selected| - 1];
      var last := selected[|selected| - 1];
      assert last in selected;
      CriteriaOfReachableState(c, slots, init);
    }
    forall x | x in NonZeroSlots(slots) ensures x == -1 || 1 <= x <= 3 {
      var i :| 0 <= i < |slots| && slots[i] == x;
    }
  }

  // ---------------------------------------------------------------
  // The page state

  class CharmUI {
    /** The wanted skills, in the order they were picked. */
    var selectedSkills: seq<SkillLevel>
    /** The three wanted slot levels. */
    var charmSlots: array<int>

    ghost predicate Valid()
      reads this, charmSlots
    {
      && charmSlots.Length == SlotCount
      && (forall i | 0 <= i < charmSlots.Length :: SlotValue(charmSlots[i]))
      && |selectedSkills| <= MaxSelected
      && UniqueIds(selectedSkills)
    }

    constructor ()
      ensures Valid() && fresh(charmSlots)
      ensures charmSlots[..] == [0, 0, 0] && selectedSkills == []
    {
      selectedSkills := [];
      charmSlots := new int[SlotCount](_ => 0);
    }

    /** `toggleSlot(index)`: advances that slot one step in its cycle. */
    method ToggleSlot(index: int)
      requires Valid() && 0 <= index < charmSlots.Length
      modifies charmSlots
      ensures Valid()
      ensures charmSlots[..] == old(charmSlots[..])[index := NextSlot(old(charmSlots[index]))]
    {
      var currentLevel := charmSlots[index];
      if currentLevel == 3 {
        charmSlots[index] := -1;
      } else if currentLevel == -1 {
        charmSlots[index] := 0;
      } else {
        charmSlots[index] := currentLevel + 1;
      }
    }

    /** `isSkillSelected(skillId)`. */
    predicate IsSkillSelected(skillId: string)
      reads this
    {
      Selected(selectedSkills, skillId)
    }

    /** `isSkillCompatible(skillId)` as the source runs it, with the level
        search of the advisor. */
    method IsSkillCompatible(c: Catalog, skillId: string) returns (ok: bool)
      ensures ok == SkillCompatible(c, selectedSkills, skillId)
    {
      var currentSkills := WithoutSkill(selectedSkills, skillId);
      if currentSkills == [] {
        return true;
      }
      if |selectedSkills| >= MaxSelected {
        return false;
      }
      var best := GetBestCompatibleLevel(c, skillId, currentSkills);
      ok := best != -1;
    }

    /** `selectSkill(skill)`. */
    method SelectSkill(c: Catalog, skill: Skill) returns (notice: Notice)
      requires Valid()
      modifies this
      ensures Valid() && charmSlots == old(charmSlots)
      ensures selectedSkills == AfterSelect(c, old(selectedSkills), skill.id)
      ensures notice == SelectNotice(c, old(selectedSkills), skill.id)
      ensures LevelsFromOne(c) && LevelsInRange(c, old(selectedSkills)) ==> LevelsInRange(c, selectedSkills)
    {
      AfterSelectSpec(c, selectedSkills, skill.id);
      if IsSkillSelected(skill.id) {
        return NoNotice;
      }
      if |selectedSkills| >= MaxSelected {
        return LimitReached;
      }
      var isCompatible := IsSkillCompatible(c, skill.id);
      var level;
      if isCompatible {
        level := GetRecommendedLevel(c, skill.id, selectedSkills);
        notice := NoNotice;
      } else {
        level := GetMaxSkillLevel(c, skill.id);
        notice := IncompatibleWarning;
      }
      selectedSkills := selectedSkills + [SkillLevel(skill.id, level)];
    }

    /** `removeSkill(skillId)`. */
    method RemoveSkill(skillId: string)
      requires Valid()
      modifies this
      ensures Valid() && charmSlots == old(charmSlots)
      ensures selectedSkills == WithoutSkill(old(selectedSkills), skillId)
    {
      RemoveSpec(selectedSkills, skillId);
      selectedSkills := WithoutSkill(selectedSkills, skillId);
    }

    /** `increaseSkillLevel(skillId)`. */
    method IncreaseSkillLevel(c: Catalog, skillId: string)
      requires Valid()
      modifies this
      ensures Valid() && charmSlots == old(charmSlots)
      ensures selectedSkills == Increased(c, old(selectedSkills), skillId)
    {
      var k := FindSkill(selectedSkills, skillId);
      if k < 0 {
        return;
      }
      SelectedIff(selectedSkills, skillId);
      var skill := selectedSkills[k];
      var maxLevel := GetMaxSkillLevel(c, skillId);
      if skill.level < maxLevel {
        WithLevelKeeps(c, selectedSkills, k, skill.level + 1);
        selectedSkills := selectedSkills[k := SkillLevel(skill.skillId, skill.level + 1)];
      }
    }

    /** `decreaseSkillLevel(skillId)`. */
    method DecreaseSkillLevel(skillId: string)
      requires Valid()
      modifies this
      ensures Valid() && charmSlots == old(charmSlots)
      ensures selectedSkills == Decreased(old(selectedSkills), skillId)
    {
      var k := FindSkill(selectedSkills, skillId);
      if k < 0 {
        return;
      }
      var skill := selectedSkills[k];
      if skill.level > 1 {
        assert forall i | 0 <= i < |selectedSkills| :: selectedSkills[k := SkillLevel(skill.skillId, skill.level - 1)][i].skillId == selectedSkills[i].skillId;
        selectedSkills := selectedSkills[k := SkillLevel(skill.skillId, skill.level - 1)];
      }
    }

    /** `setSkillLevel(skillId, level)`. */
    method SetSkillLevel(c: Catalog, skillId: string, level: int)
      requires Valid()
      modifies this
      ensures Valid() && charmSlots == old(charmSlots)
      ensures selectedSkills == LevelSet(c, old(selectedSkills), skillId, level)
    {
      var k := FindSkill(selectedSkills, skillId);
      if k < 0 {
        return;
      }
      SelectedIff(selectedSkills, skillId);
      var maxLevel := GetMaxSkillLevel(c, skillId);
      if level >= 1 && level <= maxLevel {
        WithLevelKeeps(c, selectedSkills, k, level);
        selectedSkills := selectedSkills[k := SkillLevel(selectedSkills[k].skillId, level)];
      }
    }

    /** The criteria `performCalculation` builds from the page state. */
    function CurrentCriteria(): Criteria
      reads this, charmSlots
    {
      ToCriteria(charmSlots[..], selectedSkills)
    }
  }
}
