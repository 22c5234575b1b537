/** The assignment search at the heart of the calculator
    (`findSkillGroupCombinations`): every way of giving each requested skill
    its own position of a template, where the group at that position can draw
    that skill at exactly that level. */
module Enumeration {
  import opened Wrappers
  import opened SeqUtil
  import opened CatalogTypes

  /** One search: the template's group positions (by `groupId`), the group
      table, and the requested (skill, level) pairs in request order. */
  datatype Instance = Instance(templateGroups: seq<string>, table: seq<SkillGroup>, targets: seq<SkillLevel>)

  /** `{groupIndex, groupId, targetSkill}`: one requested skill placed on one
      template position. */
  datatype Assignment = Assignment(groupIndex: nat, groupId: string, targetSkill: SkillLevel)

  /** `groupAssignments`: the k-th element places the k-th requested skill. */
  type Combination = seq<Assignment>

  /** The group at position `g` exists and can draw the `k`-th requested skill. */
  predicate CanPlace(inst: Instance, k: nat, g: nat)
    requires k < |inst.targets| && g < |inst.templateGroups|
  {
    Offers(inst.table, inst.templateGroups[g], inst.targets[k])
  }

  function Place(inst: Instance, k: nat, g: nat): Assignment
    requires k < |inst.targets| && g < |inst.templateGroups|
  {
    Assignment(g, inst.templateGroups[g], inst.targets[k])
  }

  /** Every combination of `xs`, each preceded by the partial assignment `p`. */
  function PrependAll(p: Combination, xs: seq<Combination>): (r: seq<Combination>)
    ensures |r| == |xs| && forall i | 0 <= i < |xs| :: r[i] == p + xs[i]
  {
    seq(|xs|, i requires 0 <= i < |xs| => p + xs[i])
  }

  // ---------------------------------------------------------------------------
  // The search order as a specification

  /** All completions of the skills `k..` avoiding the positions in `used`, in
      the order the backtracking produces them. */
  function Extensions(inst: Instance, k: nat, used: set<nat>): seq<Combination>
    requires k <= |inst.targets|
    decreases |inst.targets| - k, |inst.templateGroups| + 1
  {
    if k == |inst.targets| then [[]] else ExtensionsFrom(inst, k, used, 0)
  }

  /** The completions whose first placement uses a position `g` or later. */
  function ExtensionsFrom(inst: Instance, k: nat, used: set<nat>, g: nat): seq<Combination>
    requires k < |inst.targets| && g <= |inst.templateGroups|
    decreases |inst.targets| - k, |inst.templateGroups| - g
  {
    if g == |inst.templateGroups| then []
    else Block(inst, k, used, g) + ExtensionsFrom(inst, k, used, g + 1)
  }

  /** The completions that place skill `k` on position `g`. */
  function Block(inst: Instance, k: nat, used: set<nat>, g: nat): seq<Combination>
    requires k < |inst.targets| && g < |inst.templateGroups|
    decreases |inst.targets| - k, 0
  {
    if g !in used && CanPlace(inst, k, g) then
      PrependAll([Place(inst, k, g)], Extensions(inst, k + 1, used + {g}))
    else []
  }

  /** What `findSkillGroupCombinations` returns. */
  function Enumerate(inst: Instance): seq<Combination>
  {
    Extensions(inst, 0, {})
  }

  // ---------------------------------------------------------------------------
  // What a valid combination is

  /** `x` places skills `k..` in order, each on a position outside `used` whose
      group can draw it, no position twice. */
  predicate ValidFrom(inst: Instance, k: nat, used: set<nat>, x: Combination)
    requires k <= |inst.targets|
  {
    && |x| == |inst.targets| - k
    && (forall i | 0 <= i < |x| ::
          && x[i].groupIndex < |inst.templateGroups|
          && x[i].groupIndex !in used
          && x[i] == Place(inst, k + i, x[i].groupIndex)
          && CanPlace(inst, k + i, x[i].groupIndex))
    && (forall i, j | 0 <= i < j < |x| :: x[i].groupIndex != x[j].groupIndex)
  }

  /** A complete assignment: every requested skill on its own position, each
      position's group able to draw the skill at the requested level. */
  predicate ValidCombination(inst: Instance, c: Combination)
  {
    ValidFrom(inst, 0, {}, c)
  }

  // ---------------------------------------------------------------------------
  // Soundness

  lemma {:induction false} ExtensionsSound(inst: Instance, k: nat, used: set<nat>)
    requires k <= |inst.targets|
    ensures forall x | x in Extensions(inst, k, used) :: ValidFrom(inst, k, used, x)
    decreases |inst.targets| - k, |inst.templateGroups| + 1
  {
    if k < |inst.targets| {
      ExtensionsFromSound(inst, k, used, 0);
    }
  }

  lemma BlockElementSound(inst: Instance, k: nat, used: set<nat>, g: nat, y: Combination)
    requires k < |inst.targets| && g < |inst.templateGroups|
    requires g !in used && CanPlace(inst, k, g)
    requires ValidFrom(inst, k + 1, used + {g}, y)
    ensures ValidFrom(inst, k, used, [Place(inst, k, g)] + y)
  {
    var x := [Place(inst, k, g)] + y;
    forall i | 0 <= i < |x|
      ensures && x[i].groupIndex < |inst.templateGroups|
              && x[i].groupIndex !in used
              && x[i] == Place(inst, k + i, x[i].groupIndex)
              && CanPlace(inst, k + i, x[i].groupIndex)
    {
      if i > 0 {
        assert x[i] == y[i - 1];
      }
    }
    forall i, j | 0 <= i < j < |x| ensures x[i].groupIndex != x[j].groupIndex {
      assert x[j] == y[j - 1];
      if i > 0 {
        assert x[i] == y[i - 1];
      }
    }
  }

  lemma {:induction false} ExtensionsFromSound(inst: Instance, k: nat, used: set<nat>, g: nat)
    requires k < |inst.targets| && g <= |inst.templateGroups|
    ensures forall x: Combination | x in ExtensionsFrom(inst, k, used, g) ::
              ValidFrom(inst, k, used, x) && x[0].groupIndex >= g
    decreases |inst.targets| - k, |inst.templateGroups| - g
  {
    if g < |inst.templateGroups| {
      ExtensionsFromSound(inst, k, used, g + 1);
      var block := Block(inst, k, used, g);
      forall x: Combination | x in block
        ensures ValidFrom(inst, k, used, x) && x[0].groupIndex == g
      {
        var rest := Extensions(inst, k + 1, used + {g});
        ExtensionsSound(inst, k + 1, used + {g});
        var n :| 0 <= n < |rest| && x == [Place(inst, k, g)] + rest[n];
        BlockElementSound(inst, k, used, g, rest[n]);
      }
    }
  }

  // ---------------------------------------------------------------------------
  // Completeness

  lemma {:induction false} ExtensionsComplete(inst: Instance, k: nat, used: set<nat>, x: Combination)
    requires k <= |inst.targets| && ValidFrom(inst, k, used, x)
    ensures x in Extensions(inst, k, used)
    decreases |inst.targets| - k, |inst.templateGroups| + 1
  {
    if k == |inst.targets| {
      assert x == [];
    } else {
      ExtensionsFromComplete(inst, k, used, x, 0);
    }
  }

  lemma {:induction false} ExtensionsFromComplete(inst: Instance, k: nat, used: set<nat>, x: Combination, g: nat)
    requires k < |inst.targets| && ValidFrom(inst, k, used, x)
    requires g <= x[0].groupIndex
    ensures x in ExtensionsFrom(inst, k, used, g)
    decreases |inst.targets| - k, |inst.templateGroups| - g
  {
    if g == x[0].groupIndex {
      var y := x[1..];
      assert ValidFrom(inst, k + 1, used + {g}, y) by {
        forall i | 0 <= i < |y| ensures y[i].groupIndex != g {
          assert y[i] == x[i + 1];
        }
      }
      ExtensionsComplete(inst, k + 1, used + {g}, y);
      var rest := Extensions(inst, k + 1, used + {g});
      var n :| 0 <= n < |rest| && rest[n] == y;
      assert x == [Place(inst, k, g)] + y;
      assert PrependAll([Place(inst, k, g)], rest)[n] == x;
      assert x in Block(inst, k, used, g);
    } else {
      ExtensionsFromComplete(inst, k, used, x, g + 1);
    }
  }

  // ---------------------------------------------------------------------------
  // Each combination once

  lemma DistinctConcat<T>(a: seq<T>, b: seq<T>)
    requires Distinct(a) && Distinct(b)
    requires forall i, j | 0 <= i < |a| && 0 <= j < |b| :: a[i] != b[j]
    ensures Distinct(a + b)
  {
    forall i, j | 0 <= i < j < |a + b| ensures (a + b)[i] != (a + b)[j] {
      if j < |a| {
      } else if i >= |a| {
        assert (a + b)[i] == b[i - |a|] && (a + b)[j] == b[j - |a|];
      } else {
        assert (a + b)[j] == b[j - |a|];
      }
    }
  }

  lemma PrependAllDistinct(p: Combination, xs: seq<Combination>)
    requires Distinct(xs)
    ensures Distinct(PrependAll(p, xs))
  {
    var r := PrependAll(p, xs);
    forall i, j | 0 <= i < j < |r| ensures r[i] != r[j] {
      assert r[i][|p|..] == xs[i] && r[j][|p|..] == xs[j];
    }
  }

  lemma {:induction false} ExtensionsDistinct(inst: Instance, k: nat, used: set<nat>)
    requires k <= |inst.targets|
    ensures Distinct(Extensions(inst, k, used))
    decreases |inst.targets| - k, |inst.templateGroups| + 1
  {
    if k < |inst.targets| {
      ExtensionsFromDistinct(inst, k, used, 0);
    }
  }

  lemma {:induction false} ExtensionsFromDistinct(inst: Instance, k: nat, used: set<nat>, g: nat)
    requires k < |inst.targets| && g <= |inst.templateGroups|
    ensures Distinct(ExtensionsFrom(inst, k, used, g))
    decreases |inst.targets| - k, |inst.templateGroups| - g
  {
    if g < |inst.templateGroups| {
      var block := Block(inst, k, used, g);
      var later := ExtensionsFrom(inst, k, used, g + 1);
      ExtensionsFromDistinct(inst, k, used, g + 1);
      ExtensionsFromSound(inst, k, used, g + 1);
      if g !in used && CanPlace(inst, k, g) {
        ExtensionsDistinct(inst, k + 1, used + {g});
        PrependAllDistinct([Place(inst, k, g)], Extensions(inst, k + 1, used + {g}));
      }
      forall i, j | 0 <= i < |block| && 0 <= j < |later| ensures block[i] != later[j] {
        assert later[j] in later;
        assert block[i][0].groupIndex == g;
      }
      DistinctConcat(block, later);
    }
  }

  /** `findSkillGroupCombinations` lists every valid assignment, nothing
      else, and none twice; so summing over its result counts each way of
      drawing the requested skills exactly once. */
  lemma EnumerateExact(inst: Instance)
    ensures Distinct(Enumerate(inst))
    ensures forall c :: c in Enumerate(inst) <==> ValidCombination(inst, c)
  {
    ExtensionsSound(inst, 0, {});
    ExtensionsDistinct(inst, 0, {});
    forall c | ValidCombination(inst, c) ensures c in Enumerate(inst) {
      ExtensionsComplete(inst, 0, {}, c);
    }
  }

  // ---------------------------------------------------------------------------
  // Counting positions

  /** The template positions a combination occupies. */
  function Indices(x: Combination): set<nat>
  {
    if |x| == 0 then {} else Indices(x[..|x| - 1]) + {x[|x| - 1].groupIndex}
  }

  lemma {:induction false} IndicesOf(x: Combination)
    ensures forall g :: g in Indices(x) <==> exists i | 0 <= i < |x| :: x[i].groupIndex == g
    ensures (forall i, j | 0 <= i < j < |x| :: x[i].groupIndex != x[j].groupIndex) ==> |Indices(x)| == |x|
  {
    if |x| > 0 {
      var init := x[..|x| - 1];
      IndicesOf(init);
      forall g ensures g in Indices(x) <==> exists i | 0 <= i < |x| :: x[i].groupIndex == g {
        if exists i | 0 <= i < |x| :: x[i].groupIndex == g {
          var i :| 0 <= i < |x| && x[i].groupIndex == g;
          if i < |x| - 1 { assert init[i] == x[i]; }
        }
      }
      if forall i, j | 0 <= i < j < |x| :: x[i].groupIndex != x[j].groupIndex {
        assert x[|x| - 1].groupIndex !in Indices(init);
      }
    }
  }

  function Below(n: nat): set<nat>
  {
    if n == 0 then {} else Below(n - 1) + {n - 1}
  }

  lemma {:induction false} BelowCard(n: nat)
    ensures |Below(n)| == n
    ensures forall g: nat :: g in Below(n) <==> g < n
  {
    if n > 0 {
      BelowCard(n - 1);
    }
  }

  lemma SubsetCard(a: set<nat>, b: set<nat>)
    requires a <= b
    ensures |a| <= |b|
  {
    assert b == a + (b - a);
  }

  /** A valid combination needs as many positions as requested skills: with
      more skills than positions there is none (pigeonhole). */
  lemma ValidNeedsPositions(inst: Instance, c: Combination)
    requires ValidCombination(inst, c)
    ensures |inst.targets| <= |inst.templateGroups|
  {
    IndicesOf(c);
    BelowCard(|inst.templateGroups|);
    SubsetCard(Indices(c), Below(|inst.templateGroups|));
  }

  /** Hence the calculator's separate length test never changes its answer:
      a template with fewer positions than requested skills enumerates nothing. */
  lemma TooManyTargetsEnumerateNothing(inst: Instance)
    requires |inst.targets| > |inst.templateGroups|
    ensures Enumerate(inst) == []
  {
    EnumerateExact(inst);
    if Enumerate(inst) != [] {
      assert Enumerate(inst)[0] in Enumerate(inst);
      ValidNeedsPositions(inst, Enumerate(inst)[0]);
    }
  }

  // ---------------------------------------------------------------------------
  // The backtracking as the source runs it

  lemma PrependAllConcat(p: Combination, a: seq<Combination>, b: seq<Combination>)
    ensures PrependAll(p, a + b) == PrependAll(p, a) + PrependAll(p, b)
  {
  }

  lemma PrependAllNested(p: Combination, q: Combination, xs: seq<Combination>)
    ensures PrependAll(p + q, xs) == PrependAll(p, PrependAll(q, xs))
  {
    forall i | 0 <= i < |xs| ensures (p + q) + xs[i] == p + (q + xs[i]) {}
  }

  lemma PrependAllEmpty(xs: seq<Combination>)
    ensures PrependAll([], xs) == xs
  {
    forall i | 0 <= i < |xs| ensures [] + xs[i] == xs[i] {}
  }

  /** One step of the loop over template positions. */
  lemma ExtensionsFromStep(inst: Instance, k: nat, used: set<nat>, g: nat, cur: Combination)
    requires k < |inst.targets| && g < |inst.templateGroups|
    ensures PrependAll(cur, ExtensionsFrom(inst, k, used, g))
         == PrependAll(cur, Block(inst, k, used, g)) + PrependAll(cur, ExtensionsFrom(inst, k, used, g + 1))
  {
    PrependAllConcat(cur, Block(inst, k, used, g), ExtensionsFrom(inst, k, used, g + 1));
  }

  /** The closure state of `backtrack`: the result list, the partial
      assignment pushed and popped around each recursive call, and the set of
      template positions in use. */
  class CombinationSearch {
    const inst: Instance
    var combinations: seq<Combination>
    var currentAssignment: Combination
    var usedGroupIndices: set<nat>

    constructor (inst: Instance)
      ensures this.inst == inst
      ensures combinations == [] && currentAssignment == [] && usedGroupIndices == {}
    {
      this.inst := inst;
      combinations := [];
      currentAssignment := [];
      usedGroupIndices := {};
    }

    /** `backtrack(skillIndex, …)`: appends every completion of the current
        partial assignment, in search order, and leaves the partial assignment
        and the used positions as it found them. */
    method Backtrack(skillIndex: nat)
      requires skillIndex <= |inst.targets|
      modifies this
      decreases |inst.targets| - skillIndex, 1
      ensures combinations == old(combinations)
                + PrependAll(old(currentAssignment), Extensions(inst, skillIndex, old(usedGroupIndices)))
      ensures currentAssignment == old(currentAssignment) && usedGroupIndices == old(usedGroupIndices)
    {
      if skillIndex == |inst.targets| {
        assert PrependAll(currentAssignment, [[]]) == [currentAssignment] by {
          assert currentAssignment + [] == currentAssignment;
        }
        combinations := combinations + [currentAssignment];
        return;
      }
      ghost var cur, used := currentAssignment, usedGroupIndices;
      ghost var goal := combinations + PrependAll(cur, ExtensionsFrom(inst, skillIndex, used, 0));
      var groupIndex := 0;
      while groupIndex < |inst.templateGroups|
        invariant 0 <= groupIndex <= |inst.templateGroups|
        invariant currentAssignment == cur && usedGroupIndices == used
        invariant combinations + PrependAll(cur, ExtensionsFrom(inst, skillIndex, used, groupIndex)) == goal
      {
        ghost var before := combinations;
        ghost var block := PrependAll(cur, Block(inst, skillIndex, used, groupIndex));
        ghost var later := PrependAll(cur, ExtensionsFrom(inst, skillIndex, used, groupIndex + 1));
        ExtensionsFromStep(inst, skillIndex, used, groupIndex, cur);
        assert before + (block + later) == goal;
        TryGroup(skillIndex, groupIndex);
        assert combinations + later == before + (block + later);
        groupIndex := groupIndex + 1;
      }
    }

    /** The `forEach` callback of `backtrack` for one template position: when
        the position is free and its group can draw the current skill, place
        the skill there, recurse, and undo the placement. */
    method TryGroup(skillIndex: nat, groupIndex: nat)
      requires skillIndex < |inst.targets| && groupIndex < |inst.templateGroups|
      modifies this
      decreases |inst.targets| - skillIndex, 0
      ensures combinations == old(combinations)
                + PrependAll(old(currentAssignment), Block(inst, skillIndex, old(usedGroupIndices), groupIndex))
      ensures currentAssignment == old(currentAssignment) && usedGroupIndices == old(usedGroupIndices)
    {
      if groupIndex in usedGroupIndices {
        return;
      }
      var currentSkill := inst.targets[skillIndex];
      var group := FindGroup(inst.table, inst.templateGroups[groupIndex]);
      if group.None? {
        return;
      }
      var hasSkill := HasEntry(group.value.entries, currentSkill);
      if hasSkill {
        ghost var cur, used := currentAssignment, usedGroupIndices;
        var placed := Assignment(groupIndex, inst.templateGroups[groupIndex], currentSkill);
        currentAssignment := currentAssignment + [placed];
        usedGroupIndices := usedGroupIndices + {groupIndex};
        Backtrack(skillIndex + 1);
        PrependAllNested(cur, [placed], Extensions(inst, skillIndex + 1, used + {groupIndex}));
        currentAssignment := currentAssignment[..|currentAssignment| - 1];
        usedGroupIndices := usedGroupIndices - {groupIndex};
        assert currentAssignment == cur;
        assert usedGroupIndices == used;
      }
    }
  }

  /** `findSkillGroupCombinations` as the source runs it: a fresh search from
      the first requested skill with nothing placed. */
  method FindSkillGroupCombinations(templateGroups: seq<string>, table: seq<SkillGroup>, targets: seq<SkillLevel>)
    returns (combinations: seq<Combination>)
    ensures combinations == Enumerate(Instance(templateGroups, table, targets))
  {
    var search := new CombinationSearch(Instance(templateGroups, table, targets));
    search.Backtrack(0);
    combinations := search.combinations;
    PrependAllEmpty(Enumerate(search.inst));
  }
}
