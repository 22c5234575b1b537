/** The probability side of the calculator: the chance of one assignment
    (`calculateCombinationProbability`), the skill probability of a template
    (`calculateSkillCombinationProbability`), and the exact chance that a
    template's independent draws grant the requested skills (see `Chance`).
    The pipeline's methods compute the former, the sum (`Pipeline.AsWritten`);
    the exact chance is only the intended reading (`Pipeline.Intended`), whose
    bounds are proved separately. */
module Probability {
  import opened Wrappers
  import opened SeqUtil
  import opened CatalogTypes
  import opened Enumeration

  /** Every group of the table has positive entry weights, so each draw
      probability `weight / total` is well defined. */
  predicate PositiveTable(table: seq<SkillGroup>)
  {
    forall g | g in table :: PositiveEntries(g.entries)
  }

  lemma ShareBounds(w: real, total: real)
    requires 0.0 < w <= total
    ensures 0.0 < w / total <= 1.0
  {
  }

  lemma RatioBounds(d: real, t: real)
    requires 0.0 <= d <= t && 0.0 < t
    ensures 0.0 <= d / t <= 1.0
    ensures 0.0 < d / t <==> 0.0 < d
  {
  }

  /** `a` scaled by a fraction `b`. Every product of the model goes through
      this one function, so that the bounds of a product are settled here
      once. */
  function Scaled(a: real, b: real): (r: real)
    requires 0.0 < a && 0.0 <= b <= 1.0
    ensures 0.0 <= r <= a
    ensures 0.0 < r <==> 0.0 < b
  {
    assert a * b <= a * 1.0;
    a * b
  }

  /** The factor one assignment contributes: the drawn entry's share of its
      group's total weight. A group or entry that cannot be found contributes
      nothing (factor 1): the source's `return 0` inside `forEach` only ends
      that callback. */
  function Factor(table: seq<SkillGroup>, a: Assignment): (r: real)
    requires PositiveTable(table)
    ensures 0.0 < r <= 1.0
  {
    match FindGroup(table, a.groupId)
    case None => 1.0
    case Some(g) =>
      match FindEntry(g.entries, a.targetSkill)
      case None => 1.0
      case Some(e) =>
        assert e in g.entries;
        ShareBounds(e.weight, TotalWeight(g.entries));
        e.weight / TotalWeight(g.entries)
  }

  /** `calculateCombinationProbability`: the product of the factors; it is a
      probability in (0, 1]. */
  function Product(table: seq<SkillGroup>, combination: Combination): (r: real)
    requires PositiveTable(table)
    ensures 0.0 < r <= 1.0
  {
    if |combination| == 0 then 1.0
    else Scaled(Product(table, combination[..|combination| - 1]), Factor(table, combination[|combination| - 1]))
  }

  /** `Scaled` is the plain product, stated where the solver needs it as an
      equation rather than by unfolding. */
  lemma ScaledIsProduct(a: real, b: real)
    requires 0.0 < a && 0.0 <= b <= 1.0
    ensures Scaled(a, b) == a * b
  {
  }

  /** The product over one more assignment scales the product so far by its
      factor. */
  lemma ProductStep(table: seq<SkillGroup>, combination: Combination, i: nat)
    requires PositiveTable(table) && i < |combination|
    ensures Product(table, combination[..i + 1]) == Scaled(Product(table, combination[..i]), Factor(table, combination[i]))
  {
    var s := combination[..i + 1];
    assert s[..|s| - 1] == combination[..i];
  }

  /** One more factor extends the running product by one assignment. */
  lemma ProductExtend(table: seq<SkillGroup>, combination: Combination, i: nat, p: real, f: real)
    requires PositiveTable(table) && i < |combination|
    requires p == Product(table, combination[..i]) && f == Factor(table, combination[i])
    ensures p * f == Product(table, combination[..i + 1])
  {
    ProductStep(table, combination, i);
    ScaledIsProduct(p, f);
  }

  /** The body of the `forEach` in `calculateCombinationProbability`: the
      group and entry lookups and the entry's share of the group weight. */
  method AssignmentShare(table: seq<SkillGroup>, assignment: Assignment) returns (share: real)
    requires PositiveTable(table)
    ensures share == Factor(table, assignment)
  {
    share := 1.0;
    var group := FindGroup(table, assignment.groupId);
    if group.Some? {
      var targetEntry := FindEntry(group.value.entries, assignment.targetSkill);
      if targetEntry.Some? {
        var totalWeight := TotalWeight(group.value.entries);
        share := targetEntry.value.weight / totalWeight;
      }
    }
  }

  /** `calculateCombinationProbability` as the source runs it: a running
      product over the assignments. */
  method CalculateCombinationProbability(combination: Combination, table: seq<SkillGroup>) returns (probability: real)
    requires PositiveTable(table)
    ensures probability == Product(table, combination)
  {
    probability := 1.0;
    var i := 0;
    while i < |combination|
      invariant 0 <= i <= |combination|
      invariant probability == Product(table, combination[..i])
    {
      var share := AssignmentShare(table, combination[i]);
      ProductExtend(table, combination, i, probability, share);
      probability := probability * share;
      i := i + 1;
    }
    assert combination[..i] == combination;
  }

  /** For an enumerated combination both lookups always succeed, so every
      factor is a genuine draw probability. */
  lemma EnumeratedFactorsFound(inst: Instance, x: Combination)
    requires x in Enumerate(inst)
    ensures forall i | 0 <= i < |x| ::
              FindGroup(inst.table, x[i].groupId).Some?
              && FindEntry(FindGroup(inst.table, x[i].groupId).value.entries, x[i].targetSkill).Some?
  {
    EnumerateExact(inst);
    assert ValidCombination(inst, x);
  }

  /** The sum of the products over a list of combinations. */
  function SumProducts(table: seq<SkillGroup>, combinations: seq<Combination>): (r: real)
    requires PositiveTable(table)
    ensures 0.0 <= r
    ensures |combinations| > 0 ==> 0.0 < r
  {
    if |combinations| == 0 then 0.0
    else
      SumProducts(table, combinations[..|combinations| - 1]) + Product(table, combinations[|combinations| - 1])
  }

  /** `calculateSkillCombinationProbability`: zero when the template has too
      few positions or no assignment exists, otherwise the sum over the
      enumerated assignments. */
  function SkillProbability(inst: Instance): real
    requires PositiveTable(inst.table)
  {
    if |inst.targets| > |inst.templateGroups| then 0.0
    else
      var combinations := Enumerate(inst);
      if |combinations| == 0 then 0.0 else SumProducts(inst.table, combinations)
  }

  /** `calculateSkillCombinationProbability` as the source runs it. */
  method CalculateSkillCombinationProbability(templateGroups: seq<string>, table: seq<SkillGroup>, targetSkills: seq<SkillLevel>)
    returns (total: real)
    requires PositiveTable(table)
    ensures total == SkillProbability(Instance(templateGroups, table, targetSkills))
  {
    if |targetSkills| > |templateGroups| {
      return 0.0;
    }
    var possibleCombinations := FindSkillGroupCombinations(templateGroups, table, targetSkills);
    if |possibleCombinations| == 0 {
      return 0.0;
    }
    total := 0.0;
    var i := 0;
    while i < |possibleCombinations|
      invariant 0 <= i <= |possibleCombinations|
      invariant total == SumProducts(table, possibleCombinations[..i])
    {
      var combinationProbability := CalculateCombinationProbability(possibleCombinations[i], table);
      total := total + combinationProbability;
      assert possibleCombinations[..i + 1][..i] == possibleCombinations[..i];
      i := i + 1;
    }
    assert possibleCombinations[..i] == possibleCombinations;
  }

  /** The skill probability is positive exactly when some valid assignment of
      the requested skills to the template's positions exists. */
  lemma SkillProbabilityPositiveIff(inst: Instance)
    requires PositiveTable(inst.table)
    ensures SkillProbability(inst) > 0.0 <==> exists x :: ValidCombination(inst, x)
    ensures SkillProbability(inst) >= 0.0
  {
    EnumerateExact(inst);
    if exists x :: ValidCombination(inst, x) {
      var x :| ValidCombination(inst, x);
      ValidNeedsPositions(inst, x);
      assert x in Enumerate(inst);
    }
    if SkillProbability(inst) > 0.0 {
      assert Enumerate(inst)[0] in Enumerate(inst);
    }
  }

  /** Requesting no skills: the only assignment is the empty one, with
      probability 1. */
  lemma SkillProbabilityNoTargets(inst: Instance)
    requires PositiveTable(inst.table) && inst.targets == []
    ensures SkillProbability(inst) == 1.0
  {
    assert Enumerate(inst) == [[]];
    assert SumProducts(inst.table, [[]]) == SumProducts(inst.table, []) + Product(inst.table, []);
  }

  // ---------------------------------------------------------------------------
  // The exact chance of the requested skills

  /** The requested skills still to be drawn, with the first copy of `p`
      struck off when it is among them. */
  function RemoveFirst(need: seq<SkillLevel>, p: SkillLevel): (r: seq<SkillLevel>)
    ensures multiset(r) == multiset(need) - multiset{p}
    ensures p in need ==> |r| == |need| - 1
    ensures p !in need ==> r == need
  {
    if |need| == 0 then []
    else if need[0] == p then
      assert need == [need[0]] + need[1..];
      need[1..]
    else
      assert need == [need[0]] + need[1..];
      [need[0]] + RemoveFirst(need[1..], p)
  }

  function Drawn(e: Entry): SkillLevel
  {
    SkillLevel(e.skillId, e.level)
  }

  /** The probability that the draws at positions `i..` of the template grant
      every skill in `need` (each position draws one entry of its group,
      independently, with probability `weight / total`; a position whose group
      is missing or empty draws nothing). */
  function Chance(inst: Instance, i: nat, need: seq<SkillLevel>): (r: real)
    requires i <= |inst.templateGroups| && PositiveTable(inst.table)
    ensures 0.0 <= r <= 1.0
    decreases |inst.templateGroups| - i, 1, 0
  {
    if |need| == 0 then 1.0
    else if i == |inst.templateGroups| then 0.0
    else
      match FindGroup(inst.table, inst.templateGroups[i])
      case None => Chance(inst, i + 1, need)
      case Some(g) =>
        if |g.entries| == 0 then Chance(inst, i + 1, need)
        else
          assert g.entries[0] in g.entries;
          RatioBounds(DrawSum(inst, i, need, g.entries), TotalWeight(g.entries));
          DrawSum(inst, i, need, g.entries) / TotalWeight(g.entries)
  }

  /** The weighted sum, over the entries position `i` can draw, of the chance
      that the later positions grant what is then still missing. */
  function DrawSum(inst: Instance, i: nat, need: seq<SkillLevel>, entries: seq<Entry>): (r: real)
    requires i < |inst.templateGroups| && PositiveTable(inst.table) && PositiveEntries(entries)
    ensures 0.0 <= r <= TotalWeight(entries)
    decreases |inst.templateGroups| - i, 0, |entries|
  {
    if |entries| == 0 then 0.0
    else
      var init := entries[..|entries| - 1];
      var e := entries[|entries| - 1];
      assert e in entries;
      assert PositiveEntries(init) by {
        forall x | x in init ensures x.weight > 0.0 {
          assert x in entries;
        }
      }
      assert TotalWeight(entries) == TotalWeight(init) + e.weight;
      DrawSum(inst, i, need, init) + Scaled(e.weight, Chance(inst, i + 1, RemoveFirst(need, Drawn(e))))
  }

  /** The corrected skill probability: the chance that the template's draws
      grant all requested skills. */
  function CorrectedSkillProbability(inst: Instance): (r: real)
    requires PositiveTable(inst.table)
    ensures 0.0 <= r <= 1.0
    ensures inst.targets == [] ==> r == 1.0
  {
    Chance(inst, 0, inst.targets)
  }

  // ---------------------------------------------------------------------------
  // Where the two disagree

  /** Two template positions whose groups each always grant skill `a` at
      level 1, and a request for that one skill. */
  function OverlapExample(): Instance
  {
    Instance(["g1", "g2"],
             [SkillGroup("g1", [Entry("a", 1, 1.0)], ""), SkillGroup("g2", [Entry("a", 1, 1.0)], "")],
             [SkillLevel("a", 1)])
  }

  /** The two assignments of the example: the skill at either position. */
  lemma OverlapEnumeration()
    ensures var inst := OverlapExample();
            && CanPlace(inst, 0, 0) && CanPlace(inst, 0, 1)
            && Enumerate(inst) == [[Place(inst, 0, 0)], [Place(inst, 0, 1)]]
  {
    var inst := OverlapExample();
    var g1 := inst.table[0];
    var g2 := inst.table[1];
    var t := inst.targets[0];
    assert FindGroup(inst.table, "g1") == Some(g1);
    FindGroupFirst(inst.table, "g2", 1);
    assert FindGroup(inst.table, "g2") == Some(g2);
    assert CanPlace(inst, 0, 0) by { assert Grants(g1.entries[0], t); }
    assert CanPlace(inst, 0, 1) by { assert Grants(g2.entries[0], t); }
    var p0 := Place(inst, 0, 0);
    var p1 := Place(inst, 0, 1);
    assert Extensions(inst, 1, {0}) == [[]];
    assert Extensions(inst, 1, {1}) == [[]];
    assert PrependAll([p0], [[]]) == [[p0]] by { assert [p0] + [] == [p0]; }
    assert PrependAll([p1], [[]]) == [[p1]] by { assert [p1] + [] == [p1]; }
    assert Block(inst, 0, {}, 0) == [[p0]];
    assert Block(inst, 0, {}, 1) == [[p1]];
    assert ExtensionsFrom(inst, 0, {}, 2) == [];
    assert ExtensionsFrom(inst, 0, {}, 1) == [[p1]];
    assert Enumerate(inst) == [[p0], [p1]];
  }

  /** Summing over assignments counts the outcome "both positions draw `a`"
      twice: the sum is 2, which is no probability, while the chance that the
      charm has the skill is 1. */
  lemma SkillProbabilityOverCounts()
    ensures PositiveTable(OverlapExample().table)
    ensures SkillProbability(OverlapExample()) == 2.0
    ensures CorrectedSkillProbability(OverlapExample()) == 1.0
  {
    var inst := OverlapExample();
    var g1 := inst.table[0];
    var g2 := inst.table[1];
    var t := inst.targets[0];
    OverlapEnumeration();
    var p0 := Place(inst, 0, 0);
    var p1 := Place(inst, 0, 1);
    assert FindGroup(inst.table, "g1") == Some(g1);
    FindGroupFirst(inst.table, "g2", 1);
    assert FindGroup(inst.table, "g2") == Some(g2);
    assert FindEntry(g1.entries, t) == Some(g1.entries[0]);
    assert FindEntry(g2.entries, t) == Some(g2.entries[0]);
    assert Factor(inst.table, p0) == 1.0;
    assert Factor(inst.table, p1) == 1.0;
    assert Product(inst.table, [p0]) == 1.0;
    assert Product(inst.table, [p1]) == 1.0;
    assert [[p0], [p1]][..1] == [[p0]];
    assert SumProducts(inst.table, [[p0], [p1]]) == 2.0;
    assert RemoveFirst(inst.targets, Drawn(g1.entries[0])) == [];
    assert Chance(inst, 1, []) == 1.0;
    assert DrawSum(inst, 0, inst.targets, g1.entries) == 1.0 by {
      assert g1.entries[..0] == [];
    }
    assert TotalWeight(g1.entries) == 1.0 by {
      assert g1.entries[..0] == [];
    }
  }
}
