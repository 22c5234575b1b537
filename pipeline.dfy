/** The calculator's top level (`calculateCharmProbability` and
    `calculateTemplateMatches` in `public/js/calculator.js`): every rarity in
    the requested range, every template of it and every socket pattern of the
    template that matches the request yields one result while the skills can
    be drawn at all; the results are then ordered by their joint
    probability, highest first. */
module Pipeline {
  import opened Wrappers
  import opened SeqUtil
  import opened CatalogTypes
  import opened SlotMatcher
  import opened Enumeration
  import opened Probability
  import opened Coverage

  /** The request: skills with levels, sockets, and the rarity window. An
      empty bound is no bound, as an empty string is falsy in JavaScript. */
  datatype Criteria = Criteria(targetSkills: seq<SkillLevel>, targetSlots: seq<int>, minRarity: string, maxRarity: string)

  /** The factors a result was computed from. */
  datatype CalculationDetails = CalculationDetails(
    rarityWeight: real,
    templateWeight: real,
    skillProbability: real,
    slotProbability: real,
    totalProbability: real,
    possibleCombinations: nat)

  /** One result: a template of a rarity rolling a socket pattern. */
  datatype MatchResult = MatchResult(
    template: Template,
    rarity: string,
    probability: real,
    slotPattern: SlotPattern,
    totalProbability: real,
    details: CalculationDetails)

  // ---------------------------------------------------------------------------
  // The rarity window

  /** JavaScript's `<` on strings: the first differing code unit decides, and a
      proper prefix comes first. */
  predicate StrLess(a: string, b: string)
  {
    if |b| == 0 then false
    else if |a| == 0 then true
    else if a[0] != b[0] then a[0] < b[0]
    else StrLess(a[1..], b[1..])
  }

  /** `StrLess` is a strict total order. */
  lemma {:induction false} StrLessTotal(a: string, b: string)
    ensures !StrLess(a, a)
    ensures StrLess(a, b) ==> !StrLess(b, a)
    ensures a != b ==> StrLess(a, b) || StrLess(b, a)
  {
    if |a| > 0 {
      StrLessTotal(a[1..], a[1..]);
    }
    if |a| > 0 && |b| > 0 {
      StrLessTotal(a[1..], b[1..]);
      if a[0] == b[0] && a != b {
        assert a == [a[0]] + a[1..] && b == [b[0]] + b[1..];
      }
    }
  }

  lemma {:induction false} StrLessTransitive(a: string, b: string, c: string)
    requires StrLess(a, b) && StrLess(b, c)
    ensures StrLess(a, c)
  {
    if |a| > 0 && a[0] == b[0] && b[0] == c[0] {
      StrLessTransitive(a[1..], b[1..], c[1..]);
    }
  }

  /** The two range tests of `calculateCharmProbability`. */
  predicate InRange(key: string, criteria: Criteria)
  {
    && !(criteria.minRarity != "" && StrLess(key, criteria.minRarity))
    && !(criteria.maxRarity != "" && StrLess(criteria.maxRarity, key))
  }

  /** The window the interface asks for, R5 to R8, compared as strings: the
      rarities R5 to R8 pass and R1 to R4 and R9 do not, while a two-digit
      key such as R10 sorts before R5 and is left out. */
  lemma InterfaceWindow()
    ensures var w := Criteria([], [], "R5", "R8");
            && InRange("R5", w) && InRange("R6", w) && InRange("R7", w) && InRange("R8", w)
            && !InRange("R1", w) && !InRange("R4", w) && !InRange("R9", w) && !InRange("R10", w)
  {
    var w := Criteria([], [], "R5", "R8");
    assert StrLess("10", "5") by { assert "10"[0] < "5"[0]; }
    assert StrLess("R10", "R5") by { assert "R10"[1..] == "10" && "R5"[1..] == "5"; }
    assert StrLess("R1", "R5") by { assert "R1"[1..] == "1" && "R5"[1..] == "5"; }
    assert StrLess("R4", "R5") by { assert "R4"[1..] == "4" && "R5"[1..] == "5"; }
    assert StrLess("R8", "R9") by { assert "R8"[1..] == "8" && "R9"[1..] == "9"; }
    assert !StrLess("R5", "R5") && !StrLess("R8", "R8") by {
      StrLessTotal("R5", "R5");
      StrLessTotal("R8", "R8");
    }
    assert !StrLess("R6", "R5") && !StrLess("R8", "R6") by { assert "R6"[1..] == "6" && "R5"[1..] == "5" && "R8"[1..] == "8"; }
    assert !StrLess("R7", "R5") && !StrLess("R8", "R7") by { assert "R7"[1..] == "7"; assert "R5"[1..] == "5" && "R8"[1..] == "8"; }
    assert !StrLess("R8", "R5") by { assert "R8"[1..] == "8" && "R5"[1..] == "5"; }
  }

  // ---------------------------------------------------------------------------
  // One template

  /** The product `rarityWeight × templateWeight × skillProbability ×
      slotProbability`. */
  function Joint(rarityWeight: real, templateWeight: real, skillProbability: real, slotProbability: real): real
  {
    rarityWeight * templateWeight * skillProbability * slotProbability
  }

  /** With the template and socket shares in (0, 1], the joint probability
      is positive exactly when the skill factor is, and at most the rarity
      weight times that factor; only a skill factor of at most 1 keeps it
      within the rarity weight. */
  lemma JointBounds(rarityWeight: real, templateWeight: real, skillProbability: real, slotProbability: real)
    requires 0.0 < rarityWeight
    requires 0.0 < templateWeight <= 1.0 && 0.0 <= skillProbability && 0.0 < slotProbability <= 1.0
    ensures var j := Joint(rarityWeight, templateWeight, skillProbability, slotProbability);
            && (0.0 < j <==> 0.0 < skillProbability)
            && 0.0 <= j <= rarityWeight * skillProbability
            && (skillProbability <= 1.0 ==> j <= rarityWeight)
  {
    var a := Scaled(rarityWeight, templateWeight);
    var u := Scaled(a, slotProbability);
    ScaledIsProduct(rarityWeight, templateWeight);
    ScaledIsProduct(a, slotProbability);
    assert 0.0 < u <= rarityWeight;
    var j := Joint(rarityWeight, templateWeight, skillProbability, slotProbability);
    assert j == u * skillProbability;
    assert u * skillProbability <= rarityWeight * skillProbability;
    if skillProbability <= 1.0 {
      ScaledIsProduct(u, skillProbability);
    }
  }

  predicate PositivePatterns(template: Template)
  {
    forall p | p in template.slotPatterns :: p.weight > 0.0
  }

  predicate PositiveRarity(rarity: Rarity)
  {
    forall t | t in rarity.templates :: PositivePatterns(t)
  }

  /** What the source needs to divide: positive draw weights in the group
      table, a template count of at least one, positive pattern weights. */
  predicate Divisible(table: seq<SkillGroup>, template: Template, templateCount: nat)
  {
    && PositiveTable(table)
    && templateCount > 0
    && PositivePatterns(template)
  }

  /** The result for one socket pattern of a template, given the template's
      skill probability and its number of skill assignments. */
  function ResultOf(template: Template, pattern: SlotPattern, rarityWeight: real, templateCount: nat, rarity: string,
                    skillProbability: real, combinations: nat): MatchResult
    requires templateCount > 0 && PositivePatterns(template) && pattern in template.slotPatterns
  {
    var templateWeight := 1.0 / templateCount as real;
    var slotProbability := pattern.weight / PatternWeight(template.slotPatterns);
    var total := Joint(rarityWeight, templateWeight, skillProbability, slotProbability);
    MatchResult(template, rarity, skillProbability, pattern, total,
                CalculationDetails(rarityWeight, templateWeight, skillProbability, slotProbability, total, combinations))
  }

  /** Which skill probability the results carry: `AsWritten` is the sum over
      skill assignments that `calculateSkillCombinationProbability` returns,
      `Intended` the chance that one roll of the template draws the requested
      skills. The two agree on when a template yields anything. */
  datatype Reading = AsWritten | Intended

  function SkillChance(reading: Reading, inst: Instance): (r: real)
    requires PositiveTable(inst.table)
    ensures 0.0 <= r
    ensures reading.Intended? ==> r <= 1.0
    ensures 0.0 < r <==> exists x :: ValidCombination(inst, x)
  {
    SkillProbabilityPositiveIff(inst);
    CorrectedAgreesOnEmission(inst);
    match reading
    case AsWritten => SkillProbability(inst)
    case Intended => CorrectedSkillProbability(inst)
  }

  /** The skill probability of a reading as a function of the template's
      instance; the calculation is written once for any such function. */
  function ChanceOf(reading: Reading): Instance -> real
  {
    (inst: Instance) => if PositiveTable(inst.table) then SkillChance(reading, inst) else 0.0
  }

  /** A skill probability that is non-negative and positive exactly when the
      requested skills can be assigned to the template's positions. */
  ghost predicate Faithful(chance: Instance -> real)
  {
    forall inst: Instance | PositiveTable(inst.table) ::
      0.0 <= chance(inst) && (0.0 < chance(inst) <==> exists x :: ValidCombination(inst, x))
  }

  /** Both readings are faithful in that sense. */
  lemma ChanceOfFaithful(reading: Reading)
    ensures Faithful(ChanceOf(reading))
  {
  }

  /** The result for one socket pattern of the template. */
  function MakeResult(chance: Instance -> real, template: Template, table: seq<SkillGroup>, targetSkills: seq<SkillLevel>,
                      pattern: SlotPattern, rarityWeight: real, templateCount: nat, rarity: string): MatchResult
    requires Divisible(table, template, templateCount) && pattern in template.slotPatterns
  {
    var inst := Instance(template.skillGroups, table, targetSkills);
    ResultOf(template, pattern, rarityWeight, templateCount, rarity, chance(inst), |Enumerate(inst)|)
  }

  /** The results for the first `n` socket patterns of the template, given
      the template's skill probability and number of skill assignments. */
  function PatternResults(template: Template, targetSlots: seq<int>, rarityWeight: real, templateCount: nat, rarity: string,
                          skillProbability: real, combinations: nat, n: nat): seq<MatchResult>
    requires templateCount > 0 && PositivePatterns(template) && n <= |template.slotPatterns|
  {
    if n == 0 then []
    else
      var before := PatternResults(template, targetSlots, rarityWeight, templateCount, rarity, skillProbability, combinations, n - 1);
      var pattern := template.slotPatterns[n - 1];
      if MatchesSlotCriteria(pattern, targetSlots) && skillProbability > 0.0
      then before + [ResultOf(template, pattern, rarityWeight, templateCount, rarity, skillProbability, combinations)]
      else before
  }

  /** `calculateTemplateMatches`: the results of all the template's patterns. */
  function TemplateMatches(chance: Instance -> real, template: Template, table: seq<SkillGroup>, targetSkills: seq<SkillLevel>, targetSlots: seq<int>,
                           rarityWeight: real, templateCount: nat, rarity: string): seq<MatchResult>
    requires Divisible(table, template, templateCount)
  {
    var inst := Instance(template.skillGroups, table, targetSkills);
    PatternResults(template, targetSlots, rarityWeight, templateCount, rarity,
                   chance(inst), |Enumerate(inst)|, |template.slotPatterns|)
  }

  /** The socket patterns among the first `n` that match the request, in order. */
  function MatchingPatterns(patterns: seq<SlotPattern>, targetSlots: seq<int>, n: nat): (r: seq<SlotPattern>)
    requires n <= |patterns|
    ensures forall k | 0 <= k < |r| :: r[k] in patterns && MatchesSlotCriteria(r[k], targetSlots)
    ensures forall k | 0 <= k < n && MatchesSlotCriteria(patterns[k], targetSlots) :: patterns[k] in r
  {
    if n == 0 then []
    else
      var before := MatchingPatterns(patterns, targetSlots, n - 1);
      if MatchesSlotCriteria(patterns[n - 1], targetSlots) then before + [patterns[n - 1]] else before
  }

  /** With the skills out of reach a template contributes nothing. */
  lemma {:induction false} PatternResultsNone(template: Template, targetSlots: seq<int>, rarityWeight: real, templateCount: nat,
                                              rarity: string, skillProbability: real, combinations: nat, n: nat)
    requires templateCount > 0 && PositivePatterns(template) && n <= |template.slotPatterns|
    requires !(skillProbability > 0.0)
    ensures PatternResults(template, targetSlots, rarityWeight, templateCount, rarity, skillProbability, combinations, n) == []
  {
    if n > 0 {
      PatternResultsNone(template, targetSlots, rarityWeight, templateCount, rarity, skillProbability, combinations, n - 1);
    }
  }

  /** The results for the patterns `ms`, in their order. */
  function ResultsFor(template: Template, ms: seq<SlotPattern>, rarityWeight: real, templateCount: nat, rarity: string,
                      skillProbability: real, combinations: nat): (rs: seq<MatchResult>)
    requires templateCount > 0 && PositivePatterns(template) && forall k | 0 <= k < |ms| :: ms[k] in template.slotPatterns
    ensures |rs| == |ms|
  {
    if |ms| == 0 then []
    else ResultsFor(template, ms[..|ms| - 1], rarityWeight, templateCount, rarity, skillProbability, combinations)
           + [ResultOf(template, ms[|ms| - 1], rarityWeight, templateCount, rarity, skillProbability, combinations)]
  }

  /** Result `k` is the result for pattern `k`. */
  lemma {:induction false} ResultsForAt(template: Template, ms: seq<SlotPattern>, rarityWeight: real, templateCount: nat,
                                        rarity: string, skillProbability: real, combinations: nat, k: nat)
    requires templateCount > 0 && PositivePatterns(template) && forall k | 0 <= k < |ms| :: ms[k] in template.slotPatterns
    requires k < |ms|
    ensures ResultsFor(template, ms, rarityWeight, templateCount, rarity, skillProbability, combinations)[k]
            == ResultOf(template, ms[k], rarityWeight, templateCount, rarity, skillProbability, combinations)
  {
    if k < |ms| - 1 {
      ResultsForAt(template, ms[..|ms| - 1], rarityWeight, templateCount, rarity, skillProbability, combinations, k);
    }
  }

  /** One more pattern adds its result at the end. */
  lemma ResultsForSnoc(template: Template, ms: seq<SlotPattern>, pattern: SlotPattern, rarityWeight: real, templateCount: nat,
                       rarity: string, skillProbability: real, combinations: nat)
    requires templateCount > 0 && PositivePatterns(template) && forall k | 0 <= k < |ms| :: ms[k] in template.slotPatterns
    requires pattern in template.slotPatterns
    ensures ResultsFor(template, ms + [pattern], rarityWeight, templateCount, rarity, skillProbability, combinations)
            == ResultsFor(template, ms, rarityWeight, templateCount, rarity, skillProbability, combinations)
               + [ResultOf(template, pattern, rarityWeight, templateCount, rarity, skillProbability, combinations)]
  {
    assert (ms + [pattern])[..|ms|] == ms;
  }

  /** With the skills within reach a template contributes one result per
      matching pattern, in pattern order. */
  lemma {:induction false} PatternResultsAll(template: Template, targetSlots: seq<int>, rarityWeight: real, templateCount: nat,
                                             rarity: string, skillProbability: real, combinations: nat, n: nat)
    requires templateCount > 0 && PositivePatterns(template) && n <= |template.slotPatterns|
    requires skillProbability > 0.0
    ensures PatternResults(template, targetSlots, rarityWeight, templateCount, rarity, skillProbability, combinations, n)
            == ResultsFor(template, MatchingPatterns(template.slotPatterns, targetSlots, n),
                          rarityWeight, templateCount, rarity, skillProbability, combinations)
  {
    if n > 0 {
      PatternResultsAll(template, targetSlots, rarityWeight, templateCount, rarity, skillProbability, combinations, n - 1);
      var matched := MatchingPatterns(template.slotPatterns, targetSlots, n - 1);
      var pattern := template.slotPatterns[n - 1];
      var before := PatternResults(template, targetSlots, rarityWeight, templateCount, rarity, skillProbability, combinations, n - 1);
      if MatchesSlotCriteria(pattern, targetSlots) {
        assert MatchingPatterns(template.slotPatterns, targetSlots, n) == matched + [pattern];
        ResultsForSnoc(template, matched, pattern, rarityWeight, templateCount, rarity, skillProbability, combinations);
        assert PatternResults(template, targetSlots, rarityWeight, templateCount, rarity, skillProbability, combinations, n)
               == before + [ResultOf(template, pattern, rarityWeight, templateCount, rarity, skillProbability, combinations)];
      } else {
        assert MatchingPatterns(template.slotPatterns, targetSlots, n) == matched;
        assert PatternResults(template, targetSlots, rarityWeight, templateCount, rarity, skillProbability, combinations, n) == before;
      }
    }
  }

  /** A template contributes exactly one result per matching pattern, in
      pattern order, when the skills can be drawn at all (some assignment of
      them to its positions exists), and nothing otherwise. */
  lemma TemplateMatchesExact(chance: Instance -> real, template: Template, table: seq<SkillGroup>, targetSkills: seq<SkillLevel>,
                             targetSlots: seq<int>, rarityWeight: real, templateCount: nat, rarity: string)
    requires Faithful(chance)
    requires Divisible(table, template, templateCount)
    ensures var inst := Instance(template.skillGroups, table, targetSkills);
            var rs := TemplateMatches(chance, template, table, targetSkills, targetSlots, rarityWeight, templateCount, rarity);
            var ms := MatchingPatterns(template.slotPatterns, targetSlots, |template.slotPatterns|);
            && (!(exists x :: ValidCombination(inst, x)) ==> rs == [])
            && ((exists x :: ValidCombination(inst, x)) ==>
                  |rs| == |ms|
                  && forall k | 0 <= k < |rs| ::
                       ms[k] in template.slotPatterns
                       && rs[k] == MakeResult(chance, template, table, targetSkills, ms[k], rarityWeight, templateCount, rarity))
  {
    var inst := Instance(template.skillGroups, table, targetSkills);
    var sp := chance(inst);
    var count := |Enumerate(inst)|;
    if sp > 0.0 {
      var ms := MatchingPatterns(template.slotPatterns, targetSlots, |template.slotPatterns|);
      PatternResultsAll(template, targetSlots, rarityWeight, templateCount, rarity, sp, count, |template.slotPatterns|);
      forall k | 0 <= k < |ms|
        ensures ResultsFor(template, ms, rarityWeight, templateCount, rarity, sp, count)[k]
                == MakeResult(chance, template, table, targetSkills, ms[k], rarityWeight, templateCount, rarity)
      {
        ResultsForAt(template, ms, rarityWeight, templateCount, rarity, sp, count, k);
      }
    } else {
      PatternResultsNone(template, targetSlots, rarityWeight, templateCount, rarity, sp, count, |template.slotPatterns|);
    }
  }


  /** Each result of a template describes a matching pattern of it and
      carries the template's positive skill probability and its enumeration
      count; its joint probability is the product of the rarity weight, the
      template share, that skill probability and the socket share, so it is
      positive and at most the rarity weight times the skill probability.
      Under the intended reading both probabilities are bounded: the skill
      probability by 1 and the joint probability by the rarity weight. */
  lemma MakeResultSound(reading: Reading, template: Template, table: seq<SkillGroup>, targetSkills: seq<SkillLevel>,
                        pattern: SlotPattern, rarityWeight: real, templateCount: nat, rarity: string)
    requires Divisible(table, template, templateCount) && pattern in template.slotPatterns && rarityWeight > 0.0
    requires Assignable(table, template, targetSkills)
    ensures var inst := Instance(template.skillGroups, table, targetSkills);
            var r := MakeResult(ChanceOf(reading), template, table, targetSkills, pattern, rarityWeight, templateCount, rarity);
            var templateWeight := 1.0 / templateCount as real;
            var slotProbability := pattern.weight / PatternWeight(template.slotPatterns);
            && r.template == template && r.rarity == rarity && r.slotPattern == pattern
            && (reading.AsWritten? ==> r.probability == SkillProbability(inst))
            && (reading.Intended? ==> r.probability == CorrectedSkillProbability(inst))
            && 0.0 < r.probability
            && r.totalProbability == Joint(rarityWeight, templateWeight, r.probability, slotProbability)
            && r.details == CalculationDetails(rarityWeight, templateWeight, r.probability, slotProbability,
                                               r.totalProbability, |Enumerate(inst)|)
            && 0.0 < templateWeight <= 1.0 && 0.0 < slotProbability <= 1.0
            && r.details.possibleCombinations > 0
            && 0.0 < r.totalProbability <= rarityWeight * r.probability
            && (reading.Intended? ==> r.probability <= 1.0 && r.totalProbability <= rarityWeight)
  {
    var inst := Instance(template.skillGroups, table, targetSkills);
    var total := PatternWeight(template.slotPatterns);
    ShareBounds(pattern.weight, total);
    ShareBounds(1.0, templateCount as real);
    JointBounds(rarityWeight, 1.0 / templateCount as real, SkillChance(reading, inst), pattern.weight / total);
    EnumerateExact(inst);
    var x :| ValidCombination(inst, x);
    ValidNeedsPositions(inst, x);
    assert x in Enumerate(inst);
  }

  /** `calculateTemplateMatches`: one pass over the socket patterns,
      computing the summed skill probability afresh for each match, as
      `calculateSkillCombinationProbability` does. */
  method CalculateTemplateMatches(template: Template, table: seq<SkillGroup>, targetSkills: seq<SkillLevel>, targetSlots: seq<int>,
                                  rarityWeight: real, totalTemplatesInRarity: nat, rarity: string)
    returns (results: seq<MatchResult>)
    requires Divisible(table, template, totalTemplatesInRarity)
    ensures results == TemplateMatches(ChanceOf(AsWritten), template, table, targetSkills, targetSlots, rarityWeight, totalTemplatesInRarity, rarity)
  {
    ghost var inst := Instance(template.skillGroups, table, targetSkills);
    ghost var sp := SkillChance(AsWritten, inst);
    ghost var count := |Enumerate(inst)|;
    results := [];
    var n := 0;
    while n < |template.slotPatterns|
      invariant 0 <= n <= |template.slotPatterns|
      invariant results == PatternResults(template, targetSlots, rarityWeight, totalTemplatesInRarity, rarity, sp, count, n)
    {
      var slotPattern := template.slotPatterns[n];
      if MatchesSlotCriteria(slotPattern, targetSlots) {
        var skillProbability := CalculateSkillCombinationProbability(template.skillGroups, table, targetSkills);
        if skillProbability > 0.0 {
          var templateWeight := 1.0 / totalTemplatesInRarity as real;
          var slotProbability := slotPattern.weight / PatternWeight(template.slotPatterns);
          var totalProbability := Joint(rarityWeight, templateWeight, skillProbability, slotProbability);
          var combinations := FindSkillGroupCombinations(template.skillGroups, table, targetSkills);
          results := results + [MatchResult(template, rarity, skillProbability, slotPattern, totalProbability,
                                            CalculationDetails(rarityWeight, templateWeight, skillProbability,
                                                               slotProbability, totalProbability, |combinations|))];
        }
      }
      n := n + 1;
    }
  }

  // ---------------------------------------------------------------------------
  // All rarities

  /** The results of the first `m` templates of a rarity. */
  function TemplateResults(chance: Instance -> real, table: seq<SkillGroup>, rarity: Rarity, criteria: Criteria, m: nat): seq<MatchResult>
    requires m <= |rarity.templates| && PositiveTable(table) && PositiveRarity(rarity)
  {
    if m == 0 then []
    else
      assert rarity.templates[m - 1] in rarity.templates;
      TemplateResults(chance, table, rarity, criteria, m - 1)
        + TemplateMatches(chance, rarity.templates[m - 1], table, criteria.targetSkills, criteria.targetSlots,
                          rarity.weight, |rarity.templates|, rarity.key)
  }

  /** The results of the first `n` rarities, skipping those out of range. */
  function RarityResults(chance: Instance -> real, table: seq<SkillGroup>, rarities: seq<Rarity>, criteria: Criteria, n: nat): seq<MatchResult>
    requires n <= |rarities| && PositiveTable(table)
    requires forall r | r in rarities :: PositiveRarity(r)
  {
    if n == 0 then []
    else
      var r := rarities[n - 1];
      assert r in rarities;
      RarityResults(chance, table, rarities, criteria, n - 1)
        + (if InRange(r.key, criteria) then TemplateResults(chance, table, r, criteria, |r.templates|) else [])
  }

  /** One more template appends its matches. */
  lemma TemplateResultsNext(chance: Instance -> real, table: seq<SkillGroup>, rarity: Rarity, criteria: Criteria, m: nat)
    requires m < |rarity.templates| && PositiveTable(table) && PositiveRarity(rarity)
    ensures rarity.templates[m] in rarity.templates
    ensures TemplateResults(chance, table, rarity, criteria, m + 1)
            == TemplateResults(chance, table, rarity, criteria, m)
               + TemplateMatches(chance, rarity.templates[m], table, criteria.targetSkills, criteria.targetSlots,
                                 rarity.weight, |rarity.templates|, rarity.key)
  {
  }

  /** One more rarity appends its results when it is in range. */
  lemma RarityResultsNext(chance: Instance -> real, table: seq<SkillGroup>, rarities: seq<Rarity>, criteria: Criteria, n: nat)
    requires n < |rarities| && PositiveTable(table) && forall q | q in rarities :: PositiveRarity(q)
    ensures PositiveRarity(rarities[n])
    ensures InRange(rarities[n].key, criteria) ==>
              RarityResults(chance, table, rarities, criteria, n + 1)
              == RarityResults(chance, table, rarities, criteria, n)
                 + TemplateResults(chance, table, rarities[n], criteria, |rarities[n].templates|)
    ensures !InRange(rarities[n].key, criteria) ==>
              RarityResults(chance, table, rarities, criteria, n + 1) == RarityResults(chance, table, rarities, criteria, n)
  {
    assert rarities[n] in rarities;
  }

  /** A result may be placed before another: the comparator
      `b.totalProbability - a.totalProbability` does not put it after. */
  predicate SortedByTotal(s: seq<MatchResult>)
  {
    forall i, j | 0 <= i < j < |s| :: s[i].totalProbability >= s[j].totalProbability
  }

  /** Inserting `x` before the first result that is not more probable. */
  function InsertByTotal(x: MatchResult, s: seq<MatchResult>): (r: seq<MatchResult>)
    ensures multiset(r) == multiset(s) + multiset{x}
  {
    if |s| == 0 then [x]
    else if s[0].totalProbability <= x.totalProbability then [x] + s
    else
      assert s == [s[0]] + s[1..];
      [s[0]] + InsertByTotal(x, s[1..])
  }

  lemma {:induction false} InsertByTotalSorted(x: MatchResult, s: seq<MatchResult>)
    requires SortedByTotal(s)
    ensures SortedByTotal(InsertByTotal(x, s))
  {
    if |s| > 0 && s[0].totalProbability > x.totalProbability {
      var tail := InsertByTotal(x, s[1..]);
      InsertByTotalSorted(x, s[1..]);
      forall i | 0 <= i < |tail| ensures s[0].totalProbability >= tail[i].totalProbability {
        assert tail[i] in multiset(tail);
        if tail[i] != x {
          assert tail[i] in multiset(s[1..]);
          var k :| 0 <= k < |s[1..]| && s[1..][k] == tail[i];
          assert s[k + 1] == tail[i];
        }
      }
    }
  }

  /** `results.sort((a, b) => b.totalProbability - a.totalProbability)`: a
      permutation of the results, most probable first. */
  function SortByTotal(s: seq<MatchResult>): (r: seq<MatchResult>)
    ensures multiset(r) == multiset(s)
    ensures SortedByTotal(r)
  {
    if |s| == 0 then []
    else
      assert s == [s[0]] + s[1..];
      InsertByTotalSorted(s[0], SortByTotal(s[1..]));
      InsertByTotal(s[0], SortByTotal(s[1..]))
  }

  /** The catalog facts the calculation divides by. */
  predicate Calculable(c: Catalog)
  {
    && c.skillGroups.Some? && c.rarities.Some?
    && PositiveTable(c.skillGroups.value)
    && forall r | r in c.rarities.value :: PositiveRarity(r)
  }

  lemma LoadedIsCalculable(c: Catalog)
    requires PositiveWeights(c) && c.skillGroups.Some? && c.rarities.Some?
    ensures Calculable(c)
  {
    forall r | r in c.rarities.value ensures PositiveRarity(r) {
      forall t | t in r.templates ensures PositivePatterns(t) {
        forall p | p in t.slotPatterns ensures p.weight > 0.0 {
          assert r in c.rarities.value && t in r.templates && p in t.slotPatterns;
        }
      }
    }
  }

  /** `calculateCharmProbability`: nothing while a table is missing; otherwise
      the results of every in-range rarity, sorted. */
  function CharmProbability(reading: Reading, c: Catalog, criteria: Criteria): seq<MatchResult>
    requires PositiveWeights(c)
  {
    if c.rarities.None? || c.skillGroups.None? || c.skills.None? then []
    else
      LoadedIsCalculable(c);
      SortByTotal(RarityResults(ChanceOf(reading), c.skillGroups.value, c.rarities.value, criteria, |c.rarities.value|))
  }

  // ---------------------------------------------------------------------------
  // What the pipeline emits

  /** Some assignment of the requested skills to the template's positions
      exists. */
  ghost predicate Assignable(table: seq<SkillGroup>, template: Template, targetSkills: seq<SkillLevel>)
  {
    exists x :: ValidCombination(Instance(template.skillGroups, table, targetSkills), x)
  }

  /** `r` is the result for pattern `p` of template `t` of `rarity`, and the
      pipeline emits it: the pattern matches and the skills are assignable. */
  ghost predicate Emits(chance: Instance -> real, table: seq<SkillGroup>, rarity: Rarity, criteria: Criteria, t: Template, p: SlotPattern, r: MatchResult)
    requires PositiveTable(table) && PositiveRarity(rarity)
  {
    && t in rarity.templates && p in t.slotPatterns
    && MatchesSlotCriteria(p, criteria.targetSlots)
    && Assignable(table, t, criteria.targetSkills)
    && r == MakeResult(chance, t, table, criteria.targetSkills, p, rarity.weight, |rarity.templates|, rarity.key)
  }

  /** Some socket pattern of template `t` yields `r`. */
  ghost predicate EmittedByTemplate(chance: Instance -> real, table: seq<SkillGroup>, rarity: Rarity, criteria: Criteria, t: Template, r: MatchResult)
    requires PositiveTable(table) && PositiveRarity(rarity)
  {
    exists p | p in t.slotPatterns :: Emits(chance, table, rarity, criteria, t, p, r)
  }

  /** One of the first `m` templates of `rarity` yields `r`. */
  ghost predicate EmittedByRarity(chance: Instance -> real, table: seq<SkillGroup>, rarity: Rarity, criteria: Criteria, m: nat, r: MatchResult)
    requires m <= |rarity.templates| && PositiveTable(table) && PositiveRarity(rarity)
  {
    && m > 0
    && (|| EmittedByRarity(chance, table, rarity, criteria, m - 1, r)
        || EmittedByTemplate(chance, table, rarity, criteria, rarity.templates[m - 1], r))
  }

  /** One of the in-range rarities among the first `n` yields `r`. */
  ghost predicate EmittedByCatalog(chance: Instance -> real, table: seq<SkillGroup>, rarities: seq<Rarity>, criteria: Criteria, n: nat, r: MatchResult)
    requires n <= |rarities| && PositiveTable(table) && forall q | q in rarities :: PositiveRarity(q)
  {
    && n > 0
    && (|| EmittedByCatalog(chance, table, rarities, criteria, n - 1, r)
        || (assert rarities[n - 1] in rarities;
            && InRange(rarities[n - 1].key, criteria)
            && EmittedByRarity(chance, table, rarities[n - 1], criteria, |rarities[n - 1].templates|, r)))
  }

  /** Pattern `p` of template `j` of the in-range rarity `i` yields `r`. */
  ghost predicate EmittedAt(chance: Instance -> real, table: seq<SkillGroup>, rarities: seq<Rarity>, criteria: Criteria, r: MatchResult,
                            i: int, j: int, p: SlotPattern)
    requires PositiveTable(table) && forall q | q in rarities :: PositiveRarity(q)
  {
    && 0 <= i < |rarities| && InRange(rarities[i].key, criteria)
    && 0 <= j < |rarities[i].templates|
    && (assert rarities[i] in rarities;
        Emits(chance, table, rarities[i], criteria, rarities[i].templates[j], p, r))
  }

  lemma TemplateMatchesMember(chance: Instance -> real, table: seq<SkillGroup>, rarity: Rarity, criteria: Criteria, t: Template, r: MatchResult)
    requires Faithful(chance)
    requires PositiveTable(table) && PositiveRarity(rarity) && t in rarity.templates
    ensures r in TemplateMatches(chance, t, table, criteria.targetSkills, criteria.targetSlots, rarity.weight, |rarity.templates|, rarity.key)
        <==> EmittedByTemplate(chance, table, rarity, criteria, t, r)
  {
    var rs := TemplateMatches(chance, t, table, criteria.targetSkills, criteria.targetSlots, rarity.weight, |rarity.templates|, rarity.key);
    var ms := MatchingPatterns(t.slotPatterns, criteria.targetSlots, |t.slotPatterns|);
    TemplateMatchesExact(chance, t, table, criteria.targetSkills, criteria.targetSlots, rarity.weight, |rarity.templates|, rarity.key);
    if r in rs {
      var k :| 0 <= k < |rs| && rs[k] == r;
      assert Emits(chance, table, rarity, criteria, t, ms[k], r);
    }
    if EmittedByTemplate(chance, table, rarity, criteria, t, r) {
      var p :| p in t.slotPatterns && Emits(chance, table, rarity, criteria, t, p, r);
      var i :| 0 <= i < |t.slotPatterns| && t.slotPatterns[i] == p;
      assert p in ms;
      var k :| 0 <= k < |ms| && ms[k] == p;
      assert rs[k] == r;
    }
  }

  /** One more template adds its results. */
  lemma TemplateResultsStep(chance: Instance -> real, table: seq<SkillGroup>, rarity: Rarity, criteria: Criteria, m: nat, r: MatchResult)
    requires 0 < m <= |rarity.templates| && PositiveTable(table) && PositiveRarity(rarity)
    ensures var t := rarity.templates[m - 1];
            r in TemplateResults(chance, table, rarity, criteria, m)
            <==> r in TemplateResults(chance, table, rarity, criteria, m - 1)
                 || r in TemplateMatches(chance, t, table, criteria.targetSkills, criteria.targetSlots, rarity.weight, |rarity.templates|, rarity.key)
  {
    assert rarity.templates[m - 1] in rarity.templates;
  }

  lemma {:induction false} TemplateResultsMember(chance: Instance -> real, table: seq<SkillGroup>, rarity: Rarity, criteria: Criteria, m: nat, r: MatchResult)
    requires Faithful(chance)
    requires m <= |rarity.templates| && PositiveTable(table) && PositiveRarity(rarity)
    ensures r in TemplateResults(chance, table, rarity, criteria, m) <==> EmittedByRarity(chance, table, rarity, criteria, m, r)
  {
    if m > 0 {
      var t := rarity.templates[m - 1];
      TemplateResultsMember(chance, table, rarity, criteria, m - 1, r);
      TemplateMatchesMember(chance, table, rarity, criteria, t, r);
      TemplateResultsStep(chance, table, rarity, criteria, m, r);
    }
  }

  /** One more rarity adds its results when it is in range. */
  lemma RarityResultsStep(chance: Instance -> real, table: seq<SkillGroup>, rarities: seq<Rarity>, criteria: Criteria, n: nat, r: MatchResult)
    requires 0 < n <= |rarities| && PositiveTable(table) && forall q | q in rarities :: PositiveRarity(q)
    ensures var q := rarities[n - 1];
            PositiveRarity(q)
            && (r in RarityResults(chance, table, rarities, criteria, n)
                <==> r in RarityResults(chance, table, rarities, criteria, n - 1)
                     || (InRange(q.key, criteria) && r in TemplateResults(chance, table, q, criteria, |q.templates|)))
  {
    assert rarities[n - 1] in rarities;
  }

  lemma {:induction false} RarityResultsMember(chance: Instance -> real, table: seq<SkillGroup>, rarities: seq<Rarity>, criteria: Criteria, n: nat, r: MatchResult)
    requires Faithful(chance)
    requires n <= |rarities| && PositiveTable(table) && forall q | q in rarities :: PositiveRarity(q)
    ensures r in RarityResults(chance, table, rarities, criteria, n) <==> EmittedByCatalog(chance, table, rarities, criteria, n, r)
  {
    if n > 0 {
      var q := rarities[n - 1];
      RarityResultsStep(chance, table, rarities, criteria, n, r);
      RarityResultsMember(chance, table, rarities, criteria, n - 1, r);
      TemplateResultsMember(chance, table, q, criteria, |q.templates|, r);
    }
  }

  /** The template among the first `m` that yields `r`. */
  lemma {:induction false} RarityEmitter(chance: Instance -> real, table: seq<SkillGroup>, rarity: Rarity, criteria: Criteria, m: nat, r: MatchResult)
    returns (j: nat)
    requires m <= |rarity.templates| && PositiveTable(table) && PositiveRarity(rarity)
    requires EmittedByRarity(chance, table, rarity, criteria, m, r)
    ensures j < m && EmittedByTemplate(chance, table, rarity, criteria, rarity.templates[j], r)
  {
    if EmittedByTemplate(chance, table, rarity, criteria, rarity.templates[m - 1], r) {
      j := m - 1;
    } else {
      j := RarityEmitter(chance, table, rarity, criteria, m - 1, r);
    }
  }

  /** A template among the first `m` that yields `r` makes them yield it. */
  lemma {:induction false} RarityEmitted(chance: Instance -> real, table: seq<SkillGroup>, rarity: Rarity, criteria: Criteria, m: nat, j: nat, r: MatchResult)
    requires m <= |rarity.templates| && PositiveTable(table) && PositiveRarity(rarity)
    requires j < m && EmittedByTemplate(chance, table, rarity, criteria, rarity.templates[j], r)
    ensures EmittedByRarity(chance, table, rarity, criteria, m, r)
  {
    if j < m - 1 {
      RarityEmitted(chance, table, rarity, criteria, m - 1, j, r);
    }
  }

  /** The in-range rarity among the first `n` that yields `r`. */
  lemma {:induction false} CatalogEmitter(chance: Instance -> real, table: seq<SkillGroup>, rarities: seq<Rarity>, criteria: Criteria, n: nat, r: MatchResult)
    returns (i: nat)
    requires n <= |rarities| && PositiveTable(table) && forall q | q in rarities :: PositiveRarity(q)
    requires EmittedByCatalog(chance, table, rarities, criteria, n, r)
    ensures i < n && rarities[i] in rarities && InRange(rarities[i].key, criteria)
    ensures EmittedByRarity(chance, table, rarities[i], criteria, |rarities[i].templates|, r)
  {
    if EmittedByCatalog(chance, table, rarities, criteria, n - 1, r) {
      i := CatalogEmitter(chance, table, rarities, criteria, n - 1, r);
    } else {
      i := n - 1;
    }
  }

  /** An in-range rarity among the first `n` that yields `r` makes them
      yield it. */
  lemma {:induction false} CatalogEmitted(chance: Instance -> real, table: seq<SkillGroup>, rarities: seq<Rarity>, criteria: Criteria, n: nat, i: nat, r: MatchResult)
    requires n <= |rarities| && PositiveTable(table) && forall q | q in rarities :: PositiveRarity(q)
    requires i < n && rarities[i] in rarities && InRange(rarities[i].key, criteria)
    requires EmittedByRarity(chance, table, rarities[i], criteria, |rarities[i].templates|, r)
    ensures EmittedByCatalog(chance, table, rarities, criteria, n, r)
  {
    if i < n - 1 {
      CatalogEmitted(chance, table, rarities, criteria, n - 1, i, r);
    }
  }

  /** The rarity, template and pattern through which the catalog yields `r`. */
  lemma EmittedWitness(chance: Instance -> real, table: seq<SkillGroup>, rarities: seq<Rarity>, criteria: Criteria, r: MatchResult)
    returns (i: int, j: int, p: SlotPattern)
    requires PositiveTable(table) && forall q | q in rarities :: PositiveRarity(q)
    requires EmittedByCatalog(chance, table, rarities, criteria, |rarities|, r)
    ensures EmittedAt(chance, table, rarities, criteria, r, i, j, p)
  {
    i := CatalogEmitter(chance, table, rarities, criteria, |rarities|, r);
    var q := rarities[i];
    j := RarityEmitter(chance, table, q, criteria, |q.templates|, r);
    p :| p in q.templates[j].slotPatterns && Emits(chance, table, q, criteria, q.templates[j], p, r);
  }

  /** A rarity, template and pattern that yield `r` make the catalog yield it. */
  lemma WitnessEmitted(chance: Instance -> real, table: seq<SkillGroup>, rarities: seq<Rarity>, criteria: Criteria, r: MatchResult,
                       i: int, j: int, p: SlotPattern)
    requires PositiveTable(table) && forall q | q in rarities :: PositiveRarity(q)
    requires EmittedAt(chance, table, rarities, criteria, r, i, j, p)
    ensures EmittedByCatalog(chance, table, rarities, criteria, |rarities|, r)
  {
    var q := rarities[i];
    assert q in rarities;
    assert EmittedByTemplate(chance, table, q, criteria, q.templates[j], r);
    RarityEmitted(chance, table, q, criteria, |q.templates|, j, r);
    CatalogEmitted(chance, table, rarities, criteria, |rarities|, i, r);
  }

  /** The calculation returns nothing while a table is missing. Otherwise a
      result is returned exactly when it is the result for some matching
      socket pattern of some template of some in-range rarity whose requested
      skills can be assigned to the template's positions. */
  lemma CharmProbabilityMember(reading: Reading, c: Catalog, criteria: Criteria, r: MatchResult)
    requires PositiveWeights(c)
    ensures c.rarities.None? || c.skillGroups.None? || c.skills.None? ==> CharmProbability(reading, c, criteria) == []
    ensures c.rarities.Some? && c.skillGroups.Some? && c.skills.Some? ==>
              Calculable(c) &&
              (r in CharmProbability(reading, c, criteria)
               <==> exists i, j, p :: EmittedAt(ChanceOf(reading), c.skillGroups.value, c.rarities.value, criteria, r, i, j, p))
  {
    if c.rarities.Some? && c.skillGroups.Some? && c.skills.Some? {
      LoadedIsCalculable(c);
      ChanceOfFaithful(reading);
      var rarities := c.rarities.value;
      var table := c.skillGroups.value;
      var emitted := RarityResults(ChanceOf(reading), table, rarities, criteria, |rarities|);
      assert r in CharmProbability(reading, c, criteria) <==> r in emitted by {
        assert multiset(CharmProbability(reading, c, criteria)) == multiset(emitted);
        assert r in CharmProbability(reading, c, criteria) <==> r in multiset(CharmProbability(reading, c, criteria));
      }
      RarityResultsMember(ChanceOf(reading), table, rarities, criteria, |rarities|, r);
      if r in emitted {
        var i, j, p := EmittedWitness(ChanceOf(reading), table, rarities, criteria, r);
      }
      if exists i, j, p :: EmittedAt(ChanceOf(reading), table, rarities, criteria, r, i, j, p) {
        var i, j, p :| EmittedAt(ChanceOf(reading), table, rarities, criteria, r, i, j, p);
        WitnessEmitted(ChanceOf(reading), table, rarities, criteria, r, i, j, p);
      }
    }
  }

  /** Every returned result is positive and at most its rarity's weight
      times its skill probability, for a socket pattern of its template that
      matches the request, and the results come most probable first; under
      the intended reading the skill probability is at most 1 and the joint
      probability at most the rarity's weight. */
  lemma CharmProbabilitySound(reading: Reading, c: Catalog, criteria: Criteria)
    requires PositiveWeights(c)
    ensures SortedByTotal(CharmProbability(reading, c, criteria))
    ensures forall r | r in CharmProbability(reading, c, criteria) :: Genuine(reading, c, criteria, r)
  {
    forall r | r in CharmProbability(reading, c, criteria)
      ensures Genuine(reading, c, criteria, r)
    {
      CharmProbabilityMember(reading, c, criteria, r);
      var i, j, p :| EmittedAt(ChanceOf(reading), c.skillGroups.value, c.rarities.value, criteria, r, i, j, p);
      EmittedGenuine(reading, c, criteria, r, i, j, p);
    }
  }

  /** Whatever the catalog emits is genuine. */
  lemma EmittedGenuine(reading: Reading, c: Catalog, criteria: Criteria, r: MatchResult, i: int, j: int, p: SlotPattern)
    requires PositiveWeights(c) && c.rarities.Some? && c.skillGroups.Some? && c.skills.Some? && Calculable(c)
    requires EmittedAt(ChanceOf(reading), c.skillGroups.value, c.rarities.value, criteria, r, i, j, p)
    ensures Genuine(reading, c, criteria, r)
  {
    var q := c.rarities.value[i];
    assert q in c.rarities.value;
    GenuineResult(reading, c, criteria, q, q.templates[j], p, r);
  }

  /** `r` comes from rarity `q`, which is in range, and its total lies
      within the bounds the reading gives for `q`'s weight. */
  predicate FromRarity(reading: Reading, q: Rarity, criteria: Criteria, r: MatchResult)
  {
    && InRange(q.key, criteria) && q.key == r.rarity
    && r.template in q.templates
    && 0.0 < r.totalProbability <= q.weight * r.probability
    && (reading.Intended? ==> r.totalProbability <= q.weight)
  }

  /** What every returned result satisfies. */
  predicate Genuine(reading: Reading, c: Catalog, criteria: Criteria, r: MatchResult)
  {
    && c.rarities.Some?
    && (exists q | q in c.rarities.value :: FromRarity(reading, q, criteria, r))
    && r.slotPattern in r.template.slotPatterns
    && MatchesSlotCriteria(r.slotPattern, criteria.targetSlots)
    && 0.0 < r.probability
    && (reading.Intended? ==> r.probability <= 1.0)
    && r.details.possibleCombinations > 0
  }

  lemma GenuineResult(reading: Reading, c: Catalog, criteria: Criteria, q: Rarity, t: Template, p: SlotPattern, r: MatchResult)
    requires PositiveWeights(c) && c.rarities.Some? && c.skillGroups.Some? && c.skills.Some?
    requires q in c.rarities.value && InRange(q.key, criteria)
    requires Calculable(c) && Emits(ChanceOf(reading), c.skillGroups.value, q, criteria, t, p, r)
    ensures Genuine(reading, c, criteria, r)
  {
    assert PositiveRarity(q) && q.weight > 0.0;
    EmittedBounds(reading, c.skillGroups.value, q, criteria, t, p, r);
    assert FromRarity(reading, q, criteria, r);
  }

  /** An emitted result names its rarity, template and pattern, and carries
      the bounds of `MakeResultSound`. */
  lemma EmittedBounds(reading: Reading, table: seq<SkillGroup>, q: Rarity, criteria: Criteria, t: Template, p: SlotPattern, r: MatchResult)
    requires PositiveTable(table) && PositiveRarity(q) && q.weight > 0.0
    requires Emits(ChanceOf(reading), table, q, criteria, t, p, r)
    ensures t in q.templates && p in t.slotPatterns && MatchesSlotCriteria(p, criteria.targetSlots)
    ensures r.template == t && r.rarity == q.key && r.slotPattern == p
    ensures 0.0 < r.probability && (reading.Intended? ==> r.probability <= 1.0)
    ensures 0.0 < r.totalProbability <= q.weight * r.probability
    ensures reading.Intended? ==> r.totalProbability <= q.weight
    ensures r.details.possibleCombinations > 0
  {
    MakeResultSound(reading, t, table, criteria.targetSkills, p, q.weight, |q.templates|, q.key);
  }

  /** The callback `calculateCharmProbability` runs for one in-range rarity:
      the results of each of its templates, in template order. */
  method CalculateRarityMatches(skillGroups: seq<SkillGroup>, rarityData: Rarity, criteria: Criteria)
    returns (results: seq<MatchResult>)
    requires PositiveTable(skillGroups) && PositiveRarity(rarityData)
    ensures results == TemplateResults(ChanceOf(AsWritten), skillGroups, rarityData, criteria, |rarityData.templates|)
  {
    results := [];
    var j := 0;
    while j < |rarityData.templates|
      invariant 0 <= j <= |rarityData.templates|
      invariant results == TemplateResults(ChanceOf(AsWritten), skillGroups, rarityData, criteria, j)
    {
      var template := rarityData.templates[j];
      TemplateResultsNext(ChanceOf(AsWritten), skillGroups, rarityData, criteria, j);
      var templateResults := CalculateTemplateMatches(template, skillGroups, criteria.targetSkills, criteria.targetSlots,
                                                      rarityData.weight, |rarityData.templates|, rarityData.key);
      results := results + templateResults;
      j := j + 1;
    }
  }

  /** The pass of `calculateCharmProbability` over the rarities, collecting
      the results of those in range. */
  method CollectInRange(skillGroups: seq<SkillGroup>, rarities: seq<Rarity>, criteria: Criteria)
    returns (results: seq<MatchResult>)
    requires PositiveTable(skillGroups) && forall q | q in rarities :: PositiveRarity(q)
    ensures results == RarityResults(ChanceOf(AsWritten), skillGroups, rarities, criteria, |rarities|)
  {
    results := [];
    var i := 0;
    while i < |rarities|
      invariant 0 <= i <= |rarities|
      invariant results == RarityResults(ChanceOf(AsWritten), skillGroups, rarities, criteria, i)
    {
      var rarityData := rarities[i];
      assert rarityData in rarities;
      RarityResultsNext(ChanceOf(AsWritten), skillGroups, rarities, criteria, i);
      if InRange(rarityData.key, criteria) {
        var rarityResults := CalculateRarityMatches(skillGroups, rarityData, criteria);
        results := results + rarityResults;
      }
      i := i + 1;
    }
  }

  /** `calculateCharmProbability`: nothing while a table is missing, else the
      pass over the rarities, then the sort. */
  method CalculateCharmProbability(c: Catalog, criteria: Criteria) returns (results: seq<MatchResult>)
    requires PositiveWeights(c)
    ensures results == CharmProbability(AsWritten, c, criteria)
  {
    if c.rarities.None? || c.skillGroups.None? || c.skills.None? {
      return [];
    }
    LoadedIsCalculable(c);
    results := CollectInRange(c.skillGroups.value, c.rarities.value, criteria);
    results := SortByTotal(results);
  }

  // ---------------------------------------------------------------------------
  // The two readings side by side

  /** One rarity of weight 0.5 with one template: the two positions of the
      overlap example and a single socket pattern. */
  function OverlapCatalog(): (c: Catalog)
    ensures PositiveWeights(c) && c.skillGroups.Some? && c.rarities.Some? && |c.rarities.value| == 1
    ensures |c.rarities.value[0].templates| == 1 && |c.rarities.value[0].templates[0].slotPatterns| == 1
  {
    var inst := OverlapExample();
    var q := Rarity("R5", 0.5, [Template("", inst.templateGroups, [SlotPattern([1], 1.0)])]);
    assert forall r, t, p | r in [q] && t in r.templates && p in t.slotPatterns :: p.weight > 0.0 by {
      forall r, t, p | r in [q] && t in r.templates && p in t.slotPatterns ensures p.weight > 0.0 {
        assert r == q && t == q.templates[0] && p == t.slotPatterns[0];
      }
    }
    assert PositiveTable(inst.table) by {
      forall g | g in inst.table ensures PositiveEntries(g.entries) {
        assert g == inst.table[0] || g == inst.table[1];
      }
    }
    Catalog(Some([]), Some(inst.table), Some([q]))
  }

  /** The request for the overlap example's skill, with no socket and no
      rarity bound. */
  function OverlapCriteria(): Criteria
  {
    Criteria(OverlapExample().targets, [], "", "")
  }

  /** The result for the one pattern of the overlap catalog's template. */
  function OverlapResult(reading: Reading): MatchResult
  {
    var c := OverlapCatalog();
    var q := c.rarities.value[0];
    var t := q.templates[0];
    assert q in c.rarities.value && t in q.templates;
    MakeResult(ChanceOf(reading), t, c.skillGroups.value, OverlapCriteria().targetSkills, t.slotPatterns[0], q.weight, 1, q.key)
  }

  /** The overlap catalog's result is returned under either reading. */
  lemma OverlapEmitted(reading: Reading)
    ensures OverlapResult(reading) in CharmProbability(reading, OverlapCatalog(), OverlapCriteria())
  {
    var c := OverlapCatalog();
    var criteria := OverlapCriteria();
    var table := c.skillGroups.value;
    var q := c.rarities.value[0];
    var t := q.templates[0];
    var p := t.slotPatterns[0];
    assert q in c.rarities.value && t in q.templates && p in t.slotPatterns;
    var inst := Instance(t.skillGroups, table, criteria.targetSkills);
    assert inst == OverlapExample();
    assert Assignable(table, t, criteria.targetSkills) by {
      SkillProbabilityOverCounts();
      assert SkillChance(AsWritten, inst) > 0.0;
    }
    assert InRange(q.key, criteria);
    var r := OverlapResult(reading);
    assert EmittedAt(ChanceOf(reading), table, c.rarities.value, criteria, r, 0, 0, p);
    CharmProbabilityMember(reading, c, criteria, r);
  }

  /** The calculation as written returns, for the overlap catalog, a result
      whose joint probability 1 exceeds its rarity's weight 0.5, with a skill
      probability of 2; the intended reading returns the same result with
      skill probability 1 and joint probability 0.5. */
  lemma OverlapResultExceeds()
    ensures OverlapCatalog().rarities.value[0].weight == 0.5
    ensures OverlapResult(AsWritten) in CharmProbability(AsWritten, OverlapCatalog(), OverlapCriteria())
    ensures OverlapResult(AsWritten).probability == 2.0 && OverlapResult(AsWritten).totalProbability == 1.0
    ensures OverlapResult(Intended) in CharmProbability(Intended, OverlapCatalog(), OverlapCriteria())
    ensures OverlapResult(Intended).probability == 1.0 && OverlapResult(Intended).totalProbability == 0.5
  {
    OverlapEmitted(AsWritten);
    OverlapEmitted(Intended);
    var c := OverlapCatalog();
    var t := c.rarities.value[0].templates[0];
    assert Instance(t.skillGroups, c.skillGroups.value, OverlapCriteria().targetSkills) == OverlapExample();
    SkillProbabilityOverCounts();
    assert PatternWeight(t.slotPatterns) == 1.0 by {
      assert t.slotPatterns[..0] == [];
    }
  }
}
