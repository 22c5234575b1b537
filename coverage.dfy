/** When the corrected skill probability is positive. A template's draws can
    grant the requested skills exactly when the skills can be spread over
    distinct positions whose groups offer them, which is exactly when the
    calculator's enumeration finds an assignment. The corrected probability
    therefore keeps and drops the same results as the summed one. */
module Coverage {
  import opened Wrappers
  import opened SeqUtil
  import opened CatalogTypes
  import opened Enumeration
  import opened Probability

  /** The positions `i..` can grant every skill in `need`: each position in
      turn either grants nothing requested, or grants one still-missing skill
      its group offers. */
  predicate Cover(inst: Instance, i: nat, need: seq<SkillLevel>)
    requires i <= |inst.templateGroups|
    decreases |inst.templateGroups| - i
  {
    if |need| == 0 then true
    else if i == |inst.templateGroups| then false
    else
      || Cover(inst, i + 1, need)
      || exists t | t in need :: Offers(inst.table, inst.templateGroups[i], t) && Cover(inst, i + 1, RemoveFirst(need, t))
  }

  /** Only the multiset of the requested skills matters. */
  lemma {:induction false} CoverPermutation(inst: Instance, i: nat, a: seq<SkillLevel>, b: seq<SkillLevel>)
    requires i <= |inst.templateGroups| && multiset(a) == multiset(b)
    ensures Cover(inst, i, a) ==> Cover(inst, i, b)
    decreases |inst.templateGroups| - i
  {
    if |a| > 0 && i < |inst.templateGroups| && Cover(inst, i, a) {
      assert |b| == |multiset(b)| == |a|;
      if Cover(inst, i + 1, a) {
        CoverPermutation(inst, i + 1, a, b);
      } else {
        var t :| t in a && Offers(inst.table, inst.templateGroups[i], t) && Cover(inst, i + 1, RemoveFirst(a, t));
        assert t in multiset(b);
        CoverPermutation(inst, i + 1, RemoveFirst(a, t), RemoveFirst(b, t));
      }
    }
  }

  lemma RemoveTwice(m: multiset<SkillLevel>, a: SkillLevel, b: SkillLevel)
    ensures m - multiset{a} - multiset{b} == m - multiset{b} - multiset{a}
  {
    assert forall z :: (m - multiset{a} - multiset{b})[z] == (m - multiset{b} - multiset{a})[z];
  }

  /** Requesting one skill fewer never hurts. */
  lemma {:induction false} CoverRemove(inst: Instance, i: nat, need: seq<SkillLevel>, x: SkillLevel)
    requires i <= |inst.templateGroups|
    ensures Cover(inst, i, need) ==> Cover(inst, i, RemoveFirst(need, x))
    decreases |inst.templateGroups| - i
  {
    var need' := RemoveFirst(need, x);
    if |need| > 0 && i < |inst.templateGroups| && Cover(inst, i, need) && x in need {
      if Cover(inst, i + 1, need) {
        CoverRemove(inst, i + 1, need, x);
      } else {
        var t :| t in need && Offers(inst.table, inst.templateGroups[i], t) && Cover(inst, i + 1, RemoveFirst(need, t));
        if t != x {
          assert t in multiset(need');
          assert t in need';
          CoverRemove(inst, i + 1, RemoveFirst(need, t), x);
          RemoveTwice(multiset(need), t, x);
          CoverPermutation(inst, i + 1, RemoveFirst(RemoveFirst(need, t), x), RemoveFirst(need', t));
        }
      }
    }
  }

  /** Drawing `e` at position `i` leaves a positive chance for the rest. */
  predicate Helps(inst: Instance, i: nat, need: seq<SkillLevel>, e: Entry)
    requires i < |inst.templateGroups| && PositiveTable(inst.table)
  {
    Chance(inst, i + 1, RemoveFirst(need, Drawn(e))) > 0.0
  }

  lemma HelpsSplit(inst: Instance, i: nat, need: seq<SkillLevel>, entries: seq<Entry>)
    requires i < |inst.templateGroups| && PositiveTable(inst.table) && |entries| > 0
    ensures (exists e | e in entries :: Helps(inst, i, need, e))
        <==> (exists e | e in entries[..|entries| - 1] :: Helps(inst, i, need, e))
             || Helps(inst, i, need, entries[|entries| - 1])
  {
    var init := entries[..|entries| - 1];
    assert entries == init + [entries[|entries| - 1]];
    assert forall e :: e in entries <==> e in init || e == entries[|entries| - 1];
  }

  /** The weighted sum over a group's entries is positive exactly when some
      entry leaves a positive chance for the rest. */
  lemma {:induction false} DrawSumPositive(inst: Instance, i: nat, need: seq<SkillLevel>, entries: seq<Entry>)
    requires i < |inst.templateGroups| && PositiveTable(inst.table) && PositiveEntries(entries)
    ensures DrawSum(inst, i, need, entries) > 0.0 <==> exists e | e in entries :: Helps(inst, i, need, e)
  {
    if |entries| > 0 {
      var init := entries[..|entries| - 1];
      var e := entries[|entries| - 1];
      assert e in entries;
      assert PositiveEntries(init) by {
        forall y | y in init ensures y.weight > 0.0 {
          assert y in entries;
        }
      }
      DrawSumPositive(inst, i, need, init);
      HelpsSplit(inst, i, need, entries);
      var c := Chance(inst, i + 1, RemoveFirst(need, Drawn(e)));
      assert DrawSum(inst, i, need, entries) == DrawSum(inst, i, need, init) + Scaled(e.weight, c);
    }
  }

  /** The exact chance is positive exactly when the positions can cover the
      request. */
  lemma {:induction false} ChancePositiveIff(inst: Instance, i: nat, need: seq<SkillLevel>)
    requires i <= |inst.templateGroups| && PositiveTable(inst.table)
    ensures Chance(inst, i, need) > 0.0 <==> Cover(inst, i, need)
    decreases |inst.templateGroups| - i
  {
    if |need| > 0 && i < |inst.templateGroups| {
      var id := inst.templateGroups[i];
      ChancePositiveIff(inst, i + 1, need);
      match FindGroup(inst.table, id)
      case None =>
      case Some(g) =>
        if |g.entries| > 0 {
          assert g in inst.table;
          assert g.entries[0] in g.entries;
          RatioBounds(DrawSum(inst, i, need, g.entries), TotalWeight(g.entries));
          DrawSumPositive(inst, i, need, g.entries);
          if Chance(inst, i, need) > 0.0 {
            var e :| e in g.entries && Helps(inst, i, need, e);
            ChancePositiveIff(inst, i + 1, RemoveFirst(need, Drawn(e)));
            if Drawn(e) in need {
              assert Grants(e, Drawn(e));
              assert Offers(inst.table, id, Drawn(e));
            }
          }
          if Cover(inst, i, need) {
            if Cover(inst, i + 1, need) {
              var e := g.entries[0];
              CoverRemove(inst, i + 1, need, Drawn(e));
              ChancePositiveIff(inst, i + 1, RemoveFirst(need, Drawn(e)));
              assert Helps(inst, i, need, e);
            } else {
              var t :| t in need && Offers(inst.table, id, t) && Cover(inst, i + 1, RemoveFirst(need, t));
              var e :| e in g.entries && Grants(e, t);
              assert Drawn(e) == t;
              ChancePositiveIff(inst, i + 1, RemoveFirst(need, t));
              assert Helps(inst, i, need, e);
            }
          }
        }
    }
  }

  // ---------------------------------------------------------------------------
  // Covering the request as spreading it over distinct positions

  /** Distinct positions from `i` on, one per requested skill, each offering
      its skill. */
  predicate Placement(inst: Instance, i: nat, need: seq<SkillLevel>, ps: seq<nat>)
  {
    && |ps| == |need|
    && (forall k | 0 <= k < |ps| ::
          i <= ps[k] < |inst.templateGroups| && Offers(inst.table, inst.templateGroups[ps[k]], need[k]))
    && Distinct(ps)
  }

  lemma DistinctSwap(ps: seq<nat>, j: nat, k: nat)
    requires Distinct(ps) && j < |ps| && k < |ps|
    ensures Distinct(ps[j := ps[k]][k := ps[j]])
  {
    var ps2 := ps[j := ps[k]][k := ps[j]];
    forall a, b | 0 <= a < b < |ps2| ensures ps2[a] != ps2[b] {
      var a' := if a == j then k else if a == k then j else a;
      var b' := if b == j then k else if b == k then j else b;
      assert ps2[a] == ps[a'] && ps2[b] == ps[b'];
      assert a' != b';
    }
  }

  lemma DistinctDrop(ps: seq<nat>, j: nat)
    requires Distinct(ps) && j < |ps|
    ensures Distinct(ps[..j] + ps[j + 1..])
    ensures forall m | 0 <= m < |ps| - 1 :: (ps[..j] + ps[j + 1..])[m] == (if m < j then ps[m] else ps[m + 1])
    ensures ps[j] !in ps[..j] + ps[j + 1..]
  {
    var ps' := ps[..j] + ps[j + 1..];
    forall m | 0 <= m < |ps'| ensures ps'[m] == (if m < j then ps[m] else ps[m + 1]) {
    }
    forall a, b | 0 <= a < b < |ps'| ensures ps'[a] != ps'[b] {
      var a' := if a < j then a else a + 1;
      var b' := if b < j then b else b + 1;
      assert ps'[a] == ps[a'] && ps'[b] == ps[b'];
    }
    forall m | 0 <= m < |ps'| ensures ps'[m] != ps[j] {
      if m < j {
        assert ps'[m] == ps[m];
      } else {
        assert ps'[m] == ps[m + 1];
      }
    }
  }

  lemma DistinctInsert(rest: seq<nat>, j: nat, v: nat)
    requires Distinct(rest) && j <= |rest| && v !in rest
    ensures Distinct(rest[..j] + [v] + rest[j..])
    ensures forall m | 0 <= m <= |rest| :: (rest[..j] + [v] + rest[j..])[m] == (if m < j then rest[m] else if m == j then v else rest[m - 1])
  {
    var ps := rest[..j] + [v] + rest[j..];
    forall m | 0 <= m < |ps| ensures ps[m] == (if m < j then rest[m] else if m == j then v else rest[m - 1]) {
    }
    forall a, b | 0 <= a < b < |ps| ensures ps[a] != ps[b] {
      if a != j && b != j {
        var a' := if a < j then a else a - 1;
        var b' := if b < j then b else b - 1;
        assert ps[a] == rest[a'] && ps[b] == rest[b'];
      } else if a == j {
        assert ps[b] == rest[b - 1];
      } else {
        assert ps[a] == rest[a];
      }
    }
  }

  /** Where `RemoveFirst` cuts. */
  lemma {:induction false} RemoveFirstAt(need: seq<SkillLevel>, t: SkillLevel) returns (j: nat)
    requires t in need
    ensures j < |need| && need[j] == t && RemoveFirst(need, t) == need[..j] + need[j + 1..]
  {
    if need[0] == t {
      j := 0;
    } else {
      var j' := RemoveFirstAt(need[1..], t);
      j := j' + 1;
      assert need[1..][..j'] == need[1..j];
      assert need[1..][j' + 1..] == need[j + 1..];
      assert [need[0]] + need[1..j] == need[..j];
    }
  }

  /** Two positions holding the same skill may trade places. */
  lemma SwapPlacement(inst: Instance, i: nat, need: seq<SkillLevel>, ps: seq<nat>, j: nat, k: nat)
    requires Placement(inst, i, need, ps) && j < |ps| && k < |ps| && need[j] == need[k]
    ensures Placement(inst, i, need, ps[j := ps[k]][k := ps[j]])
  {
    DistinctSwap(ps, j, k);
  }

  /** Dropping the skill placed on position `i` leaves a placement from `i + 1`. */
  lemma DropPlacement(inst: Instance, i: nat, need: seq<SkillLevel>, ps: seq<nat>, j: nat)
    requires Placement(inst, i, need, ps) && j < |ps| && ps[j] == i
    ensures Placement(inst, i + 1, need[..j] + need[j + 1..], ps[..j] + ps[j + 1..])
  {
    var need' := need[..j] + need[j + 1..];
    var ps' := ps[..j] + ps[j + 1..];
    DistinctDrop(ps, j);
    forall m | 0 <= m < |need'| ensures need'[m] == (if m < j then need[m] else need[m + 1]) {
    }
    forall m | 0 <= m < |ps'|
      ensures i + 1 <= ps'[m] < |inst.templateGroups|
      ensures Offers(inst.table, inst.templateGroups[ps'[m]], need'[m])
    {
      assert ps'[m] in ps';
    }
  }

  /** Putting skill `j` on position `i` extends a placement of the others
      from `i + 1`. */
  lemma InsertPlacement(inst: Instance, i: nat, need: seq<SkillLevel>, rest: seq<nat>, j: nat)
    requires i < |inst.templateGroups| && j < |need|
    requires Offers(inst.table, inst.templateGroups[i], need[j])
    requires Placement(inst, i + 1, need[..j] + need[j + 1..], rest)
    ensures Placement(inst, i, need, rest[..j] + [i] + rest[j..])
  {
    var need' := need[..j] + need[j + 1..];
    var ps := rest[..j] + [i] + rest[j..];
    assert i !in rest;
    DistinctInsert(rest, j, i);
    forall m | 0 <= m < |need| ensures need[m] == (if m < j then need'[m] else if m == j then need[j] else need'[m - 1]) {
    }
  }

  /** The skill placed on position `i` is offered there, and the others
      have a placement from `i + 1`. */
  lemma PlacementAtHead(inst: Instance, i: nat, need: seq<SkillLevel>, ps: seq<nat>, k: nat) returns (rest: seq<nat>)
    requires Placement(inst, i, need, ps) && k < |ps| && ps[k] == i
    ensures i < |inst.templateGroups| && need[k] in need
    ensures Offers(inst.table, inst.templateGroups[i], need[k])
    ensures Placement(inst, i + 1, RemoveFirst(need, need[k]), rest)
  {
    var t := need[k];
    var j := RemoveFirstAt(need, t);
    SwapPlacement(inst, i, need, ps, j, k);
    var ps2 := ps[j := ps[k]][k := ps[j]];
    assert ps2[j] == i;
    DropPlacement(inst, i, need, ps2, j);
    rest := ps2[..j] + ps2[j + 1..];
  }

  /** A placement that leaves position `i` unused is a placement from `i + 1`. */
  lemma PlacementSkipsHead(inst: Instance, i: nat, need: seq<SkillLevel>, ps: seq<nat>)
    requires Placement(inst, i, need, ps) && forall k | 0 <= k < |ps| :: ps[k] != i
    ensures Placement(inst, i + 1, need, ps)
  {
  }

  /** A placement covers the request. */
  lemma {:induction false} PlacementCovers(inst: Instance, i: nat, need: seq<SkillLevel>, ps: seq<nat>)
    requires i <= |inst.templateGroups| && Placement(inst, i, need, ps)
    ensures Cover(inst, i, need)
    decreases |inst.templateGroups| - i
  {
    if |need| > 0 {
      assert i <= ps[0] < |inst.templateGroups|;
      if k :| 0 <= k < |ps| && ps[k] == i {
        var rest := PlacementAtHead(inst, i, need, ps, k);
        PlacementCovers(inst, i + 1, RemoveFirst(need, need[k]), rest);
      } else {
        PlacementSkipsHead(inst, i, need, ps);
        PlacementCovers(inst, i + 1, need, ps);
      }
    }
  }

  /** A covered request has a placement. */
  lemma {:induction false} CoverPlacement(inst: Instance, i: nat, need: seq<SkillLevel>) returns (ps: seq<nat>)
    requires i <= |inst.templateGroups| && Cover(inst, i, need)
    ensures Placement(inst, i, need, ps)
    decreases |inst.templateGroups| - i
  {
    if |need| == 0 {
      ps := [];
    } else {
      assert i < |inst.templateGroups|;
      if Cover(inst, i + 1, need) {
        ps := CoverPlacement(inst, i + 1, need);
      } else {
        var t :| t in need && Offers(inst.table, inst.templateGroups[i], t) && Cover(inst, i + 1, RemoveFirst(need, t));
        var rest := CoverPlacement(inst, i + 1, RemoveFirst(need, t));
        var j := RemoveFirstAt(need, t);
        InsertPlacement(inst, i, need, rest, j);
        ps := rest[..j] + [i] + rest[j..];
      }
    }
  }

  /** The positions a combination uses, in order. */
  function Positions(x: Combination): (ps: seq<nat>)
    ensures |ps| == |x| && forall k | 0 <= k < |x| :: ps[k] == x[k].groupIndex
  {
    seq(|x|, k requires 0 <= k < |x| => x[k].groupIndex)
  }

  /** The combination that places skill `k` on position `ps[k]`. */
  function Assign(inst: Instance, ps: seq<nat>): (x: Combination)
    requires |ps| == |inst.targets| && forall k | 0 <= k < |ps| :: ps[k] < |inst.templateGroups|
    ensures |x| == |ps| && forall k | 0 <= k < |ps| :: x[k] == Place(inst, k, ps[k])
  {
    seq(|ps|, k requires 0 <= k < |ps| => Place(inst, k, ps[k]))
  }

  /** A valid combination of the calculator and a placement of the requested
      skills are the same thing. */
  lemma CoverIffValid(inst: Instance)
    ensures Cover(inst, 0, inst.targets) <==> exists x :: ValidCombination(inst, x)
  {
    if Cover(inst, 0, inst.targets) {
      var ps := CoverPlacement(inst, 0, inst.targets);
      var x := Assign(inst, ps);
      assert ValidCombination(inst, x);
    }
    if exists x :: ValidCombination(inst, x) {
      var x :| ValidCombination(inst, x);
      PlacementCovers(inst, 0, inst.targets, Positions(x));
    }
  }

  /** The corrected skill probability is positive exactly when the summed one
      of the source is, so the pipeline emits results for the same template
      and pattern pairs either way. */
  lemma CorrectedAgreesOnEmission(inst: Instance)
    requires PositiveTable(inst.table)
    ensures CorrectedSkillProbability(inst) > 0.0 <==> SkillProbability(inst) > 0.0
    ensures CorrectedSkillProbability(inst) > 0.0 <==> exists x :: ValidCombination(inst, x)
  {
    ChancePositiveIff(inst, 0, inst.targets);
    CoverIffValid(inst);
    SkillProbabilityPositiveIff(inst);
  }
}
