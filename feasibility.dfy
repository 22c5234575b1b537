/** The advisor's yes/no version of the assignment search
    (`findSkillAssignment`, `canTemplateAccommodateSkills` in
    `public/js/suggestion.js`): it stops at the first complete assignment
    instead of listing them all. */
module Feasibility {
  import opened Wrappers
  import opened SeqUtil
  import opened CatalogTypes
  import opened Enumeration

  /** The `Set` of used template positions, shared by all recursion levels. */
  class UsedIndices {
    var elems: set<nat>

    constructor ()
      ensures elems == {}
    {
      elems := {};
    }
  }

  lemma {:induction false} IndicesPrepend(a: Assignment, y: Combination)
    ensures Indices([a] + y) == {a.groupIndex} + Indices(y)
  {
    if |y| > 0 {
      var init := y[..|y| - 1];
      IndicesPrepend(a, init);
      assert ([a] + y)[..|[a] + y| - 1] == [a] + init;
    }
  }

  /** `findSkillAssignment(templateGroups, targetSkills, skillIndex, used)`:
      whether the skills from `skillIndex` on can be completed avoiding the
      used positions. On failure the set is restored; on success it is left
      holding, in addition, the positions of the first completion in search
      order (the source returns without undoing them). With the group table
      absent the answer is false. */
  method FindSkillAssignment(c: Catalog, templateGroups: seq<string>, targetSkills: seq<SkillLevel>,
                             skillIndex: nat, used: UsedIndices)
    returns (found: bool)
    modifies used
    decreases |targetSkills| - skillIndex
    ensures c.skillGroups.None? ==> !found
    ensures c.skillGroups.Some? ==>
              found == (skillIndex >= |targetSkills|
                        || Extensions(Instance(templateGroups, c.skillGroups.value, targetSkills), skillIndex, old(used.elems)) != [])
    ensures !found ==> used.elems == old(used.elems)
    ensures found && skillIndex < |targetSkills| ==>
              c.skillGroups.Some? &&
              used.elems == old(used.elems)
                + Indices(Extensions(Instance(templateGroups, c.skillGroups.value, targetSkills), skillIndex, old(used.elems))[0])
    ensures found && skillIndex >= |targetSkills| ==> used.elems == old(used.elems)
  {
    if c.skillGroups.None? {
      return false;
    }
    if skillIndex >= |targetSkills| {
      return true;
    }
    var table := c.skillGroups.value;
    ghost var inst := Instance(templateGroups, table, targetSkills);
    ghost var used0 := used.elems;
    var targetSkill := targetSkills[skillIndex];
    var groupIndex := 0;
    while groupIndex < |templateGroups|
      invariant 0 <= groupIndex <= |templateGroups|
      invariant used.elems == used0
      invariant ExtensionsFrom(inst, skillIndex, used0, groupIndex) == ExtensionsFrom(inst, skillIndex, used0, 0)
    {
      if groupIndex !in used.elems {
        var group := FindGroup(table, templateGroups[groupIndex]);
        if group.Some? {
          var hasSkill := HasEntry(group.value.entries, targetSkill);
          if hasSkill {
            used.elems := used.elems + {groupIndex};
            var rest := FindSkillAssignment(c, templateGroups, targetSkills, skillIndex + 1, used);
            if rest {
              ghost var tail := Extensions(inst, skillIndex + 1, used0 + {groupIndex});
              ghost var placed := Place(inst, skillIndex, groupIndex);
              assert PrependAll([placed], tail)[0] == [placed] + tail[0];
              IndicesPrepend(placed, tail[0]);
              assert skillIndex + 1 >= |targetSkills| ==> tail[0] == [];
              assert Block(inst, skillIndex, used0, groupIndex) == PrependAll([placed], tail);
              assert ExtensionsFrom(inst, skillIndex, used0, groupIndex)
                     == PrependAll([placed], tail) + ExtensionsFrom(inst, skillIndex, used0, groupIndex + 1);
              return true;
            }
            used.elems := used.elems - {groupIndex};
          }
        }
      }
      assert Block(inst, skillIndex, used0, groupIndex) == [];
      groupIndex := groupIndex + 1;
    }
    return false;
  }

  /** What `canTemplateAccommodateSkills` answers: the group table is loaded,
      the template has enough positions, and the search finds an assignment. */
  predicate Accommodates(c: Catalog, template: Template, targetSkills: seq<SkillLevel>)
  {
    && c.skillGroups.Some?
    && |targetSkills| <= |template.skillGroups|
    && Enumerate(Instance(template.skillGroups, c.skillGroups.value, targetSkills)) != []
  }

  /** `canTemplateAccommodateSkills` as the source runs it: the length test,
      then the search from the first skill with a fresh `Set`. */
  method CanTemplateAccommodateSkills(c: Catalog, template: Template, targetSkills: seq<SkillLevel>)
    returns (ok: bool)
    ensures ok == Accommodates(c, template, targetSkills)
  {
    if c.skillGroups.None? {
      return false;
    }
    if |targetSkills| > |template.skillGroups| {
      return false;
    }
    var used := new UsedIndices();
    ok := FindSkillAssignment(c, template.skillGroups, targetSkills, 0, used);
  }

  /** A template accommodates the skills exactly when the group table is
      loaded and some valid assignment of them to its positions exists; the
      length test only short-cuts that. */
  lemma AccommodatesIff(c: Catalog, template: Template, targetSkills: seq<SkillLevel>)
    ensures Accommodates(c, template, targetSkills) <==>
              c.skillGroups.Some? &&
              exists x :: ValidCombination(Instance(template.skillGroups, c.skillGroups.value, targetSkills), x)
  {
    if c.skillGroups.Some? {
      var inst := Instance(template.skillGroups, c.skillGroups.value, targetSkills);
      EnumerateExact(inst);
      if exists x :: ValidCombination(inst, x) {
        var x :| ValidCombination(inst, x);
        ValidNeedsPositions(inst, x);
        assert x in Enumerate(inst);
      }
      if Enumerate(inst) != [] {
        assert ValidCombination(inst, Enumerate(inst)[0]);
      }
    }
  }
}
