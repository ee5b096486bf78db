/** Plan and step records (planning/models.py). */
module Plans {
  import opened Digraph

  // Python's str.strip whitespace.
  predicate IsSpace(c: char) {
    || '\U{0009}' <= c <= '\U{000D}' || '\U{001C}' <= c <= '\U{0020}' || c == '\U{0085}' || c == '\U{00A0}'
    || c == '\U{1680}' || '\U{2000}' <= c <= '\U{200A}' || c == '\U{2028}' || c == '\U{2029}'
    || c == '\U{202F}' || c == '\U{205F}' || c == '\U{3000}'
  }

  /** White space by code point. */
  lemma SpacesAre(c: char)
    ensures IsSpace(c) <==>
      var x := c as int;
      || 9 <= x <= 13 || 28 <= x <= 32 || 8192 <= x <= 8202
      || x in {133, 160, 5760, 8232, 8233, 8239, 8287, 12288}
  {
  }

  // `not text.strip()`
  predicate Blank(text: string) {
    forall i :: 0 <= i < |text| ==> IsSpace(text[i])
  }

  // The lower-cased risk estimate; Other is anything outside the vocabulary.
  datatype Risk = Low | Medium | High | Critical | Other

  datatype Step = Step(
    id: Id,
    sequence: int,
    description: string,
    toolId: string,
    risk: Risk,
    acceptanceCriteria: string,
    dependsOn: seq<Id>)

  datatype Plan = Plan(id: string, goal: string, steps: seq<Step>)

  const MAX_PLAN_STEPS_CEILING := 50

  function Ids(steps: seq<Step>): set<Id> {
    set i | 0 <= i < |steps| :: steps[i].id
  }

  predicate DistinctIds(steps: seq<Step>) {
    forall i, j :: 0 <= i < j < |steps| ==> steps[i].id != steps[j].id
  }

  function DepSet(s: Step): set<Id> {
    set d | d in s.dependsOn
  }

  // The (id, dependency list) pairs that make up the dependency graph.
  function Nodes(steps: seq<Step>): (nodes: seq<(Id, seq<Id>)>)
    ensures |nodes| == |steps|
    ensures forall i :: 0 <= i < |steps| ==> nodes[i] == (steps[i].id, steps[i].dependsOn)
  {
    seq(|steps|, i requires 0 <= i < |steps| => (steps[i].id, steps[i].dependsOn))
  }
}
