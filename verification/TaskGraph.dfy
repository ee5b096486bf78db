/** Dependency ordering of plan steps (planning/graph.py). */
module TaskGraph {
  import opened Digraph
  import opened CycleSearch
  import opened Plans
  import opened ExecutionOrders

  datatype GraphError =
    | TooManySteps
    | UnknownDependency(step: Id, unknown: Id)
    | SelfDependency(step: Id)
    | DependencyCycle(cycle: seq<Id>)
    | NotFullyOrdered
    | MissingDepth(dep: Id)

  function GraphOf(steps: seq<Step>): Graph {
    DependencyGraph(Nodes(steps))
  }

  predicate NoSelfDeps(steps: seq<Step>) {
    forall s :: s in steps ==> s.id !in s.dependsOn
  }

  ghost predicate ValidGraph(steps: seq<Step>) {
    |steps| <= 50 && KnownDeps(steps) && NoSelfDeps(steps) && Acyclic(GraphOf(steps))
  }

  // --- missing and self dependencies

  /** The (step, dependency) pairs whose dependency is no step, in plan order. */
  method FindMissingDeps(steps: seq<Step>) returns (missing: seq<(Id, Id)>)
    ensures missing == [] <==> KnownDeps(steps)
    ensures forall p :: p in missing ==>
      exists s :: s in steps && s.id == p.0 && p.1 in s.dependsOn && p.1 !in Ids(steps)
    ensures forall s, d :: s in steps && d in s.dependsOn && d !in Ids(steps) ==> (s.id, d) in missing
  {
    var known := Ids(steps);
    missing := [];
    for i := 0 to |steps|
      invariant forall p :: p in missing ==>
        exists s :: s in steps && s.id == p.0 && p.1 in s.dependsOn && p.1 !in known
      invariant forall j, d :: 0 <= j < i && d in steps[j].dependsOn && d !in known ==> (steps[j].id, d) in missing
    {
      var s := steps[i];
      for k := 0 to |s.dependsOn|
        invariant forall p :: p in missing ==>
          exists s :: s in steps && s.id == p.0 && p.1 in s.dependsOn && p.1 !in known
        invariant forall j, d :: 0 <= j < i && d in steps[j].dependsOn && d !in known ==> (steps[j].id, d) in missing
        invariant forall d :: d in s.dependsOn[..k] && d !in known ==> (s.id, d) in missing
      {
        if s.dependsOn[k] !in known {
          missing := missing + [(s.id, s.dependsOn[k])];
        }
      }
      assert s.dependsOn[..|s.dependsOn|] == s.dependsOn;
    }
    assert missing != [] ==> missing[0] in missing;
    forall s | s in steps && missing == [] ensures DepSet(s) <= known {
      assert forall d :: d in s.dependsOn && d !in known ==> (s.id, d) in missing;
    }
  }

  method FindSelfDeps(steps: seq<Step>) returns (bad: seq<Id>)
    ensures bad == [] <==> NoSelfDeps(steps)
    ensures forall x :: x in bad <==> exists s :: s in steps && s.id == x && x in s.dependsOn
  {
    bad := [];
    for i := 0 to |steps|
      invariant forall x :: x in bad <==> exists s :: s in steps[..i] && s.id == x && x in s.dependsOn
    {
      assert steps[..i + 1] == steps[..i] + [steps[i]];
      if steps[i].id in steps[i].dependsOn {
        bad := bad + [steps[i].id];
      }
    }
    assert steps[..|steps|] == steps;
    assert bad != [] ==> bad[0] in bad;
    if s :| s in steps && s.id in s.dependsOn {
      assert s.id in bad;
    }
  }

  // --- sorting by sequence (stable)

  predicate Sorted(s: seq<Step>) {
    forall i, j :: 0 <= i < j < |s| ==> s[i].sequence <= s[j].sequence
  }

  // After every step with the same or a smaller sequence.
  function InsertionPoint(sorted: seq<Step>, x: Step): (k: nat)
    ensures k <= |sorted|
    ensures k > 0 ==> sorted[k - 1].sequence <= x.sequence
    ensures forall i :: k <= i < |sorted| ==> x.sequence < sorted[i].sequence
  {
    if sorted == [] || sorted[|sorted| - 1].sequence <= x.sequence then |sorted|
    else InsertionPoint(sorted[..|sorted| - 1], x)
  }

  function InsertBySequence(sorted: seq<Step>, x: Step): (r: seq<Step>)
    ensures |r| == |sorted| + 1
    ensures Sorted(sorted) ==> Sorted(r)
  {
    var k := InsertionPoint(sorted, x);
    sorted[..k] + [x] + sorted[k..]
  }

  lemma InsertKeepsSteps(sorted: seq<Step>, x: Step)
    ensures forall s :: s in InsertBySequence(sorted, x) <==> s in sorted || s == x
  {
  }

  lemma InsertKeepsDistinct(sorted: seq<Step>, x: Step)
    requires DistinctIds(sorted) && forall s :: s in sorted ==> s.id != x.id
    ensures DistinctIds(InsertBySequence(sorted, x))
  {
  }

  // Python's stable sort on the sequence key, as insertion from the left.
  function SortBySequence(s: seq<Step>): (r: seq<Step>)
    ensures |r| == |s| && Sorted(r)
  {
    if s == [] then [] else InsertBySequence(SortBySequence(s[..|s| - 1]), s[|s| - 1])
  }

  lemma {:induction false} SortKeepsSteps(s: seq<Step>)
    ensures forall x :: x in SortBySequence(s) <==> x in s
    ensures DistinctIds(s) ==> DistinctIds(SortBySequence(s))
  {
    if s != [] {
      var front, last := s[..|s| - 1], s[|s| - 1];
      assert s == front + [last];
      SortKeepsSteps(front);
      InsertKeepsSteps(SortBySequence(front), last);
      if DistinctIds(s) {
        InsertKeepsDistinct(SortBySequence(front), last);
      }
    }
  }
}
