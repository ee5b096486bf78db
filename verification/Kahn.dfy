/** Kahn's algorithm with a sequence-ordered ready list, and dependency depth (planning/graph.py). */
module Kahn {
  import opened Wrappers
  import opened Digraph
  import opened CycleSearch
  import opened Plans
  import opened ExecutionOrders
  import opened TaskGraph

  // {str(s.id): s for s in items}
  function StepById(items: seq<Step>): (m: map<Id, Step>)
    ensures m.Keys == Ids(items)
    ensures forall x :: x in m ==> m[x] in items && m[x].id == x
  {
    if items == [] then map[] else
      var front, last := items[..|items| - 1], items[|items| - 1];
      assert items == front + [last];
      assert Ids(items) == Ids(front) + {last.id} by {
        assert forall i :: 0 <= i < |front| ==> items[i] == front[i];
      }
      StepById(front)[last.id := last]
  }

  // --- indegrees and children

  method LinkStep(step: Step, indegree0: map<Id, int>, children0: map<Id, seq<Id>>)
    returns (indegree: map<Id, int>, children: map<Id, seq<Id>>)
    requires step.id in indegree0 && DepSet(step) <= children0.Keys
    ensures indegree.Keys == indegree0.Keys && children.Keys == children0.Keys
    ensures forall x :: x in indegree ==>
      indegree[x] == indegree0[x] + if x == step.id then |DepSet(step)| else 0
    ensures forall x :: x in children ==>
      children[x] == if x in DepSet(step) then children0[x] + [step.id] else children0[x]
  {
    hide DepSet;
    indegree, children := indegree0, children0;
    var rest := DepSet(step);
    while rest != {}
      invariant rest <= DepSet(step) && children.Keys == children0.Keys
      invariant indegree.Keys == indegree0.Keys
      invariant forall x :: x in indegree ==>
        indegree[x] == indegree0[x] + if x == step.id then |DepSet(step)| - |rest| else 0
      invariant forall x :: x in children ==>
        children[x] == if x in DepSet(step) - rest then children0[x] + [step.id] else children0[x]
      decreases rest
    {
      var dep :| dep in rest;
      children := children[dep := children[dep] + [step.id]];
      indegree := indegree[step.id := indegree[step.id] + 1];
      rest := rest - {dep};
    }
  }

  // The first n steps have been counted and listed under their dependencies.
  ghost predicate Linked(items: seq<Step>, n: nat, indegree: map<Id, int>, children: map<Id, seq<Id>>) {
    && (forall j :: 0 <= j < |items| ==> items[j].id in indegree)
    && (forall j :: 0 <= j < |items| ==> indegree[items[j].id] == if j < n then |DepSet(items[j])| else 0)
    && (forall x :: x in children ==> Distinct(children[x]))
    && (forall x, j :: x in children && 0 <= j < |items| ==>
         (items[j].id in children[x] <==> j < n && x in DepSet(items[j])))
  }

  lemma LinkedNext(items: seq<Step>, n: nat, indegree0: map<Id, int>, children0: map<Id, seq<Id>>,
                   indegree: map<Id, int>, children: map<Id, seq<Id>>)
    requires DistinctIds(items) && n < |items| && Linked(items, n, indegree0, children0)
    requires indegree.Keys == indegree0.Keys && children.Keys == children0.Keys
    requires forall x :: x in indegree ==>
      indegree[x] == indegree0[x] + if x == items[n].id then |DepSet(items[n])| else 0
    requires forall x :: x in children ==>
      children[x] == if x in DepSet(items[n]) then children0[x] + [items[n].id] else children0[x]
    ensures Linked(items, n + 1, indegree, children)
  {
    forall x, j | x in children && 0 <= j < |items|
      ensures items[j].id in children[x] <==> j < n + 1 && x in DepSet(items[j])
    {
      assert items[j].id in children0[x] <==> j < n && x in DepSet(items[j]);
    }
    forall x | x in children ensures Distinct(children[x]) {
      assert items[n].id !in children0[x];
    }
  }

  method NoLinks(items: seq<Step>) returns (indegree: map<Id, int>, children: map<Id, seq<Id>>)
    ensures indegree.Keys == Ids(items) && children.Keys == Ids(items)
    ensures forall x :: x in children ==> children[x] == []
    ensures Linked(items, 0, indegree, children)
  {
    indegree := map x | x in Ids(items) :: 0;
    children := map x | x in Ids(items) :: [];
    assert forall j :: 0 <= j < |items| ==> items[j].id in Ids(items);
  }

  method LinkNext(items: seq<Step>, n: nat, indegree0: map<Id, int>, children0: map<Id, seq<Id>>)
    returns (indegree: map<Id, int>, children: map<Id, seq<Id>>)
    requires n < |items| && items[n].id in Ids(items) && DepSet(items[n]) <= Ids(items)
    requires indegree0.Keys == Ids(items) && children0.Keys == Ids(items)
    requires forall x, c :: x in children0 && c in children0[x] ==> c in Ids(items)
    ensures indegree.Keys == Ids(items) && children.Keys == Ids(items)
    ensures forall x, c :: x in children && c in children[x] ==> c in Ids(items)
    ensures DistinctIds(items) && Linked(items, n, indegree0, children0) ==> Linked(items, n + 1, indegree, children)
  {
    hide Linked, Ids, DepSet, DistinctIds;
    indegree, children := LinkStep(items[n], indegree0, children0);
    if DistinctIds(items) && Linked(items, n, indegree0, children0) {
      LinkedNext(items, n, indegree0, children0, indegree, children);
    }
  }

  lemma KnownStep(items: seq<Step>, n: nat)
    requires KnownDeps(items) && n < |items|
    ensures items[n].id in Ids(items) && DepSet(items[n]) <= Ids(items)
  {
    assert items[n] in items;
  }

  method LinkSteps(items: seq<Step>) returns (indegree: map<Id, int>, children: map<Id, seq<Id>>)
    requires KnownDeps(items)
    ensures indegree.Keys == Ids(items) && children.Keys == Ids(items)
    ensures forall x, c :: x in children && c in children[x] ==> c in Ids(items)
    ensures DistinctIds(items) ==> Linked(items, |items|, indegree, children)
  {
    hide Linked, Ids, DistinctIds, DepSet, KnownDeps;
    indegree, children := NoLinks(items);
    for n := 0 to |items|
      invariant indegree.Keys == Ids(items) && children.Keys == Ids(items)
      invariant forall x, c :: x in children && c in children[x] ==> c in Ids(items)
      invariant DistinctIds(items) ==> Linked(items, n, indegree, children)
    {
      KnownStep(items, n);
      indegree, children := LinkNext(items, n, indegree, children);
    }
  }

  // --- releasing the children of a finished step

  function Positive(indegree: map<Id, int>): set<Id> {
    set x | x in indegree && indegree[x] > 0
  }

  method Release(kids: seq<Id>, byId: map<Id, Step>, indegree0: map<Id, int>)
    returns (indegree: map<Id, int>, nxt: seq<Step>)
    requires forall c :: c in kids ==> c in indegree0 && c in byId && byId[c].id == c
    ensures indegree.Keys == indegree0.Keys
    ensures |Positive(indegree)| + |nxt| <= |Positive(indegree0)|
    ensures forall s :: s in nxt ==> s.id in kids && byId[s.id] == s
    ensures Distinct(kids) ==> forall x :: x in indegree ==> indegree[x] == indegree0[x] - if x in kids then 1 else 0
    ensures Distinct(kids) ==> DistinctIds(nxt)
    ensures Distinct(kids) ==> forall c :: c in kids ==> (byId[c] in nxt <==> indegree0[c] == 1)
  {
    indegree, nxt := indegree0, [];
    for i := 0 to |kids|
      invariant indegree.Keys == indegree0.Keys
      invariant |Positive(indegree)| + |nxt| <= |Positive(indegree0)|
      invariant forall s :: s in nxt ==> s.id in kids[..i] && byId[s.id] == s
      invariant Distinct(kids) ==> forall x :: x in indegree ==>
        indegree[x] == indegree0[x] - if x in kids[..i] then 1 else 0
      invariant Distinct(kids) ==> DistinctIds(nxt)
      invariant Distinct(kids) ==> forall c :: c in kids[..i] ==> (byId[c] in nxt <==> indegree0[c] == 1)
    {
      var c := kids[i];
      ghost var before := indegree;
      indegree := indegree[c := indegree[c] - 1];
      assert kids[..i + 1] == kids[..i] + [c];
      assert Distinct(kids) ==> c !in kids[..i];
      if indegree[c] == 0 {
        nxt := nxt + [byId[c]];
        assert Positive(indegree) == Positive(before) - {c};
      } else {
        assert Positive(indegree) <= Positive(before);
        SubsetCardinality(Positive(indegree), Positive(before));
      }
    }
    assert kids[..|kids|] == kids;
  }

  // --- what the loop keeps (distinct ids)

  // indegree counts the dependencies of each step that have not run yet.
  ghost predicate Counts(items: seq<Step>, indegree: map<Id, int>, ordered: seq<Step>) {
    forall s :: s in items ==> s.id in indegree && indegree[s.id] == |DepSet(s) - Ids(ordered)|
  }

  // The ready list holds exactly the steps that could run next.
  ghost predicate Frontier(items: seq<Step>, ready: seq<Step>, ordered: seq<Step>) {
    && DistinctIds(ready)
    && (forall s :: s in ready <==> s in items && s !in ordered && Ready(ordered, s))
  }

  ghost predicate OrderSoFar(items: seq<Step>, ordered: seq<Step>) {
    && DistinctIds(ordered) && (forall s :: s in ordered ==> s in items)
    && DepsBefore(ordered) && LowestReadyFirst(items, ordered)
  }

  lemma IdsOfLonger(ordered: seq<Step>, step: Step)
    ensures Ids(ordered + [step]) == Ids(ordered) + {step.id}
  {
    var longer := ordered + [step];
    forall x | x in Ids(longer) ensures x in Ids(ordered) + {step.id} {
      var i :| 0 <= i < |longer| && longer[i].id == x;
      if i < |ordered| {
        assert ordered[i].id == x;
      }
    }
    forall x | x in Ids(ordered) ensures x in Ids(longer) {
      var i :| 0 <= i < |ordered| && ordered[i].id == x;
      assert longer[i].id == x;
    }
    assert longer[|ordered|].id in Ids(longer);
  }

  lemma SameIdSameStep(items: seq<Step>, s: Step, t: Step)
    requires DistinctIds(items) && s in items && t in items && s.id == t.id
    ensures s == t
  {
  }

  lemma IdNotIn(items: seq<Step>, ordered: seq<Step>, s: Step)
    requires DistinctIds(items) && s in items && forall t :: t in ordered ==> t in items
    ensures s.id in Ids(ordered) <==> s in ordered
  {
    if s in ordered {
      var i :| 0 <= i < |ordered| && ordered[i] == s;
      assert ordered[i].id in Ids(ordered);
    }
    if s.id in Ids(ordered) {
      var i :| 0 <= i < |ordered| && ordered[i].id == s.id;
      assert ordered[i] in ordered;
      SameIdSameStep(items, ordered[i], s);
    }
  }

  lemma RunDepsDone(ordered: seq<Step>, s: Step)
    requires DepsBefore(ordered) && s in ordered
    ensures DepSet(s) <= Ids(ordered)
  {
  }

  // The dependencies still open once step has run as well.
  lemma OpenDepsAfter(ordered: seq<Step>, step: Step, s: Step)
    requires step.id !in Ids(ordered)
    ensures DepSet(s) - Ids(ordered + [step]) == (DepSet(s) - Ids(ordered)) - {step.id}
    ensures |DepSet(s) - Ids(ordered + [step])|
         == |DepSet(s) - Ids(ordered)| - if step.id in DepSet(s) then 1 else 0
  {
    IdsOfLonger(ordered, step);
    if step.id in DepSet(s) {
      assert step.id in DepSet(s) - Ids(ordered);
    } else {
      assert DepSet(s) - Ids(ordered + [step]) == DepSet(s) - Ids(ordered);
    }
  }

  lemma CountsNext(items: seq<Step>, kids: seq<Id>, indegree0: map<Id, int>, indegree: map<Id, int>,
                   ordered: seq<Step>, step: Step)
    requires Counts(items, indegree0, ordered) && step.id !in Ids(ordered)
    requires forall s :: s in items ==> (s.id in kids <==> step.id in DepSet(s))
    requires indegree.Keys == indegree0.Keys
    requires forall x :: x in indegree ==> indegree[x] == indegree0[x] - if x in kids then 1 else 0
    ensures Counts(items, indegree, ordered + [step])
  {
    forall s | s in items
      ensures s.id in indegree && indegree[s.id] == |DepSet(s) - Ids(ordered + [step])|
    {
      OpenDepsAfter(ordered, step, s);
    }
  }

  lemma NothingLeft<T>(a: set<T>, b: set<T>)
    ensures a <= b <==> a - b == {}
    ensures a <= b <==> |a - b| == 0
  {
    if a - b == {} {
      forall x | x in a ensures x in b {
        assert x !in a - b;
      }
    }
  }

  // A step becomes ready through `step` exactly when that was its one open dependency.
  lemma NewlyReady(ordered: seq<Step>, step: Step, s: Step)
    requires step.id !in Ids(ordered)
    ensures Ready(ordered + [step], s) && !Ready(ordered, s)
       <==> step.id in DepSet(s) && |DepSet(s) - Ids(ordered)| == 1
    ensures Ready(ordered, s) ==> Ready(ordered + [step], s)
  {
    OpenDepsAfter(ordered, step, s);
    var open := DepSet(s) - Ids(ordered);
    NothingLeft(DepSet(s), Ids(ordered));
    NothingLeft(DepSet(s), Ids(ordered + [step]));
    if step.id in DepSet(s) && |open| == 1 {
      assert step.id in open;
      assert |open - {step.id}| == 0;
    }
  }

  // What Release promises about the steps it hands back, seen from the plan.
  ghost predicate ReleasedBy(items: seq<Step>, indegree0: map<Id, int>, step: Step, nxt: seq<Step>) {
    && DistinctIds(nxt)
    && (forall s :: s in nxt <==>
         s in items && step.id in DepSet(s) && s.id in indegree0 && indegree0[s.id] == 1)
  }

  lemma FrontierNext(items: seq<Step>, indegree0: map<Id, int>, ready0: seq<Step>, nxt: seq<Step>,
                     ordered: seq<Step>)
    requires ready0 != [] && Frontier(items, ready0, ordered) && Counts(items, indegree0, ordered)
    requires ready0[0].id !in Ids(ordered) && DepsBefore(ordered)
    requires ReleasedBy(items, indegree0, ready0[0], nxt)
    ensures forall s :: s in ready0[1..] + nxt <==>
      s in items && s !in ordered + [ready0[0]] && Ready(ordered + [ready0[0]], s)
  {
    hide DepsBefore;
    var step := ready0[0];
    forall s
      ensures s in ready0[1..] + nxt <==> s in items && s !in ordered + [step] && Ready(ordered + [step], s)
    {
      assert ready0 == [step] + ready0[1..];
      assert s in ordered + [step] <==> s in ordered || s == step;
      if s in items {
        NewlyReady(ordered, step, s);
        NothingLeft(DepSet(s), Ids(ordered));
        if s in ordered {
          RunDepsDone(ordered, s);
        }
        assert s in nxt <==> step.id in DepSet(s) && |DepSet(s) - Ids(ordered)| == 1;
        assert step in ready0 && Ready(ordered, step);
        assert s in ready0 <==> s !in ordered && Ready(ordered, s);
        assert s in ready0[1..] <==> s in ready0 && s != step;
      }
    }
  }

  lemma FrontierDistinct(items: seq<Step>, indegree0: map<Id, int>, ready0: seq<Step>, nxt: seq<Step>,
                         ordered: seq<Step>)
    requires DistinctIds(items)
    requires ready0 != [] && Frontier(items, ready0, ordered) && Counts(items, indegree0, ordered)
    requires ReleasedBy(items, indegree0, ready0[0], nxt)
    ensures DistinctIds(ready0[1..] + nxt)
  {
  }

  lemma LowestNext(items: seq<Step>, ordered: seq<Step>, step: Step)
    requires LowestReadyFirst(items, ordered)
    requires forall s :: s in items && s !in ordered && Ready(ordered, s) ==> step.sequence <= s.sequence
    ensures LowestReadyFirst(items, ordered + [step])
  {
    hide Ready;
    var longer := ordered + [step];
    forall i, s | 0 <= i < |longer| && s in items && s !in longer[..i] && Ready(longer[..i], s)
      ensures longer[i].sequence <= s.sequence
    {
      assert longer[..i] == ordered[..i];
      assert ordered[..|ordered|] == ordered;
    }
  }

  lemma DepsBeforeNext(ordered: seq<Step>, step: Step)
    requires DepsBefore(ordered) && Ready(ordered, step)
    ensures DepsBefore(ordered + [step])
  {
    hide Ready;
    var longer := ordered + [step];
    forall i | 0 <= i < |longer| ensures Ready(longer[..i], longer[i]) {
      assert longer[..i] == ordered[..i];
      assert ordered[..|ordered|] == ordered;
    }
  }

  lemma DistinctNext(ordered: seq<Step>, step: Step)
    requires DistinctIds(ordered) && step.id !in Ids(ordered)
    ensures DistinctIds(ordered + [step])
  {
    assert forall i :: 0 <= i < |ordered| ==> ordered[i].id in Ids(ordered);
  }

  lemma OrderNext(items: seq<Step>, ready: seq<Step>, ordered: seq<Step>)
    requires ready != [] && Frontier(items, ready, ordered) && OrderSoFar(items, ordered) && Sorted(ready)
    requires ready[0].id !in Ids(ordered)
    ensures OrderSoFar(items, ordered + [ready[0]])
  {
    hide Ready, DistinctIds, Ids, DepsBefore, LowestReadyFirst;
    var step := ready[0];
    assert step in ready;
    forall s | s in items && s !in ordered && Ready(ordered, s) ensures step.sequence <= s.sequence {
      assert s in ready;
      var k :| 0 <= k < |ready| && ready[k] == s;
    }
    LowestNext(items, ordered, step);
    DepsBeforeNext(ordered, step);
    DistinctNext(ordered, step);
  }

  lemma {:induction false} GraphOfSteps(items: seq<Step>, s: Step)
    requires DistinctIds(items) && s in items
    ensures s.id in GraphOf(items) && GraphOf(items)[s.id] == s.dependsOn
  {
    var front, last := items[..|items| - 1], items[|items| - 1];
    assert Nodes(items)[..|items| - 1] == Nodes(front) && Nodes(items)[|items| - 1] == (last.id, last.dependsOn);
    var i :| 0 <= i < |items| && items[i] == s;
    if i < |items| - 1 {
      assert front[i] == s && last.id != s.id;
      GraphOfSteps(front, s);
    }
  }

  lemma GraphNodes(items: seq<Step>)
    ensures GraphOf(items).Keys == Ids(items)
  {
  }

  lemma OrderedAreItems(items: seq<Step>, ordered: seq<Step>)
    requires OrderSoFar(items, ordered)
    ensures forall t :: t in ordered ==> t in items
  {
  }

  // A step that is left over waits for another one that is.
  lemma LeftOverWaits(items: seq<Step>, ordered: seq<Step>, x: Id)
    requires DistinctIds(items) && KnownDeps(items)
    requires OrderSoFar(items, ordered) && Frontier(items, [], ordered)
    requires x in Ids(items) - Ids(ordered)
    ensures HasNextIn(GraphOf(items), Ids(items) - Ids(ordered), x)
  {
    var i :| 0 <= i < |items| && items[i].id == x;
    var s := items[i];
    IdNotIn(items, ordered, s);
    assert s !in [] && !Ready(ordered, s);
    var d :| d in DepSet(s) && d !in Ids(ordered);
    assert s in items && d in Ids(items);
    GraphOfSteps(items, s);
    GraphNodes(items);
    assert Edge(GraphOf(items), x, d);
  }

  // When the ready list is empty on an acyclic graph, nothing is left over.
  lemma DrainedIsComplete(items: seq<Step>, ordered: seq<Step>)
    requires DistinctIds(items) && KnownDeps(items) && Acyclic(GraphOf(items))
    requires OrderSoFar(items, ordered) && Frontier(items, [], ordered)
    ensures forall s :: s in items ==> s in ordered
  {
    hide OrderSoFar, Frontier, GraphOf;
    if some :| some in items && some !in ordered {
      var left := Ids(items) - Ids(ordered);
      forall x | x in left ensures HasNextIn(GraphOf(items), left, x) {
        LeftOverWaits(items, ordered, x);
      }
      OrderedAreItems(items, ordered);
      IdNotIn(items, ordered, some);
      assert items[..] == items;
      var i :| 0 <= i < |items| && items[i] == some;
      assert some.id in left;
      GraphNodes(items);
      assert Elements([some.id]) <= left;
      var c := StuckSetHasCycle(GraphOf(items), left, [some.id]);
    }
  }

  lemma {:induction false} SameStepsSameLength(p: seq<Step>, q: seq<Step>)
    requires DistinctIds(p) && DistinctIds(q)
    requires forall s :: s in p <==> s in q
    ensures |p| == |q|
  {
    DistinctCount(p);
    DistinctCount(q);
    assert (set s | s in p) == (set s | s in q);
  }

  lemma {:induction false} DistinctCount(p: seq<Step>)
    requires DistinctIds(p)
    ensures |set s | s in p| == |p|
  {
    if p != [] {
      var front, last := p[..|p| - 1], p[|p| - 1];
      assert p == front + [last];
      DistinctCount(front);
      assert (set s | s in p) == (set s | s in front) + {last};
    }
  }

  ghost predicate LoopInvariant(items: seq<Step>, indegree: map<Id, int>, ready: seq<Step>, ordered: seq<Step>) {
    Counts(items, indegree, ordered) && Frontier(items, ready, ordered) && OrderSoFar(items, ordered)
  }

  lemma ReleasedSteps(items: seq<Step>, indegree0: map<Id, int>, step: Step, kids: seq<Id>, nxt: seq<Step>)
    requires DistinctIds(items) && DistinctIds(nxt)
    requires forall c :: c in kids ==> c in indegree0 && c in StepById(items)
    requires forall s :: s in items ==> (s.id in kids <==> step.id in DepSet(s))
    requires forall s :: s in nxt ==> s.id in kids && StepById(items)[s.id] == s
    requires forall c :: c in kids ==> (StepById(items)[c] in nxt <==> indegree0[c] == 1)
    ensures ReleasedBy(items, indegree0, step, nxt)
  {
  }

  lemma SortedFrontier(items: seq<Step>, list: seq<Step>, ordered: seq<Step>)
    requires DistinctIds(list)
    requires forall s :: s in list <==> s in items && s !in ordered && Ready(ordered, s)
    ensures Frontier(items, SortBySequence(list), ordered)
  {
    SortKeepsSteps(list);
  }

  lemma LoopKeeps(items: seq<Step>, kids: seq<Id>, indegree0: map<Id, int>, indegree: map<Id, int>,
                  ready0: seq<Step>, nxt: seq<Step>, ordered: seq<Step>)
    requires DistinctIds(items) && ready0 != [] && Sorted(ready0)
    requires LoopInvariant(items, indegree0, ready0, ordered)
    requires forall s :: s in items ==> (s.id in kids <==> ready0[0].id in DepSet(s))
    requires indegree.Keys == indegree0.Keys
    requires forall x :: x in indegree ==> indegree[x] == indegree0[x] - if x in kids then 1 else 0
    requires ReleasedBy(items, indegree0, ready0[0], nxt)
    ensures LoopInvariant(items, indegree, SortBySequence(ready0[1..] + nxt), ordered + [ready0[0]])
  {
    var step := ready0[0];
    assert step in ready0;
    IdNotIn(items, ordered, step);
    CountsNext(items, kids, indegree0, indegree, ordered, step);
    FrontierNext(items, indegree0, ready0, nxt, ordered);
    FrontierDistinct(items, indegree0, ready0, nxt, ordered);
    SortedFrontier(items, ready0[1..] + nxt, ordered + [step]);
    OrderNext(items, ready0, ordered);
  }

  // The steps without dependencies, in sequence order.
  method InitiallyReady(items: seq<Step>, indegree: map<Id, int>) returns (ready: seq<Step>)
    requires indegree.Keys == Ids(items)
    ensures Sorted(ready) && forall s :: s in ready ==> s in items
    ensures DistinctIds(items) && Counts(items, indegree, []) ==> Frontier(items, ready, [])
  {
    ready := [];
    for i := 0 to |items|
      invariant forall s :: s in ready <==> s in items[..i] && s.id in indegree && indegree[s.id] == 0
      invariant DistinctIds(items) ==> DistinctIds(ready)
    {
      assert items[..i + 1] == items[..i] + [items[i]];
      assert items[i].id in Ids(items);
      if indegree[items[i].id] == 0 {
        if DistinctIds(items) {
          assert forall k :: 0 <= k < |ready| ==> ready[k] in items[..i];
        }
        ready := ready + [items[i]];
      }
    }
    assert items[..|items|] == items;
    SortKeepsSteps(ready);
    if DistinctIds(items) && Counts(items, indegree, []) {
      forall s | s in items ensures s in ready <==> Ready([], s) {
        NothingLeft(DepSet(s), Ids([]));
      }
      SortedFrontier(items, ready, []);
    }
    ready := SortBySequence(ready);
  }

  ghost predicate ChildLists(items: seq<Step>, children: map<Id, seq<Id>>) {
    forall x :: x in children ==>
      Distinct(children[x]) && forall s :: s in items ==> (s.id in children[x] <==> x in DepSet(s))
  }

  lemma InitialState(items: seq<Step>, indegree: map<Id, int>, children: map<Id, seq<Id>>)
    requires Linked(items, |items|, indegree, children)
    ensures Counts(items, indegree, []) && ChildLists(items, children)
  {
  }

  method ReleaseChildren(items: seq<Step>, children: map<Id, seq<Id>>, step: Step, indegree0: map<Id, int>)
    returns (indegree: map<Id, int>, nxt: seq<Step>)
    requires indegree0.Keys == Ids(items) && children.Keys == Ids(items) && step.id in children
    requires forall x, c :: x in children && c in children[x] ==> c in Ids(items)
    requires DistinctIds(items) ==> ChildLists(items, children)
    ensures indegree.Keys == Ids(items) && |Positive(indegree)| + |nxt| <= |Positive(indegree0)|
    ensures forall s :: s in nxt ==> s in items
    ensures DistinctIds(items) ==> ReleasedBy(items, indegree0, step, nxt)
    ensures DistinctIds(items) ==> forall x :: x in indegree ==>
      indegree[x] == indegree0[x] - if x in children[step.id] then 1 else 0
  {
    var kids := children[step.id];
    var byId := StepById(items);
    indegree, nxt := Release(kids, byId, indegree0);
    forall s | s in nxt ensures s in items {
      assert byId[s.id] in items;
    }
    if DistinctIds(items) {
      ReleasedSteps(items, indegree0, step, kids, nxt);
    }
  }

  lemma NothingOrdered(items: seq<Step>)
    ensures OrderSoFar(items, [])
  {
  }

  lemma IdOfStep(items: seq<Step>, s: Step)
    requires s in items
    ensures s.id in Ids(items)
  {
  }

  // The main loop: run the ready step with the smallest sequence, release its children, repeat.
  method Drain(items: seq<Step>, indegree0: map<Id, int>, children: map<Id, seq<Id>>) returns (ordered: seq<Step>)
    requires indegree0.Keys == Ids(items) && children.Keys == Ids(items)
    requires forall x, c :: x in children && c in children[x] ==> c in Ids(items)
    requires DistinctIds(items) ==> Counts(items, indegree0, []) && ChildLists(items, children)
    ensures DistinctIds(items) ==> OrderSoFar(items, ordered) && Frontier(items, [], ordered)
  {
    hide Ids, DistinctIds, DepSet, Counts, Frontier, OrderSoFar, Positive, ReleasedBy, Sorted, SortBySequence;
    var indegree := indegree0;
    var ready := InitiallyReady(items, indegree);
    ordered := [];
    NothingOrdered(items);
    while ready != []
      invariant indegree.Keys == Ids(items) && Sorted(ready)
      invariant forall s :: s in ready ==> s in items
      invariant DistinctIds(items) ==> LoopInvariant(items, indegree, ready, ordered)
      decreases |Positive(indegree)| + |ready|
    {
      var step := ready[0];
      assert step in ready;
      IdOfStep(items, step);
      ghost var indegree1 := indegree;
      var nxt;
      indegree, nxt := ReleaseChildren(items, children, step, indegree);
      if DistinctIds(items) {
        LoopKeeps(items, children[step.id], indegree1, indegree, ready, nxt, ordered);
      }
      ordered := ordered + [step];
      SortKeepsSteps(ready[1..] + nxt);
      ready := SortBySequence(ready[1..] + nxt);
    }
  }

  /** Orders the steps by dependency, or says why the graph cannot be ordered. */
  method TopologicalOrder(steps: seq<Step>) returns (r: Result<seq<Step>, GraphError>)
    ensures r.Ok? ==> ValidGraph(steps) && |r.value| == |steps|
    ensures DistinctIds(steps) && ValidGraph(steps) ==> r.Ok?
    ensures DistinctIds(steps) && r.Ok? ==> IsExecutionOrder(steps, r.value) && LowestReadyFirst(steps, r.value)
    ensures DistinctIds(steps) && DistinctSequences(steps) && r.Ok? ==>
      forall other :: IsExecutionOrder(steps, other) ==> SequenceLexLe(r.value, other)
    ensures r == Err(TooManySteps) <==> |steps| > 50
    ensures r.Err? && r.error.UnknownDependency? ==>
      exists s :: s in steps && s.id == r.error.step && r.error.unknown in s.dependsOn && r.error.unknown !in Ids(steps)
    ensures r.Err? && r.error.SelfDependency? ==>
      exists s :: s in steps && s.id == r.error.step && s.id in s.dependsOn
    ensures r.Err? && r.error.DependencyCycle? ==> SimpleCycle(GraphOf(steps), r.error.cycle)
    ensures r == Err(NotFullyOrdered) ==> ValidGraph(steps) && !DistinctIds(steps)
  {
    if |steps| > MAX_PLAN_STEPS_CEILING {
      return Err(TooManySteps);
    }
    var missing := FindMissingDeps(steps);
    if missing != [] {
      assert missing[0] in missing;
      return Err(UnknownDependency(missing[0].0, missing[0].1));
    }
    var selfDeps := FindSelfDeps(steps);
    if selfDeps != [] {
      assert selfDeps[0] in selfDeps;
      return Err(SelfDependency(selfDeps[0]));
    }
    var cycle := FindCycle(Nodes(steps));
    if cycle.Some? {
      return Err(DependencyCycle(cycle.value));
    }
    var indegree, children := LinkSteps(steps);
    if DistinctIds(steps) {
      InitialState(steps, indegree, children);
    }
    var ordered := Drain(steps, indegree, children);
    if DistinctIds(steps) {
      DrainedIsComplete(steps, ordered);
      SameStepsSameLength(ordered, steps);
    }
    if |ordered| != |steps| {
      return Err(NotFullyOrdered);
    }
    if DistinctIds(steps) && DistinctSequences(steps) {
      forall other | IsExecutionOrder(steps, other) ensures SequenceLexLe(ordered, other) {
        LowestReadyFirstIsLeast(steps, ordered, other);
      }
    }
    return Ok(ordered);
  }
}
