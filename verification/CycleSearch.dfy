/** Depth-first cycle detection over "depends on" edges (planning/graph.py, find_cycle). */
module CycleSearch {
  import opened Wrappers
  import opened Digraph

  const ON_STACK := 1
  const DONE := 2

  /** The search's mutable state: the colour of each visited node and the stack of open nodes. */
  class Search {
    const deps: Graph
    var visited: map<Id, nat>
    var stack: seq<Id>
    ghost var finished: seq<Id>  // done nodes, in the order in which they were finished

    constructor (deps: Graph)
      ensures Valid() && this.deps == deps && visited == map[] && stack == []
    {
      this.deps := deps;
      visited, stack, finished := map[], [], [];
    }

    ghost predicate Valid()
      reads this
    {
      && visited.Keys <= deps.Keys
      && (forall x :: x in visited ==> visited[x] == ON_STACK || visited[x] == DONE)
      && Walk(deps, stack) && Distinct(stack)
      && (forall x :: x in stack <==> x in visited && visited[x] == ON_STACK)
      && (forall x :: x in finished <==> x in visited && visited[x] == DONE)
      && DepsFirst(deps, finished)
    }

    method Open(node: Id)
      requires Valid() && node in deps && node !in visited
      requires stack != [] ==> Edge(deps, stack[|stack| - 1], node)
      modifies this
      ensures Valid() && stack == old(stack) + [node]
      ensures visited == old(visited)[node := ON_STACK] && finished == old(finished)
    {
      visited := visited[node := ON_STACK];
      stack := stack + [node];
    }

    method Close(node: Id)
      requires Valid() && stack != [] && stack[|stack| - 1] == node
      requires forall y :: Edge(deps, node, y) ==> y in finished
      modifies this
      ensures Valid() && stack == old(stack)[..|old(stack)| - 1]
      ensures visited == old(visited)[node := DONE]
    {
      assert node in stack;
      stack := stack[..|stack| - 1];
      visited := visited[node := DONE];
      ExtendListing(deps, finished, node);
      finished := finished + [node];
    }

    twostate predicate Grown()
      reads this
    {
      forall x :: x in old(visited) ==> x in visited && visited[x] == old(visited)[x]
    }

    // Visits one dependency: nothing to do when it is unknown or done, a cycle when it is open.
    method Follow(dep: Id) returns (hit: Option<seq<Id>>)
      requires Valid() && stack != []
      requires dep in deps ==> Edge(deps, stack[|stack| - 1], dep)
      modifies this
      ensures hit.Some? ==> SimpleCycle(deps, hit.value)
      ensures hit.None? ==> Valid() && stack == old(stack) && Grown()
      ensures hit.None? && dep in deps ==> dep in finished
      decreases deps.Keys - visited.Keys, 1
    {
      if dep !in deps {
        return None;
      }
      if dep in visited && visited[dep] == ON_STACK {
        ghost var c := CloseLoop(deps, stack, dep);
        return Some(stack[IndexOf(stack, dep)..] + [dep]);
      }
      if dep !in visited {
        hit := Visit(dep);
      } else {
        hit := None;
      }
    }

    // None: the node and everything below it is done.  Some: a cycle through the stack.
    method Visit(node: Id) returns (hit: Option<seq<Id>>)
      requires Valid() && node in deps && node !in visited
      requires stack != [] ==> Edge(deps, stack[|stack| - 1], node)
      modifies this
      ensures hit.Some? ==> SimpleCycle(deps, hit.value)
      ensures hit.None? ==> Valid() && stack == old(stack) && Grown()
      ensures hit.None? ==> node in finished
      decreases deps.Keys - visited.Keys, 0
    {
      Open(node);
      var successors := deps[node];
      for i := 0 to |successors|
        invariant Valid() && stack == old(stack) + [node] && Grown() && node in visited
        invariant forall j :: 0 <= j < i && successors[j] in deps ==> successors[j] in finished
      {
        assert node in old(deps.Keys - visited.Keys) && node !in deps.Keys - visited.Keys;
        hit := Follow(successors[i]);
        if hit.Some? {
          return;
        }
      }
      Close(node);
      hit := None;
    }
  }

  // The dictionary the search builds first: a repeated id keeps its last dependency list.
  function DependencyGraph(nodes: seq<(Id, seq<Id>)>): (g: Graph)
    ensures forall x :: x in g <==> exists i :: 0 <= i < |nodes| && nodes[i].0 == x
  {
    if nodes == [] then map[] else
      var last := nodes[|nodes| - 1];
      DependencyGraph(nodes[..|nodes| - 1])[last.0 := last.1]
  }

  /** Finds a dependency cycle exactly when there is one. */
  method FindCycle(nodes: seq<(Id, seq<Id>)>) returns (hit: Option<seq<Id>>)
    ensures hit.None? <==> Acyclic(DependencyGraph(nodes))
    ensures hit.Some? ==> SimpleCycle(DependencyGraph(nodes), hit.value)
  {
    var search := new Search(DependencyGraph(nodes));
    for i := 0 to |nodes|
      invariant search.Valid() && search.stack == [] && fresh(search)
      invariant forall j :: 0 <= j < i ==> nodes[j].0 in search.finished
    {
      var node := nodes[i].0;
      if node !in search.visited {
        hit := search.Visit(node);
        if hit.Some? {
          return;
        }
      }
    }
    forall x | x in search.deps ensures x in Elements(search.finished) {
    }
    ListedIsAcyclic(search.deps, search.finished);
    hit := None;
  }

  // --- in which order a reported cycle can be read

  /** As the order in which to run: each entry is one of the next one's dependencies. */
  ghost predicate ReadsForwards(g: Graph, c: seq<Id>) {
    forall i :: 0 < i < |c| ==> Edge(g, c[i], c[i - 1])
  }

  ghost predicate WalkBetween(g: Graph, w: seq<Id>, a: Id, b: Id) {
    w != [] && Walk(g, w) && w[0] == a && w[|w| - 1] == b
  }

  ghost predicate Reaches(g: Graph, a: Id, b: Id) {
    exists w :: WalkBetween(g, w, a, b)
  }

  // A walk can be cut short where it visits a node twice.
  lemma {:induction false} WithoutDetours(g: Graph, w: seq<Id>, a: Id, b: Id) returns (path: seq<Id>)
    requires WalkBetween(g, w, a, b)
    ensures WalkBetween(g, path, a, b) && Distinct(path)
    decreases |w|
  {
    if i, j :| 0 <= i < j < |w| && w[i] == w[j] {
      path := WithoutDetours(g, w[..i] + w[j..], a, b);
    } else {
      path := w;
    }
  }

  // The way round a cycle, from one of its entries back to the one before.
  lemma WayRound(g: Graph, c: seq<Id>, i: nat)
    requires SimpleCycle(g, c) && 0 < i < |c|
    ensures Reaches(g, c[i], c[i - 1])
  {
    var w := c[i..] + c[1..i];
    assert WalkBetween(g, w, c[i], c[i - 1]);
  }

  /** Every cycle of a graph reads forwards as well exactly when each dependency that leads back is mutual. */
  lemma ReadsForwardsIff(g: Graph)
    ensures (forall c :: SimpleCycle(g, c) ==> ReadsForwards(g, c)) <==>
      (forall a, b :: Edge(g, a, b) && Reaches(g, b, a) ==> Edge(g, b, a))
  {
    if forall a, b :: Edge(g, a, b) && Reaches(g, b, a) ==> Edge(g, b, a) {
      forall c, i | SimpleCycle(g, c) && 0 < i < |c| ensures Edge(g, c[i], c[i - 1]) {
        WayRound(g, c, i);
        assert Edge(g, c[i - 1], c[i]);
      }
    }
    if forall c :: SimpleCycle(g, c) ==> ReadsForwards(g, c) {
      forall a, b | Edge(g, a, b) && Reaches(g, b, a) ensures Edge(g, b, a) {
        var w :| WalkBetween(g, w, b, a);
        var path := WithoutDetours(g, w, b, a);
        CycleThrough(g, path, a, b);
        assert ReadsForwards(g, [a] + path) && ([a] + path)[1] == b;
      }
    }
  }

  lemma CycleThrough(g: Graph, path: seq<Id>, a: Id, b: Id)
    requires Edge(g, a, b) && WalkBetween(g, path, b, a) && Distinct(path)
    ensures SimpleCycle(g, [a] + path)
  {
    var c := [a] + path;
    assert c[..|c| - 1] == [a] + path[..|path| - 1];
  }

  /** There is a graph with a cycle, and in whatever cycle of it is reported, no entry may run before the next. */
  lemma CycleReadsBackwards()
    ensures
      var g: Graph := map["a" := ["b"], "b" := ["c"], "c" := ["a"]];
      && !Acyclic(g)
      && (forall c, i {:trigger SimpleCycle(g, c), c[i]} ::
            SimpleCycle(g, c) && 0 < i < |c| ==> !Edge(g, c[i], c[i - 1]))
  {
    var g: Graph := map["a" := ["b"], "b" := ["c"], "c" := ["a"]];
    assert ClosedWalk(g, ["a", "b", "c", "a"]);
    forall c, i | SimpleCycle(g, c) && 0 < i < |c| ensures !Edge(g, c[i], c[i - 1]) {
      assert Edge(g, c[i - 1], c[i]);
    }
  }
}
