/** Dependency depth of every step (planning/graph.py, levels). */
module Levels {
  import opened Wrappers
  import opened Digraph
  import opened Plans
  import opened ExecutionOrders
  import opened TaskGraph
  import opened Kahn

  // A dependency chain of d edges starts at x, and no longer one does.
  ghost predicate LongestChain(g: Graph, x: Id, d: nat) {
    && (exists w :: Walk(g, w) && |w| == d + 1 && w[0] == x)
    && (forall w :: Walk(g, w) && |w| > 0 && w[0] == x ==> |w| <= d + 1)
  }

  // max(depth[d] for d in deps)
  function MaxDepth(deps: seq<Id>, depth: map<Id, nat>): (m: nat)
    requires deps != [] && forall d :: d in deps ==> d in depth
    ensures forall d :: d in deps ==> depth[d] <= m
    ensures exists d :: d in deps && depth[d] == m
  {
    var first := depth[deps[0]];
    if |deps| == 1 then
      assert deps[0] in deps;
      first
    else
      var rest := MaxDepth(deps[1..], depth);
      assert deps[0] in deps;
      if first < rest then rest else first
  }

  lemma DepthOfStep(g: Graph, x: Id, deps: seq<Id>, depth: map<Id, nat>)
    requires x in g && g[x] == deps && forall d :: d in deps ==> d in g && d in depth
    requires forall d :: d in deps ==> LongestChain(g, d, depth[d])
    ensures LongestChain(g, x, if deps == [] then 0 else MaxDepth(deps, depth) + 1)
  {
    hide MaxDepth;
    if deps == [] {
      assert Walk(g, [x]);
    } else {
      var m := MaxDepth(deps, depth);
      var d :| d in deps && depth[d] == m;
      assert LongestChain(g, d, depth[d]);
      var w :| Walk(g, w) && |w| == depth[d] + 1 && w[0] == d;
      assert Walk(g, [x] + w);
    }
    forall w | Walk(g, w) && |w| > 0 && w[0] == x
      ensures |w| <= (if deps == [] then 0 else MaxDepth(deps, depth) + 1) + 1
    {
      if |w| > 1 {
        assert Edge(g, w[0], w[1]);
        assert Walk(g, w[1..]);
      }
    }
  }

  ghost predicate HasDepth(g: Graph, depth: map<Id, nat>, x: Id, bound: nat) {
    x in depth && LongestChain(g, x, depth[x]) && depth[x] <= bound
  }

  // The first n steps of the order have their final depth, each below its position plus one.
  ghost predicate DepthsSoFar(g: Graph, order: seq<Step>, n: nat, depth: map<Id, nat>) {
    && n <= |order|
    && depth.Keys == Ids(order[..n])
    && (forall k :: 0 <= k < n ==> HasDepth(g, depth, order[k].id, k))
  }

  lemma NextDepth(steps: seq<Step>, order: seq<Step>, n: nat, depth: map<Id, nat>)
    requires DistinctIds(steps) && KnownDeps(steps) && IsExecutionOrder(steps, order) && n < |order|
    requires DepthsSoFar(GraphOf(steps), order, n, depth)
    ensures forall d :: d in order[n].dependsOn ==> d in depth
    ensures
      var deps := order[n].dependsOn;
      var m := if deps == [] then 0 else MaxDepth(deps, depth) + 1;
      LongestChain(GraphOf(steps), order[n].id, m) && m <= n
  {
    var s, g := order[n], GraphOf(steps);
    assert s in steps && Ready(order[..n], s);
    GraphOfSteps(steps, s);
    GraphNodes(steps);
    forall d | d in s.dependsOn
      ensures d in depth && d in GraphOf(steps) && LongestChain(GraphOf(steps), d, depth[d]) && depth[d] < n
    {
      assert d in DepSet(s) && d in Ids(order[..n]) && d in Ids(steps);
      var k :| 0 <= k < n && order[..n][k].id == d;
      assert order[k].id == d && HasDepth(g, depth, d, k);
    }
    DepthOfStep(GraphOf(steps), s.id, s.dependsOn, depth);
  }

  lemma DepthsNext(g: Graph, order: seq<Step>, n: nat, depth: map<Id, nat>, m: nat)
    requires DistinctIds(order) && n < |order| && DepthsSoFar(g, order, n, depth)
    requires LongestChain(g, order[n].id, m) && m <= n
    ensures DepthsSoFar(g, order, n + 1, depth[order[n].id := m])
  {
    hide LongestChain;
    assert order[..n + 1] == order[..n] + [order[n]];
    IdsOfLonger(order[..n], order[n]);
  }

  lemma NoDepths(g: Graph, order: seq<Step>)
    ensures DepthsSoFar(g, order, 0, map[])
  {
  }

  /** Depth of each step: the length of its longest dependency chain, below the number of steps. */
  method ComputeLevels(steps: seq<Step>) returns (r: Result<map<Id, nat>, GraphError>)
    ensures r.Ok? ==> ValidGraph(steps)
    ensures DistinctIds(steps) && ValidGraph(steps) ==> r.Ok?
    ensures DistinctIds(steps) && r.Ok? ==> r.value.Keys == Ids(steps)
    ensures DistinctIds(steps) && r.Ok? ==>
      forall x :: x in r.value ==> LongestChain(GraphOf(steps), x, r.value[x]) && r.value[x] < |steps|
  {
    var ordered := TopologicalOrder(steps);
    hide *;
    if ordered.Err? {
      return Err(ordered.error);
    }
    var order := ordered.value;
    var depth: map<Id, nat> := map[];
    NoDepths(GraphOf(steps), order);
    for n := 0 to |order|
      invariant DistinctIds(steps) ==> DepthsSoFar(GraphOf(steps), order, n, depth)
    {
      var deps := order[n].dependsOn;
      if DistinctIds(steps) {
        NextDepth(steps, order, n, depth);
      }
      if d :| d in deps && d !in depth {
        return Err(MissingDepth(d));
      }
      var m := if deps == [] then 0 else MaxDepth(deps, depth) + 1;
      if DistinctIds(steps) {
        DepthsNext(GraphOf(steps), order, n, depth, m);
      }
      depth := depth[order[n].id := m];
    }
    if DistinctIds(steps) {
      SameIds(steps, order, depth);
    }
    return Ok(depth);
  }

  lemma SameIds(steps: seq<Step>, order: seq<Step>, depth: map<Id, nat>)
    requires IsExecutionOrder(steps, order) && DepthsSoFar(GraphOf(steps), order, |order|, depth)
    ensures depth.Keys == Ids(steps)
    ensures forall x :: x in depth ==> LongestChain(GraphOf(steps), x, depth[x]) && depth[x] < |steps|
  {
    assert order[..|order|] == order;
    forall x | x in depth ensures x in Ids(steps) && LongestChain(GraphOf(steps), x, depth[x]) && depth[x] < |steps| {
      var k :| 0 <= k < |order| && order[k].id == x;
      assert order[k] in steps;
    }
    forall x | x in Ids(steps) ensures x in depth {
      var i :| 0 <= i < |steps| && steps[i].id == x;
      assert steps[i] in order;
      var k :| 0 <= k < |order| && order[k] == steps[i];
      assert order[k].id == x;
    }
  }

  /** A step lies strictly deeper than each of its dependencies. */
  lemma DeeperThanDependencies(g: Graph, x: Id, d: nat, dep: Id, below: nat)
    requires LongestChain(g, x, d) && LongestChain(g, dep, below) && Edge(g, x, dep)
    ensures below < d
  {
    var w :| Walk(g, w) && |w| == below + 1 && w[0] == dep;
    assert Walk(g, [x] + w);
  }
}
