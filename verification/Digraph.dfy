/** Finite directed graphs given by successor lists: walks, cycles, and dependency-first listings. */
module Digraph {

  type Id = string
  type Graph = map<Id, seq<Id>>

  // A successor that is not a node of the graph is no edge (the code skips it).
  predicate Edge(g: Graph, a: Id, b: Id) {
    a in g && b in g && b in g[a]
  }

  ghost predicate Distinct<T(!new)>(s: seq<T>) {
    forall i, j :: 0 <= i < j < |s| ==> s[i] != s[j]
  }

  ghost predicate Walk(g: Graph, w: seq<Id>) {
    && (forall i :: 0 <= i < |w| ==> w[i] in g)
    && (forall i :: 0 < i < |w| ==> Edge(g, w[i - 1], w[i]))
  }

  ghost predicate ClosedWalk(g: Graph, w: seq<Id>) {
    |w| >= 2 && Walk(g, w) && w[0] == w[|w| - 1]
  }

  ghost predicate SimpleCycle(g: Graph, c: seq<Id>) {
    ClosedWalk(g, c) && Distinct(c[..|c| - 1])
  }

  ghost predicate Acyclic(g: Graph) {
    forall w :: !ClosedWalk(g, w)
  }

  // Every node in the list has all its successors strictly before it.
  ghost predicate DepsFirst(g: Graph, order: seq<Id>) {
    forall i, b :: 0 <= i < |order| && Edge(g, order[i], b) ==> b in order[..i]
  }

  function IndexOf(s: seq<Id>, x: Id): (i: nat)
    requires x in s
    ensures i < |s| && s[i] == x && x !in s[..i]
  {
    if s[0] == x then 0 else
      var i := IndexOf(s[1..], x);
      assert s[..i + 1] == [s[0]] + s[1..][..i];
      i + 1
  }

  lemma {:induction false} ListedWalkDescends(g: Graph, order: seq<Id>, w: seq<Id>)
    requires DepsFirst(g, order) && Walk(g, w) && |w| > 0
    requires g.Keys <= Elements(order)
    ensures IndexOf(order, w[|w| - 1]) + |w| - 1 <= IndexOf(order, w[0])
  {
    if |w| > 1 {
      var v := w[..|w| - 1];
      ListedWalkDescends(g, order, v);
      var i := IndexOf(order, v[|v| - 1]);
      assert Edge(g, order[i], w[|w| - 1]);
      assert w[|w| - 1] in order[..i];
    }
  }

  /** A graph whose nodes can be listed successors-first has no closed walk at all. */
  lemma ListedIsAcyclic(g: Graph, order: seq<Id>)
    requires DepsFirst(g, order)
    requires g.Keys <= Elements(order)
    ensures Acyclic(g)
  {
    forall w ensures !ClosedWalk(g, w) {
      if ClosedWalk(g, w) {
        ListedWalkDescends(g, order, w);
      }
    }
  }

  // Where a path meets itself again there is a simple cycle.
  lemma CloseLoop(g: Graph, path: seq<Id>, y: Id) returns (c: seq<Id>)
    requires Walk(g, path) && Distinct(path) && path != []
    requires Edge(g, path[|path| - 1], y) && y in path
    ensures SimpleCycle(g, c) && forall x :: x in c ==> x in path
    ensures c == path[IndexOf(path, y)..] + [y]
  {
    var k := IndexOf(path, y);
    c := path[k..] + [y];
    assert c[..|c| - 1] == path[k..];
  }

  ghost predicate HasNextIn(g: Graph, nodes: set<Id>, x: Id) {
    exists y :: y in nodes && Edge(g, x, y)
  }

  lemma SubsetCardinality<T>(a: set<T>, b: set<T>)
    requires a <= b
    ensures |a| <= |b| && (a < b ==> |a| < |b|)
  {
    assert b == a + (b - a);
    if a < b {
      assert b - a != {};
    }
  }

  ghost function Elements(s: seq<Id>): set<Id> {
    set x | x in s
  }

  lemma ExtendWalk(g: Graph, path: seq<Id>, y: Id)
    requires path != [] && Walk(g, path) && Distinct(path) && y !in path
    requires Edge(g, path[|path| - 1], y)
    ensures Walk(g, path + [y]) && Distinct(path + [y])
    ensures Elements(path + [y]) == Elements(path) + {y}
  {
  }

  /** A set of nodes, each with a successor in the set, that contains a path contains a simple cycle. */
  lemma {:induction false} StuckSetHasCycle(g: Graph, stuck: set<Id>, path: seq<Id>) returns (c: seq<Id>)
    requires path != [] && Walk(g, path) && Distinct(path)
    requires Elements(path) <= stuck
    requires forall x {:trigger HasNextIn(g, stuck, x)} :: x in stuck ==> HasNextIn(g, stuck, x)
    ensures SimpleCycle(g, c) && Elements(c) <= stuck
    decreases stuck - Elements(path)
  {
    var last := path[|path| - 1];
    assert last in Elements(path) && HasNextIn(g, stuck, last);
    var y :| y in stuck && Edge(g, last, y);
    if y in path {
      c := CloseLoop(g, path, y);
    } else {
      ExtendWalk(g, path, y);
      assert y in stuck - Elements(path) && y !in stuck - Elements(path + [y]);
      c := StuckSetHasCycle(g, stuck, path + [y]);
    }
  }

  lemma ExtendListing(g: Graph, order: seq<Id>, x: Id)
    requires DepsFirst(g, order) && forall y :: Edge(g, x, y) ==> y in order
    ensures DepsFirst(g, order + [x])
  {
    var longer := order + [x];
    forall i, b | 0 <= i < |longer| && Edge(g, longer[i], b) ensures b in longer[..i] {
      if i < |order| {
        assert longer[..i] == order[..i];
      } else {
        assert longer[..i] == order;
      }
    }
  }

  lemma {:induction false} ListRest(g: Graph, order: seq<Id>) returns (full: seq<Id>)
    requires Acyclic(g) && DepsFirst(g, order)
    ensures DepsFirst(g, full) && g.Keys <= Elements(full)
    decreases g.Keys - Elements(order)
  {
    var rest := g.Keys - Elements(order);
    if rest == {} {
      forall x | x in g ensures x in Elements(order) {
        assert x !in rest;
      }
      return order;
    }
    if x :| x in rest && !HasNextIn(g, rest, x) {
      forall y | Edge(g, x, y) ensures y in order {
        assert y !in rest;
      }
      ExtendListing(g, order, x);
      assert x in rest && x !in g.Keys - Elements(order + [x]);
      full := ListRest(g, order + [x]);
    } else {
      var x :| x in rest;
      var c := StuckSetHasCycle(g, rest, [x]);
      assert false;
    }
  }

  /** No closed walk, if and only if the nodes can be listed with every node after its successors. */
  lemma AcyclicIffListed(g: Graph)
    ensures Acyclic(g) <==> exists order :: DepsFirst(g, order) && g.Keys <= Elements(order)
  {
    if Acyclic(g) {
      var order := ListRest(g, []);
    } else if order :| DepsFirst(g, order) && g.Keys <= Elements(order) {
      ListedIsAcyclic(g, order);
    }
  }
}
