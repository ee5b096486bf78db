/** The order that repeated alphabetical passes over a dependency graph produce (core/registry.py, _order). */
module PassOrder {
  import opened Digraph
  import opened TextOrder

  // A dependency that sorts after its dependent costs one more pass.
  function Bump(x: Id, dep: Id): nat {
    if Before(x, dep) then 1 else 0
  }

  ghost predicate AtMost(g: Graph, pass: map<Id, nat>, x: Id, n: nat) {
    forall d :: Edge(g, x, d) ==> d in pass && pass[d] + Bump(x, d) <= n
  }

  ghost predicate Reaches(g: Graph, pass: map<Id, nat>, x: Id, n: nat) {
    n == 0 || exists d :: Edge(g, x, d) && d in pass && pass[d] + Bump(x, d) == n
  }

  /** pass[x] is the largest number of "dependency sorts after its dependent" steps on a chain from x. */
  ghost predicate PassNumbers(g: Graph, pass: map<Id, nat>) {
    forall x {:trigger AtMost(g, pass, x, pass[x])} {:trigger Reaches(g, pass, x, pass[x])} ::
      x in pass ==> AtMost(g, pass, x, pass[x]) && Reaches(g, pass, x, pass[x])
  }

  ghost predicate Earlier(pass: map<Id, nat>, x: Id, y: Id)
    requires x in pass && y in pass
  {
    pass[x] < pass[y] || (pass[x] == pass[y] && Before(x, y))
  }

  // By pass, and alphabetically within a pass.
  ghost predicate OrderedByPass(pass: map<Id, nat>, order: seq<Id>) {
    && (forall x :: x in order ==> x in pass)
    && (forall i, j :: 0 <= i < j < |order| ==> Earlier(pass, order[i], order[j]))
  }

  /** The registry's order: every node once, sorted by (pass, name), successors first. */
  ghost predicate IsPassOrder(g: Graph, pass: map<Id, nat>, order: seq<Id>) {
    && pass.Keys == g.Keys == Elements(order)
    && PassNumbers(g, pass) && OrderedByPass(pass, order) && DepsFirst(g, order)
  }

  lemma EarlierIsOrder(pass: map<Id, nat>, x: Id, y: Id)
    requires x in pass && y in pass
    ensures !(Earlier(pass, x, y) && Earlier(pass, y, x)) && !Earlier(pass, x, x)
  {
    BeforeIsTotal(x, y);
  }

  lemma NodeAgrees(g: Graph, p: map<Id, nat>, q: map<Id, nat>, x: Id, m: nat, n: nat)
    requires forall d :: Edge(g, x, d) ==> (d in p <==> d in q) && (d in p ==> p[d] == q[d])
    requires AtMost(g, p, x, m) && Reaches(g, p, x, m)
    requires AtMost(g, q, x, n) && Reaches(g, q, x, n)
    ensures m == n
  {
  }

  lemma {:induction false} PassNumbersAgree(g: Graph, p: map<Id, nat>, q: map<Id, nat>, order: seq<Id>, n: nat)
    requires PassNumbers(g, p) && PassNumbers(g, q) && p.Keys == g.Keys == q.Keys
    requires DepsFirst(g, order) && n <= |order| && forall x :: x in order ==> x in g
    ensures forall x :: x in order[..n] ==> p[x] == q[x]
  {
    if n > 0 {
      PassNumbersAgree(g, p, q, order, n - 1);
      var x := order[n - 1];
      assert order[..n] == order[..n - 1] + [x];
      forall d | Edge(g, x, d) ensures p[d] == q[d] {
        assert d in order[..n - 1];
      }
      NodeAgrees(g, p, q, x, p[x], q[x]);
    }
  }

  // Where an agreed prefix ends, the next name of one listing comes later in the other.
  lemma OccursLater(pass: map<Id, nat>, order: seq<Id>, other: seq<Id>, i: nat) returns (k: nat)
    requires OrderedByPass(pass, order) && Elements(order) <= Elements(other)
    requires i < |order| && i <= |other| && order[..i] == other[..i]
    ensures i <= k < |other| && other[k] == order[i]
  {
    assert order[i] in Elements(order);
    k :| 0 <= k < |other| && other[k] == order[i];
    if k < i {
      assert order[k] == order[..i][k] == other[..i][k] == order[i];
      assert order[k] in order;
      EarlierIsOrder(pass, order[i], order[i]);
    }
  }

  lemma SameSortedListing(pass: map<Id, nat>, order: seq<Id>, other: seq<Id>, i: nat)
    requires OrderedByPass(pass, order) && OrderedByPass(pass, other)
    requires Elements(order) == Elements(other)
    requires i <= |order| && i <= |other| && order[..i] == other[..i]
    requires i < |order| || i < |other|
    ensures i < |order| && i < |other| && order[i] == other[i]
  {
    if i < |order| {
      var k := OccursLater(pass, order, other, i);
      var m := OccursLater(pass, other, order, i);
      assert order[i] in order && other[i] in other;
      EarlierIsOrder(pass, order[i], other[i]);
    } else {
      var m := OccursLater(pass, other, order, i);
    }
  }

  lemma {:induction false} ListingsAgree(pass: map<Id, nat>, order: seq<Id>, other: seq<Id>, i: nat)
    requires OrderedByPass(pass, order) && OrderedByPass(pass, other)
    requires Elements(order) == Elements(other)
    requires i <= |order| && i <= |other| && order[..i] == other[..i]
    ensures order == other
    decreases |order| - i
  {
    if i < |order| || i < |other| {
      SameSortedListing(pass, order, other, i);
      assert order[..i + 1] == order[..i] + [order[i]] && other[..i + 1] == other[..i] + [other[i]];
      ListingsAgree(pass, order, other, i + 1);
    } else {
      assert order[..i] == order && other[..i] == other;
    }
  }

  /** The dependency graph alone fixes the order: it does not depend on how services were registered. */
  lemma PassOrderIsUnique(g: Graph, p: map<Id, nat>, order: seq<Id>, q: map<Id, nat>, other: seq<Id>)
    requires IsPassOrder(g, p, order) && IsPassOrder(g, q, other)
    ensures order == other && p == q
  {
    forall x | x in order ensures x in g {
      assert x in Elements(order);
    }
    PassNumbersAgree(g, p, q, order, |order|);
    assert order[..|order|] == order;
    forall x | x in p ensures x in q && p[x] == q[x] {
      assert x in Elements(order);
    }
    assert p == q;
    assert order[..0] == other[..0];
    ListingsAgree(p, order, other, 0);
  }

  // --- one step of a pass

  // x cannot have been placed before pass q: some dependency is unplaced or forces pass q.
  ghost predicate Waits(g: Graph, remaining: set<Id>, pass: map<Id, nat>, x: Id, q: nat) {
    q == 0 || exists d :: Edge(g, x, d) && (d in remaining || (d in pass && pass[d] + Bump(x, d) >= q))
  }

  // The names placed so far, numbered up to p.
  ghost predicate Placed(g: Graph, remaining: set<Id>, pass: map<Id, nat>, order: seq<Id>, p: nat) {
    && pass.Keys == Elements(order) && remaining + pass.Keys == g.Keys && remaining !! pass.Keys
    && PassNumbers(g, pass) && OrderedByPass(pass, order) && DepsFirst(g, order)
    && (forall x :: x in pass ==> pass[x] <= p)
  }

  lemma KeepsNumbers(g: Graph, pass: map<Id, nat>, x: Id, p: nat)
    requires PassNumbers(g, pass) && x !in pass
    requires AtMost(g, pass, x, p) && Reaches(g, pass, x, p)
    ensures PassNumbers(g, pass[x := p])
  {
    var next := pass[x := p];
    forall y | y in next ensures AtMost(g, next, y, next[y]) && Reaches(g, next, y, next[y]) {
      var n := next[y];
      assert AtMost(g, pass, y, n) && Reaches(g, pass, y, n);
      if n != 0 {
        var d :| Edge(g, y, d) && d in pass && pass[d] + Bump(y, d) == n;
        assert d in next && next[d] + Bump(y, d) == n;
      }
    }
  }

  // With no dependency left, x is due exactly in the pass it was waiting for.
  lemma DueNow(g: Graph, remaining: set<Id>, pass: map<Id, nat>, p: nat, x: Id)
    requires x in remaining && remaining + pass.Keys == g.Keys && Waits(g, remaining, pass, x, p)
    requires forall d :: Edge(g, x, d) ==> d !in remaining
    requires forall y :: y in pass ==> pass[y] <= p && (pass[y] == p ==> Before(y, x))
    ensures AtMost(g, pass, x, p) && Reaches(g, pass, x, p)
    ensures forall d :: Edge(g, x, d) ==> d in pass
  {
    forall d | Edge(g, x, d) ensures d in pass && pass[d] + Bump(x, d) <= p {
      assert d in g.Keys && d in remaining + pass.Keys;
      BeforeIsTotal(x, d);
    }
    if p > 0 {
      var d :| Edge(g, x, d) && (d in remaining || (d in pass && pass[d] + Bump(x, d) >= p));
      assert d in pass && pass[d] + Bump(x, d) <= p;
    }
  }

  // Placing x, all of whose dependencies are placed, in pass p.
  lemma Place(g: Graph, remaining: set<Id>, pass: map<Id, nat>, order: seq<Id>, p: nat, x: Id)
    requires Placed(g, remaining, pass, order, p) && x in remaining
    requires forall d :: Edge(g, x, d) ==> d !in remaining
    requires Waits(g, remaining, pass, x, p)
    requires forall y :: y in pass && pass[y] == p ==> Before(y, x)
    ensures Placed(g, remaining - {x}, pass[x := p], order + [x], p)
  {
    hide PassNumbers, OrderedByPass, DepsFirst, AtMost, Reaches, Waits, Before;
    DueNow(g, remaining, pass, p, x);
    KeepsNumbers(g, pass, x, p);
    forall d | Edge(g, x, d) ensures d in order {
      assert d in pass && d in Elements(order);
    }
    ExtendListing(g, order, x);
    PlaceOrdered(pass, order, p, x);
  }

  lemma PlaceOrdered(pass: map<Id, nat>, order: seq<Id>, p: nat, x: Id)
    requires pass.Keys == Elements(order) && OrderedByPass(pass, order) && x !in pass
    requires forall y :: y in pass ==> pass[y] <= p && (pass[y] == p ==> Before(y, x))
    ensures OrderedByPass(pass[x := p], order + [x])
    ensures pass[x := p].Keys == Elements(order + [x])
  {
  }

  // Placing x in pass p leaves every other name waiting as before.
  lemma StillWaits(g: Graph, remaining: set<Id>, pass: map<Id, nat>, p: nat, x: Id, y: Id, q: nat)
    requires Waits(g, remaining, pass, y, q) && x !in pass && x in remaining && y != x
    requires q == p || (q == p + 1 && Before(y, x))
    ensures Waits(g, remaining - {x}, pass[x := p], y, q)
  {
  }
}
