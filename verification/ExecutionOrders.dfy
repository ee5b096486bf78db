/** What an execution order of a plan is, and which one "lowest ready sequence first" picks. */
module ExecutionOrders {
  import opened Plans

  // All dependencies of s are among the steps already run.
  predicate Ready(done: seq<Step>, s: Step) {
    DepSet(s) <= Ids(done)
  }

  ghost predicate DepsBefore(order: seq<Step>) {
    forall i :: 0 <= i < |order| ==> Ready(order[..i], order[i])
  }

  /** The same steps, each once, each after everything it depends on. */
  ghost predicate IsExecutionOrder(steps: seq<Step>, order: seq<Step>) {
    && |order| == |steps| && DistinctIds(order)
    && (forall s :: s in order <==> s in steps)
    && DepsBefore(order)
  }

  // At every position no other step that could run now has a smaller sequence.
  ghost predicate LowestReadyFirst(steps: seq<Step>, order: seq<Step>) {
    forall i, s :: 0 <= i < |order| && s in steps && s !in order[..i] && Ready(order[..i], s)
      ==> order[i].sequence <= s.sequence
  }

  ghost predicate DistinctSequences(steps: seq<Step>) {
    forall i, j :: 0 <= i < j < |steps| ==> steps[i].sequence != steps[j].sequence
  }

  // Lexicographic order of the sequence numbers.
  ghost predicate SequenceLexLe(p: seq<Step>, q: seq<Step>) {
    p == q || exists i :: FirstDrops(p, q, i)
  }

  ghost predicate FirstDrops(p: seq<Step>, q: seq<Step>, i: int) {
    0 <= i < |p| && i < |q| && p[..i] == q[..i] && p[i].sequence < q[i].sequence
  }

  lemma FirstDifference<T>(p: seq<T>, q: seq<T>) returns (i: nat)
    requires |p| == |q| && p != q
    ensures i < |p| && p[..i] == q[..i] && p[i] != q[i]
  {
    i := 0;
    while p[i] == q[i]
      invariant i < |p| && p[..i] == q[..i]
      invariant p[i..] != q[i..]
      decreases |p| - i
    {
      assert p[i..] == [p[i]] + p[i + 1..] && q[i..] == [q[i]] + q[i + 1..];
      i := i + 1;
    }
  }

  /** Lowest-ready-first is the lexicographically least of all execution orders of the plan. */
  lemma LowestReadyFirstIsLeast(steps: seq<Step>, order: seq<Step>, other: seq<Step>)
    requires DistinctSequences(steps)
    requires IsExecutionOrder(steps, order) && LowestReadyFirst(steps, order)
    requires IsExecutionOrder(steps, other)
    ensures SequenceLexLe(order, other)
  {
    if order != other {
      var i := FirstDifference(order, other);
      var s := other[i];
      assert s in steps && order[i] in steps;
      assert s !in other[..i];
      assert FirstDrops(order, other, i);
    }
  }

  /** So there is only one such order. */
  lemma LowestReadyFirstIsUnique(steps: seq<Step>, p: seq<Step>, q: seq<Step>)
    requires DistinctSequences(steps)
    requires IsExecutionOrder(steps, p) && LowestReadyFirst(steps, p)
    requires IsExecutionOrder(steps, q) && LowestReadyFirst(steps, q)
    ensures p == q
  {
    hide IsExecutionOrder, LowestReadyFirst;
    LowestReadyFirstIsLeast(steps, p, q);
    LowestReadyFirstIsLeast(steps, q, p);
  }

  // Among the steps not yet run, one has the smallest sequence.
  lemma {:induction false} SmallestLeft(steps: seq<Step>, done: seq<Step>, some: Step) returns (m: Step)
    requires some in steps && some !in done
    ensures m in steps && m !in done
    ensures forall s :: s in steps && s !in done ==> m.sequence <= s.sequence
  {
    var front := steps[..|steps| - 1];
    var last := steps[|steps| - 1];
    if s :| s in front && s !in done {
      m := SmallestLeft(front, done, s);
      if last !in done && last.sequence < m.sequence {
        m := last;
      }
    } else {
      m := some;
    }
    assert forall s :: s in steps ==> s in front || s == last;
  }

  ghost predicate DepsHaveSmallerSequence(steps: seq<Step>) {
    forall s, t :: s in steps && t in steps && t.id in s.dependsOn ==> t.sequence < s.sequence
  }

  ghost predicate KnownDeps(steps: seq<Step>) {
    forall s :: s in steps ==> DepSet(s) <= Ids(steps)
  }

  // The smallest step that is left has all its dependencies behind it.
  lemma SmallestIsReady(steps: seq<Step>, done: seq<Step>, m: Step)
    requires DepsHaveSmallerSequence(steps) && KnownDeps(steps) && m in steps
    requires forall s :: s in steps && s !in done ==> m.sequence <= s.sequence
    ensures Ready(done, m)
  {
    forall d | d in DepSet(m) ensures d in Ids(done) {
      assert DepSet(m) <= Ids(steps);
      var k :| 0 <= k < |steps| && steps[k].id == d;
      assert steps[k] in steps && steps[k].id in m.dependsOn;
      assert steps[k] in done;
    }
  }

  lemma LaterIsLarger(steps: seq<Step>, order: seq<Step>, i: nat, j: nat)
    requires DepsHaveSmallerSequence(steps) && KnownDeps(steps) && DistinctSequences(steps)
    requires IsExecutionOrder(steps, order) && LowestReadyFirst(steps, order)
    requires i < j < |order|
    ensures order[i].sequence < order[j].sequence
  {
    hide DepsHaveSmallerSequence, KnownDeps, DepsBefore, Ready, DistinctSequences;
    assert order[i] in steps && order[j] in steps && order[i].id != order[j].id;
    assert order[j] !in order[..i];
    var m := SmallestLeft(steps, order[..i], order[j]);
    SmallestIsReady(steps, order[..i], m);
    assert order[i].sequence <= m.sequence <= order[j].sequence;
    SequencesDiffer(steps, order[i], order[j]);
  }

  lemma SequencesDiffer(steps: seq<Step>, s: Step, t: Step)
    requires DistinctSequences(steps) && s in steps && t in steps && s != t
    ensures s.sequence != t.sequence
  {
    var p :| 0 <= p < |steps| && steps[p] == s;
    var q :| 0 <= q < |steps| && steps[q] == t;
  }

  /** When dependencies always point to smaller sequences, the order is exactly sequence order. */
  lemma SequenceOrderKept(steps: seq<Step>, order: seq<Step>)
    requires DepsHaveSmallerSequence(steps) && KnownDeps(steps) && DistinctSequences(steps)
    requires IsExecutionOrder(steps, order) && LowestReadyFirst(steps, order)
    ensures forall i, j :: 0 <= i < j < |order| ==> order[i].sequence < order[j].sequence
  {
    hide DepsHaveSmallerSequence, KnownDeps, DistinctSequences, IsExecutionOrder, LowestReadyFirst;
    forall i, j | 0 <= i < j < |order| ensures order[i].sequence < order[j].sequence {
      LaterIsLarger(steps, order, i, j);
    }
  }

  ghost predicate Increasing(steps: seq<Step>) {
    forall i, j :: 0 <= i < j < |steps| ==> steps[i].sequence < steps[j].sequence
  }

  // Behind a common beginning, neither arrangement can have the larger step next.
  lemma NextNotLarger(p: seq<Step>, q: seq<Step>, i: nat)
    requires Increasing(p) && Increasing(q) && i < |p| && i < |q| && p[..i] == q[..i]
    requires forall s :: s in p <==> s in q
    ensures p[i].sequence <= q[i].sequence && (p[i].sequence == q[i].sequence ==> p[i] == q[i])
  {
    assert forall m :: 0 <= m < i ==> p[m] == p[..i][m] == q[..i][m] == q[m];
    assert q[i] in q;
    var k :| 0 <= k < |p| && p[k] == q[i];
  }

  // Two increasing arrangements of the same steps are the same.
  lemma {:induction false} SameBeginning(p: seq<Step>, q: seq<Step>, i: nat)
    requires |p| == |q| && Increasing(p) && Increasing(q) && i <= |p|
    requires forall s :: s in p <==> s in q
    ensures p[..i] == q[..i]
  {
    if i > 0 {
      SameBeginning(p, q, i - 1);
      NextNotLarger(p, q, i - 1);
      NextNotLarger(q, p, i - 1);
      assert p[..i] == p[..i - 1] + [p[i - 1]] && q[..i] == q[..i - 1] + [q[i - 1]];
    }
  }

  /** A linear plan (increasing sequences, backward dependencies) comes back unchanged. */
  lemma LinearPlanUnchanged(steps: seq<Step>, order: seq<Step>)
    requires Increasing(steps) && DepsHaveSmallerSequence(steps) && KnownDeps(steps)
    requires IsExecutionOrder(steps, order) && LowestReadyFirst(steps, order)
    ensures order == steps
  {
    SequenceOrderKept(steps, order);
    SameBeginning(order, steps, |steps|);
    assert order[..|steps|] == order && steps[..|steps|] == steps;
  }
}
