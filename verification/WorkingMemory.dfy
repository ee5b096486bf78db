/** Session memory whose expired items are dropped only when somebody looks (memory/working_memory.py). */
module WorkingMemory {
  import opened Wrappers

  const DEFAULT_TTL_SECONDS := 1800.0

  datatype Item = Item(id: string, content: string, createdAt: real, expiresAt: Option<real>)

  predicate Expired(i: Item, now: real) {
    i.expiresAt.Some? && i.expiresAt.value <= now
  }

  type Items = map<string, Item>

  function Live(m: Items, now: real): Items {
    map id | id in m && !Expired(m[id], now) :: m[id]
  }

  // A missing ttl is the default one; a ttl that is not positive means no expiry.
  function NewItem(id: string, content: string, ttl: Option<real>, now: real): Item {
    var seconds := if ttl.Some? then ttl.value else DEFAULT_TTL_SECONDS;
    Item(id, content, now, if seconds > 0.0 then Some(now + seconds) else None)
  }

  // --- the lazily swept map and the map that is never swept

  datatype Op =
    | Add(id: string, content: string, ttl: Option<real>)
    | Get(id: string)
    | Remove(id: string)
    | List
    | Sweep
    | Clear

  datatype Answer = Nothing | Found(item: Option<Item>) | Listed(items: set<Item>)

  datatype Outcome = Outcome(items: Items, answer: Answer)

  function Lazy(m: Items, op: Op, now: real): Outcome {
    match op
    case Add(id, content, ttl) => Outcome(m[id := NewItem(id, content, ttl, now)], Nothing)
    case Get(id) =>
      if id !in m then Outcome(m, Found(None))
      else if Expired(m[id], now) then Outcome(m - {id}, Found(None))
      else Outcome(m, Found(Some(m[id])))
    case Remove(id) => Outcome(m - {id}, Nothing)
    case List => Outcome(Live(m, now), Listed(Live(m, now).Values))
    case Sweep => Outcome(Live(m, now), Nothing)
    case Clear => Outcome(map[], Nothing)
  }

  /** The reference: nothing is ever dropped, expiry is only looked at when answering. */
  function Unswept(m: Items, op: Op, now: real): Outcome {
    match op
    case Add(id, content, ttl) => Outcome(m[id := NewItem(id, content, ttl, now)], Nothing)
    case Get(id) => Outcome(m, Found(if id in Live(m, now) then Some(m[id]) else None))
    case Remove(id) => Outcome(m - {id}, Nothing)
    case List => Outcome(m, Listed(Live(m, now).Values))
    case Sweep => Outcome(m, Nothing)
    case Clear => Outcome(map[], Nothing)
  }

  lemma LiveLater(m: Items, now: real, later: real)
    requires now <= later
    ensures Live(Live(m, now), later) == Live(m, later)
  {
  }

  lemma LiveWithout(m: Items, id: string, now: real)
    ensures Live(m - {id}, now) == Live(m, now) - {id}
    ensures id in m && Expired(m[id], now) ==> Live(m - {id}, now) == Live(m, now)
  {
  }

  lemma LiveWith(m: Items, i: Item, now: real)
    ensures Live(m[i.id := i], now) == if Expired(i, now) then Live(m, now) - {i.id} else Live(m, now)[i.id := i]
  {
  }

  /** Maps that agree on what is live give the same answer, and still agree afterwards. */
  lemma StepAgrees(lazy: Items, pure_: Items, op: Op, now: real)
    requires Live(lazy, now) == Live(pure_, now)
    ensures Lazy(lazy, op, now).answer == Unswept(pure_, op, now).answer
    ensures Live(Lazy(lazy, op, now).items, now) == Live(Unswept(pure_, op, now).items, now)
  {
    match op
    case Add(id, content, ttl) =>
      LiveWith(lazy, NewItem(id, content, ttl, now), now);
      LiveWith(pure_, NewItem(id, content, ttl, now), now);
    case Get(id) =>
      assert id in lazy && !Expired(lazy[id], now) <==> id in Live(pure_, now);
      LiveWithout(lazy, id, now);
    case Remove(id) =>
      LiveWithout(lazy, id, now);
      LiveWithout(pure_, id, now);
    case List =>
      LiveLater(lazy, now, now);
    case Sweep =>
      LiveLater(lazy, now, now);
    case Clear =>
  }

  // --- whole histories

  datatype Event = Event(op: Op, now: real)

  datatype History = History(items: Items, answers: seq<Answer>)

  function RunLazy(events: seq<Event>): History {
    if events == [] then History(map[], []) else
      var before, e := RunLazy(events[..|events| - 1]), events[|events| - 1];
      var o := Lazy(before.items, e.op, e.now);
      History(o.items, before.answers + [o.answer])
  }

  function RunUnswept(events: seq<Event>): History {
    if events == [] then History(map[], []) else
      var before, e := RunUnswept(events[..|events| - 1]), events[|events| - 1];
      var o := Unswept(before.items, e.op, e.now);
      History(o.items, before.answers + [o.answer])
  }

  function Readings(events: seq<Event>): (t: seq<real>)
    ensures |t| == |events| && forall i :: 0 <= i < |t| ==> t[i] == events[i].now
  {
    seq(|events|, i requires 0 <= i < |events| => events[i].now)
  }

  // The clock went up from k to i and was below i again at j.
  predicate UpAndBack(t: seq<real>, k: int, i: int, j: int) {
    0 <= k < i < j < |t| && t[k] < t[i] && t[j] < t[i]
  }

  /** The clock never goes up and back again; it may fall first. */
  ghost predicate Steady(t: seq<real>) {
    forall k, i, j {:trigger UpAndBack(t, k, i, j)} :: !UpAndBack(t, k, i, j)
  }

  // --- what the lazy map lacks

  ghost predicate Within(a: Items, b: Items) {
    forall id :: id in a ==> id in b && b[id] == a[id]
  }

  lemma StepWithin(lazy: Items, unswept: Items, op: Op, now: real)
    requires Within(lazy, unswept)
    ensures Within(Lazy(lazy, op, now).items, Unswept(unswept, op, now).items)
  {
  }

  /** Whatever the clock does, the lazy map holds nothing that the never-swept map does not hold. */
  lemma {:induction false} LazyWithin(events: seq<Event>)
    ensures Within(RunLazy(events).items, RunUnswept(events).items)
    ensures |RunLazy(events).answers| == |RunUnswept(events).answers| == |events|
  {
    hide Lazy, Unswept;
    if events != [] {
      var front, e := events[..|events| - 1], events[|events| - 1];
      LazyWithin(front);
      StepWithin(RunLazy(front).items, RunUnswept(front).items, e.op, e.now);
    }
  }

  lemma LiveWithin(a: Items, b: Items, now: real)
    requires Within(a, b)
    ensures forall x :: x in Live(a, now).Values ==> x in Live(b, now).Values
  {
    forall x | x in Live(a, now).Values ensures x in Live(b, now).Values {
      var id :| id in Live(a, now) && Live(a, now)[id] == x;
      assert id in Live(b, now) && Live(b, now)[id] == x;
    }
  }

  // What has been dropped is expired at every reading from n on.
  ghost predicate GoneForGood(lazy: Items, unswept: Items, t: seq<real>, n: nat) {
    forall id, j :: id in unswept && id !in lazy && n <= j < |t| ==> Expired(unswept[id], t[j])
  }

  ghost predicate AddedBefore(i: Item, t: seq<real>, n: nat) {
    && (exists k :: 0 <= k < n && k < |t| && i.createdAt == t[k])
    && (i.expiresAt.Some? ==> i.createdAt < i.expiresAt.value)
  }

  ghost predicate AllAddedBefore(m: Items, t: seq<real>, n: nat) {
    forall id :: id in m ==> AddedBefore(m[id], t, n)
  }

  lemma ExpiredStays(i: Item, t: seq<real>, n: nat, j: nat)
    requires Steady(t) && n < j < |t| && AddedBefore(i, t, n) && Expired(i, t[n])
    ensures Expired(i, t[j])
  {
    var k :| 0 <= k < n && i.createdAt == t[k];
    assert !UpAndBack(t, k, n, j);
  }

  lemma SameLive(lazy: Items, unswept: Items, t: seq<real>, n: nat)
    requires n < |t| && Within(lazy, unswept) && GoneForGood(lazy, unswept, t, n)
    ensures Live(lazy, t[n]) == Live(unswept, t[n])
  {
  }

  lemma StepKeepsGone(lazy: Items, unswept: Items, op: Op, t: seq<real>, n: nat)
    requires n < |t| && Steady(t) && Within(lazy, unswept)
    requires GoneForGood(lazy, unswept, t, n) && AllAddedBefore(unswept, t, n)
    ensures GoneForGood(Lazy(lazy, op, t[n]).items, Unswept(unswept, op, t[n]).items, t, n + 1)
  {
    hide Steady, AddedBefore;
    var l, u := Lazy(lazy, op, t[n]).items, Unswept(unswept, op, t[n]).items;
    forall id, j | id in u && id !in l && n + 1 <= j < |t| ensures Expired(u[id], t[j]) {
      assert id in unswept && u[id] == unswept[id];
      if id in lazy {
        ExpiredStays(u[id], t, n, j);
      }
    }
  }

  lemma StepKeepsAdded(unswept: Items, op: Op, t: seq<real>, n: nat)
    requires n < |t| && AllAddedBefore(unswept, t, n)
    ensures AllAddedBefore(Unswept(unswept, op, t[n]).items, t, n + 1)
  {
    var u := Unswept(unswept, op, t[n]).items;
    forall id | id in u ensures AddedBefore(u[id], t, n + 1) {
      if id in unswept && u[id] == unswept[id] {
        assert AddedBefore(unswept[id], t, n);
      } else {
        assert u[id].createdAt == t[n];
      }
    }
  }

  /** While the clock never goes up and back, every history of operations is answered as if nothing were swept. */
  lemma {:induction false} SameAnswers(events: seq<Event>, t: seq<real>)
    requires Readings(events) <= t && Steady(t)
    ensures RunLazy(events).answers == RunUnswept(events).answers
    ensures GoneForGood(RunLazy(events).items, RunUnswept(events).items, t, |events|)
    ensures AllAddedBefore(RunUnswept(events).items, t, |events|)
  {
    hide Lazy, Unswept, Live, Steady, AddedBefore, Within;
    if events == [] {
      NothingRun();
    } else {
      var front, e, n := events[..|events| - 1], events[|events| - 1], |events| - 1;
      assert Readings(front) <= t && t[n] == e.now by {
        assert Readings(events)[n] == e.now;
        assert Readings(front) == Readings(events)[..n];
      }
      SameAnswers(front, t);
      LazyWithin(front);
      var lazy, unswept := RunLazy(front).items, RunUnswept(front).items;
      SameLive(lazy, unswept, t, n);
      StepAgrees(lazy, unswept, e.op, e.now);
      StepKeepsGone(lazy, unswept, e.op, t, n);
      StepKeepsAdded(unswept, e.op, t, n);
    }
  }

  // --- the exact condition

  /** Whatever is done at these readings, the answers are the same. */
  ghost predicate AlwaysSame(t: seq<real>) {
    forall events {:trigger RunLazy(events)} ::
      Readings(events) == t ==> RunLazy(events).answers == RunUnswept(events).answers
  }

  // An item is added at k to expire at reading i, and looked for at i and at j.
  function Probe(t: seq<real>, k: nat, i: nat, j: nat): (events: seq<Event>)
    requires k < |t| && i < |t|
    ensures Readings(events) == t
  {
    seq(|t|, m requires 0 <= m < |t| =>
      Event(if m == k then Add("a", "x", Some(t[i] - t[k])) else if m == i || m == j then Get("a") else Sweep, t[m]))
  }

  lemma GetOrSweepKeeps(m: Items, op: Op, now: real)
    requires op == Get("a") || op == Sweep
    ensures Unswept(m, op, now).items == m
    ensures "a" !in m ==> "a" !in Lazy(m, op, now).items
    ensures "a" in m && Expired(m["a"], now) ==> "a" !in Lazy(m, op, now).items
    ensures "a" !in m && op == Get("a") ==> Lazy(m, op, now).answer == Found(None)
    ensures "a" in m && !Expired(m["a"], now) && op == Get("a") ==> Unswept(m, op, now).answer == Found(Some(m["a"]))
  {
  }

  lemma {:induction false} ProbeRuns(t: seq<real>, k: nat, i: nat, j: nat, n: nat)
    requires UpAndBack(t, k, i, j) && n <= |t|
    ensures
      var events := Probe(t, k, i, j)[..n];
      var l, u := RunLazy(events), RunUnswept(events);
      && (n > k ==> "a" in u.items && u.items["a"] == NewItem("a", "x", Some(t[i] - t[k]), t[k]))
      && (n > k && "a" in l.items ==> l.items["a"] == u.items["a"])
      && (n > i ==> "a" !in l.items)
      && (n > j ==> |l.answers| == |u.answers| == n && l.answers[j] != u.answers[j])
  {
    hide Lazy, Unswept;
    if n > 0 {
      var events := Probe(t, k, i, j);
      var front, e := events[..n - 1], events[n - 1];
      ProbeRuns(t, k, i, j, n - 1);
      LazyWithin(front);
      assert events[..n][..n - 1] == front && events[..n][n - 1] == e;
      if n - 1 == k {
        AddedNow(RunLazy(front).items, RunUnswept(front).items, e.op, e.now);
      } else {
        GetOrSweepKeeps(RunLazy(front).items, e.op, e.now);
        GetOrSweepKeeps(RunUnswept(front).items, e.op, e.now);
        StepWithin(RunLazy(front).items, RunUnswept(front).items, e.op, e.now);
      }
    }
  }

  lemma AddedNow(lazy: Items, unswept: Items, op: Op, now: real)
    requires op.Add?
    ensures op.id in Lazy(lazy, op, now).items && op.id in Unswept(unswept, op, now).items
    ensures Lazy(lazy, op, now).items[op.id] == Unswept(unswept, op, now).items[op.id]
      == NewItem(op.id, op.content, op.ttl, now)
  {
  }

  /** Dropping items early is never noticed at these readings, whatever is done, exactly when the clock never goes up
      and back again. */
  lemma AlwaysSameIff(t: seq<real>)
    ensures AlwaysSame(t) <==> Steady(t)
  {
    hide RunLazy, RunUnswept, Probe;
    if Steady(t) {
      forall events | Readings(events) == t ensures RunLazy(events).answers == RunUnswept(events).answers {
        SameAnswers(events, t);
      }
    } else {
      var k, i, j :| UpAndBack(t, k, i, j);
      ProbeRuns(t, k, i, j, |t|);
      var events := Probe(t, k, i, j);
      assert events[..|t|] == events;
    }
  }

  lemma NothingRun()
    ensures RunLazy([]) == History(map[], []) && RunUnswept([]) == History(map[], [])
  {
  }

  lemma OneMore(events: seq<Event>, e: Event)
    ensures
      var before := RunLazy(events);
      var o := Lazy(before.items, e.op, e.now);
      RunLazy(events + [e]) == History(o.items, before.answers + [o.answer])
    ensures
      var before := RunUnswept(events);
      var o := Unswept(before.items, e.op, e.now);
      RunUnswept(events + [e]) == History(o.items, before.answers + [o.answer])
  {
  }

  // --- what the never-swept map answers, in terms of the operations

  predicate Ends(op: Op, id: string) {
    op == Clear || op == Remove(id) || (op.Add? && op.id == id)
  }

  /** Of the first n operations, the k-th added the item, and none after it added it again or removed it. */
  ghost predicate LastAdded(events: seq<Event>, n: nat, id: string, k: int) {
    && 0 <= k < n <= |events| && events[k].op.Add? && events[k].op.id == id
    && forall m :: k < m < n ==> !Ends(events[m].op, id)
  }

  // The item an addition makes: it expires after its ttl, after half an hour without one, never after one that is
  // not positive.
  predicate ItemOf(i: Item, e: Event) {
    && e.op.Add? && i.id == e.op.id && i.content == e.op.content && i.createdAt == e.now
    && (e.op.ttl == None ==> i.expiresAt == Some(e.now + 1800.0))
    && (e.op.ttl.Some? && e.op.ttl.value > 0.0 ==> i.expiresAt == Some(e.now + e.op.ttl.value))
    && (e.op.ttl.Some? && e.op.ttl.value <= 0.0 ==> i.expiresAt == None)
  }

  // Its time has not come.
  predicate StillGood(i: Item, now: real) {
    i.expiresAt.Some? ==> now < i.expiresAt.value
  }

  ghost predicate Stands(events: seq<Event>, n: nat, i: Item, k: int) {
    LastAdded(events, n, i.id, k) && ItemOf(i, events[k])
  }

  ghost predicate Holds(m: Items, events: seq<Event>, n: nat) {
    && (forall id :: id in m ==> m[id].id == id && exists k :: Stands(events, n, m[id], k))
    && (forall id, k :: LastAdded(events, n, id, k) ==> id in m)
  }

  lemma LastAddedNext(events: seq<Event>, n: nat, id: string, k: int)
    requires n < |events|
    ensures LastAdded(events, n + 1, id, k) <==>
      if k == n then events[n].op.Add? && events[n].op.id == id
      else LastAdded(events, n, id, k) && !Ends(events[n].op, id)
  {
  }

  lemma AdditionStands(events: seq<Event>, n: nat)
    requires n < |events| && events[n].op.Add?
    ensures
      var e := events[n];
      var x := NewItem(e.op.id, e.op.content, e.op.ttl, e.now);
      x.id == e.op.id && Stands(events, n + 1, x, n)
  {
  }

  lemma StillStands(events: seq<Event>, n: nat, i: Item, k: int)
    requires n < |events| && Stands(events, n, i, k) && !Ends(events[n].op, i.id)
    ensures Stands(events, n + 1, i, k)
  {
    LastAddedNext(events, n, i.id, k);
  }

  lemma HoldsNext(m: Items, events: seq<Event>, n: nat)
    requires n < |events| && Holds(m, events, n)
    ensures Holds(Unswept(m, events[n].op, events[n].now).items, events, n + 1)
  {
    hide LastAdded, Live, Stands, NewItem;
    var e, after := events[n], n + 1;
    var next := Unswept(m, e.op, e.now).items;
    forall id | id in next ensures next[id].id == id && exists k :: Stands(events, after, next[id], k) {
      if e.op.Add? && e.op.id == id {
        AdditionStands(events, n);
      } else {
        var k :| Stands(events, n, m[id], k);
        StillStands(events, n, m[id], k);
      }
    }
    forall id, k | LastAdded(events, after, id, k) ensures id in next {
      LastAddedNext(events, n, id, k);
    }
  }

  lemma {:induction false} UnsweptHolds(events: seq<Event>, n: nat)
    requires n <= |events|
    ensures Holds(RunUnswept(events[..n]).items, events, n) && |RunUnswept(events[..n]).answers| == n
  {
    hide Unswept, Holds;
    if n == 0 {
      NothingHeld(events);
    } else {
      UnsweptHolds(events, n - 1);
      HoldsNext(RunUnswept(events[..n - 1]).items, events, n - 1);
      assert events[..n][..n - 1] == events[..n - 1];
    }
  }

  lemma NothingHeld(events: seq<Event>)
    ensures Holds(map[], events, 0) && RunUnswept(events[..0]) == History(map[], [])
  {
  }

  lemma {:induction false} AnswerAt(events: seq<Event>, i: nat)
    requires i < |events|
    ensures |RunUnswept(events).answers| == |events|
    ensures RunUnswept(events).answers[i] == Unswept(RunUnswept(events[..i]).items, events[i].op, events[i].now).answer
  {
    hide Unswept;
    var front := events[..|events| - 1];
    UnsweptHolds(events, |events| - 1);
    if i < |events| - 1 {
      AnswerAt(front, i);
      assert front[..i] == events[..i];
    }
  }

  // Two additions cannot both be the last one, and an addition makes one item.
  lemma OneItem(events: seq<Event>, n: nat, i: Item, j: int, x: Item, k: int)
    requires Stands(events, n, i, j) && Stands(events, n, x, k) && i.id == x.id
    ensures i == x
  {
  }

  /** The item that is to be found: the last addition of its id stands, and its time has not come. */
  ghost predicate ToBeFound(events: seq<Event>, n: nat, x: Item) {
    n < |events| && StillGood(x, events[n].now) && exists k :: Stands(events, n, x, k)
  }

  lemma LiveIsFound(events: seq<Event>, n: nat, x: Item)
    requires n < |events|
    ensures
      var live := Live(RunUnswept(events[..n]).items, events[n].now);
      ToBeFound(events, n, x) <==> x.id in live && live[x.id] == x
  {
    hide RunUnswept, Stands;
    UnsweptHolds(events, n);
    var m := RunUnswept(events[..n]).items;
    if k :| Stands(events, n, x, k) {
      StandsIsLast(events, n, x, k);
      var j :| Stands(events, n, m[x.id], j);
      OneItem(events, n, m[x.id], j, x, k);
    }
  }

  lemma StandsIsLast(events: seq<Event>, n: nat, i: Item, k: int)
    requires Stands(events, n, i, k)
    ensures LastAdded(events, n, i.id, k)
  {
  }

  /** Looking for an id finds the item that is to be found, and nothing when there is none. */
  lemma GetTells(events: seq<Event>, i: nat)
    requires i < |events| && events[i].op.Get?
    ensures |RunUnswept(events).answers| == |events| && RunUnswept(events).answers[i].Found?
    ensures
      var found := RunUnswept(events).answers[i].item;
      forall x :: found == Some(x) <==> x.id == events[i].op.id && ToBeFound(events, i, x)
  {
    hide RunUnswept, ToBeFound, Live;
    AnswerAt(events, i);
    UnsweptHolds(events, i);
    forall x ensures RunUnswept(events).answers[i].item == Some(x) <==>
        x.id == events[i].op.id && ToBeFound(events, i, x)
    {
      LiveIsFound(events, i, x);
      LiveIsHeld(RunUnswept(events[..i]).items, events, i, events[i].op.id);
    }
  }

  lemma LiveIsHeld(m: Items, events: seq<Event>, n: nat, id: string)
    requires n < |events| && Holds(m, events, n)
    ensures id in Live(m, events[n].now) ==> id in m && Live(m, events[n].now)[id] == m[id] && m[id].id == id
  {
  }

  /** A listing has every item that is to be found, and nothing else. */
  lemma ListTells(events: seq<Event>, i: nat)
    requires i < |events| && events[i].op == List
    ensures |RunUnswept(events).answers| == |events| && RunUnswept(events).answers[i].Listed?
    ensures forall x :: x in RunUnswept(events).answers[i].items <==> ToBeFound(events, i, x)
  {
    hide RunUnswept, ToBeFound, Live;
    AnswerAt(events, i);
    UnsweptHolds(events, i);
    var m, now := RunUnswept(events[..i]).items, events[i].now;
    forall x ensures x in Live(m, now).Values <==> ToBeFound(events, i, x) {
      LiveIsFound(events, i, x);
      if x in Live(m, now).Values {
        var id :| id in Live(m, now) && Live(m, now)[id] == x;
        LiveIsHeld(m, events, i, id);
      }
    }
  }

  // --- the class

  ghost predicate NewestFirst(s: seq<Item>) {
    forall i, j :: 0 <= i < j < |s| ==> s[i].createdAt >= s[j].createdAt
  }

  ghost predicate Lists(s: seq<Item>, items: set<Item>) {
    (forall x :: x in s <==> x in items) && forall i, j :: 0 <= i < j < |s| ==> s[i] != s[j]
  }

  // sorted(..., key=created_at, reverse=True)
  method SortNewestFirst(items: set<Item>) returns (s: seq<Item>)
    ensures NewestFirst(s) && Lists(s, items)
  {
    s := [];
    var rest := items;
    while rest != {}
      invariant rest <= items && NewestFirst(s) && Lists(s, items - rest)
      decreases rest
    {
      var x :| x in rest;
      s := InsertNewestFirst(s, x, items - rest);
      rest := rest - {x};
    }
  }

  method InsertNewestFirst(s: seq<Item>, x: Item, items: set<Item>) returns (r: seq<Item>)
    requires NewestFirst(s) && Lists(s, items) && x !in items
    ensures NewestFirst(r) && Lists(r, items + {x})
  {
    var i := 0;
    while i < |s| && s[i].createdAt >= x.createdAt
      invariant i <= |s| && forall k :: 0 <= k < i ==> s[k].createdAt >= x.createdAt
    {
      i := i + 1;
    }
    r := s[..i] + [x] + s[i..];
    Spliced(s, x, i);
  }

  lemma Spliced(s: seq<Item>, x: Item, i: nat)
    requires i <= |s|
    ensures forall y :: y in s[..i] + [x] + s[i..] <==> y == x || y in s
  {
  }

  class Memory {
    var items: Items
    ghost var events: seq<Event>  // every operation so far

    ghost predicate Valid()
      reads this
    {
      items == RunLazy(events).items
    }

    constructor ()
      ensures Valid() && events == []
    {
      items, events := map[], [];
    }

    // What the never-swept map answers to the last operation.
    ghost function Expected(): Answer
      reads this
      requires events != []
    {
      var answers := RunUnswept(events).answers;
      if answers == [] then Nothing else answers[|answers| - 1]
    }

    method Add(id: string, content: string, ttl: Option<real>, now: real)
      requires Valid()
      modifies this
      ensures Valid() && events == old(events) + [Event(Op.Add(id, content, ttl), now)]
    {
      OneMore(events, Event(Op.Add(id, content, ttl), now));
      items := items[id := NewItem(id, content, ttl, now)];
      events := events + [Event(Op.Add(id, content, ttl), now)];
    }

    method Get(id: string, now: real) returns (item: Option<Item>)
      requires Valid()
      modifies this
      ensures Valid() && events == old(events) + [Event(Op.Get(id), now)]
      ensures Steady(Readings(events)) || item.Some? ==> Found(item) == Expected()
    {
      Answered(events, Event(Op.Get(id), now));
      events := events + [Event(Op.Get(id), now)];
      if id !in items {
        return None;
      }
      if Expired(items[id], now) {
        items := items - {id};
        return None;
      }
      item := Some(items[id]);
    }

    method Remove(id: string, now: real)
      requires Valid()
      modifies this
      ensures Valid() && events == old(events) + [Event(Op.Remove(id), now)]
    {
      OneMore(events, Event(Op.Remove(id), now));
      items := items - {id};
      events := events + [Event(Op.Remove(id), now)];
    }

    // The loop of sweep.
    method DropExpired(now: real)
      modifies this`items
      ensures items == Live(old(items), now)
    {
      var dropped := set id | id in items && Expired(items[id], now);
      while dropped != {}
        invariant forall id :: id in dropped ==> id in old(items) && Expired(old(items)[id], now)
        invariant forall id :: id in old(items) && Expired(old(items)[id], now) ==> id in dropped || id !in items
        invariant forall id :: id in items <==> id in old(items) && (Expired(old(items)[id], now) ==> id in dropped)
        invariant forall id :: id in items ==> items[id] == old(items)[id]
        decreases dropped
      {
        var id :| id in dropped;
        items := items - {id};
        dropped := dropped - {id};
      }
    }

    method Sweep(now: real)
      requires Valid()
      modifies this
      ensures Valid() && events == old(events) + [Event(Op.Sweep, now)]
    {
      OneMore(events, Event(Op.Sweep, now));
      DropExpired(now);
      events := events + [Event(Op.Sweep, now)];
    }

    method List(now: real) returns (s: seq<Item>)
      requires Valid()
      modifies this
      ensures Valid() && events == old(events) + [Event(Op.List, now)]
      ensures NewestFirst(s) && Expected().Listed? && forall x :: x in s ==> x in Expected().items
      ensures Steady(Readings(events)) ==> Lists(s, Expected().items)
    {
      hide RunLazy, RunUnswept, Steady, Within;
      Answered(events, Event(Op.List, now));
      LiveWithin(items, RunUnswept(events).items, now);
      DropExpired(now);
      events := events + [Event(Op.List, now)];
      s := SortNewestFirst(items.Values);
    }

    method Clear(now: real)
      requires Valid()
      modifies this
      ensures Valid() && events == old(events) + [Event(Op.Clear, now)]
    {
      OneMore(events, Event(Op.Clear, now));
      items := map[];
      events := events + [Event(Op.Clear, now)];
    }
  }

  lemma Answered(events: seq<Event>, e: Event)
    ensures RunLazy(events + [e]).items == Lazy(RunLazy(events).items, e.op, e.now).items
    ensures
      var answers := RunUnswept(events + [e]).answers;
      && answers != [] && answers[|answers| - 1] == Unswept(RunUnswept(events).items, e.op, e.now).answer
      && (Steady(Readings(events + [e])) ==>
            answers[|answers| - 1] == Lazy(RunLazy(events).items, e.op, e.now).answer)
    ensures Within(RunLazy(events).items, RunUnswept(events).items)
  {
    hide Lazy, Unswept, Within, Steady;
    OneMore(events, e);
    LazyWithin(events);
    if Steady(Readings(events + [e])) {
      SameAnswers(events + [e], Readings(events + [e]));
      assert RunLazy(events + [e]).answers == RunLazy(events).answers
        + [Lazy(RunLazy(events).items, e.op, e.now).answer];
    }
  }
}
