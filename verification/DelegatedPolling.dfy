/** The monitor on top of the polling adapter: what reaches the manager over a whole run
    (delegation/manager.py, _monitor, with intelligence/opencode.py, iter_session_events). */
module DelegatedPolling {
  import opened Wrappers
  import opened DelegationEvents
  import opened DelegationModels
  import opened DelegationRuns
  import opened EventSweep
  import opened DelegationGuarantees
  import opened DelegationMonitor

  // --- how much of a sweep a consumer sees

  function UpTo<T>(s: seq<T>, n: nat): seq<T> {
    if |s| <= n then s else s[..n]
  }

  // Everything the message part can yield.
  function AllMessages(items: seq<Item>, seen: set<string>): Part {
    SweepMessages(items, seen, |items| + 1)
  }

  function AllPermissions(pending: seq<Pending>, known: set<string>): Part {
    SweepPermissions(pending, known, |pending| + 1)
  }

  /** A consumer that stops early has seen a prefix; one that asks for more than there is has seen the end. */
  lemma {:induction false} MessagesUpTo(items: seq<Item>, seen: set<string>, take: nat, more: nat)
    requires more > |items|
    ensures
      var full, part := SweepMessages(items, seen, more), SweepMessages(items, seen, take);
      && full.ended && part.events == UpTo(full.events, take)
      && (part.ended <==> take > |full.events|) && (part.ended ==> part == full)
  {
    if items != [] {
      if items[0].Malformed? || items[0].id in seen {
        MessagesUpTo(items[1..], seen, take, more);
      } else if MessageEvent(items[0].body).None? {
        MessagesUpTo(items[1..], seen + {items[0].id}, take, more);
      } else {
        MessagesUpTo(items[1..], seen + {items[0].id}, if take > 0 then take - 1 else 0, more - 1);
      }
    }
  }

  lemma {:induction false} PermissionsUpTo(pending: seq<Pending>, known: set<string>, take: nat, more: nat)
    requires more > |pending|
    ensures
      var full, part := SweepPermissions(pending, known, more), SweepPermissions(pending, known, take);
      && full.ended && part.events == UpTo(full.events, take)
      && (part.ended <==> take > |full.events|) && (part.ended ==> part == full)
  {
    if pending != [] {
      if pending[0].Unusable? || pending[0].id in known {
        PermissionsUpTo(pending[1..], known, take, more);
      } else {
        PermissionsUpTo(pending[1..], known + {pending[0].id}, if take > 0 then take - 1 else 0, more - 1);
      }
    }
  }

  // All a sweep could yield, apart from the heartbeat.
  function Offered(s: Session, items: seq<Item>, pending: seq<Pending>): seq<Event> {
    AllMessages(items, s.seen).events + AllPermissions(pending, s.known).events
  }

  /** What one sweep has given, and whether it was exhausted, for a consumer that takes `take` events. */
  lemma SweepUpTo(s: Session, items: seq<Item>, pending: seq<Pending>, take: nat)
    ensures
      var w, all := SweepOnce(s, items, pending, take), Offered(s, items, pending);
      w.messages + w.permissions == UpTo(all, take) && (w.ended <==> take > |all|)
  {
    MessagesUpTo(items, s.seen, take, |items| + 1);
    var m := SweepMessages(items, s.seen, take);
    if m.ended {
      PermissionsUpTo(pending, s.known, take - |m.events|, |pending| + 1);
    }
  }

  /** A sweep taken to its end; the heartbeat stands in for nothing. */
  function FullSweep(s: Session, items: seq<Item>, pending: seq<Pending>): seq<Event> {
    if Offered(s, items, pending) == [] then [Note] else Offered(s, items, pending)
  }

  /** What the adapter yields is the full sweep, cut where the consumer stops. */
  lemma YieldedUpTo(s: Session, items: seq<Item>, pending: seq<Pending>, take: nat)
    requires take > 0
    ensures Yielded(SweepOnce(s, items, pending, take)) == UpTo(FullSweep(s, items, pending), take)
  {
    hide SweepOnce, Offered;
    SweepUpTo(s, items, pending, take);
    var w := SweepOnce(s, items, pending, take);
    assert w.messages == [] && w.permissions == [] <==> w.messages + w.permissions == [];
  }

  // --- requests and messages among the events

  // What the executor said: neither a permission request nor a note.
  function Spoken(events: seq<Event>): seq<Event> {
    if events == [] then [] else
      var e := events[|events| - 1];
      Spoken(events[..|events| - 1]) + if e.PermissionRequested? || e.Note? then [] else [e]
  }

  /** The places of what the executor said, in order. */
  ghost predicate SpokenPlaces(events: seq<Event>, places: seq<nat>) {
    && (forall i :: 0 <= i < |places| ==> places[i] < |events|)
    && (forall i, j :: 0 <= i < j < |places| ==> places[i] < places[j])
    && (forall k :: 0 <= k < |events| ==> (k in places <==> !events[k].PermissionRequested? && !events[k].Note?))
  }

  lemma SpokenStep(front: seq<Event>, e: Event, before: seq<nat>)
    requires SpokenPlaces(front, before)
    ensures SpokenPlaces(front + [e], if e.PermissionRequested? || e.Note? then before else before + [|front|])
  {
    var places := before + [|front|];
    assert places[|before|] == |front| && |front| !in before;
    assert forall k :: 0 <= k < |front| ==> (front + [e])[k] == front[k] && (k in places <==> k in before);
  }

  lemma {:induction false} SpokenAt(events: seq<Event>) returns (places: seq<nat>)
    ensures SpokenPlaces(events, places) && |Spoken(events)| == |places|
    ensures forall i :: 0 <= i < |places| ==> places[i] < |events| && Spoken(events)[i] == events[places[i]]
  {
    hide SpokenPlaces, Spoken;
    if events == [] {
      places := [];
      NothingSpoken();
    } else {
      var front, e := events[..|events| - 1], events[|events| - 1];
      var before := SpokenAt(front);
      SpokenStep(front, e, before);
      SpokenNext(front, e);
      places := if e.PermissionRequested? || e.Note? then before else before + [|front|];
      assert events == front + [e];
    }
  }

  lemma SpokenNext(front: seq<Event>, e: Event)
    ensures Spoken(front + [e]) == if e.PermissionRequested? || e.Note? then Spoken(front) else Spoken(front) + [e]
  {
    assert (front + [e])[..|front|] == front;
  }

  lemma NothingSpoken()
    ensures SpokenPlaces([], []) && Spoken([]) == []
  {
  }

  lemma {:induction false} FiltersConcat(a: seq<Event>, b: seq<Event>)
    ensures Requests(a + b) == Requests(a) + Requests(b) && Spoken(a + b) == Spoken(a) + Spoken(b)
  {
    if b == [] {
      assert a + b == a;
    } else {
      assert (a + b)[..|a + b| - 1] == a + b[..|b| - 1];
      FiltersConcat(a, b[..|b| - 1]);
    }
  }

  lemma {:induction false} OnlyMessages(events: seq<Event>)
    requires NoRequests(events)
    ensures Requests(events) == []
  {
    if events != [] {
      OnlyMessages(events[..|events| - 1]);
    }
  }

  lemma {:induction false} OnlyRequests(events: seq<Event>)
    requires forall i :: 0 <= i < |events| ==> events[i].PermissionRequested?
    ensures Requests(events) == events && Spoken(events) == []
  {
    if events != [] {
      OnlyRequests(events[..|events| - 1]);
      assert events == events[..|events| - 1] + [events[|events| - 1]];
    }
  }

  ghost predicate NoRequests(events: seq<Event>) {
    forall e :: e in events ==> !e.PermissionRequested?
  }

  lemma {:induction false} MessagesAreNoRequests(items: seq<Item>, seen: set<string>, take: nat)
    ensures NoRequests(SweepMessages(items, seen, take).events)
  {
    if items != [] && take > 0 {
      if items[0].Malformed? || items[0].id in seen {
        MessagesAreNoRequests(items[1..], seen, take);
      } else {
        var event := MessageEvent(items[0].body);
        MessagesAreNoRequests(items[1..], seen + {items[0].id}, if event.None? then take else take - 1);
        assert event.Some? ==> !event.value.PermissionRequested?;
      }
    }
  }

  lemma SweptParts(s: Session, items: seq<Item>, pending: seq<Pending>, take: nat)
    ensures
      var w := SweepOnce(s, items, pending, take);
      Requests(w.messages + w.permissions) == w.permissions && Spoken(w.messages + w.permissions) == Spoken(w.messages)
  {
    var w := SweepOnce(s, items, pending, take);
    var m := SweepMessages(items, s.seen, take);
    MessagesAreNoRequests(items, s.seen, take);
    SweptPermissionsFresh(pending, s.known, if |m.events| <= take then take - |m.events| else 0);
    assert w.messages == m.events;
    OnlyMessages(w.messages);
    OnlyRequests(w.permissions);
    FiltersConcat(w.messages, w.permissions);
  }

  // --- the monitor as the adapter's consumer

  lemma {:induction false} ReadExtent(env: Environment, events: seq<Event>, k: nat)
    ensures
      var r := Read(env, events, k);
      && (!r.lost ==> r.taken == |events|)
      && (r.lost ==> 0 < r.taken && events[r.taken - 1].PermissionRequested?)
  {
    if events != [] && !(events[0].PermissionRequested? && env.replyFails(k)) {
      ReadExtent(env, events[1..], if events[0].PermissionRequested? then k + 1 else k);
    }
  }

  // One look at the executor.
  datatype Snapshot = Snapshot(items: seq<Item>, pending: seq<Pending>)

  // None when the executor cannot be reached.
  type Snapshots = nat -> Option<Snapshot>

  // The events asked for: up to the failing reply, or one more than there are.
  function Take(env: Environment, n: nat): nat {
    var events := env.sweeps(n).events;
    var r := Read(env, events, |Requests(Stream(env, n))|);
    if r.lost then r.taken else |events| + 1
  }

  function PollOf(env: Environment, looks: Snapshots, n: nat): Poll {
    if looks(n).None? then Poll.Lost else Poll(looks(n).value.items, looks(n).value.pending, Take(env, n))
  }

  function Polls(env: Environment, looks: Snapshots, n: nat): seq<Poll> {
    if n == 0 then [] else Polls(env, looks, n - 1) + [PollOf(env, looks, n - 1)]
  }

  /** Every sweep is the adapter's, in the state its earlier sweeps left it in. */
  ghost predicate PollsAdapter(env: Environment, looks: Snapshots) {
    forall n: nat {:trigger env.sweeps(n)} :: env.sweeps(n) ==
      if looks(n).None? then Sweep([], true)
      else Sweep(FullSweep(Replay(Polls(env, looks, n)).after, looks(n).value.items, looks(n).value.pending), false)
  }

  // One more sweep, of which the monitor takes its part.
  lemma SweepConsumed(env: Environment, s: Session, look: Snapshot, k: nat)
    ensures
      var events := FullSweep(s, look.items, look.pending);
      var r := Read(env, events, k);
      var w := SweepOnce(s, look.items, look.pending, if r.lost then r.taken else |events| + 1);
      Requests(events[..r.taken]) == w.permissions && Spoken(events[..r.taken]) == Spoken(w.messages)
  {
    hide SweepOnce, Offered, Read, Requests, Spoken;
    var events, all := FullSweep(s, look.items, look.pending), Offered(s, look.items, look.pending);
    var r := Read(env, events, k);
    ReadExtent(env, events, k);
    var take := if r.lost then r.taken else |events| + 1;
    var w := SweepOnce(s, look.items, look.pending, take);
    SweepUpTo(s, look.items, look.pending, take);
    SweptParts(s, look.items, look.pending, take);
    if all == [] {
      assert !r.lost;
      assert events[..r.taken] == [Note] && w.messages + w.permissions == [];
      NoteFiltered();
    } else {
      assert events[..r.taken] == w.messages + w.permissions;
    }
  }

  lemma NoteFiltered()
    ensures Requests([Note]) == Requests([]) == [] && Spoken([Note]) == Spoken([]) == []
  {
    assert [Note][..0] == [];
  }

  lemma ReplayNext(polls: seq<Poll>, p: Poll)
    ensures p.Lost? ==> Replay(polls + [p]) == Replay(polls)
    ensures p.Poll? ==>
      var w := SweepOnce(Replay(polls).after, p.items, p.pending, p.take);
      && Replay(polls + [p]).messages == Replay(polls).messages + w.messages
      && Replay(polls + [p]).permissions == Replay(polls).permissions + w.permissions
  {
    assert (polls + [p])[..|polls|] == polls;
  }

  lemma StreamNext(env: Environment, n: nat)
    ensures Stream(env, n + 1) == Stream(env, n)
      + env.sweeps(n).events[..Read(env, env.sweeps(n).events, |Requests(Stream(env, n))|).taken]
  {
  }

  lemma AdapterSweep(env: Environment, looks: Snapshots, n: nat)
    requires PollsAdapter(env, looks)
    ensures env.sweeps(n) ==
      if looks(n).None? then Sweep([], true)
      else Sweep(FullSweep(Replay(Polls(env, looks, n)).after, looks(n).value.items, looks(n).value.pending), false)
  {
  }

  /** Over any number of sweeps, the permission requests and the messages offered to the monitor are those of the
      series of polls. */
  lemma {:induction false} StreamIsReplay(env: Environment, looks: Snapshots, n: nat)
    requires PollsAdapter(env, looks)
    ensures Requests(Stream(env, n)) == Replay(Polls(env, looks, n)).permissions
    ensures Spoken(Stream(env, n)) == Spoken(Replay(Polls(env, looks, n)).messages)
  {
    hide PollsAdapter, SweepOnce, Offered, Read, FullSweep, PollOf, Take;
    if n > 0 {
      StreamIsReplay(env, looks, n - 1);
      StreamStep(env, looks, n - 1);
    }
  }

  lemma StreamStep(env: Environment, looks: Snapshots, n: nat)
    requires PollsAdapter(env, looks)
    requires Requests(Stream(env, n)) == Replay(Polls(env, looks, n)).permissions
    requires Spoken(Stream(env, n)) == Spoken(Replay(Polls(env, looks, n)).messages)
    ensures Requests(Stream(env, n + 1)) == Replay(Polls(env, looks, n + 1)).permissions
    ensures Spoken(Stream(env, n + 1)) == Spoken(Replay(Polls(env, looks, n + 1)).messages)
  {
    hide PollsAdapter, SweepOnce, Offered, Read, Requests, Spoken, FullSweep, Stream, Replay;
    var before, sweep, k := Stream(env, n), env.sweeps(n), |Requests(Stream(env, n))|;
    var taken := Read(env, sweep.events, k).taken;
    var polls := Polls(env, looks, n);
    AdapterSweep(env, looks, n);
    StreamNext(env, n);
    ReplayNext(polls, PollOf(env, looks, n));
    FiltersConcat(before, sweep.events[..taken]);
    if looks(n).None? {
      assert sweep.events[..taken] == [];
      NoteFiltered();
    } else {
      SweepConsumed(env, Replay(polls).after, looks(n).value, k);
      var w := SweepOnce(Replay(polls).after, looks(n).value.items, looks(n).value.pending, Take(env, n));
      FiltersConcat(Replay(polls).messages, w.messages);
    }
  }

  // --- there is such an environment, whatever is seen at each look

  // The environment in which the first sweeps are these.
  function Offering(env: Environment, sweeps: seq<Sweep>): Environment {
    env.(sweeps := (n: nat) => if n < |sweeps| then sweeps[n] else Sweep([], true))
  }

  function NextSweep(env: Environment, looks: Snapshots, n: nat): Sweep {
    if looks(n).None? then Sweep([], true)
    else Sweep(FullSweep(Replay(Polls(env, looks, n)).after, looks(n).value.items, looks(n).value.pending), false)
  }

  // The first n sweeps of the adapter, each in the state the earlier ones left.
  function AdapterSweeps(env: Environment, looks: Snapshots, n: nat): (sweeps: seq<Sweep>)
    ensures |sweeps| == n
  {
    if n == 0 then [] else
      var before := AdapterSweeps(env, looks, n - 1);
      before + [NextSweep(Offering(env, before), looks, n - 1)]
  }

  function AdapterEnvironment(env: Environment, looks: Snapshots): Environment {
    env.(sweeps := (n: nat) => AdapterSweeps(env, looks, n + 1)[n])
  }

  lemma {:induction false} SweepsExtend(env: Environment, looks: Snapshots, m: nat, n: nat)
    requires m <= n
    ensures AdapterSweeps(env, looks, n)[..m] == AdapterSweeps(env, looks, m)
    decreases n
  {
    hide NextSweep;
    if m < n {
      SweepsExtend(env, looks, m, n - 1);
      assert AdapterSweeps(env, looks, n)[..m] == AdapterSweeps(env, looks, n - 1)[..m];
    }
  }

  ghost predicate SameUpTo(a: Environment, b: Environment, n: nat) {
    a.replyFails == b.replyFails && forall k: nat :: k < n ==> a.sweeps(k) == b.sweeps(k)
  }

  lemma {:induction false} ReadSame(a: Environment, b: Environment, events: seq<Event>, k: nat)
    requires a.replyFails == b.replyFails
    ensures Read(a, events, k) == Read(b, events, k)
  {
    if events != [] && !(events[0].PermissionRequested? && a.replyFails(k)) {
      ReadSame(a, b, events[1..], if events[0].PermissionRequested? then k + 1 else k);
    }
  }

  // What was polled so far depends only on the sweeps so far.
  lemma {:induction false} PollsSame(a: Environment, b: Environment, looks: Snapshots, n: nat)
    requires SameUpTo(a, b, n)
    ensures Stream(a, n) == Stream(b, n) && Polls(a, looks, n) == Polls(b, looks, n)
  {
    hide Read, Requests;
    if n > 0 {
      PollsSame(a, b, looks, n - 1);
      ReadSame(a, b, a.sweeps(n - 1).events, |Requests(Stream(a, n - 1))|);
    }
  }

  /** Every series of looks at the executor belongs to an environment that polls the adapter. */
  lemma AdapterEnvironmentPolls(env: Environment, looks: Snapshots)
    ensures PollsAdapter(AdapterEnvironment(env, looks), looks)
  {
    hide NextSweep, AdapterSweeps;
    var all := AdapterEnvironment(env, looks);
    forall n: nat ensures all.sweeps(n) == NextSweep(all, looks, n) {
      var before := AdapterSweeps(env, looks, n);
      LastSweep(env, looks, n);
      forall k: nat | k < n ensures all.sweeps(k) == Offering(env, before).sweeps(k) {
        SweepsExtend(env, looks, k + 1, n);
      }
      SameNext(all, Offering(env, before), looks, n);
    }
    PollsAdapterIf(all, looks);
  }

  lemma LastSweep(env: Environment, looks: Snapshots, n: nat)
    ensures AdapterSweeps(env, looks, n + 1)[n] == NextSweep(Offering(env, AdapterSweeps(env, looks, n)), looks, n)
  {
    hide NextSweep;
  }

  lemma SameNext(a: Environment, b: Environment, looks: Snapshots, n: nat)
    requires SameUpTo(a, b, n)
    ensures NextSweep(a, looks, n) == NextSweep(b, looks, n)
  {
    hide Polls, Replay, FullSweep;
    PollsSame(a, b, looks, n);
  }

  lemma PollsAdapterIf(env: Environment, looks: Snapshots)
    requires forall n: nat {:trigger env.sweeps(n)} :: env.sweeps(n) == NextSweep(env, looks, n)
    ensures PollsAdapter(env, looks)
  {
  }

  // --- whole runs

  lemma FiltersPrefix(a: seq<Event>, b: seq<Event>)
    requires a <= b
    ensures Requests(a) <= Requests(b) && Spoken(a) <= Spoken(b)
  {
    assert b == a + b[|a|..];
    FiltersConcat(a, b[|a|..]);
  }

  // What the monitor acted on lies within the stream of the sweeps it asked for.
  lemma WithinStream(env: Environment, wall: real, log: seq<Entry>)
    requires WithinBounds(env, wall, log)
    ensures Events(log) <= Stream(env, SweepCount(log))
  {
    hide Events, SweepCount, Stream;
  }

  /** No permission id is answered twice in a run, however often polls fail and replies are lost. */
  lemma NoPermissionAnsweredTwice(env: Environment, looks: Snapshots, limits: DelegationLimits, deadline: real,
                                  log: seq<Entry>, r: DelegationResult, i: nat, j: nat)
    requires PollsAdapter(env, looks) && limits.Valid()
    requires Closed(env, limits, deadline, log, r) && WithinBounds(env, limits.maxWallTimeSeconds, log)
    requires i < j < |Answers(log)|
    ensures Answers(log)[i].id != Answers(log)[j].id
  {
    hide PollsAdapter, Closed, WithinBounds, Events, Requests, Answers, Verdicts, Stream, Replay, Polls, SweepCount;
    var n := SweepCount(log);
    var polls := Polls(env, looks, n);
    WithinStream(env, limits.maxWallTimeSeconds, log);
    FiltersPrefix(Events(log), Stream(env, n));
    StreamIsReplay(env, looks, n);
    PermissionsSurfaceOnce(polls);
    RequestsAnswered(env, limits, deadline, log, r);
    var requests := Requests(Events(log));
    var most := if |requests| <= limits.maxPermissionRequests then |requests| else limits.maxPermissionRequests;
    VerdictAt(env, requests[..most]);
    assert Answers(log)[i].id == requests[i].id && Answers(log)[j].id == requests[j].id;
    assert requests[i] == Replay(polls).permissions[i] && requests[j] == Replay(polls).permissions[j];
  }

  lemma {:induction false} PollsShowTimeline(env: Environment, looks: Snapshots, timeline: seq<Item>, n: nat)
    requires forall k: nat :: looks(k).Some? ==> looks(k).value.items <= timeline
    ensures SnapshotsOf(Polls(env, looks, n), timeline)
  {
    hide Take;
    if n > 0 {
      PollsShowTimeline(env, looks, timeline, n - 1);
    }
  }

  /** While the timeline only grows, the executor's messages reach the manager once each, in order and without a
      gap, whatever was lost in between: the i-th one that the manager saw is the i-th one of the timeline. */
  lemma MessagesReachManagerOnce(env: Environment, looks: Snapshots, timeline: seq<Item>, wall: real, log: seq<Entry>)
    returns (seen: seq<nat>, said: seq<nat>)
    requires PollsAdapter(env, looks) && WithinBounds(env, wall, log)
    requires forall k: nat :: looks(k).Some? ==> looks(k).value.items <= timeline
    ensures SpokenPlaces(Events(log), seen) && SpokenPlaces(Translate(timeline, {}), said) && |seen| <= |said|
    ensures forall i :: 0 <= i < |seen| ==>
      && seen[i] < |Events(log)| && said[i] < |Translate(timeline, {})|
      && Events(log)[seen[i]] == Translate(timeline, {})[said[i]]
  {
    hide PollsAdapter, WithinBounds, Events, Translate, Spoken, SpokenPlaces;
    seen := SpokenAt(Events(log));
    said := SpokenAt(Translate(timeline, {}));
    MessagesInOrder(env, looks, timeline, wall, log);
  }

  lemma MessagesInOrder(env: Environment, looks: Snapshots, timeline: seq<Item>, wall: real, log: seq<Entry>)
    requires PollsAdapter(env, looks) && WithinBounds(env, wall, log)
    requires forall k: nat :: looks(k).Some? ==> looks(k).value.items <= timeline
    ensures Spoken(Events(log)) <= Spoken(Translate(timeline, {}))
  {
    hide PollsAdapter, WithinBounds, Events, Stream, Replay, Polls, SweepCount, Translate, Spoken, Requests;
    var n := SweepCount(log);
    WithinStream(env, wall, log);
    FiltersPrefix(Events(log), Stream(env, n));
    StreamIsReplay(env, looks, n);
    PollsShowTimeline(env, looks, timeline, n);
    var k := PollingReproducesStream(Polls(env, looks, n), timeline);
    assert timeline == timeline[..k] + timeline[k..];
    TranslateConcat(timeline[..k], timeline[k..], {});
    FiltersPrefix(Translate(timeline[..k], {}), Translate(timeline, {}));
  }
}
