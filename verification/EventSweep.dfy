/** The polling adapter's event sweep and what a series of sweeps amounts to (intelligence/opencode.py). */
module EventSweep {
  import opened Wrappers
  import opened DelegationEvents

  // The payload of a timeline message, its text fields already stripped (None when blank).
  datatype Body =
    | UserTurn
    | IdleTurn(outcome: Option<string>, summary: Option<string>)
    | AssistantTurn(error: Option<Option<string>>, text: string)
    | OtherTurn

  // Malformed: not an object, or without a string id.
  datatype Item = Malformed | Item(id: string, body: Body)

  // id is the first usable of the three id fields.
  datatype Pending = Unusable | Pending(id: string, action: Option<string>, path: string, text: Option<string>)

  // _message_event
  function MessageEvent(b: Body): Option<Event> {
    match b
    case UserTurn => None
    case IdleTurn(outcome, summary) =>
      if outcome.Some? && outcome.value != "succeeded" then
        Some(ExecutorFailed("executor session ended: " + outcome.value))
      else Some(Completed(summary))
    case AssistantTurn(error, text) =>
      if error.Some? then
        Some(ExecutorFailed(if error.value.Some? then error.value.value else "executor reported failure"))
      else Some(Progress(if text != "" then Some(text) else None))
    case OtherTurn => Some(Note)
  }

  function EventOf(p: Pending): Event
    requires p.Pending?
  {
    PermissionRequested(p.id, if p.action.Some? then p.action.value else "unknown", p.path, p.text)
  }

  // --- the stream that polling is meant to reproduce

  function IdsIn(items: seq<Item>): set<string> {
    set i | 0 <= i < |items| && items[i].Item? :: items[i].id
  }

  /** The events of a timeline: each message once, at its first appearance, in order. */
  function Translate(items: seq<Item>, seen: set<string>): seq<Event> {
    if items == [] then [] else
      var first, rest := items[0], items[1..];
      if first.Malformed? || first.id in seen then Translate(rest, seen)
      else
        (match MessageEvent(first.body) case None => [] case Some(e) => [e]) + Translate(rest, seen + {first.id})
  }

  lemma IdsInCons(items: seq<Item>)
    requires items != []
    ensures IdsIn(items) == IdsIn(items[1..]) + if items[0].Item? then {items[0].id} else {}
  {
  }

  /** A timeline read in two pieces: the second is read with the ids of the first already seen. */
  lemma {:induction false} TranslateConcat(a: seq<Item>, b: seq<Item>, seen: set<string>)
    ensures Translate(a + b, seen) == Translate(a, seen) + Translate(b, seen + IdsIn(a))
  {
    if a == [] {
      assert a + b == b && seen + IdsIn(a) == seen;
    } else {
      assert (a + b)[1..] == a[1..] + b;
      IdsInCons(a);
      var next := if a[0].Malformed? || a[0].id in seen then seen else seen + {a[0].id};
      TranslateConcat(a[1..], b, next);
      assert next + IdsIn(a[1..]) == seen + IdsIn(a);
    }
  }

  lemma {:induction false} TranslateSeen(items: seq<Item>, seen: set<string>)
    requires IdsIn(items) <= seen
    ensures Translate(items, seen) == []
  {
    if items != [] {
      IdsInCons(items);
      TranslateSeen(items[1..], seen);
    }
  }

  // --- one sweep

  // What the consumer got before it stopped asking, the ids recorded, and whether the part ran to its end.
  datatype Part = Part(events: seq<Event>, ids: set<string>, ended: bool)

  /** The message part of a sweep whose consumer asks for `take` events. */
  function SweepMessages(items: seq<Item>, seen: set<string>, take: nat): Part {
    if take == 0 then Part([], seen, false)
    else if items == [] then Part([], seen, true)
    else if items[0].Malformed? || items[0].id in seen then SweepMessages(items[1..], seen, take)
    else
      match MessageEvent(items[0].body)
      case None => SweepMessages(items[1..], seen + {items[0].id}, take)
      case Some(e) =>
        var rest := SweepMessages(items[1..], seen + {items[0].id}, take - 1);
        Part([e] + rest.events, rest.ids, rest.ended)
  }

  function SweepPermissions(pending: seq<Pending>, known: set<string>, take: nat): Part {
    if take == 0 then Part([], known, false)
    else if pending == [] then Part([], known, true)
    else if pending[0].Unusable? || pending[0].id in known then SweepPermissions(pending[1..], known, take)
    else
      var rest := SweepPermissions(pending[1..], known + {pending[0].id}, take - 1);
      Part([EventOf(pending[0])] + rest.events, rest.ids, rest.ended)
  }

  /** However early the consumer stops, the events are those of a prefix, and its ids are recorded. */
  lemma {:induction false} SweepIsPrefix(items: seq<Item>, seen: set<string>, take: nat) returns (n: nat)
    ensures n <= |items|
    ensures SweepMessages(items, seen, take).events == Translate(items[..n], seen)
    ensures SweepMessages(items, seen, take).ids == seen + IdsIn(items[..n])
    ensures SweepMessages(items, seen, take).ended ==> n == |items|
    ensures !SweepMessages(items, seen, take).ended ==> |SweepMessages(items, seen, take).events| == take
  {
    if take == 0 || items == [] {
      n := 0;
      assert seen + IdsIn(items[..0]) == seen;
    } else {
      var next := if items[0].Malformed? || items[0].id in seen then seen else seen + {items[0].id};
      var emits := items[0].Item? && items[0].id !in seen && MessageEvent(items[0].body).Some?;
      var m := SweepIsPrefix(items[1..], next, if emits then take - 1 else take);
      n := m + 1;
      assert items[..n][1..] == items[1..][..m];
      IdsInCons(items[..n]);
      assert next + IdsIn(items[1..][..m]) == seen + IdsIn(items[..n]);
    }
  }

  // --- a series of polls of one session

  // Lost: the poll raised before anything was recorded.
  datatype Poll = Lost | Poll(items: seq<Item>, pending: seq<Pending>, take: nat)

  datatype Session = Session(seen: set<string>, known: set<string>)

  datatype Swept = Swept(messages: seq<Event>, permissions: seq<Event>, after: Session, ended: bool)

  /** Everything one sweep yields and records; permissions follow only when the messages were exhausted. */
  function SweepOnce(s: Session, items: seq<Item>, pending: seq<Pending>, take: nat): Swept {
    var m := SweepMessages(items, s.seen, take);
    if !m.ended then Swept(m.events, [], Session(m.ids, s.known), false)
    else
      var rest := if |m.events| <= take then take - |m.events| else 0;
      var p := SweepPermissions(pending, s.known, rest);
      Swept(m.events, p.events, Session(m.ids, p.ids), p.ended)
  }

  // The events the consumer sees: a heartbeat when an exhausted sweep found nothing.
  function Yielded(w: Swept): seq<Event> {
    w.messages + w.permissions + if w.ended && w.messages == [] && w.permissions == [] then [Note] else []
  }

  // What a series of polls yields in all.
  function Replay(polls: seq<Poll>): Swept {
    if polls == [] then Swept([], [], Session({}, {}), true)
    else
      var before, last := Replay(polls[..|polls| - 1]), polls[|polls| - 1];
      if last.Lost? then before
      else
        var w := SweepOnce(before.after, last.items, last.pending, last.take);
        Swept(before.messages + w.messages, before.permissions + w.permissions, w.after, w.ended)
  }

  // Every snapshot is a prefix of the timeline, as it is when messages are only ever appended.
  ghost predicate SnapshotsOf(polls: seq<Poll>, timeline: seq<Item>) {
    forall i :: 0 <= i < |polls| && polls[i].Poll? ==> polls[i].items <= timeline
  }

  // One more sweep of the same timeline.
  lemma SweepExtends(timeline: seq<Item>, items: seq<Item>, n: nat, take: nat) returns (n': nat)
    requires n <= |timeline| && items <= timeline
    ensures n <= n' <= |timeline|
    ensures Translate(timeline[..n], {}) + SweepMessages(items, IdsIn(timeline[..n]), take).events
         == Translate(timeline[..n'], {})
    ensures SweepMessages(items, IdsIn(timeline[..n]), take).ids == IdsIn(timeline[..n'])
    ensures SweepMessages(items, IdsIn(timeline[..n]), take).ended ==> n' >= |items|
  {
    var seen := IdsIn(timeline[..n]);
    var m := SweepIsPrefix(items, seen, take);
    assert items[..m] == timeline[..m];
    if m <= n {
      n' := n;
      IdsOfPrefix(timeline, m, n);
      TranslateSeen(timeline[..m], seen);
      assert seen + IdsIn(timeline[..m]) == seen;
    } else {
      n' := m;
      var old_, new_ := timeline[..n], timeline[n..m];
      assert timeline[..m] == old_ + new_;
      TranslateConcat(old_, new_, seen);
      TranslateSeen(old_, seen);
      TranslateConcat(old_, new_, {});
      IdsOfPrefix(timeline, n, m);
      assert seen + seen == seen && {} + seen == seen && seen + IdsIn(timeline[..m]) == IdsIn(timeline[..m]);
    }
  }

  lemma IdsOfPrefix(timeline: seq<Item>, m: nat, n: nat)
    requires m <= n <= |timeline|
    ensures IdsIn(timeline[..m]) <= IdsIn(timeline[..n])
  {
  }

  /** Polling reproduces the stream: however the timeline is cut into sweeps, whichever polls are lost, and
      wherever the consumer stops asking, the message events are the translation of a prefix of the timeline,
      and of at least the last snapshot when its messages were exhausted. */
  lemma {:induction false} PollingReproducesStream(polls: seq<Poll>, timeline: seq<Item>) returns (n: nat)
    requires SnapshotsOf(polls, timeline)
    ensures n <= |timeline|
    ensures Replay(polls).messages == Translate(timeline[..n], {})
    ensures Replay(polls).after.seen == IdsIn(timeline[..n])
    ensures polls != [] && polls[|polls| - 1].Poll? && Replay(polls).ended ==> n >= |polls[|polls| - 1].items|
  {
    if polls == [] {
      n := 0;
    } else {
      var front, last := polls[..|polls| - 1], polls[|polls| - 1];
      n := PollingReproducesStream(front, timeline);
      if last.Poll? {
        n := SweepExtends(timeline, last.items, n, last.take);
      }
    }
  }

  // --- permissions

  predicate FreshIds(events: seq<Event>, known: set<string>) {
    && (forall i :: 0 <= i < |events| ==> events[i].PermissionRequested? && events[i].id !in known)
    && (forall i, j :: 0 <= i < j < |events| ==> events[i].id != events[j].id)
  }

  function PermissionIds(events: seq<Event>): set<string> {
    set i | 0 <= i < |events| && events[i].PermissionRequested? :: events[i].id
  }

  lemma {:induction false} SweptPermissionsFresh(pending: seq<Pending>, known: set<string>, take: nat)
    ensures FreshIds(SweepPermissions(pending, known, take).events, known)
    ensures SweepPermissions(pending, known, take).ids
         == known + PermissionIds(SweepPermissions(pending, known, take).events)
  {
    if take > 0 && pending != [] {
      if pending[0].Unusable? || pending[0].id in known {
        SweptPermissionsFresh(pending[1..], known, take);
      } else {
        var id := pending[0].id;
        SweptPermissionsFresh(pending[1..], known + {id}, take - 1);
        var rest := SweepPermissions(pending[1..], known + {id}, take - 1).events;
        var all := SweepPermissions(pending, known, take).events;
        assert all == [EventOf(pending[0])] + rest;
        ConsPermission(EventOf(pending[0]), rest);
        assert (known + {id}) + PermissionIds(rest) == known + PermissionIds(all);
      }
    }
  }

  lemma ConsPermission(e: Event, rest: seq<Event>)
    requires e.PermissionRequested?
    ensures PermissionIds([e] + rest) == {e.id} + PermissionIds(rest)
  {
    JoinPermissions([e], rest);
    assert PermissionIds([e]) == {e.id} by {
      assert [e][0].id in PermissionIds([e]);
    }
  }

  lemma JoinPermissions(a: seq<Event>, b: seq<Event>)
    ensures PermissionIds(a + b) == PermissionIds(a) + PermissionIds(b)
  {
    var all := a + b;
    forall x | x in PermissionIds(a) + PermissionIds(b) ensures x in PermissionIds(all) {
      if x in PermissionIds(a) {
        var i :| 0 <= i < |a| && a[i].PermissionRequested? && a[i].id == x;
        assert all[i].id == x;
      } else {
        var i :| 0 <= i < |b| && b[i].PermissionRequested? && b[i].id == x;
        assert all[|a| + i].id == x;
      }
    }
    forall x | x in PermissionIds(all) ensures x in PermissionIds(a) + PermissionIds(b) {
      var i :| 0 <= i < |all| && all[i].PermissionRequested? && all[i].id == x;
      if i < |a| {
        assert a[i].id == x;
      } else {
        assert b[i - |a|].id == x;
      }
    }
  }

  /** Over a whole series of polls each permission id surfaces at most once. */
  lemma {:induction false} PermissionsSurfaceOnce(polls: seq<Poll>)
    ensures FreshIds(Replay(polls).permissions, {})
    ensures Replay(polls).after.known == PermissionIds(Replay(polls).permissions)
  {
    if polls != [] {
      var front, last := polls[..|polls| - 1], polls[|polls| - 1];
      PermissionsSurfaceOnce(front);
      if last.Poll? {
        var before := Replay(front);
        var w := SweepOnce(before.after, last.items, last.pending, last.take);
        var m := SweepMessages(last.items, before.after.seen, last.take);
        SweptPermissionsFresh(last.pending, before.after.known,
                              if |m.events| <= last.take then last.take - |m.events| else 0);
        JoinPermissions(before.permissions, w.permissions);
        assert forall i :: 0 <= i < |before.permissions| ==>
          before.permissions[i].id in PermissionIds(before.permissions);
      }
    }
  }

  /** A sweep that runs to its end yields something, so a healthy quiet session is never taken for a lost one. */
  lemma ExhaustedSweepYields(s: Session, items: seq<Item>, pending: seq<Pending>, take: nat)
    requires take > 0
    ensures Yielded(SweepOnce(s, items, pending, take)) != []
  {
    var n := SweepIsPrefix(items, s.seen, take);
    PermissionsStop(pending, s.known, take);
  }

  lemma {:induction false} PermissionsStop(pending: seq<Pending>, known: set<string>, take: nat)
    ensures !SweepPermissions(pending, known, take).ended ==> |SweepPermissions(pending, known, take).events| == take
  {
    if take > 0 && pending != [] {
      if pending[0].Unusable? || pending[0].id in known {
        PermissionsStop(pending[1..], known, take);
      } else {
        PermissionsStop(pending[1..], known + {pending[0].id}, take - 1);
      }
    }
  }

  // --- everything a sweep must yield

  /** What a message tells the consumer: nothing for the consumer's own prompt; the end of the session, good or bad;
      an answer's error or text; and any other message as a note. */
  predicate Tells(b: Body, told: Option<Event>) {
    && (b.UserTurn? ==> told.None?)
    && (b.IdleTurn? && (b.outcome.None? || b.outcome.value == "succeeded") ==> told == Some(Completed(b.summary)))
    && (b.IdleTurn? && b.outcome.Some? && b.outcome.value != "succeeded" ==>
          told == Some(ExecutorFailed("executor session ended: " + b.outcome.value)))
    && (b.AssistantTurn? && b.error.Some? && b.error.value.Some? ==> told == Some(ExecutorFailed(b.error.value.value)))
    && (b.AssistantTurn? && b.error.Some? && b.error.value.None? ==>
          told == Some(ExecutorFailed("executor reported failure")))
    && (b.AssistantTurn? && b.error.None? && b.text != "" ==> told == Some(Progress(Some(b.text))))
    && (b.AssistantTurn? && b.error.None? && b.text == "" ==> told == Some(Progress(None)))
    && (b.OtherTurn? ==> told == Some(Note))
  }

  predicate Increasing(picks: seq<int>, n: int) {
    && (forall i :: 0 <= i < |picks| ==> 0 <= picks[i] < n)
    && (forall i, j :: 0 <= i < j < |picks| ==> picks[i] < picks[j])
  }

  // A message that tells something: the first with its id, not seen in an earlier sweep, and not the consumer's own.
  ghost predicate FirstSeen(items: seq<Item>, seen: set<string>, k: int) {
    && 0 <= k < |items| && items[k].Item? && items[k].id !in seen && !items[k].body.UserTurn?
    && (forall j :: 0 <= j < k && items[j].Item? ==> items[j].id != items[k].id)
  }

  predicate ItemTells(item: Item, e: Event) {
    item.Item? && Tells(item.body, Some(e))
  }

  // Each such message, in order, and what it tells.
  ghost predicate TellsAll(items: seq<Item>, seen: set<string>, picks: seq<int>, events: seq<Event>) {
    && Increasing(picks, |items|) && |events| == |picks|
    && (forall k {:trigger k in picks} :: k in picks <==> FirstSeen(items, seen, k))
    && (forall i :: 0 <= i < |picks| ==> ItemTells(items[picks[i]], events[i]))
  }

  function Shifted(picks: seq<int>): (r: seq<int>)
    ensures |r| == |picks| && forall i :: 0 <= i < |picks| ==> r[i] == picks[i] + 1
  {
    seq(|picks|, i requires 0 <= i < |picks| => picks[i] + 1)
  }

  lemma ShiftedMember(picks: seq<int>, k: int)
    ensures k in Shifted(picks) <==> k - 1 in picks
  {
    if k - 1 in picks {
      var i :| 0 <= i < |picks| && picks[i] == k - 1;
      assert Shifted(picks)[i] == k;
    }
  }

  predicate TellsFirst(items: seq<Item>, seen: set<string>) {
    items != [] && items[0].Item? && items[0].id !in seen && !items[0].body.UserTurn?
  }

  function SeenAfter(items: seq<Item>, seen: set<string>): set<string>
    requires items != []
  {
    if items[0].Item? then seen + {items[0].id} else seen
  }

  lemma FirstSeenLater(items: seq<Item>, seen: set<string>, k: int)
    requires items != []
    ensures FirstSeen(items, seen, k) <==>
      (k == 0 && TellsFirst(items, seen)) || FirstSeen(items[1..], SeenAfter(items, seen), k - 1)
  {
    if FirstSeen(items, seen, k) && k > 0 {
      assert forall j :: 0 <= j < k - 1 ==> items[1..][j] == items[j + 1];
    }
    if FirstSeen(items[1..], SeenAfter(items, seen), k - 1) {
      assert forall j :: 0 < j < k ==> items[j] == items[1..][j - 1];
    }
  }

  /** The translation is complete: every message that tells something does, once, at its first appearance, in order. */
  lemma {:induction false} TranslateTells(items: seq<Item>, seen: set<string>) returns (picks: seq<int>)
    ensures TellsAll(items, seen, picks, Translate(items, seen))
  {
    if items == [] {
      picks := [];
    } else {
      var next := SeenAfter(items, seen);
      assert items[0].Item? && items[0].id in seen ==> next == seen;
      var later := TranslateTells(items[1..], next);
      var rest := Translate(items[1..], next);
      if TellsFirst(items, seen) {
        picks := [0] + Shifted(later);
        assert Translate(items, seen)[1..] == rest;
        TellsOneMore(items, seen, later, rest, Translate(items, seen));
      } else {
        picks := Shifted(later);
        assert Translate(items, seen) == rest;
        TellsNoMore(items, seen, later, rest);
      }
    }
  }

  lemma TellsNoMore(items: seq<Item>, seen: set<string>, later: seq<int>, told: seq<Event>)
    requires items != [] && TellsAll(items[1..], SeenAfter(items, seen), later, told) && !TellsFirst(items, seen)
    ensures TellsAll(items, seen, Shifted(later), told)
  {
    hide ItemTells, FirstSeen, TellsFirst, SeenAfter;
    var picks := Shifted(later);
    forall k ensures k in picks <==> FirstSeen(items, seen, k) {
      FirstSeenLater(items, seen, k);
      ShiftedMember(later, k);
    }
    forall i | 0 <= i < |picks| ensures ItemTells(items[picks[i]], told[i]) {
      assert items[picks[i]] == items[1..][later[i]];
    }
  }

  lemma TellsOneMore(items: seq<Item>, seen: set<string>, later: seq<int>, told: seq<Event>, all: seq<Event>)
    requires items != [] && TellsAll(items[1..], SeenAfter(items, seen), later, told) && TellsFirst(items, seen)
    requires |all| == |told| + 1 && all[1..] == told && ItemTells(items[0], all[0])
    ensures TellsAll(items, seen, [0] + Shifted(later), all)
  {
    hide ItemTells, FirstSeen, TellsFirst, SeenAfter;
    var picks := [0] + Shifted(later);
    forall k ensures k in picks <==> FirstSeen(items, seen, k) {
      FirstSeenLater(items, seen, k);
      ShiftedMember(later, k);
      assert k in picks <==> k == 0 || k in Shifted(later);
    }
    forall i | 0 <= i < |picks| ensures ItemTells(items[picks[i]], all[i]) {
      if i > 0 {
        assert picks[i] == later[i - 1] + 1 && all[i] == told[i - 1];
        assert items[picks[i]] == items[1..][later[i - 1]];
      }
    }
  }

  // --- every pending permission

  // The first usable entry with its id, and not known from an earlier sweep.
  ghost predicate FirstPending(pending: seq<Pending>, known: set<string>, k: int) {
    && 0 <= k < |pending| && pending[k].Pending? && pending[k].id !in known
    && (forall j :: 0 <= j < k && pending[j].Pending? ==> pending[j].id != pending[k].id)
  }

  // The request that the consumer sees for it.
  predicate Asks(p: Pending, e: Event) {
    && p.Pending? && e.PermissionRequested? && e.id == p.id && e.path == p.path && e.text == p.text
    && (p.action.Some? ==> e.action == p.action.value) && (p.action.None? ==> e.action == "unknown")
  }

  ghost predicate AsksAll(pending: seq<Pending>, known: set<string>, picks: seq<int>, events: seq<Event>) {
    && Increasing(picks, |pending|) && |events| == |picks|
    && (forall k {:trigger k in picks} :: k in picks <==> FirstPending(pending, known, k))
    && (forall i :: 0 <= i < |picks| ==> Asks(pending[picks[i]], events[i]))
  }

  predicate AsksFirst(pending: seq<Pending>, known: set<string>) {
    pending != [] && pending[0].Pending? && pending[0].id !in known
  }

  function KnownAfter(pending: seq<Pending>, known: set<string>): set<string>
    requires pending != []
  {
    if pending[0].Pending? then known + {pending[0].id} else known
  }

  lemma FirstPendingLater(pending: seq<Pending>, known: set<string>, k: int)
    requires pending != []
    ensures FirstPending(pending, known, k) <==>
      (k == 0 && AsksFirst(pending, known)) || FirstPending(pending[1..], KnownAfter(pending, known), k - 1)
  {
    if FirstPending(pending, known, k) && k > 0 {
      assert forall j :: 0 <= j < k - 1 ==> pending[1..][j] == pending[j + 1];
    }
    if FirstPending(pending[1..], KnownAfter(pending, known), k - 1) {
      assert forall j :: 0 < j < k ==> pending[j] == pending[1..][j - 1];
    }
  }

  lemma AsksNoMore(pending: seq<Pending>, known: set<string>, later: seq<int>, asked: seq<Event>)
    requires pending != [] && AsksAll(pending[1..], KnownAfter(pending, known), later, asked)
    requires !AsksFirst(pending, known)
    ensures AsksAll(pending, known, Shifted(later), asked)
  {
    hide Asks, FirstPending, AsksFirst, KnownAfter;
    var picks := Shifted(later);
    forall k ensures k in picks <==> FirstPending(pending, known, k) {
      FirstPendingLater(pending, known, k);
      ShiftedMember(later, k);
    }
    forall i | 0 <= i < |picks| ensures Asks(pending[picks[i]], asked[i]) {
      assert pending[picks[i]] == pending[1..][later[i]];
    }
  }

  lemma AsksOneMore(pending: seq<Pending>, known: set<string>, later: seq<int>, asked: seq<Event>, all: seq<Event>)
    requires pending != [] && AsksAll(pending[1..], KnownAfter(pending, known), later, asked)
    requires AsksFirst(pending, known) && |all| == |asked| + 1 && all[1..] == asked && Asks(pending[0], all[0])
    ensures AsksAll(pending, known, [0] + Shifted(later), all)
  {
    hide Asks, FirstPending, AsksFirst, KnownAfter;
    var picks := [0] + Shifted(later);
    forall k ensures k in picks <==> FirstPending(pending, known, k) {
      FirstPendingLater(pending, known, k);
      ShiftedMember(later, k);
      assert k in picks <==> k == 0 || k in Shifted(later);
    }
    forall i | 0 <= i < |picks| ensures Asks(pending[picks[i]], all[i]) {
      if i > 0 {
        assert picks[i] == later[i - 1] + 1 && all[i] == asked[i - 1];
        assert pending[picks[i]] == pending[1..][later[i - 1]];
      }
    }
  }

  /** A sweep that runs to its end asks for every pending permission that is not known yet, once each and in order. */
  lemma {:induction false} AllPendingAsked(pending: seq<Pending>, known: set<string>, take: nat)
      returns (picks: seq<int>)
    requires SweepPermissions(pending, known, take).ended
    ensures AsksAll(pending, known, picks, SweepPermissions(pending, known, take).events)
  {
    var all := SweepPermissions(pending, known, take).events;
    if pending == [] {
      picks := [];
    } else {
      var next := KnownAfter(pending, known);
      assert pending[0].Pending? && pending[0].id in known ==> next == known;
      if AsksFirst(pending, known) {
        var later := AllPendingAsked(pending[1..], next, take - 1);
        picks := [0] + Shifted(later);
        var rest := SweepPermissions(pending[1..], next, take - 1).events;
        assert all[1..] == rest;
        AsksOneMore(pending, known, later, rest, all);
      } else {
        var later := AllPendingAsked(pending[1..], next, take);
        picks := Shifted(later);
        AsksNoMore(pending, known, later, all);
      }
    }
  }

  /** However early the consumer stops, it has been asked for the first ones. */
  lemma {:induction false} SomePendingAsked(pending: seq<Pending>, known: set<string>, take: nat, more: nat)
    requires take <= more
    ensures SweepPermissions(pending, known, take).events <= SweepPermissions(pending, known, more).events
    ensures |SweepPermissions(pending, known, take).events| <= take
    ensures !SweepPermissions(pending, known, take).ended ==>
      |SweepPermissions(pending, known, take).events| == take
  {
    if take > 0 && pending != [] {
      if pending[0].Unusable? || pending[0].id in known {
        SomePendingAsked(pending[1..], known, take, more);
      } else {
        SomePendingAsked(pending[1..], known + {pending[0].id}, take - 1, more - 1);
      }
    }
  }

  lemma {:induction false} KnownOnlyGrows(polls: seq<Poll>, p: Poll)
    ensures Replay(polls).after.known <= Replay(polls + [p]).after.known
  {
    assert (polls + [p])[..|polls|] == polls;
    if p.Poll? {
      var s := Replay(polls).after;
      var m := SweepMessages(p.items, s.seen, p.take);
      SweptPermissionsFresh(p.pending, s.known, if |m.events| <= p.take then p.take - |m.events| else 0);
    }
  }

  lemma {:induction false} PendingKnown(pending: seq<Pending>, known: set<string>, take: nat)
    requires SweepPermissions(pending, known, take).ended
    ensures known <= SweepPermissions(pending, known, take).ids
    ensures forall k :: 0 <= k < |pending| && pending[k].Pending? ==>
      pending[k].id in SweepPermissions(pending, known, take).ids
  {
    if pending != [] {
      if AsksFirst(pending, known) {
        PendingKnown(pending[1..], known + {pending[0].id}, take - 1);
      } else {
        PendingKnown(pending[1..], known, take);
      }
      assert forall k :: 0 < k < |pending| ==> pending[k] == pending[1..][k - 1];
    }
  }

  /** Over any series of polls: every permission that was pending in a poll taken to its end has surfaced. */
  lemma {:induction false} NoPermissionForgotten(polls: seq<Poll>, i: nat, k: nat)
    requires i < |polls| && polls[i].Poll? && k < |polls[i].pending| && polls[i].pending[k].Pending?
    requires Replay(polls[..i + 1]).ended
    ensures polls[i].pending[k].id in PermissionIds(Replay(polls).permissions)
  {
    PermissionsSurfaceOnce(polls);
    KnownInTheEnd(polls, i, k);
  }

  lemma {:induction false} KnownInTheEnd(polls: seq<Poll>, i: nat, k: nat)
    requires i < |polls| && polls[i].Poll? && k < |polls[i].pending| && polls[i].pending[k].Pending?
    requires Replay(polls[..i + 1]).ended
    ensures polls[i].pending[k].id in Replay(polls).after.known
  {
    var front, last := polls[..|polls| - 1], polls[|polls| - 1];
    assert polls == front + [last];
    if i < |polls| - 1 {
      assert front[..i + 1] == polls[..i + 1];
      KnownInTheEnd(front, i, k);
      KnownOnlyGrows(front, last);
    } else {
      assert polls[..i + 1] == polls;
      var s := Replay(front).after;
      var m := SweepMessages(last.items, s.seen, last.take);
      PendingKnown(last.pending, s.known, if |m.events| <= last.take then last.take - |m.events| else 0);
    }
  }

  // --- a sweep as a whole

  function Cut(events: seq<Event>, take: nat): seq<Event> {
    if |events| <= take then events else events[..take]
  }

  lemma {:induction false} MessagesAtMost(items: seq<Item>, seen: set<string>, take: nat)
    ensures |SweepMessages(items, seen, take).events| <= take
    ensures SweepMessages(items, seen, take).ended ==> |SweepMessages(items, seen, take).events| < take
  {
    if take > 0 && items != [] {
      if items[0].Malformed? || items[0].id in seen {
        MessagesAtMost(items[1..], seen, take);
      } else if MessageEvent(items[0].body).None? {
        MessagesAtMost(items[1..], seen + {items[0].id}, take);
      } else {
        MessagesAtMost(items[1..], seen + {items[0].id}, take - 1);
      }
    }
  }

  lemma MessagesCut(items: seq<Item>, seen: set<string>, take: nat)
    ensures SweepMessages(items, seen, take).events == Cut(Translate(items, seen), take)
    ensures SweepMessages(items, seen, take).ended ==> |Translate(items, seen)| <= take
  {
    var n := SweepIsPrefix(items, seen, take);
    MessagesAtMost(items, seen, take);
    assert items == items[..n] + items[n..];
    TranslateConcat(items[..n], items[n..], seen);
    if SweepMessages(items, seen, take).ended {
      assert items[..n] == items;
    }
  }

  lemma {:induction false} EnoughAsked(pending: seq<Pending>, known: set<string>, take: nat)
    requires take > |pending|
    ensures SweepPermissions(pending, known, take).ended
  {
    if pending != [] {
      EnoughAsked(pending[1..], known, take);
      EnoughAsked(pending[1..], known + if pending[0].Pending? then {pending[0].id} else {}, take - 1);
    }
  }

  lemma PermissionsCut(pending: seq<Pending>, known: set<string>, take: nat)
    ensures SweepPermissions(pending, known, take).events
      == Cut(SweepPermissions(pending, known, |pending| + 1).events, take)
  {
    EnoughAsked(pending, known, |pending| + 1);
    if take <= |pending| + 1 {
      SomePendingAsked(pending, known, take, |pending| + 1);
      if SweepPermissions(pending, known, take).ended {
        EndedIsAll(pending, known, take, |pending| + 1);
      }
    } else {
      EndedIsAll(pending, known, |pending| + 1, take);
      SomePendingAsked(pending, known, |pending| + 1, take);
    }
  }

  lemma {:induction false} EndedIsAll(pending: seq<Pending>, known: set<string>, take: nat, more: nat)
    requires take <= more && SweepPermissions(pending, known, take).ended
    ensures SweepPermissions(pending, known, more) == SweepPermissions(pending, known, take)
  {
    if pending != [] {
      if pending[0].Unusable? || pending[0].id in known {
        EndedIsAll(pending[1..], known, take, more);
      } else {
        EndedIsAll(pending[1..], known + {pending[0].id}, take - 1, more - 1);
      }
    }
  }

  /** What a sweep yields to a consumer that asks for `take` events: of all new messages, and then all pending
      permissions not known yet, the first `take`; or a single note when there is nothing new. */
  lemma SweepTells(s: Session, items: seq<Item>, pending: seq<Pending>, take: nat)
      returns (told: seq<int>, messages: seq<Event>, asked: seq<int>, requests: seq<Event>)
    requires take > 0
    ensures TellsAll(items, s.seen, told, messages) && AsksAll(pending, s.known, asked, requests)
    ensures Yielded(SweepOnce(s, items, pending, take))
      == if messages + requests == [] then [Note] else Cut(messages + requests, take)
  {
    hide TellsAll, AsksAll;
    messages, requests := Translate(items, s.seen), SweepPermissions(pending, s.known, |pending| + 1).events;
    told := TranslateTells(items, s.seen);
    EnoughAsked(pending, s.known, |pending| + 1);
    asked := AllPendingAsked(pending, s.known, |pending| + 1);
    MessagesCut(items, s.seen, take);
    MessagesAtMost(items, s.seen, take);
    var n := SweepIsPrefix(items, s.seen, take);
    var m := SweepMessages(items, s.seen, take);
    if m.ended {
      PermissionsCut(pending, s.known, take - |m.events|);
      SomePendingAsked(pending, s.known, take - |m.events|, take);
      NotesOnlyWhenQuiet(pending, s.known, take - |m.events|);
    }
  }

  lemma NotesOnlyWhenQuiet(pending: seq<Pending>, known: set<string>, take: nat)
    requires take > 0
    ensures SweepPermissions(pending, known, take).events == [] ==> SweepPermissions(pending, known, take).ended
  {
    PermissionsStop(pending, known, take);
  }

  // --- the adapter

  function Recorded(m: map<string, set<string>>, session: string): set<string> {
    if session in m then m[session] else {}
  }

  class Adapter {
    var seen: map<string, set<string>>
    var known: map<string, set<string>>

    constructor ()
      ensures seen == map[] && known == map[]
    {
      seen, known := map[], map[];
    }

    function StateOf(session: string): Session
      reads this
    {
      Session(Recorded(seen, session), Recorded(known, session))
    }

    /** One sweep, for a consumer that asks for `take` events; other sessions are left alone. */
    method IterSessionEvents(session: string, items: seq<Item>, pending: seq<Pending>, take: nat)
      returns (events: seq<Event>)
      requires take > 0
      modifies this
      ensures events == Yielded(SweepOnce(old(StateOf(session)), items, pending, take))
      ensures StateOf(session) == SweepOnce(old(StateOf(session)), items, pending, take).after
      ensures forall other :: other != session ==> StateOf(other) == old(StateOf(other))
    {
      var mine, left, ended;
      events, mine, left, ended := YieldMessages(items, Recorded(seen, session), take);
      seen := seen[session := mine];
      if !ended {
        return;
      }
      var more, theirs;
      more, theirs, ended := YieldPermissions(pending, Recorded(known, session), left);
      known := known[session := theirs];
      events := events + more;
      if ended && events == [] {
        events := [Note];
      }
    }

    // dispose_session: the session's memory is dropped.
    method DisposeSession(session: string)
      modifies this
      ensures StateOf(session) == Session({}, {})
      ensures forall other :: other != session ==> StateOf(other) == old(StateOf(other))
    {
      seen := seen - {session};
      known := known - {session};
    }
  }

  // The loop over messages; it is suspended as soon as the consumer has its last event.
  method YieldMessages(items: seq<Item>, seen0: set<string>, take: nat)
    returns (events: seq<Event>, seen: set<string>, left: nat, ended: bool)
    requires take > 0
    ensures var p := SweepMessages(items, seen0, take); events == p.events && seen == p.ids && ended == p.ended
    ensures left == take - |events| && (ended ==> left > 0)
  {
    hide MessageEvent;
    events, seen, left := [], seen0, take;
    var i := 0;
    assert items[0..] == items;
    while i < |items|
      invariant i <= |items| && 0 < left == take - |events|
      invariant
        var p, rest := SweepMessages(items, seen0, take), SweepMessages(items[i..], seen, left);
        p == Part(events + rest.events, rest.ids, rest.ended)
    {
      var item := items[i];
      assert items[i..][1..] == items[i + 1..];
      i := i + 1;
      if item.Item? && item.id !in seen {
        seen := seen + {item.id};
        var event := MessageEvent(item.body);
        if event.Some? {
          events := events + [event.value];
          left := left - 1;
          if left == 0 {
            return events, seen, left, false;
          }
        }
      }
    }
    ended := true;
  }

  method YieldPermissions(pending: seq<Pending>, known0: set<string>, take: nat)
    returns (events: seq<Event>, known: set<string>, ended: bool)
    requires take > 0
    ensures var p := SweepPermissions(pending, known0, take); events == p.events && known == p.ids && ended == p.ended
  {
    hide EventOf;
    events, known := [], known0;
    var i, left := 0, take;
    assert pending[0..] == pending;
    while i < |pending|
      invariant i <= |pending| && 0 < left == take - |events|
      invariant
        var p, rest := SweepPermissions(pending, known0, take), SweepPermissions(pending[i..], known, left);
        p == Part(events + rest.events, rest.ids, rest.ended)
    {
      var item := pending[i];
      assert pending[i..][1..] == pending[i + 1..];
      i := i + 1;
      if item.Pending? && item.id !in known {
        known := known + {item.id};
        events := events + [EventOf(item)];
        left := left - 1;
        if left == 0 {
          return events, known, false;
        }
      }
    }
    ended := true;
  }
}
