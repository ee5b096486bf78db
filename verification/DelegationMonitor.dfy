/** The monitor loop of a delegated task (delegation/manager.py, _monitor and _handle_permission). */
module DelegationMonitor {
  import opened Wrappers
  import opened DelegationEvents
  import opened DelegationModels
  import opened DelegationRuns

  // --- growing an open log

  lemma NothingYet(env: Environment, limits: DelegationLimits, deadline: real)
    requires limits.Valid()
    ensures Open(env, limits, deadline, []) && Events([]) == Stream(env, 0) == [] && SweepCount([]) == 0
    ensures Requests([]) == [] && OutputBytes([]) == 0 && Losses(env, 0) == 0 && Time(env, []) == env.entered
  {
  }

  lemma EntryKept(env: Environment, log: seq<Entry>, e: Entry, i: nat)
    requires i < |log|
    ensures EntryOk(env, log + [e], i) <==> EntryOk(env, log, i)
  {
    assert forall j :: 0 <= j <= i ==> (log + [e])[j] == log[j];
    assert (log + [e])[..i + 1] == log[..i + 1];
  }

  lemma OrderKept(env: Environment, deadline: real, log: seq<Entry>, e: Entry)
    requires LogOk(env, log) && Quiet(deadline, log) && EntryOk(env, log + [e], |log|)
    ensures LogOk(env, log + [e])
    ensures !Stops(deadline, e) ==> Quiet(deadline, log + [e])
  {
    hide EntryOk, Stops;
    forall i | 0 <= i < |log| ensures EntryOk(env, log + [e], i) {
      EntryKept(env, log, e, i);
    }
  }

  // An entry that is neither an event nor an answer.
  lemma Note(env: Environment, limits: DelegationLimits, deadline: real, log: seq<Entry>, e: Entry)
    requires Open(env, limits, deadline, log) && !e.Handled? && !e.Answered?
    requires EntryOk(env, log + [e], |log|)
    ensures LogOk(env, log + [e])
    ensures !Stops(deadline, e) ==> Open(env, limits, deadline, log + [e])
    ensures Events(log + [e]) == Events(log) && Answers(log + [e]) == Answers(log)
    ensures SweepCount(log + [e]) == SweepCount(log) + if e.SweepStarted? then 1 else 0
    ensures !e.ClockRead? && !e.Paused? ==> Time(env, log + [e]) == Time(env, log)
  {
    hide Events, Answers, SweepCount, Requests, Verdicts, OutputBytes, LogOk, Quiet, Stops;
    TimePasses(env, log, e);
    LogGrows(log, e);
    OrderKept(env, deadline, log, e);
  }

  lemma NoteClock(env: Environment, limits: DelegationLimits, deadline: real, log: seq<Entry>, now: real)
    requires Open(env, limits, deadline, log) && now == Time(env, log) + env.elapsed(|log|)
    ensures LogOk(env, log + [ClockRead(now)])
    ensures now < deadline ==> Open(env, limits, deadline, log + [ClockRead(now)])
    ensures Events(log + [ClockRead(now)]) == Events(log) && SweepCount(log + [ClockRead(now)]) == SweepCount(log)
    ensures Time(env, log + [ClockRead(now)]) == now
  {
    hide Open, LogOk, Events, Answers, SweepCount, Requests, OutputBytes, Time;
    TimePasses(env, log, ClockRead(now));
    assert (log + [ClockRead(now)])[..|log| + 1] == log + [ClockRead(now)];
    Note(env, limits, deadline, log, ClockRead(now));
  }

  // An event that is no permission request.
  lemma NoteEvent(env: Environment, limits: DelegationLimits, deadline: real, log: seq<Entry>, event: Event)
    requires Open(env, limits, deadline, log) && Checked(log, |log|) && !event.PermissionRequested?
    ensures LogOk(env, log + [Handled(event)])
    ensures Events(log + [Handled(event)]) == Events(log) + [event]
    ensures Requests(Events(log + [Handled(event)])) == Requests(Events(log))
    ensures OutputBytes(Events(log + [Handled(event)])) == OutputBytes(Events(log)) + EventSize(event)
    ensures SweepCount(log + [Handled(event)]) == SweepCount(log)
    ensures Time(env, log + [Handled(event)]) == Time(env, log)
    ensures !Stops(deadline, Handled(event)) && OutputBytes(Events(log)) + EventSize(event) <= limits.maxOutputBytes
      ==> Open(env, limits, deadline, log + [Handled(event)])
  {
    hide Events, Answers, SweepCount, Requests, Verdicts, OutputBytes, EventSize, LogOk, Quiet, Stops, Time;
    TimePasses(env, log, Handled(event));
    LogGrows(log, Handled(event));
    EventsGrow(Events(log), event);
    OrderKept(env, deadline, log, Handled(event));
  }

  lemma VerdictsGrow(env: Environment, requests: seq<Event>, e: Event)
    requires forall i :: 0 <= i < |requests| ==> requests[i].PermissionRequested?
    requires e.PermissionRequested?
    ensures Verdicts(env, requests + [e])
         == Verdicts(env, requests) + [Answer(e.id, Verdict(env, e, |requests|))]
  {
  }

  // A permission request over the limit: it stays unanswered.
  lemma NoteRefused(env: Environment, limits: DelegationLimits, deadline: real, log: seq<Entry>, event: Event)
    requires Open(env, limits, deadline, log) && Checked(log, |log|) && event.PermissionRequested?
    ensures LogOk(env, log + [Handled(event)])
    ensures Events(log + [Handled(event)]) == Events(log) + [event]
    ensures |Requests(Events(log + [Handled(event)]))| == |Requests(Events(log))| + 1
    ensures OutputBytes(Events(log + [Handled(event)])) == OutputBytes(Events(log))
    ensures SweepCount(log + [Handled(event)]) == SweepCount(log)
    ensures Time(env, log + [Handled(event)]) == Time(env, log)
  {
    hide Events, Answers, SweepCount, Requests, Verdicts, OutputBytes, LogOk, Quiet, Stops;
    TimePasses(env, log, Handled(event));
    LogGrows(log, Handled(event));
    EventsGrow(Events(log), event);
    OrderKept(env, deadline, log, Handled(event));
  }

  // A permission request and its answer.
  lemma NoteAnswered(env: Environment, limits: DelegationLimits, deadline: real, log: seq<Entry>, event: Event,
                     approved: bool)
    requires Open(env, limits, deadline, log) && Checked(log, |log|) && event.PermissionRequested?
    requires |Requests(Events(log))| < limits.maxPermissionRequests
    requires approved == Verdict(env, event, |Requests(Events(log))|)
    ensures
      var next := log + [Handled(event), Answered(event.id, approved)];
      && Open(env, limits, deadline, next) && Events(next) == Events(log) + [event]
      && |Requests(Events(next))| == |Requests(Events(log))| + 1
      && OutputBytes(Events(next)) == OutputBytes(Events(log)) && SweepCount(next) == SweepCount(log)
      && Time(env, next) == Time(env, log)
  {
    hide Events, Answers, SweepCount, Requests, Verdicts, Verdict, OutputBytes, LogOk, Quiet;
    var mid := log + [Handled(event)];
    var next := mid + [Answered(event.id, approved)];
    assert next == log + [Handled(event), Answered(event.id, approved)];
    LogGrows(log, Handled(event));
    LogGrows(mid, Answered(event.id, approved));
    TimePasses(env, log, Handled(event));
    TimePasses(env, mid, Answered(event.id, approved));
    EventsGrow(Events(log), event);
    OrderKept(env, deadline, log, Handled(event));
    OrderKept(env, deadline, mid, Answered(event.id, approved));
    VerdictsGrow(env, Requests(Events(log)), event);
    Whole(Requests(Events(log)));
    Whole(Requests(Events(next)));
    assert Events(next) == Events(log) + [event];
    assert Requests(Events(next)) == Requests(Events(log)) + [event];
    assert OutputBytes(Events(next)) == OutputBytes(Events(log));
    assert LogOk(env, next);
    assert Quiet(deadline, next);
    assert AllAnswered(env, next, limits.maxPermissionRequests);
  }

  lemma Whole(s: seq<Event>)
    ensures s[..|s|] == s
  {
  }

  // --- results

  datatype SessionCall = Create(id: string) | SendPrompt | Abort(id: string) | Dispose(id: string)

  // Only a session with a non-empty id is aborted.
  function AbortCalls(session: Option<string>): seq<SessionCall> {
    if session.Some? && session.value != "" then [Abort(session.value)] else []
  }

  datatype Ending = Ending(result: DelegationResult, calls: seq<SessionCall>)

  /** _fail_result; the state is checked but not stored. */
  method FailResult(status: DelegationRunStatus, session: Option<string>, reason: Reason) returns (end: Ending)
    requires MayEnter(status.state, DelegationState.Failed)
    modifies status`reason
    ensures end.result == DelegationResult(Failed, Some(reason), status.permissionRequests, status.outputBytes)
    ensures end.calls == AbortCalls(session) && status.reason == Some(reason)
  {
    status.reason := Some(reason);
    end := Ending(DelegationResult(Failed, Some(reason), status.permissionRequests, status.outputBytes),
                  AbortCalls(session));
  }

  /** _cancel_result */
  method CancelResult(status: DelegationRunStatus, session: string) returns (end: Ending)
    requires MayEnter(status.state, DelegationState.Cancelled)
    ensures end.result ==
      DelegationResult(DelegationState.Cancelled, None, status.permissionRequests, status.outputBytes)
    ensures end.calls == AbortCalls(Some(session))
  {
    end := Ending(DelegationResult(DelegationState.Cancelled, None, status.permissionRequests, status.outputBytes),
                  AbortCalls(Some(session)));
  }

  /** _timeout_result */
  method TimeoutResult(status: DelegationRunStatus, session: string) returns (end: Ending)
    requires MayEnter(status.state, DelegationState.TimedOut)
    ensures end.result ==
      DelegationResult(DelegationState.TimedOut, Some(Timeout), status.permissionRequests, status.outputBytes)
    ensures end.calls == AbortCalls(Some(session))
  {
    end := Ending(
      DelegationResult(DelegationState.TimedOut, Some(Timeout), status.permissionRequests, status.outputBytes),
      AbortCalls(Some(session)));
  }

  /** _complete_result, without the diff it attaches. */
  method CompleteResult(status: DelegationRunStatus) returns (end: Ending)
    requires status.Valid() && MayEnter(status.state, DelegationState.Completed)
    modifies status`state, status`path
    ensures status.Valid() && status.state == DelegationState.Completed
    ensures end == Ending(
      DelegationResult(DelegationState.Completed, None, status.permissionRequests, status.outputBytes), [])
  {
    status.Transition(DelegationState.Completed);
    end := Ending(DelegationResult(DelegationState.Completed, None, status.permissionRequests, status.outputBytes), []);
  }

  // --- the loop

  /** The counters of a running status are those of its log. */
  ghost predicate Tracks(status: DelegationRunStatus, log: seq<Entry>)
    reads status
  {
    && status.Valid() && status.state == Running
    && status.permissionRequests == |Requests(Events(log))| && status.outputBytes == OutputBytes(Events(log))
  }

  /** The log and the result belong together, and the session was aborted unless the executor completed. */
  ghost predicate Ended(env: Environment, limits: DelegationLimits, deadline: real, session: string,
                        status: DelegationRunStatus, log: seq<Entry>, end: Ending)
    reads status
  {
    && status.Valid() && Closed(env, limits, deadline, log, end.result)
    && end.calls == (if end.result.state == DelegationState.Completed then [] else AbortCalls(Some(session)))
    && status.state == (if end.result.state == DelegationState.Completed then DelegationState.Completed else Running)
  }

  // token.is_set(), then the deadline
  method Checks(env: Environment, limits: DelegationLimits, deadline: real, session: string,
                status: DelegationRunStatus, log0: seq<Entry>)
      returns (stop: Option<Ending>, log: seq<Entry>)
    requires ClockRuns(env) && Open(env, limits, deadline, log0) && Tracks(status, log0)
    ensures Events(log) == Events(log0) && SweepCount(log) == SweepCount(log0) && Time(env, log) >= Time(env, log0)
    ensures stop.None? ==> Open(env, limits, deadline, log) && Checked(log, |log|) && Time(env, log) < deadline
    ensures stop.Some? ==> Ended(env, limits, deadline, session, status, log, stop.value)
  {
    hide Open, LogOk, Events, Answers, SweepCount, Requests, OutputBytes, Time;
    stop := None;
    var read := TokenRead(env.cancelled(|log0|));
    log := log0 + [read];
    Note(env, limits, deadline, log0, read);
    if read.set_ {
      var end := CancelResult(status, session);
      assert log[..|log| - 1] == log0;
      return Some(end), log;
    }
    var now := Time(env, log) + env.elapsed(|log|);  // time.monotonic()
    NoteClock(env, limits, deadline, log, now);
    log := log + [ClockRead(now)];
    if now >= deadline {
      var end := TimeoutResult(status, session);
      assert log[..|log| - 1] == log0 + [read];
      return Some(end), log;
    }
  }

  // How a permission request went.
  datatype Handling = Replied | ReplyFailed | OverLimit

  /** _handle_permission: exactly one reply to a request within the limit, none beyond it. */
  method HandlePermission(env: Environment, limits: DelegationLimits, deadline: real,
                          status: DelegationRunStatus, event: Event, log0: seq<Entry>)
      returns (handling: Handling, log: seq<Entry>)
    requires Open(env, limits, deadline, log0) && Checked(log0, |log0|) && Tracks(status, log0)
    requires event.PermissionRequested?
    modifies status`state, status`path, status`permissionRequests
    ensures Tracks(status, log) && Events(log) == Events(log0) + [event] && SweepCount(log) == SweepCount(log0)
    ensures Time(env, log) == Time(env, log0)
    ensures handling == OverLimit <==> |Requests(Events(log0))| >= limits.maxPermissionRequests
    ensures handling == OverLimit ==> log == log0 + [Handled(event)] && LogOk(env, log)
    ensures handling != OverLimit ==>
      && Open(env, limits, deadline, log)
      && log == log0 + [Handled(event), Answered(event.id, Verdict(env, event, |Requests(Events(log0))|))]
      && (handling == ReplyFailed <==> env.replyFails(|Requests(Events(log0))|))
    ensures status.path == old(status.path)
      + if handling != OverLimit && env.policy(event) == Ask then [WaitingForPermission, Running] else []
  {
    hide Open, LogOk, Events, Answers, SweepCount, Requests, OutputBytes;
    var k := status.permissionRequests;
    status.permissionRequests := k + 1;
    if status.permissionRequests > limits.maxPermissionRequests {
      NoteRefused(env, limits, deadline, log0, event);
      return OverLimit, log0 + [Handled(event)];
    }
    var approved;
    match env.policy(event) {
      case Allow => approved := true;
      case Deny => approved := false;
      case Ask =>
        status.Transition(WaitingForPermission);
        var outcome := Denied;
        if env.approver.Some? {
          outcome := env.approver.value(k);
        }
        status.Transition(Running);
        approved := outcome == Approved;
    }
    NoteAnswered(env, limits, deadline, log0, event, approved);
    log := log0 + [Handled(event), Answered(event.id, approved)];
    handling := if env.replyFails(k) then ReplyFailed else Replied;
  }

  // The branches for one event; lost tells that the reply to a request raised.
  method HandleEvent(env: Environment, limits: DelegationLimits, deadline: real, session: string,
                     status: DelegationRunStatus, event: Event, log0: seq<Entry>)
      returns (stop: Option<Ending>, lost: bool, log: seq<Entry>)
    requires Open(env, limits, deadline, log0) && Checked(log0, |log0|) && Tracks(status, log0)
    modifies status
    ensures Events(log) == Events(log0) + [event] && SweepCount(log) == SweepCount(log0)
    ensures Time(env, log) == Time(env, log0)
    ensures stop.None? ==> Open(env, limits, deadline, log) && Tracks(status, log)
    ensures stop.None? ==> (lost <==> event.PermissionRequested? && env.replyFails(|Requests(Events(log0))|))
    ensures stop.Some? ==> Ended(env, limits, deadline, session, status, log, stop.value)
  {
    hide Open, LogOk, Events, Answers, SweepCount, Requests, OutputBytes, EventSize, LegalPath, Time, Checked;
    stop, lost := None, false;
    if event.PermissionRequested? {
      var handling;
      handling, log := HandlePermission(env, limits, deadline, status, event, log0);
      if handling == OverLimit {
        var end := FailResult(status, Some(session), PermissionLimit);
        RequestsWithin(env, limits, deadline, log0, event);
        assert log[..|log| - 1] == log0;
        return Some(end), false, log;
      }
      lost := handling == ReplyFailed;
      return;
    }
    NoteEvent(env, limits, deadline, log0, event);
    log := log0 + [Handled(event)];
    assert log[..|log| - 1] == log0;
    var end;
    match event {
      case Progress(text) =>
        status.outputBytes := status.outputBytes + EventSize(event);
        if status.outputBytes > limits.maxOutputBytes {
          end := FailResult(status, Some(session), OutputLimit);
          stop := Some(end);
        }
      case Completed(_) =>
        NoBytes(event);
        status.Transition(Completing);
        end := CompleteResult(status);
        stop := Some(end);
      case ExecutorFailed(_) =>
        NoBytes(event);
        end := FailResult(status, Some(session), ExecutorError);
        stop := Some(end);
      case ExecutorCancelled =>
        NoBytes(event);
        end := CancelResult(status, session);
        stop := Some(end);
      case Note =>
        NoBytes(event);
        WithinBytes(env, limits, deadline, log0);
    }
  }

  lemma NoBytes(event: Event)
    requires !event.Progress?
    ensures EventSize(event) == 0
  {
  }

  lemma WithinBytes(env: Environment, limits: DelegationLimits, deadline: real, log: seq<Entry>)
    requires Open(env, limits, deadline, log)
    ensures OutputBytes(Events(log)) <= limits.maxOutputBytes
  {
  }

  lemma RequestsWithin(env: Environment, limits: DelegationLimits, deadline: real, log: seq<Entry>, event: Event)
    requires Open(env, limits, deadline, log) && event.PermissionRequested?
    ensures |Requests(Events(log))| <= limits.maxPermissionRequests
    ensures |Requests(Events(log) + [event])| == |Requests(Events(log))| + 1
  {
  }

  // --- one sweep

  /** The log stops somewhere in sweep n. */
  ghost predicate During(env: Environment, n: nat, log: seq<Entry>) {
    SweepCount(log) == n + 1 && Stream(env, n) <= Events(log) <= Stream(env, n + 1)
  }

  lemma InSweep(env: Environment, n: nat, log: seq<Entry>, i: nat)
    requires SweepCount(log) == n + 1
    requires i <= Read(env, env.sweeps(n).events, |Requests(Stream(env, n))|).taken
    requires Events(log) == Stream(env, n) + env.sweeps(n).events[..i]
    ensures During(env, n, log)
    ensures i == Read(env, env.sweeps(n).events, |Requests(Stream(env, n))|).taken ==> Events(log) == Stream(env, n + 1)
  {
    hide SweepCount, Events, Requests, Read;
    var taken := Read(env, env.sweeps(n).events, |Requests(Stream(env, n))|).taken;
    assert env.sweeps(n).events[..i] <= env.sweeps(n).events[..taken];
  }

  lemma ReadOne(env: Environment, events: seq<Event>, k: nat, i: nat)
    requires i < |events|
    ensures
      var all, e := Read(env, events[i..], k), events[i];
      if e.PermissionRequested? && env.replyFails(k) then all == Reading(1, true)
      else
        var rest := Read(env, events[i + 1..], if e.PermissionRequested? then k + 1 else k);
        all == Reading(1 + rest.taken, rest.lost)
  {
  }

  lemma ReadNone(env: Environment, events: seq<Event>, k: nat)
    ensures Read(env, events[|events|..], k) == Reading(0, false)
  {
  }

  method WatchSweep(env: Environment, limits: DelegationLimits, deadline: real, session: string,
                    status: DelegationRunStatus, n: nat, log0: seq<Entry>)
      returns (stop: Option<Ending>, lost: bool, log: seq<Entry>)
    requires ClockRuns(env) && Open(env, limits, deadline, log0) && Tracks(status, log0)
    requires Events(log0) == Stream(env, n) && SweepCount(log0) == n + 1
    modifies status
    ensures Time(env, log) >= Time(env, log0)
    ensures stop.None? ==>
      && Open(env, limits, deadline, log) && Tracks(status, log)
      && Events(log) == Stream(env, n + 1) && SweepCount(log) == n + 1
      && lost == Read(env, env.sweeps(n).events, |Requests(Stream(env, n))|).lost
    ensures stop.Some? ==> Ended(env, limits, deadline, session, status, log, stop.value) && During(env, n, log)
  {
    hide Open, Closed, Events, SweepCount, Requests, OutputBytes, Stream, During, Read, Checked;
    var events := env.sweeps(n).events;
    ghost var k0 := |Requests(Stream(env, n))|;
    stop, lost, log := None, false, log0;
    var i := 0;
    assert events[0..] == events;
    while i < |events|
      invariant i <= |events| && Time(env, log) >= Time(env, log0) && stop.None? && !lost
      invariant Open(env, limits, deadline, log) && Tracks(status, log) && SweepCount(log) == n + 1
      invariant Events(log) == Stream(env, n) + events[..i]
      invariant
        var all, rest := Read(env, events, k0), Read(env, events[i..], |Requests(Events(log))|);
        all.taken == i + rest.taken && all.lost == rest.lost
      decreases |events| - i
    {
      ghost var k := |Requests(Events(log))|;
      ReadOne(env, events, k, i);
      stop, log := Checks(env, limits, deadline, session, status, log);
      if stop.Some? {
        InSweep(env, n, log, i);
        return;
      }
      RequestsCount(Events(log), events[i]);
      stop, lost, log := HandleEvent(env, limits, deadline, session, status, events[i], log);
      assert Events(log) == Stream(env, n) + events[..i + 1];
      if stop.Some? || lost {
        InSweep(env, n, log, i + 1);
        return;
      }
      i := i + 1;
    }
    ReadNone(env, events, |Requests(Events(log))|);
    InSweep(env, n, log, |events|);
  }

  lemma RequestsCount(events: seq<Event>, e: Event)
    ensures |Requests(events + [e])| == |Requests(events)| + if e.PermissionRequested? then 1 else 0
  {
  }

  // --- the whole run

  lemma PaceIsPositive(env: Environment)
    requires ClockRuns(env)
    ensures env.pace > 0.0
  {
  }

  lemma PauseAdds(n: nat, p: real)
    ensures ((n + 1) as real) * p == (n as real) * p + p
  {
  }

  lemma SweepsFit(n: nat, p: real, wall: real)
    requires p > 0.0 && (n as real) * p < wall
    ensures n <= (wall / p).Floor
  {
    assert wall == (wall / p) * p;
    Cancel(n as real, wall / p, p);
  }

  lemma Cancel(a: real, b: real, p: real)
    requires p > 0.0 && a * p < b * p
    ensures a < b
  {
  }

  /** Where a run stops: in its last sweep (or before the first), after few losses, and before the time is up. */
  ghost predicate WithinBounds(env: Environment, wall: real, log: seq<Entry>) {
    var n := SweepCount(log);
    && (n == 0 ==> Events(log) == [])
    && (n > 0 ==>
          During(env, n - 1, log) && Losses(env, n - 1) <= RECONNECT_LIMIT && ((n - 1) as real) * env.pace < wall)
  }

  lemma SweepOf(env: Environment, n: nat, log: seq<Entry>)
    requires During(env, n, log)
    ensures SweepCount(log) == n + 1
  {
  }

  lemma BetweenSweeps(env: Environment, n: nat, log: seq<Entry>)
    requires SweepCount(log) == n && Events(log) == Stream(env, n)
    ensures n == 0 ==> Events(log) == []
    ensures n > 0 ==> During(env, n - 1, log)
  {
  }

  lemma LostEnding(env: Environment, limits: DelegationLimits, deadline: real, session: string,
                   status: DelegationRunStatus, log: seq<Entry>, end: Ending)
    requires Tracks(status, log) && Open(env, limits, deadline, log)
    requires Losses(env, SweepCount(log)) == RECONNECT_LIMIT + 1 && end.calls == AbortCalls(Some(session))
    requires end.result ==
      DelegationResult(Failed, Some(EventConnectionLost), status.permissionRequests, status.outputBytes)
    ensures Ended(env, limits, deadline, session, status, log, end)
  {
  }

  lemma LossCounted(env: Environment, n: nat)
    requires n > 0
    ensures
      var sweep := env.sweeps(n - 1);
      Losses(env, n) == Losses(env, n - 1)
        + if sweep.events == [] || Read(env, sweep.events, |Requests(Stream(env, n - 1))|).lost || sweep.breaks
          then 1 else 0
  {
  }

  // iter_session_events is asked for one sweep.
  method NoteSweep(env: Environment, limits: DelegationLimits, deadline: real, log0: seq<Entry>)
      returns (log: seq<Entry>)
    requires Open(env, limits, deadline, log0) && Checked(log0, |log0|)
    ensures Open(env, limits, deadline, log) && Time(env, log) == Time(env, log0)
    ensures Events(log) == Events(log0) && SweepCount(log) == SweepCount(log0) + 1
  {
    hide Open, Events, SweepCount, LogOk, Time;
    Note(env, limits, deadline, log0, SweepStarted);
    log := log0 + [SweepStarted];
  }

  // _pause_between_sweeps
  method PauseBetweenSweeps(env: Environment, limits: DelegationLimits, deadline: real, log0: seq<Entry>)
      returns (log: seq<Entry>)
    requires ClockRuns(env) && Open(env, limits, deadline, log0)
    ensures Open(env, limits, deadline, log) && Time(env, log) >= Time(env, log0) + env.pace
    ensures Events(log) == Events(log0) && SweepCount(log) == SweepCount(log0)
  {
    hide Open, Events, SweepCount, LogOk, Checked;
    TimePasses(env, log0, Paused);
    Note(env, limits, deadline, log0, Paused);
    log := log0 + [Paused];
  }

  // A lost sweep, unless the task is cancelled or out of time anyway.
  method CountLoss(env: Environment, limits: DelegationLimits, deadline: real, session: string,
                   status: DelegationRunStatus, reconnects0: nat, log0: seq<Entry>)
      returns (stop: Option<Ending>, reconnects: nat, log: seq<Entry>)
    requires ClockRuns(env) && Open(env, limits, deadline, log0) && Tracks(status, log0)
    requires Losses(env, SweepCount(log0)) == reconnects0 + 1 <= RECONNECT_LIMIT + 1
    modifies status`reason
    ensures Events(log) == Events(log0) && SweepCount(log) == SweepCount(log0) && Time(env, log) >= Time(env, log0)
    ensures stop.None? ==> Open(env, limits, deadline, log) && Tracks(status, log)
    ensures stop.None? ==> reconnects == reconnects0 + 1 <= RECONNECT_LIMIT
    ensures stop.Some? ==> Ended(env, limits, deadline, session, status, log, stop.value)
  {
    hide Open, Ended, Closed, Checked, Events, SweepCount, Losses, Requests, OutputBytes, ClockRuns, LegalPath, Time;
    stop, log := Checks(env, limits, deadline, session, status, log0);
    reconnects := reconnects0 + 1;
    if stop.None? && reconnects > RECONNECT_LIMIT {
      var end := FailResult(status, Some(session), EventConnectionLost);
      LostEnding(env, limits, deadline, session, status, log, end);
      stop := Some(end);
    }
  }

  /** _monitor */
  method Monitor(env: Environment, limits: DelegationLimits, session: string, status: DelegationRunStatus,
                 started: real)
      returns (end: Ending, log: seq<Entry>)
    requires ClockRuns(env) && limits.Valid() && env.entered >= started
    requires status.Valid() && status.state == Running && status.permissionRequests == 0 && status.outputBytes == 0
    modifies status
    ensures Ended(env, limits, started + limits.maxWallTimeSeconds, session, status, log, end)
    ensures WithinBounds(env, limits.maxWallTimeSeconds, log)
  {
    hide Open, Ended, Closed, During, Checked, LogOk, Events, SweepCount, Stream, Losses, Requests, OutputBytes,
      ClockRuns, Read, LegalPath, Time;
    var deadline, reconnects := started + limits.maxWallTimeSeconds, 0;
    var n := 0;  // sweeps asked for so far
    PaceIsPositive(env);
    log := [];
    NothingYet(env, limits, deadline);
    while true
      invariant Open(env, limits, deadline, log) && Tracks(status, log)
      invariant SweepCount(log) == n && Events(log) == Stream(env, n)
      invariant reconnects == Losses(env, n) <= RECONNECT_LIMIT
      invariant (n as real) * env.pace <= Time(env, log) - started
      invariant n > 0 ==> ((n - 1) as real) * env.pace < limits.maxWallTimeSeconds
      invariant n > 0 ==> Losses(env, n - 1) <= RECONNECT_LIMIT
      invariant n > 0 ==> n - 1 <= (limits.maxWallTimeSeconds / env.pace).Floor
      decreases (limits.maxWallTimeSeconds / env.pace).Floor - n
    {
      var stop, lost;
      stop, log := Checks(env, limits, deadline, session, status, log);
      if stop.Some? {
        BetweenSweeps(env, n, log);
        return stop.value, log;
      }
      SweepsFit(n, env.pace, limits.maxWallTimeSeconds);
      log := NoteSweep(env, limits, deadline, log);
      stop, lost, log := WatchSweep(env, limits, deadline, session, status, n, log);
      if stop.Some? {
        SweepOf(env, n, log);
        return stop.value, log;
      }
      n := n + 1;
      LossCounted(env, n);
      if env.sweeps(n - 1).events == [] || lost || env.sweeps(n - 1).breaks {
        stop, reconnects, log := CountLoss(env, limits, deadline, session, status, reconnects, log);
        if stop.Some? {
          BetweenSweeps(env, n, log);
          return stop.value, log;
        }
      }
      log := PauseBetweenSweeps(env, limits, deadline, log);
      PauseAdds(n - 1, env.pace);
    }
  }
}
