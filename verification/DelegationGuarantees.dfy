/** What every finished delegation guarantees (delegation/manager.py). */
module DelegationGuarantees {
  import opened Wrappers
  import opened DelegationEvents
  import opened DelegationModels
  import opened DelegationRuns
  import opened DelegationMonitor
  import Utf8

  lemma {:induction false} VerdictAt(env: Environment, requests: seq<Event>)
    requires forall i :: 0 <= i < |requests| ==> requests[i].PermissionRequested?
    ensures |Verdicts(env, requests)| == |requests|
    ensures forall i :: 0 <= i < |requests| ==>
      Verdicts(env, requests)[i] == Answer(requests[i].id, Verdict(env, requests[i], i))
  {
    if requests != [] {
      VerdictAt(env, requests[..|requests| - 1]);
    }
  }

  // The log without its last entry, when that entry ended the run.
  lemma LastEntry(env: Environment, limits: DelegationLimits, deadline: real, log: seq<Entry>, r: DelegationResult)
    requires Closed(env, limits, deadline, log, r) && r.reason != Some(EventConnectionLost)
    ensures
      var front, last := log[..|log| - 1], log[|log| - 1];
      && log == front + [last] && Open(env, limits, deadline, front) && EndsWith(limits, deadline, log, r)
      && Events(log) == (if last.Handled? then Events(front) + [last.event] else Events(front))
      && Answers(log)
           == if last.Answered? then Answers(front) + [Answer(last.id, last.approved)] else Answers(front)
  {
    hide Open, LogOk, Events, Requests, OutputBytes, Losses, SweepCount, Answers;
    assert log == log[..|log| - 1] + [log[|log| - 1]];
    LogGrows(log[..|log| - 1], log[|log| - 1]);
  }

  /** Every permission request handled within the limit gets exactly one response, in order, and the verdict of
      the policy and the approver; a request over the limit gets none, and ends the run. */
  lemma RequestsAnswered(env: Environment, limits: DelegationLimits, deadline: real, log: seq<Entry>,
                         r: DelegationResult)
    requires limits.Valid() && Closed(env, limits, deadline, log, r)
    ensures AllAnswered(env, log, limits.maxPermissionRequests)
    ensures |Requests(Events(log))| <= limits.maxPermissionRequests + 1
    ensures |Requests(Events(log))| == limits.maxPermissionRequests + 1 <==> r.reason == Some(PermissionLimit)
  {
    if r.reason != Some(EventConnectionLost) {
      LastEntry(env, limits, deadline, log, r);
      AnswersAtEnd(env, limits, deadline, log[..|log| - 1], log[|log| - 1]);
    }
  }

  lemma AnswersAtEnd(env: Environment, limits: DelegationLimits, deadline: real, front: seq<Entry>, last: Entry)
    requires limits.Valid() && Open(env, limits, deadline, front) && !last.Answered?
    requires last.Handled? && last.event.PermissionRequested? ==>
      |Requests(Events(front))| == limits.maxPermissionRequests
    ensures AllAnswered(env, front + [last], limits.maxPermissionRequests)
    ensures |Requests(Events(front + [last]))| == |Requests(Events(front))|
      + if last.Handled? && last.event.PermissionRequested? then 1 else 0
    ensures |Requests(Events(front))| <= limits.maxPermissionRequests
  {
    hide Events, Requests, OutputBytes, LogOk, Quiet, Answers, Verdicts;
    LogGrows(front, last);
    var requests := Requests(Events(front));
    Whole(requests);
    if last.Handled? {
      EventsGrow(Events(front), last.event);
      if last.event.PermissionRequested? {
        assert (requests + [last.event])[..|requests|] == requests;
      }
    } else {
      assert Events(front + [last]) == Events(front);
    }
  }

  /** A permission is accepted exactly when the policy allows it, or asks and the installed approver approves; and the
      answer carries the request's id. */
  lemma ApprovedIffAllowed(env: Environment, limits: DelegationLimits, deadline: real, log: seq<Entry>,
                           r: DelegationResult, i: nat)
    requires limits.Valid() && Closed(env, limits, deadline, log, r) && i < |Answers(log)|
    ensures i < |Requests(Events(log))|
    ensures
      var request := Requests(Events(log))[i];
      && request.PermissionRequested? && request.id == Answers(log)[i].id
      && (Answers(log)[i].approved <==>
            env.policy(request) == Allow
            || (env.policy(request) == Ask && env.approver.Some? && env.approver.value(i) == Approved))
  {
    hide Closed, Events, Requests, Answers, Verdicts;
    RequestsAnswered(env, limits, deadline, log, r);
    var requests := Requests(Events(log));
    VerdictAt(env, requests[..if |requests| <= limits.maxPermissionRequests then |requests|
                              else limits.maxPermissionRequests]);
  }

  /** The places of the permission requests, in order. */
  ghost predicate RequestPlaces(events: seq<Event>, places: seq<nat>) {
    && (forall i :: 0 <= i < |places| ==> places[i] < |events|)
    && (forall i, j :: 0 <= i < j < |places| ==> places[i] < places[j])
    && (forall k :: 0 <= k < |events| ==> (k in places <==> events[k].PermissionRequested?))
  }

  lemma RequestStep(front: seq<Event>, e: Event, before: seq<nat>)
    requires RequestPlaces(front, before)
    ensures RequestPlaces(front + [e], if e.PermissionRequested? then before + [|front|] else before)
  {
    var places := before + [|front|];
    assert places[|before|] == |front| && |front| !in before;
    assert forall k :: 0 <= k < |front| ==> (front + [e])[k] == front[k] && (k in places <==> k in before);
  }

  /** The k-th request is the k-th event that asks for a permission. */
  lemma {:induction false} RequestsAt(events: seq<Event>) returns (places: seq<nat>)
    ensures RequestPlaces(events, places) && |Requests(events)| == |places|
    ensures forall i :: 0 <= i < |places| ==> places[i] < |events| && Requests(events)[i] == events[places[i]]
  {
    hide RequestPlaces, Requests, OutputBytes;
    if events == [] {
      places := [];
      NoRequestPlaces();
    } else {
      var front, e := events[..|events| - 1], events[|events| - 1];
      var before := RequestsAt(front);
      RequestStep(front, e, before);
      EventsGrow(front, e);
      places := if e.PermissionRequested? then before + [|front|] else before;
      assert events == front + [e];
    }
  }

  lemma NoRequestPlaces()
    ensures RequestPlaces([], []) && Requests([]) == []
  {
  }

  /** As many answers as requests, up to the limit. */
  lemma AnswersCounted(env: Environment, limits: DelegationLimits, deadline: real, log: seq<Entry>, r: DelegationResult)
    requires limits.Valid() && Closed(env, limits, deadline, log, r)
    ensures |Answers(log)| == if |Requests(Events(log))| <= limits.maxPermissionRequests then |Requests(Events(log))|
                              else limits.maxPermissionRequests
  {
    hide Closed, Events, Requests, Answers, Verdicts;
    RequestsAnswered(env, limits, deadline, log, r);
    var requests := Requests(Events(log));
    VerdictAt(env, requests[..if |requests| <= limits.maxPermissionRequests then |requests|
                              else limits.maxPermissionRequests]);
  }

  /** The run is over with the first entry that may end it: a set token, a clock at or past the deadline, or the
      executor's own end. */
  lemma NothingAfterTheEnd(env: Environment, limits: DelegationLimits, deadline: real, log: seq<Entry>,
                           r: DelegationResult, i: nat)
    requires Closed(env, limits, deadline, log, r) && i < |log|
    requires
      || log[i] == TokenRead(true)
      || (log[i].ClockRead? && log[i].now >= deadline)
      || (log[i].Handled? &&
          (log[i].event.Completed? || log[i].event.ExecutorFailed? || log[i].event.ExecutorCancelled?))
    ensures i == |log| - 1 && r.reason != Some(EventConnectionLost)
  {
  }

  /** Every sweep and every event comes right after the token was read and was not set, and the clock was read and was
      before the deadline; token and clock are read truly; an answer follows its request. */
  lemma EveryStepChecked(env: Environment, limits: DelegationLimits, deadline: real, log: seq<Entry>,
                         r: DelegationResult, i: nat)
    requires Closed(env, limits, deadline, log, r) && i < |log|
    ensures log[i].SweepStarted? || log[i].Handled? ==>
      && i >= 2 && log[i - 2] == TokenRead(false) && !env.cancelled(i - 2)
      && log[i - 1].ClockRead? && log[i - 1].now < deadline
    ensures log[i].TokenRead? ==> log[i].set_ == env.cancelled(i)
    ensures log[i].ClockRead? ==> log[i].now == Time(env, log[..i + 1])
    ensures log[i].Answered? ==>
      i >= 1 && log[i - 1].Handled? && log[i - 1].event.PermissionRequested? && log[i - 1].event.id == log[i].id
  {
    hide Events, Requests, OutputBytes, Losses, SweepCount, AllAnswered, EndsWith, Time;
    assert EntryOk(env, log, i);
    if log[i].SweepStarted? || log[i].Handled? {
      assert EntryOk(env, log, i - 2);
      assert !Stops(deadline, log[..|log| - 1][i - 2]) && !Stops(deadline, log[..|log| - 1][i - 1]);
    }
  }

  // --- the counters

  function Joined(texts: seq<string>): string {
    if texts == [] then "" else Joined(texts[..|texts| - 1]) + texts[|texts| - 1]
  }

  // The text of each event that counts as output.
  ghost predicate OutputTexts(texts: seq<string>, events: seq<Event>) {
    && |texts| == |events|
    && (forall i :: 0 <= i < |events| ==>
          texts[i] == if events[i].Progress? && events[i].text.Some? then events[i].text.value else "")
  }

  lemma {:induction false} EncodeConcat(a: string, b: string)
    ensures Utf8.Encode(a + b) == Utf8.Encode(a) + Utf8.Encode(b)
  {
    if a == "" {
      assert a + b == b;
    } else {
      assert (a + b)[1..] == a[1..] + b;
      EncodeConcat(a[1..], b);
    }
  }

  lemma NothingEncoded()
    ensures Utf8.Encode("") == [] && Joined([]) == ""
  {
  }

  /** The output of a run is what its progress messages say, counted in bytes of UTF-8. */
  lemma {:induction false} OutputIsText(events: seq<Event>) returns (texts: seq<string>)
    ensures OutputTexts(texts, events) && OutputBytes(events) == |Utf8.Encode(Joined(texts))|
  {
    hide Utf8.Encode;
    NothingEncoded();
    if events == [] {
      texts := [];
    } else {
      var last := events[|events| - 1];
      var before := OutputIsText(events[..|events| - 1]);
      texts := before + [if last.Progress? && last.text.Some? then last.text.value else ""];
      assert texts[..|texts| - 1] == before;
      EncodeConcat(Joined(before), texts[|texts| - 1]);
    }
  }

  // --- how much of a sweep is used

  // The k-th request of the run is answered without failure.
  ghost predicate RepliesGoThrough(env: Environment, events: seq<Event>, k: nat) {
    forall i :: 0 <= i < |events| && events[i].PermissionRequested? ==> !env.replyFails(k + |Requests(events[..i])|)
  }

  lemma RequestsCons(events: seq<Event>, i: nat)
    requires 0 < i <= |events|
    ensures |Requests(events[..i])| ==
      |Requests(events[1..][..i - 1])| + if events[0].PermissionRequested? then 1 else 0
    decreases i
  {
    if i > 1 {
      assert events[..i][..i - 1] == events[..i - 1] && events[1..][..i - 1][..i - 2] == events[1..][..i - 2];
      assert events[..i][i - 1] == events[1..][..i - 1][i - 2];
      RequestsCons(events, i - 1);
    } else {
      assert events[..1][..0] == [] && events[1..][..0] == [];
    }
  }

  lemma GoesThroughCons(env: Environment, events: seq<Event>, k: nat, m: nat)
    requires 0 < m <= |events| && !(events[0].PermissionRequested? && env.replyFails(k))
    requires RepliesGoThrough(env, events[1..][..m - 1], if events[0].PermissionRequested? then k + 1 else k)
    ensures RepliesGoThrough(env, events[..m], k)
  {
    hide Requests;
    forall i | 0 <= i < m && events[i].PermissionRequested?
      ensures !env.replyFails(k + |Requests(events[..m][..i])|)
    {
      assert events[..m][..i] == events[..i];
      if i == 0 {
        NoRequests(events[..0]);
      } else {
        RequestsCons(events, i);
        assert events[1..][..m - 1][..i - 1] == events[1..][..i - 1];
        assert events[1..][..m - 1][i - 1] == events[i];
      }
    }
  }

  lemma NoRequests(events: seq<Event>)
    requires events == []
    ensures Requests(events) == []
  {
  }

  ghost predicate UsedUpTo(env: Environment, events: seq<Event>, k: nat, reading: Reading) {
    && reading.taken <= |events|
    && (!reading.lost ==> reading.taken == |events| && RepliesGoThrough(env, events, k))
    && (reading.lost ==>
          && 0 < reading.taken && RepliesGoThrough(env, events[..reading.taken - 1], k)
          && events[reading.taken - 1].PermissionRequested?
          && env.replyFails(k + |Requests(events[..reading.taken - 1])|))
  }

  /** A sweep is used up to the first reply that fails, that request included; all of it when none does. */
  lemma {:induction false} UsedUpToFailure(env: Environment, events: seq<Event>, k: nat)
    ensures UsedUpTo(env, events, k, Read(env, events, k))
  {
    hide Requests, RepliesGoThrough;
    if events == [] {
      GoesThroughNothing(env, [], k);
    } else if events[0].PermissionRequested? && env.replyFails(k) {
      assert events[..0] == [];
      NoRequests(events[..0]);
      GoesThroughNothing(env, events[..0], k);
    } else {
      var next := if events[0].PermissionRequested? then k + 1 else k;
      var rest := Read(env, events[1..], next);
      UsedUpToFailure(env, events[1..], next);
      if rest.lost {
        GoesThroughCons(env, events, k, rest.taken);
        RequestsCons(events, rest.taken);
        assert events[rest.taken] == events[1..][rest.taken - 1];
      } else {
        assert events[1..][..|events| - 1] == events[1..] && events[..|events|] == events;
        GoesThroughCons(env, events, k, |events|);
      }
    }
  }

  lemma GoesThroughNothing(env: Environment, events: seq<Event>, k: nat)
    requires events == []
    ensures RepliesGoThrough(env, events, k)
  {
  }

  /** A sweep is lost when it brings nothing, breaks off, or has a request whose reply fails. */
  ghost predicate Lost(env: Environment, n: nat) {
    var sweep := env.sweeps(n);
    sweep.events == [] || sweep.breaks || !RepliesGoThrough(env, sweep.events, |Requests(Stream(env, n))|)
  }

  ghost function LostSweeps(env: Environment, n: nat): set<nat> {
    set i: nat | i < n && Lost(env, i)
  }

  lemma LostIsLossy(env: Environment, n: nat)
    ensures Lost(env, n) <==> Lossy(env, n)
  {
    hide Requests, Stream;
    var events, k := env.sweeps(n).events, |Requests(Stream(env, n))|;
    UsedUpToFailure(env, events, k);
    var reading := Read(env, events, k);
    if reading.lost {
      FailsAtLast(env, events, k, reading.taken);
    }
  }

  lemma FailsAtLast(env: Environment, events: seq<Event>, k: nat, m: nat)
    requires 0 < m <= |events| && events[m - 1].PermissionRequested?
    requires env.replyFails(k + |Requests(events[..m - 1])|)
    ensures !RepliesGoThrough(env, events, k)
  {
  }

  /** Losses counts the lost sweeps. */
  lemma {:induction false} LossesAreLost(env: Environment, n: nat)
    ensures Losses(env, n) == |LostSweeps(env, n)|
  {
    hide Lost, Lossy;
    if n > 0 {
      LossesAreLost(env, n - 1);
      LostIsLossy(env, n - 1);
      assert LostSweeps(env, n) == LostSweeps(env, n - 1) + if Lost(env, n - 1) then {n - 1} else {};
    }
  }

  /** What ended a run decides its state and its reason. */
  lemma EndDecides(env: Environment, limits: DelegationLimits, deadline: real, log: seq<Entry>, r: DelegationResult)
    requires Closed(env, limits, deadline, log, r)
    ensures
      var last := if log == [] then Paused else log[|log| - 1];
      && (r.state == DelegationState.Cancelled <==> last == TokenRead(true) || last == Handled(ExecutorCancelled))
      && (r.state == DelegationState.TimedOut <==> last.ClockRead? && last.now >= deadline)
      && (r.state == DelegationState.Completed <==> last.Handled? && last.event.Completed?)
      && (r.reason == Some(ExecutorError) <==> last.Handled? && last.event.ExecutorFailed?)
    ensures r.state != DelegationState.Failed ==>
      r.reason == if r.state == DelegationState.TimedOut then Some(Timeout) else None
    ensures r.state == DelegationState.Failed ==>
      r.reason.Some? && r.reason.value in {ExecutorError, OutputLimit, PermissionLimit, EventConnectionLost}
    ensures r.reason == Some(EventConnectionLost) ==> |LostSweeps(env, SweepCount(log))| == 4
  {
    hide Events, Requests, OutputBytes, Losses, SweepCount, LogOk, AllAnswered, LostSweeps;
    LossesAreLost(env, SweepCount(log));
  }

  /** Output beyond the limit is noticed at once: only the last event can exceed it. */
  lemma OutputBounded(env: Environment, limits: DelegationLimits, deadline: real, log: seq<Entry>,
                      r: DelegationResult)
    requires limits.Valid() && Closed(env, limits, deadline, log, r)
    ensures r.outputBytes > limits.maxOutputBytes <==> r.reason == Some(OutputLimit)
    ensures r.reason == Some(OutputLimit) ==>
      log != [] && OutputBytes(Events(log[..|log| - 1])) <= limits.maxOutputBytes
  {
    hide LogOk, Requests, Losses, SweepCount, Answers, AllAnswered, EndsWith, Quiet;
    if r.reason != Some(EventConnectionLost) {
      LastEntry(env, limits, deadline, log, r);
      OutputAtEnd(limits, deadline, log, r);
    }
  }

  lemma OutputAtEnd(limits: DelegationLimits, deadline: real, log: seq<Entry>, r: DelegationResult)
    requires log != [] && EndsWith(limits, deadline, log, r) && r.outputBytes == OutputBytes(Events(log))
    requires OutputBytes(Events(log[..|log| - 1])) <= limits.maxOutputBytes
    ensures r.outputBytes > limits.maxOutputBytes <==> r.reason == Some(OutputLimit)
  {
    hide Events, OutputBytes, EventSize, Requests;
    var front, last := log[..|log| - 1], log[|log| - 1];
    assert log == front + [last];
    LogGrows(front, last);
    if last.Handled? {
      EventsGrow(Events(front), last.event);
      if !last.event.Progress? {
        NoBytes(last.event);
      }
    }
  }

  /** At most ceil(wall / pace) sweeps, at most three of them lost before the last one; with a positive interval, the
      pace may be that interval. */
  lemma SweepsBounded(env: Environment, wall: real, log: seq<Entry>)
    requires env.pace > 0.0 && wall > 0.0 && WithinBounds(env, wall, log)
    ensures SweepCount(log) <= (wall / env.pace).Floor + 1
    ensures ((wall / env.pace).Floor as real) == wall / env.pace ==> SweepCount(log) <= (wall / env.pace).Floor
  {
    hide Events, SweepCount, During, Losses;
    var n := SweepCount(log);
    if n > 0 {
      SweepsFit(n - 1, env.pace, wall);
      assert wall == (wall / env.pace) * env.pace;
      Cancel((n - 1) as real, wall / env.pace, env.pace);
    } else {
      assert wall / env.pace > 0.0;
    }
  }
}
