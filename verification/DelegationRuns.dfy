/** What a monitored delegation does, as a log, and what such a log must look like (delegation/manager.py). */
module DelegationRuns {
  import opened Wrappers
  import opened DelegationEvents
  import opened DelegationModels
  import Utf8

  datatype Decision = Allow | Ask | Deny

  datatype Outcome = Approved | Denied | TimedOut | Cancelled

  // breaks: the iterator raises after these events.
  datatype Sweep = Sweep(events: seq<Event>, breaks: bool)

  /** What surrounds the monitor, entered at a time, with its poll interval and the time that is sure to pass between
      sweeps.  Clock and token are asked at a log position, the executor for its n-th sweep, the approver and the reply
      channel about the k-th request. */
  datatype Environment = Environment(
    entered: real,
    poll: real,
    pace: real,
    elapsed: nat -> real,
    cancelled: nat -> bool,
    sweeps: nat -> Sweep,
    policy: Event -> Decision,
    approver: Option<nat -> Outcome>,
    replyFails: nat -> bool)

  // The pause between sweeps: none when the interval is not positive.
  function Interval(env: Environment): (r: real)
    ensures r >= env.poll && r >= 0.0 && (r == env.poll || r == 0.0)
  {
    if env.poll > 0.0 then env.poll else 0.0
  }

  /** Time does not run backwards, and from one sweep to the next at least `pace` passes, in the pause or otherwise. */
  ghost predicate ClockRuns(env: Environment) {
    env.pace > 0.0 && forall i: nat :: env.elapsed(i) >= 0.0 && Interval(env) + env.elapsed(i) >= env.pace
  }

  /** A positive interval is enough. */
  lemma PollIsPace(env: Environment)
    requires env.poll > 0.0 && forall i: nat :: env.elapsed(i) >= 0.0
    ensures ClockRuns(env.(pace := env.poll))
  {
  }

  datatype Entry =
    | TokenRead(set_: bool)
    | ClockRead(now: real)
    | SweepStarted
    | Handled(event: Event)
    | Answered(id: string, approved: bool)  // respond_permission
    | Paused

  // --- what a log adds up to

  /** The events the monitor acted on. */
  function Events(log: seq<Entry>): seq<Event> {
    if log == [] then [] else
      var e := log[|log| - 1];
      Events(log[..|log| - 1]) + if e.Handled? then [e.event] else []
  }

  datatype Answer = Answer(id: string, approved: bool)

  function Answers(log: seq<Entry>): seq<Answer> {
    if log == [] then [] else
      var e := log[|log| - 1];
      Answers(log[..|log| - 1]) + if e.Answered? then [Answer(e.id, e.approved)] else []
  }

  function SweepCount(log: seq<Entry>): nat {
    if log == [] then 0
    else SweepCount(log[..|log| - 1]) + if log[|log| - 1].SweepStarted? then 1 else 0
  }

  /** The time after a log: it passes at clock reads and pauses. */
  function Time(env: Environment, log: seq<Entry>): real {
    if log == [] then env.entered else
      var before, e := Time(env, log[..|log| - 1]), log[|log| - 1];
      if e.ClockRead? then before + env.elapsed(|log| - 1)
      else if e.Paused? then before + Interval(env) + env.elapsed(|log| - 1)
      else before
  }

  function Requests(events: seq<Event>): seq<Event> {
    if events == [] then [] else
      var e := events[|events| - 1];
      Requests(events[..|events| - 1]) + if e.PermissionRequested? then [e] else []
  }

  function EventSize(e: Event): nat {
    if e.Progress? && e.text.Some? then |Utf8.Encode(e.text.value)| else 0
  }

  function OutputBytes(events: seq<Event>): nat {
    if events == [] then 0 else OutputBytes(events[..|events| - 1]) + EventSize(events[|events| - 1])
  }

  lemma EventsGrow(events: seq<Event>, e: Event)
    ensures Requests(events + [e]) == if e.PermissionRequested? then Requests(events) + [e] else Requests(events)
    ensures OutputBytes(events + [e]) == OutputBytes(events) + EventSize(e)
  {
    assert (events + [e])[..|events + [e]| - 1] == events;
    assert Requests(events) + [] == Requests(events);
  }

  lemma LogGrows(log: seq<Entry>, e: Entry)
    ensures Events(log + [e]) == if e.Handled? then Events(log) + [e.event] else Events(log)
    ensures Answers(log + [e]) == if e.Answered? then Answers(log) + [Answer(e.id, e.approved)] else Answers(log)
    ensures SweepCount(log + [e]) == SweepCount(log) + if e.SweepStarted? then 1 else 0
  {
    assert (log + [e])[..|log + [e]| - 1] == log;
    assert Events(log) + [] == Events(log) && Answers(log) + [] == Answers(log);
  }

  lemma TimePasses(env: Environment, log: seq<Entry>, e: Entry)
    ensures Time(env, log + [e]) == Time(env, log)
      + if e.ClockRead? then env.elapsed(|log|) else if e.Paused? then Interval(env) + env.elapsed(|log|) else 0.0
  {
    assert (log + [e])[..|log + [e]| - 1] == log;
  }

  // --- the answer every permission request deserves

  /** Approved when the policy allows it, or asks and the installed approver approves; never otherwise. */
  predicate Verdict(env: Environment, request: Event, k: nat) {
    match env.policy(request)
    case Allow => true
    case Deny => false
    case Ask => env.approver.Some? && env.approver.value(k) == Approved
  }

  function Verdicts(env: Environment, requests: seq<Event>): seq<Answer>
    requires forall i :: 0 <= i < |requests| ==> requests[i].PermissionRequested?
  {
    if requests == [] then [] else
      var k := |requests| - 1;
      Verdicts(env, requests[..k]) + [Answer(requests[k].id, Verdict(env, requests[k], k))]
  }

  lemma {:induction false} RequestsAreRequests(events: seq<Event>)
    ensures forall i :: 0 <= i < |Requests(events)| ==> Requests(events)[i].PermissionRequested?
  {
    if events != [] {
      RequestsAreRequests(events[..|events| - 1]);
    }
  }

  /** One answer per request, in order, for the first `most` requests. */
  ghost predicate AllAnswered(env: Environment, log: seq<Entry>, most: int) {
    var requests := Requests(Events(log));
    && (forall i :: 0 <= i < |requests| ==> requests[i].PermissionRequested?)
    && Answers(log)
         == Verdicts(env, requests[..if |requests| <= most then |requests| else if most < 0 then 0 else most])
  }

  // --- the events a series of sweeps offers

  // How much of a sweep is used, the k-th request being its first, and whether a failing reply cut it off.
  datatype Reading = Reading(taken: nat, lost: bool)

  function Read(env: Environment, events: seq<Event>, k: nat): (r: Reading)
    ensures r.taken <= |events|
  {
    if events == [] then Reading(0, false)
    else if events[0].PermissionRequested? && env.replyFails(k) then Reading(1, true)
    else
      var rest := Read(env, events[1..], if events[0].PermissionRequested? then k + 1 else k);
      Reading(1 + rest.taken, rest.lost)
  }

  /** All events of the first n sweeps, each up to the first reply that fails. */
  function Stream(env: Environment, n: nat): seq<Event> {
    if n == 0 then [] else
      var before, sweep := Stream(env, n - 1), env.sweeps(n - 1);
      before + sweep.events[..Read(env, sweep.events, |Requests(before)|).taken]
  }

  /** The n-th sweep counts as a lost connection: nothing came, or something failed. */
  predicate Lossy(env: Environment, n: nat) {
    var sweep := env.sweeps(n);
    sweep.events == [] || sweep.breaks || Read(env, sweep.events, |Requests(Stream(env, n))|).lost
  }

  function Losses(env: Environment, n: nat): nat {
    if n == 0 then 0 else Losses(env, n - 1) + if Lossy(env, n - 1) then 1 else 0
  }

  // --- well-formed logs

  // What ends the run as soon as it is seen.
  predicate Stops(deadline: real, e: Entry) {
    || e == TokenRead(true)
    || (e.ClockRead? && e.now >= deadline)
    || (e.Handled? && (e.event.Completed? || e.event.ExecutorFailed? || e.event.ExecutorCancelled?))
  }

  // Both checks were made just before position i.
  predicate Checked(log: seq<Entry>, i: nat)
    requires i <= |log|
  {
    i >= 2 && log[i - 2].TokenRead? && log[i - 1].ClockRead?
  }

  /** Token and clock are read truly; sweeps and events come right after a look at both, an answer right after
      its request. */
  predicate EntryOk(env: Environment, log: seq<Entry>, i: nat)
    requires i < |log|
  {
    && (log[i].TokenRead? ==> log[i].set_ == env.cancelled(i))
    && (log[i].ClockRead? ==> log[i].now == Time(env, log[..i + 1]))
    && (log[i].SweepStarted? || log[i].Handled? ==> Checked(log, i))
    && (log[i].Answered? ==>
          i >= 1 && log[i - 1].Handled? && log[i - 1].event.PermissionRequested? && log[i - 1].event.id == log[i].id)
  }

  ghost predicate LogOk(env: Environment, log: seq<Entry>) {
    forall i :: 0 <= i < |log| ==> EntryOk(env, log, i)
  }

  ghost predicate Quiet(deadline: real, log: seq<Entry>) {
    forall i :: 0 <= i < |log| ==> !Stops(deadline, log[i])
  }

  /** A run nothing has ended yet: no stopping entry, every request answered, within the limits. */
  ghost predicate Open(env: Environment, limits: DelegationLimits, deadline: real, log: seq<Entry>) {
    && LogOk(env, log) && Quiet(deadline, log)
    && |Requests(Events(log))| <= limits.maxPermissionRequests
    && OutputBytes(Events(log)) <= limits.maxOutputBytes
    && AllAnswered(env, log, limits.maxPermissionRequests)
  }

  datatype DelegationResult = DelegationResult(
    state: DelegationState, reason: Option<Reason>, permissionRequests: nat, outputBytes: nat)

  /** The last entry is the first thing to end the run, and it alone decides the result. */
  ghost predicate EndsWith(limits: DelegationLimits, deadline: real, log: seq<Entry>, r: DelegationResult)
    requires log != []
  {
    var last := log[|log| - 1];
    match r.state
    case Completed => r.reason == None && last.Handled? && last.event.Completed?
    case Cancelled => r.reason == None && (last == TokenRead(true) || last == Handled(ExecutorCancelled))
    case TimedOut => r.reason == Some(Timeout) && last.ClockRead? && last.now >= deadline
    case Failed =>
      || (r.reason == Some(ExecutorError) && last.Handled? && last.event.ExecutorFailed?)
      || (r.reason == Some(OutputLimit) && last.Handled? && last.event.Progress?
          && r.outputBytes > limits.maxOutputBytes)
      || (r.reason == Some(PermissionLimit) && last.Handled? && last.event.PermissionRequested?
          && r.permissionRequests == limits.maxPermissionRequests + 1)
    case _ => false
  }

  ghost predicate Closed(env: Environment, limits: DelegationLimits, deadline: real, log: seq<Entry>,
                         r: DelegationResult)
  {
    && r.permissionRequests == |Requests(Events(log))| && r.outputBytes == OutputBytes(Events(log))
    && if r.reason == Some(EventConnectionLost) then
         r.state == Failed && Open(env, limits, deadline, log)
         && Losses(env, SweepCount(log)) == RECONNECT_LIMIT + 1
       else
         && log != [] && LogOk(env, log) && Open(env, limits, deadline, log[..|log| - 1])
         && EndsWith(limits, deadline, log, r)
  }
}
