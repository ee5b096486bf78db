/** The approval hand-off between requesters and deciders, as an interleaving of their atomic steps
    (agent/approval_broker.py over agent/approval.py). */
module ApprovalHandOff {
  import opened Wrappers

  type Id = string

  /** One call of request_approval.  The id it carries may have been used before, or be in use: agent runs count
      their calls from call_1 in every turn, and a delegation uses one id for all its permissions. */
  datatype Request = Request(number: nat, id: Id)

  datatype Outcome = Approved | Denied

  // Where the thread that made a request stands.
  datatype Phase =
    | Idle
    | Registered                    // in the broker's pending queue
    | Waiting                       // has a wait handle, about to look at the cancel token
    | Watching                      // not cancelled, about to look for a decision
    | Looked                        // found none
    | Deciding                      // found one, about to take it
    | Returning(outcome: Outcome)   // about to drop the wait handle
    | Dropped(outcome: Outcome)     // about to leave the pending queue
    | Done(outcome: Outcome)

  datatype Entry =
    | Entered(r: Request)
    | Accepted(id: Id, outcome: Outcome)            // approve() or reject() recorded a decision
    | Taken(r: Request, decision: Option<Outcome>)  // the requester popped what was there
    | GaveUp(r: Request)                            // timeout or cancellation
    | Left(r: Request)

  /** queue: the decisions the holder of the broker's lock has still to record; None when the lock is free. */
  datatype State = State(
    pending: set<Id>,
    handles: set<Id>,
    decisions: map<Id, Outcome>,
    phases: map<Request, Phase>,
    cancelled: bool,
    queue: Option<seq<(Id, Outcome)>>,
    log: seq<Entry>)

  datatype Step =
    | Enter(r: Request)
    | OpenHandle(r: Request)
    | SeeCancel(r: Request)
    | Watch(r: Request)
    | SeeDecision(r: Request)
    | SeeNone(r: Request)
    | Retry(r: Request)
    | Expire(r: Request)
    | Take(r: Request)
    | CloseHandle(r: Request)
    | Leave(r: Request)
    | Decide(id: Id, outcome: Outcome)
    | RejectAll(ids: seq<Id>)
    | Record
    | Release
    | Cancel

  const INITIAL := State({}, {}, map[], map[], false, None, [])

  function PhaseOf(s: State, r: Request): Phase {
    if r in s.phases then s.phases[r] else Idle
  }

  predicate Enabled(s: State, step: Step) {
    match step
    case Enter(r) => PhaseOf(s, r) == Idle && s.queue.None?
    case OpenHandle(r) => PhaseOf(s, r) == Registered
    case SeeCancel(r) => PhaseOf(s, r) == Waiting && s.cancelled
    case Watch(r) => PhaseOf(s, r) == Waiting && !s.cancelled
    case SeeDecision(r) => PhaseOf(s, r) == Watching && r.id in s.decisions
    case SeeNone(r) => PhaseOf(s, r) == Watching && r.id !in s.decisions
    case Retry(r) => PhaseOf(s, r) == Looked
    case Expire(r) => PhaseOf(s, r) == Looked
    case Take(r) => PhaseOf(s, r) == Deciding
    case CloseHandle(r) => PhaseOf(s, r).Returning?
    case Leave(r) => PhaseOf(s, r).Dropped? && s.queue.None?
    case Decide(_, _) => s.queue.None?
    case RejectAll(ids) => s.queue.None? && (set id | id in ids) == s.pending
    case Record => s.queue.Some? && s.queue.value != []
    case Release => s.queue == Some([])
    case Cancel => true
  }

  function Move(s: State, r: Request, phase: Phase): State {
    s.(phases := s.phases[r := phase])
  }

  function DecisionFor(s: State, id: Id): Option<Outcome> {
    if id in s.decisions then Some(s.decisions[id]) else None
  }

  // self._decisions.pop(id, DENIED)
  function Verdict(decision: Option<Outcome>): Outcome {
    if decision.Some? then decision.value else Denied
  }

  function Denials(ids: seq<Id>): (r: seq<(Id, Outcome)>)
    ensures |r| == |ids| && forall i :: 0 <= i < |ids| ==> r[i] == (ids[i], Denied)
  {
    seq(|ids|, i requires 0 <= i < |ids| => (ids[i], Denied))
  }

  function Apply(s: State, step: Step): State
    requires Enabled(s, step)
  {
    match step
    case Enter(r) => Move(s, r, Registered).(pending := s.pending + {r.id}, log := s.log + [Entered(r)])
    case OpenHandle(r) => Move(s, r, Waiting).(handles := s.handles + {r.id})
    case SeeCancel(r) => Move(s, r, Returning(Denied)).(log := s.log + [GaveUp(r)])
    case Watch(r) => Move(s, r, Watching)
    case SeeDecision(r) => Move(s, r, Deciding)
    case SeeNone(r) => Move(s, r, Looked)
    case Retry(r) => Move(s, r, Waiting)
    case Expire(r) => Move(s, r, Returning(Denied)).(log := s.log + [GaveUp(r)])
    case Take(r) =>
      var decision := DecisionFor(s, r.id);
      Move(s, r, Returning(Verdict(decision)))
        .(decisions := s.decisions - {r.id}, log := s.log + [Taken(r, decision)])
    case CloseHandle(r) => Move(s, r, Dropped(PhaseOf(s, r).outcome)).(handles := s.handles - {r.id})
    case Leave(r) => Move(s, r, Done(PhaseOf(s, r).outcome)).(pending := s.pending - {r.id}, log := s.log + [Left(r)])
    case Decide(id, outcome) => if id in s.pending then s.(queue := Some([(id, outcome)])) else s
    case RejectAll(ids) => s.(queue := Some(Denials(ids)))
    case Record =>
      var (id, outcome) := s.queue.value[0];
      s.(queue := Some(s.queue.value[1..]), decisions := s.decisions[id := outcome],
         log := s.log + [Accepted(id, outcome)])
    case Release => s.(queue := None)
    case Cancel => s.(cancelled := true)
  }

  /** The state after a series of steps, if each was enabled in its turn. */
  function RunFrom(s: State, steps: seq<Step>): Option<State> {
    if steps == [] then Some(s) else
      var before, last := RunFrom(s, steps[..|steps| - 1]), steps[|steps| - 1];
      if before.Some? && Enabled(before.value, last) then Some(Apply(before.value, last)) else None
  }

  function Exec(steps: seq<Step>): Option<State> {
    RunFrom(INITIAL, steps)
  }

  lemma {:induction false} RunConcat(s: State, a: seq<Step>, b: seq<Step>)
    requires RunFrom(s, a).Some?
    ensures RunFrom(s, a + b) == RunFrom(RunFrom(s, a).value, b)
  {
    if b == [] {
      assert a + b == a;
    } else {
      assert (a + b)[..|a + b| - 1] == a + b[..|b| - 1];
      RunConcat(s, a, b[..|b| - 1]);
    }
  }

  // --- reading the log

  // Something happened to the decision for id: it was set, or popped.
  predicate Touches(e: Entry, id: Id) {
    (e.Accepted? && e.id == id) || (e.Taken? && e.r.id == id)
  }

  /** The recorded decision nobody has taken yet. */
  function Standing(log: seq<Entry>, id: Id): Option<Outcome> {
    if log == [] then None else
      var last := log[|log| - 1];
      if !Touches(last, id) then Standing(log[..|log| - 1], id)
      else if last.Accepted? then Some(last.outcome) else None
  }

  function PendingIn(log: seq<Entry>, id: Id): bool {
    if log == [] then false else
      var last := log[|log| - 1];
      if (last.Entered? || last.Left?) && last.r.id == id then last.Entered?
      else PendingIn(log[..|log| - 1], id)
  }

  ghost predicate Untouched(log: seq<Entry>, id: Id, i: int, j: int)
    requires 0 <= i <= j <= |log|
  {
    forall k :: i <= k < j ==> !Touches(log[k], id)
  }

  /** At i an `outcome` for id was accepted, and until j it was neither replaced nor taken. */
  ghost predicate DecidedBy(log: seq<Entry>, id: Id, outcome: Outcome, i: int, j: int) {
    0 <= i < j <= |log| && log[i] == Accepted(id, outcome) && Untouched(log, id, i + 1, j)
  }

  lemma {:induction false} StandingWasAccepted(log: seq<Entry>, id: Id) returns (i: nat)
    requires Standing(log, id).Some?
    ensures DecidedBy(log, id, Standing(log, id).value, i, |log|)
  {
    if Touches(log[|log| - 1], id) {
      i := |log| - 1;
    } else {
      i := StandingWasAccepted(log[..|log| - 1], id);
    }
  }

  lemma {:induction false} DecidedStands(log: seq<Entry>, id: Id, outcome: Outcome, i: nat, j: nat)
    requires DecidedBy(log, id, outcome, i, j)
    ensures Standing(log[..j], id) == Some(outcome)
  {
    var part := log[..j];
    assert part[..|part| - 1] == log[..j - 1];
    if i < j - 1 {
      DecidedStands(log, id, outcome, i, j - 1);
    }
  }

  // Whether the entry is part of the request's own course.
  predicate Mentions(e: Entry, r: Request) {
    !e.Accepted? && e.r == r
  }

  ghost predicate StartedAt(log: seq<Entry>, r: Request, e: int) {
    0 <= e < |log| && log[e] == Entered(r) && forall k :: 0 <= k < e ==> !Mentions(log[k], r)
  }

  ghost predicate OnlyPendingAccepted(log: seq<Entry>) {
    forall i :: 0 <= i < |log| && log[i].Accepted? ==> PendingIn(log[..i], log[i].id)
  }

  // --- what every interleaving keeps

  predicate InQueue(p: Phase) {
    !p.Idle? && !p.Done?
  }

  predicate HasHandle(p: Phase) {
    p.Waiting? || p.Watching? || p.Looked? || p.Deciding? || p.Returning?
  }

  predicate HasOutcome(p: Phase) {
    p.Returning? || p.Dropped? || p.Done?
  }

  ghost predicate SomeoneInQueue(s: State, id: Id) {
    exists r: Request :: r.id == id && InQueue(PhaseOf(s, r))
  }

  ghost predicate SomeoneHasHandle(s: State, id: Id) {
    exists r: Request :: r.id == id && HasHandle(PhaseOf(s, r))
  }

  /** For each id: the queue and the decisions are what the log says, and nobody's traces are left. */
  ghost predicate IdAgrees(s: State, id: Id) {
    && (id in s.pending <==> PendingIn(s.log, id)) && DecisionFor(s, id) == Standing(s.log, id)
    && (id in s.pending ==> SomeoneInQueue(s, id)) && (id in s.handles ==> SomeoneHasHandle(s, id))
  }

  // Entry j is the one time r took a decision, namely the one that stood.
  ghost predicate TakenAt(log: seq<Entry>, r: Request, j: int) {
    && 0 <= j < |log| && log[j].Taken? && log[j].r == r && log[j].decision == Standing(log[..j], r.id)
    && (forall k :: 0 <= k < |log| && log[k].Taken? && log[k].r == r ==> k == j)
  }

  ghost predicate NothingTaken(log: seq<Entry>, r: Request) {
    forall k :: 0 <= k < |log| ==> !(log[k].Taken? && log[k].r == r)
  }

  /** A request ends in exactly one of two ways: it takes what stands, or it gives up and is denied. */
  ghost predicate OutcomeExplained(log: seq<Entry>, r: Request, outcome: Outcome) {
    if GaveUp(r) in log then outcome == Denied && NothingTaken(log, r)
    else exists j :: TakenAt(log, r, j) && outcome == Verdict(log[j].decision)
  }

  ghost predicate OutcomeAgrees(s: State, r: Request) {
    if HasOutcome(PhaseOf(s, r)) then OutcomeExplained(s.log, r, PhaseOf(s, r).outcome)
    else GaveUp(r) !in s.log && NothingTaken(s.log, r)
  }

  ghost predicate RequestAgrees(s: State, r: Request) {
    var p := PhaseOf(s, r);
    && (if p.Idle? then forall k :: 0 <= k < |s.log| ==> !Mentions(s.log[k], r)
        else exists e :: StartedAt(s.log, r, e))
    && OutcomeAgrees(s, r)
  }

  ghost predicate QueueOk(s: State) {
    s.queue.Some? ==> forall i :: 0 <= i < |s.queue.value| ==> s.queue.value[i].0 in s.pending
  }

  ghost predicate Invariant(s: State) {
    && QueueOk(s) && OnlyPendingAccepted(s.log)
    && (forall id {:trigger IdAgrees(s, id)} :: IdAgrees(s, id))
    && (forall r {:trigger RequestAgrees(s, r)} :: RequestAgrees(s, r))
  }

  // At most one entry is appended per step.
  function EntryOf(s: State, step: Step): seq<Entry>
    requires Enabled(s, step)
    ensures Apply(s, step).log == s.log + EntryOf(s, step) && |EntryOf(s, step)| <= 1
  {
    match step
    case Enter(r) => [Entered(r)]
    case SeeCancel(r) => [GaveUp(r)]
    case Expire(r) => [GaveUp(r)]
    case Take(r) => [Taken(r, DecisionFor(s, r.id))]
    case Leave(r) => [Left(r)]
    case Record => [Accepted(s.queue.value[0].0, s.queue.value[0].1)]
    case _ => []
  }

  lemma LogReadNext(log: seq<Entry>, e: Entry, id: Id)
    ensures Standing(log + [e], id) ==
      if !Touches(e, id) then Standing(log, id) else if e.Accepted? then Some(e.outcome) else None
    ensures PendingIn(log + [e], id) ==
      if (e.Entered? || e.Left?) && e.r.id == id then e.Entered? else PendingIn(log, id)
  {
    assert (log + [e])[..|log|] == log;
  }

  // The request a step belongs to.
  function Mover(step: Step): Option<Request> {
    match step
    case Decide(_, _) => None
    case RejectAll(_) => None
    case Record => None
    case Release => None
    case Cancel => None
    case _ => Some(step.r)
  }

  lemma OthersStay(s: State, step: Step, r: Request)
    requires Enabled(s, step) && Mover(step) != Some(r)
    ensures PhaseOf(Apply(s, step), r) == PhaseOf(s, r)
  {
  }

  lemma KeepsOwner(s: State, step: Step, id: Id)
    requires Enabled(s, step) && (id in s.pending ==> SomeoneInQueue(s, id))
    ensures var t := Apply(s, step); id in t.pending ==> SomeoneInQueue(t, id)
  {
    var t := Apply(s, step);
    if id in t.pending {
      if id in s.pending && (step.Leave? ==> step.r.id != id) {
        var r: Request :| r.id == id && InQueue(PhaseOf(s, r));
        assert InQueue(PhaseOf(t, r));
      } else {
        assert InQueue(PhaseOf(t, step.r));
      }
    }
  }

  lemma KeepsHandle(s: State, step: Step, id: Id)
    requires Enabled(s, step) && (id in s.handles ==> SomeoneHasHandle(s, id))
    ensures var t := Apply(s, step); id in t.handles ==> SomeoneHasHandle(t, id)
  {
    var t := Apply(s, step);
    if id in t.handles {
      if id in s.handles {
        var r: Request :| r.id == id && HasHandle(PhaseOf(s, r));
        assert HasHandle(PhaseOf(t, r));
      } else {
        assert HasHandle(PhaseOf(t, step.r));
      }
    }
  }

  lemma KeepsIds(s: State, step: Step, id: Id)
    requires Enabled(s, step) && IdAgrees(s, id)
    ensures IdAgrees(Apply(s, step), id)
  {
    hide Standing, PendingIn, SomeoneInQueue, SomeoneHasHandle;
    KeepsOwner(s, step, id);
    KeepsHandle(s, step, id);
    if EntryOf(s, step) != [] {
      LogReadNext(s.log, EntryOf(s, step)[0], id);
    }
  }

  lemma KeepsStart(log: seq<Entry>, more: seq<Entry>, r: Request, e: int)
    requires StartedAt(log, r, e)
    ensures StartedAt(log + more, r, e)
  {
  }

  lemma KeepsExplanation(log: seq<Entry>, more: seq<Entry>, r: Request, outcome: Outcome)
    requires OutcomeExplained(log, r, outcome)
    requires GaveUp(r) !in more && NothingTaken(more, r)
    ensures OutcomeExplained(log + more, r, outcome)
  {
    hide Standing;
    if GaveUp(r) !in log {
      var j :| TakenAt(log, r, j) && outcome == Verdict(log[j].decision);
      assert (log + more)[..j] == log[..j];
      assert forall k :: |log| <= k < |log + more| ==> (log + more)[k] == more[k - |log|];
      assert TakenAt(log + more, r, j);
    }
  }

  lemma ExplainsTaking(log: seq<Entry>, r: Request)
    requires GaveUp(r) !in log && NothingTaken(log, r)
    ensures
      var decision := Standing(log, r.id);
      OutcomeExplained(log + [Taken(r, decision)], r, Verdict(decision))
  {
    hide Standing;
    var next := log + [Taken(r, Standing(log, r.id))];
    assert next[..|log|] == log;
    assert TakenAt(next, r, |log|);
  }

  lemma ExplainsGivingUp(log: seq<Entry>, r: Request)
    requires NothingTaken(log, r)
    ensures OutcomeExplained(log + [GaveUp(r)], r, Denied)
  {
  }

  lemma KeepsCourse(s: State, step: Step, r: Request)
    requires Enabled(s, step) && RequestAgrees(s, r)
    ensures
      var t := Apply(s, step);
      if PhaseOf(t, r).Idle? then forall k :: 0 <= k < |t.log| ==> !Mentions(t.log[k], r)
      else exists e :: StartedAt(t.log, r, e)
  {
    hide OutcomeAgrees;
    var t := Apply(s, step);
    if !PhaseOf(s, r).Idle? {
      var e :| StartedAt(s.log, r, e);
      KeepsStart(s.log, EntryOf(s, step), r, e);
    } else if step == Enter(r) {
      assert StartedAt(t.log, r, |s.log|);
    }
  }

  lemma KeepsGivenOutcome(s: State, step: Step, r: Request)
    requires Enabled(s, step) && HasOutcome(PhaseOf(s, r)) && OutcomeAgrees(s, r)
    ensures OutcomeAgrees(Apply(s, step), r)
  {
    hide OutcomeExplained;
    KeepsExplanation(s.log, EntryOf(s, step), r, PhaseOf(s, r).outcome);
  }

  lemma KeepsOpenOutcome(s: State, step: Step, r: Request)
    requires Enabled(s, step) && !HasOutcome(PhaseOf(s, r)) && OutcomeAgrees(s, r)
    requires DecisionFor(s, r.id) == Standing(s.log, r.id)
    ensures OutcomeAgrees(Apply(s, step), r)
  {
    hide Standing, OutcomeExplained;
    if step == Take(r) {
      ExplainsTaking(s.log, r);
    } else if step == Expire(r) || step == SeeCancel(r) {
      ExplainsGivingUp(s.log, r);
    }
  }

  lemma KeepsPendingAccepted(s: State, step: Step)
    requires Enabled(s, step) && QueueOk(s) && OnlyPendingAccepted(s.log)
    requires forall id {:trigger IdAgrees(s, id)} :: IdAgrees(s, id)
    ensures OnlyPendingAccepted(Apply(s, step).log)
  {
    hide PendingIn, Standing, SomeoneInQueue, SomeoneHasHandle;
    var next := Apply(s, step).log;
    forall i | 0 <= i < |next| && next[i].Accepted? ensures PendingIn(next[..i], next[i].id) {
      assert next[..i] == s.log[..i];
      if i == |s.log| {
        assert s.log[..i] == s.log;
        assert IdAgrees(s, next[i].id);
      }
    }
  }

  lemma KeepsQueue(s: State, step: Step)
    requires Enabled(s, step) && QueueOk(s)
    ensures QueueOk(Apply(s, step))
  {
  }

  lemma KeepsInvariant(s: State, step: Step)
    requires Enabled(s, step) && Invariant(s)
    ensures Invariant(Apply(s, step))
  {
    hide OnlyPendingAccepted, OutcomeAgrees, StartedAt, QueueOk, Apply, Standing, PendingIn, SomeoneInQueue,
      SomeoneHasHandle;
    forall id ensures IdAgrees(Apply(s, step), id) {
      assert IdAgrees(s, id);
      KeepsIds(s, step, id);
    }
    forall r ensures RequestAgrees(Apply(s, step), r) {
      assert RequestAgrees(s, r) && IdAgrees(s, r.id);
      KeepsCourse(s, step, r);
      if HasOutcome(PhaseOf(s, r)) {
        KeepsGivenOutcome(s, step, r);
      } else {
        KeepsOpenOutcome(s, step, r);
      }
    }
    KeepsPendingAccepted(s, step);
    KeepsQueue(s, step);
  }

  lemma InitialInvariant()
    ensures Invariant(INITIAL)
  {
  }

  lemma {:induction false} RunKeepsInvariant(s: State, steps: seq<Step>)
    requires Invariant(s) && RunFrom(s, steps).Some?
    ensures Invariant(RunFrom(s, steps).value)
  {
    if steps != [] {
      RunKeepsInvariant(s, steps[..|steps| - 1]);
      KeepsInvariant(RunFrom(s, steps[..|steps| - 1]).value, steps[|steps| - 1]);
    }
  }

  /** Every interleaving keeps queue, handles, decisions and outcomes in agreement with what happened. */
  lemma EveryRunKeepsInvariant(steps: seq<Step>)
    requires Exec(steps).Some?
    ensures Invariant(Exec(steps).value)
  {
    InitialInvariant();
    RunKeepsInvariant(INITIAL, steps);
  }
}
