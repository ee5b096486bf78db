/** What the approval hand-off guarantees, and exactly when (agent/approval.py, agent/approval_broker.py). */
module ApprovalGuarantees {
  import opened Wrappers
  import opened ApprovalHandOff

  // --- small facts about runs

  lemma Extend(s: State, before: seq<Step>, t: State, step: Step)
    requires RunFrom(s, before) == Some(t) && Enabled(t, step)
    ensures RunFrom(s, before + [step]) == Some(Apply(t, step))
  {
    assert (before + [step])[..|before|] == before;
  }

  lemma {:induction false} LogOnlyGrows(s: State, steps: seq<Step>)
    requires RunFrom(s, steps).Some?
    ensures s.log <= RunFrom(s, steps).value.log
  {
    hide Apply, Enabled;
    if steps != [] {
      LogOnlyGrows(s, steps[..|steps| - 1]);
      var t, last := RunFrom(s, steps[..|steps| - 1]).value, steps[|steps| - 1];
      assert Apply(t, last).log == t.log + EntryOf(t, last);
    }
  }

  // --- what a decider says is what is recorded

  // Some decider called for this outcome.
  predicate CalledFor(step: Step, id: Id, outcome: Outcome) {
    step == Decide(id, outcome) || (step.RejectAll? && id in step.ids && outcome == Denied)
  }

  ghost predicate SomeoneCalledFor(steps: seq<Step>, id: Id, outcome: Outcome) {
    exists k :: 0 <= k < |steps| && CalledFor(steps[k], id, outcome)
  }

  lemma StillCalledFor(steps: seq<Step>, step: Step, id: Id, outcome: Outcome)
    ensures SomeoneCalledFor(steps, id, outcome) ==> SomeoneCalledFor(steps + [step], id, outcome)
    ensures CalledFor(step, id, outcome) ==> SomeoneCalledFor(steps + [step], id, outcome)
  {
    assert (steps + [step])[|steps|] == step;
    if k :| 0 <= k < |steps| && CalledFor(steps[k], id, outcome) {
      assert (steps + [step])[k] == steps[k];
    }
  }

  // What is to be recorded, and what was recorded.
  ghost predicate AllCalledFor(s: State, steps: seq<Step>) {
    && (s.queue.Some? ==> forall i :: 0 <= i < |s.queue.value| ==>
          SomeoneCalledFor(steps, s.queue.value[i].0, s.queue.value[i].1))
    && (forall i :: 0 <= i < |s.log| && s.log[i].Accepted? ==>
          SomeoneCalledFor(steps, s.log[i].id, s.log[i].outcome))
  }

  lemma {:induction false} RunCalledFor(steps: seq<Step>)
    requires Exec(steps).Some?
    ensures AllCalledFor(Exec(steps).value, steps)
  {
    hide SomeoneCalledFor, CalledFor;
    if steps != [] {
      var front, last := steps[..|steps| - 1], steps[|steps| - 1];
      RunCalledFor(front);
      assert steps == front + [last];
      forall id, outcome
        ensures SomeoneCalledFor(front, id, outcome) ==> SomeoneCalledFor(steps, id, outcome)
        ensures CalledFor(last, id, outcome) ==> SomeoneCalledFor(steps, id, outcome)
      {
        StillCalledFor(front, last, id, outcome);
      }
      QueueCalledFor(Exec(front).value, last);
    }
  }

  lemma QueueCalledFor(s: State, step: Step)
    requires Enabled(s, step)
    ensures
      var t := Apply(s, step);
      && (t.queue.Some? && s.queue.None? ==> forall i :: 0 <= i < |t.queue.value| ==>
            CalledFor(step, t.queue.value[i].0, t.queue.value[i].1))
  {
  }

  /** An approval that was recorded was called for by approve(id); a denial, by reject(id) or by reject_all while the id
      was pending. */
  lemma RecordedAsDecided(steps: seq<Step>, id: Id)
    requires Exec(steps).Some?
    ensures Accepted(id, Approved) in Exec(steps).value.log ==> Decide(id, Approved) in steps
    ensures Accepted(id, Denied) in Exec(steps).value.log ==>
      Decide(id, Denied) in steps || exists ids :: RejectAll(ids) in steps && id in ids
  {
    hide Exec;
    RunCalledFor(steps);
  }

  ghost predicate RecordedSince(log: seq<Entry>, m: nat, id: Id, outcome: Outcome) {
    exists i :: m <= i < |log| && log[i] == Accepted(id, outcome)
  }

  // The holder of the lock records everything before it lets go.
  lemma {:induction false} HolderRecords(s: State, rest: seq<Step>, id: Id, outcome: Outcome)
    requires s.queue.Some? && (id, outcome) in s.queue.value && RunFrom(s, rest).Some?
    ensures var t := RunFrom(s, rest).value;
      && |s.log| <= |t.log|
      && ((t.queue.Some? && (id, outcome) in t.queue.value) || RecordedSince(t.log, |s.log|, id, outcome))
  {
    if rest != [] {
      var front, last := rest[..|rest| - 1], rest[|rest| - 1];
      HolderRecords(s, front, id, outcome);
      RecordingGoesOn(RunFrom(s, front).value, last, |s.log|, id, outcome);
    }
  }

  lemma RecordingGoesOn(t: State, step: Step, m: nat, id: Id, outcome: Outcome)
    requires Enabled(t, step) && m <= |t.log|
    requires (t.queue.Some? && (id, outcome) in t.queue.value) || RecordedSince(t.log, m, id, outcome)
    ensures var u := Apply(t, step);
      && m <= |u.log|
      && ((u.queue.Some? && (id, outcome) in u.queue.value) || RecordedSince(u.log, m, id, outcome))
  {
    var u := Apply(t, step);
    assert u.log == t.log + EntryOf(t, step);
    if i :| m <= i < |t.log| && t.log[i] == Accepted(id, outcome) {
      assert u.log[i] == Accepted(id, outcome);
    } else if step.Record? && t.queue.value[0] == (id, outcome) {
      assert u.log[|t.log|] == Accepted(id, outcome);
    }
  }

  /** approve and reject are heard: once the lock is free again, the decision for a pending id is recorded, whatever the
      others did meanwhile. */
  lemma DecisionIsRecorded(s: State, id: Id, outcome: Outcome, rest: seq<Step>)
    requires Enabled(s, Decide(id, outcome)) && RunFrom(s, [Decide(id, outcome)] + rest).Some?
    requires RunFrom(s, [Decide(id, outcome)] + rest).value.queue.None?
    ensures id in s.pending ==>
      RecordedSince(RunFrom(s, [Decide(id, outcome)] + rest).value.log, |s.log|, id, outcome)
  {
    FirstStep(s, Decide(id, outcome), rest);
    if id in s.pending {
      var t := Apply(s, Decide(id, outcome));
      assert t.queue.value[0] == (id, outcome);
      HolderRecords(t, rest, id, outcome);
    }
  }

  /** Refused: a decision for an id that is not pending changes nothing. */
  lemma NotPendingIgnored(s: State, id: Id, outcome: Outcome)
    requires Enabled(s, Decide(id, outcome)) && id !in s.pending
    ensures RunFrom(s, [Decide(id, outcome)]) == Some(s)
  {
    FirstStep(s, Decide(id, outcome), []);
    assert [Decide(id, outcome)] + [] == [Decide(id, outcome)];
  }

  /** reject_all denies every id that is pending. */
  lemma RejectAllIsRecorded(s: State, ids: seq<Id>, rest: seq<Step>, id: Id)
    requires Enabled(s, RejectAll(ids)) && RunFrom(s, [RejectAll(ids)] + rest).Some?
    requires RunFrom(s, [RejectAll(ids)] + rest).value.queue.None?
    ensures id in s.pending ==> RecordedSince(RunFrom(s, [RejectAll(ids)] + rest).value.log, |s.log|, id, Denied)
  {
    FirstStep(s, RejectAll(ids), rest);
    if id in s.pending {
      var t := Apply(s, RejectAll(ids));
      assert id in (set x | x in ids);
      var i :| 0 <= i < |ids| && ids[i] == id;
      assert t.queue.value[i] == (id, Denied);
      HolderRecords(t, rest, id, Denied);
    }
  }

  /** What was recorded last, and not taken since, is what a requester that looks will take. */
  lemma RecordedStands(steps: seq<Step>, id: Id, outcome: Outcome, i: nat)
    requires Exec(steps).Some? && DecidedBy(Exec(steps).value.log, id, outcome, i, |Exec(steps).value.log|)
    ensures DecisionFor(Exec(steps).value, id) == Some(outcome)
  {
    hide Exec, Standing, PendingIn, SomeoneInQueue, SomeoneHasHandle, QueueOk, OnlyPendingAccepted, RequestAgrees;
    var s := Exec(steps).value;
    EveryRunKeepsInvariant(steps);
    assert IdAgrees(s, id);
    assert s.log[..|s.log|] == s.log;
    DecidedStands(s.log, id, outcome, i, |s.log|);
  }

  /** A requester that looked too early can come back for a decision. */
  lemma LookedMayStillTake(s: State, r: Request) returns (rest: seq<Step>)
    requires PhaseOf(s, r) == Looked && r.id in s.decisions && !s.cancelled
    ensures RunFrom(s, rest).Some? && PhaseOf(RunFrom(s, rest).value, r) == Returning(s.decisions[r.id])
    ensures RunFrom(s, rest).value.log == s.log + [Taken(r, Some(s.decisions[r.id]))]
  {
    Extend(s, [], s, Retry(r));
    var s1 := Apply(s, Retry(r));
    Extend(s, [Retry(r)], s1, Watch(r));
    var s2 := Apply(s1, Watch(r));
    rest := [Retry(r)] + [Watch(r)];
    Extend(s, rest, s2, SeeDecision(r));
    var s3 := Apply(s2, SeeDecision(r));
    rest := rest + [SeeDecision(r)];
    Extend(s, rest, s3, Take(r));
    rest := rest + [Take(r)];
  }

  // The only request with its id so far.
  ghost predicate Alone(s: State, r: Request) {
    forall q: Request :: q.id == r.id && q != r ==> PhaseOf(s, q) == Idle
  }

  /** While no other request shares its id, a request's wait handle is there from its opening to its closing. */
  lemma {:induction false} HandleWhileWaiting(steps: seq<Step>, r: Request)
    requires Exec(steps).Some? && Alone(Exec(steps).value, r)
    ensures HasHandle(PhaseOf(Exec(steps).value, r)) <==> r.id in Exec(steps).value.handles
  {
    if steps != [] {
      var front, last := steps[..|steps| - 1], steps[|steps| - 1];
      var s := Exec(front).value;
      forall q: Request | q.id == r.id && q != r ensures PhaseOf(s, q) == Idle {
        NeverIdleAgain(s, last, q);
      }
      HandleWhileWaiting(front, r);
    }
  }

  lemma NeverIdleAgain(s: State, step: Step, q: Request)
    requires Enabled(s, step) && PhaseOf(Apply(s, step), q) == Idle
    ensures PhaseOf(s, q) == Idle && Mover(step) != Some(q)
  {
  }

  // --- where an approval comes from

  // The decision r took at j was accepted at i, after r entered at e.
  ghost predicate OwnApprovalAt(log: seq<Entry>, r: Request, e: int, i: int, j: int) {
    && StartedAt(log, r, e) && e < i && DecidedBy(log, r.id, Approved, i, j)
    && j < |log| && log[j] == Taken(r, Some(Approved))
  }

  /** The approval that r took was accepted while r itself was waiting for one. */
  ghost predicate OwnApproval(log: seq<Entry>, r: Request) {
    exists e, i, j :: OwnApprovalAt(log, r, e, i, j)
  }

  /** An approval returned to a requester was accepted from a decider while its id was pending, and was neither
      replaced nor taken before.  It is an older one exactly when it was held already as the request entered, and
      nothing happened to it since. */
  lemma ApprovedWasAccepted(steps: seq<Step>, r: Request) returns (e: int, i: int, j: int)
    requires Exec(steps).Some?
    requires HasOutcome(PhaseOf(Exec(steps).value, r)) && PhaseOf(Exec(steps).value, r).outcome == Approved
    ensures var log := Exec(steps).value.log;
      && StartedAt(log, r, e) && e < j < |log| && log[j] == Taken(r, Some(Approved))
      && DecidedBy(log, r.id, Approved, i, j) && PendingIn(log[..i], r.id)
      && (i < e <==> Standing(log[..e], r.id) == Some(Approved) && Untouched(log, r.id, e, j))
  {
    hide Exec, Standing, PendingIn, IdAgrees, SomeoneInQueue, SomeoneHasHandle, QueueOk;
    var s := Exec(steps).value;
    EveryRunKeepsInvariant(steps);
    assert RequestAgrees(s, r);
    e :| StartedAt(s.log, r, e);
    j :| TakenAt(s.log, r, j) && Approved == Verdict(s.log[j].decision);
    i := StandingWasAccepted(s.log[..j], r.id);
    assert DecidedBy(s.log, r.id, Approved, i, j);
    if i < e {
      DecidedStands(s.log, r.id, Approved, i, e);
    }
  }

  lemma StartIsUnique(log: seq<Entry>, r: Request, e: int, f: int)
    requires StartedAt(log, r, e) && StartedAt(log, r, f)
    ensures e == f
  {
    assert Mentions(log[e], r) && Mentions(log[f], r);
  }

  // Entering now: nothing can make a decision that is not there an old approval.
  lemma EnteredWithoutApproval(before: seq<Step>, r: Request, rest: seq<Step>)
    requires Exec(before).Some? && Enabled(Exec(before).value, Enter(r))
    requires DecisionFor(Exec(before).value, r.id) != Some(Approved)
    requires RunFrom(Apply(Exec(before).value, Enter(r)), rest).Some?
    requires var t := RunFrom(Apply(Exec(before).value, Enter(r)), rest).value;
             HasOutcome(PhaseOf(t, r)) && PhaseOf(t, r).outcome == Approved
    ensures OwnApproval(RunFrom(Apply(Exec(before).value, Enter(r)), rest).value.log, r)
  {
    hide RunFrom, Standing, StartedAt, DecidedBy, Untouched, PendingIn, SomeoneInQueue, SomeoneHasHandle, QueueOk,
      OutcomeExplained, NothingTaken, OnlyPendingAccepted;
    var s := Exec(before).value;
    var s1 := Apply(s, Enter(r));
    var t := RunFrom(s1, rest).value;
    Extend(INITIAL, before, s, Enter(r));
    RunConcat(INITIAL, before + [Enter(r)], rest);
    var e, i, j := ApprovedWasAccepted(before + [Enter(r)] + rest, r);
    LogOnlyGrows(s1, rest);
    EnteredHere(before, r);
    StartCarries(s1.log, t.log, r, |s.log|);
    StartIsUnique(t.log, r, e, |s.log|);
    EveryRunKeepsInvariant(before);
    assert IdAgrees(s, r.id);
    assert t.log[..e] == s.log;
    assert i != e by {
      AcceptedIsNoEntrance(t.log, r, e, i, j);
    }
    assert OwnApprovalAt(t.log, r, e, i, j);
  }

  lemma AcceptedIsNoEntrance(log: seq<Entry>, r: Request, e: int, i: int, j: int)
    requires StartedAt(log, r, e) && DecidedBy(log, r.id, Approved, i, j)
    ensures i != e
  {
  }

  lemma EnteredHere(before: seq<Step>, r: Request)
    requires Exec(before).Some? && Enabled(Exec(before).value, Enter(r))
    ensures var s := Exec(before).value; StartedAt(Apply(s, Enter(r)).log, r, |s.log|)
  {
    hide Exec, IdAgrees, QueueOk, OnlyPendingAccepted;
    EveryRunKeepsInvariant(before);
    assert RequestAgrees(Exec(before).value, r);
  }

  lemma StartCarries(log: seq<Entry>, longer: seq<Entry>, r: Request, e: int)
    requires StartedAt(log, r, e) && log <= longer
    ensures StartedAt(longer, r, e)
  {
    assert longer == log + longer[|log|..];
    KeepsStart(log, longer[|log|..], r, e);
  }

  // A request that enters a cancelled run is denied.
  lemma {:induction false} EnteredCancelled(s: State, r: Request, rest: seq<Step>)
    requires s.cancelled && PhaseOf(s, r) == Registered && RunFrom(s, rest).Some?
    ensures var t := RunFrom(s, rest).value;
      && t.cancelled
      && PhaseOf(t, r) in {Registered, Waiting, Returning(Denied), Dropped(Denied), Done(Denied)}
  {
    if rest != [] {
      EnteredCancelled(s, r, rest[..|rest| - 1]);
      var t, last := RunFrom(s, rest[..|rest| - 1]).value, rest[|rest| - 1];
      if Mover(last) != Some(r) {
        OthersStay(t, last, r);
      }
    }
  }

  // The four steps from entering to taking an approval that is there.
  lemma TakesHeldApproval(s: State, r: Request) returns (rest: seq<Step>)
    requires Enabled(s, Enter(r)) && DecisionFor(s, r.id) == Some(Approved) && !s.cancelled
    ensures RunFrom(Apply(s, Enter(r)), rest).Some?
    ensures var t := RunFrom(Apply(s, Enter(r)), rest).value;
      PhaseOf(t, r) == Returning(Approved) && t.log == s.log + [Entered(r), Taken(r, Some(Approved))]
  {
    var s0 := Apply(s, Enter(r));
    rest := [];
    Extend(s0, rest, s0, OpenHandle(r));
    var s1 := Apply(s0, OpenHandle(r));
    rest := rest + [OpenHandle(r)];
    Extend(s0, rest, s1, Watch(r));
    var s2 := Apply(s1, Watch(r));
    rest := rest + [Watch(r)];
    Extend(s0, rest, s2, SeeDecision(r));
    var s3 := Apply(s2, SeeDecision(r));
    rest := rest + [SeeDecision(r)];
    Extend(s0, rest, s3, Take(r));
    rest := rest + [Take(r)];
    assert s.log + [Entered(r)] + [Taken(r, Some(Approved))] == s.log + [Entered(r), Taken(r, Some(Approved))];
  }

  lemma NothingInBetween(log: seq<Entry>, r: Request)
    requires StartedAt(log + [Entered(r)], r, |log|)
    ensures !OwnApproval(log + [Entered(r), Taken(r, Some(Approved))], r)
  {
    var next := log + [Entered(r), Taken(r, Some(Approved))];
    if e, i, j :| OwnApprovalAt(next, r, e, i, j) {
      assert log + [Entered(r)] <= next;
      StartCarries(log + [Entered(r)], next, r, |log|);
      StartIsUnique(next, r, e, |log|);
    }
  }

  /** Whatever happens next, an approval will be the request's own exactly when, as it enters, no approval is held
      for its id or the run is cancelled already. */
  lemma ApprovalIsOwnIff(before: seq<Step>, r: Request)
    requires Exec(before).Some? && Enabled(Exec(before).value, Enter(r))
    ensures
      var s := Exec(before).value;
      (forall rest {:trigger RunFrom(Apply(s, Enter(r)), rest)} ::
         RunFrom(Apply(s, Enter(r)), rest).Some?
         && HasOutcome(PhaseOf(RunFrom(Apply(s, Enter(r)), rest).value, r))
         && PhaseOf(RunFrom(Apply(s, Enter(r)), rest).value, r).outcome == Approved
         ==> OwnApproval(RunFrom(Apply(s, Enter(r)), rest).value.log, r))
      <==> (DecisionFor(s, r.id) != Some(Approved) || s.cancelled)
  {
    hide RunFrom, OwnApproval, Exec;
    var s := Exec(before).value;
    var s1 := Apply(s, Enter(r));
    if DecisionFor(s, r.id) == Some(Approved) && !s.cancelled {
      var rest := TakesHeldApproval(s, r);
      EnteredHere(before, r);
      NothingInBetween(s.log, r);
    } else {
      forall rest | RunFrom(s1, rest).Some? && HasOutcome(PhaseOf(RunFrom(s1, rest).value, r))
                    && PhaseOf(RunFrom(s1, rest).value, r).outcome == Approved
        ensures OwnApproval(RunFrom(s1, rest).value.log, r)
      {
        if s.cancelled {
          EnteredCancelled(s1, r, rest);
        } else {
          EnteredWithoutApproval(before, r, rest);
        }
      }
    }
  }

  // --- what becomes of a decision

  /** A requester that timed out or saw the cancellation was denied. */
  lemma GivingUpDenies(steps: seq<Step>, r: Request)
    requires Exec(steps).Some? && GaveUp(r) in Exec(steps).value.log
    ensures HasOutcome(PhaseOf(Exec(steps).value, r)) && PhaseOf(Exec(steps).value, r).outcome == Denied
  {
    EveryRunKeepsInvariant(steps);
    assert RequestAgrees(Exec(steps).value, r);
  }

  /** Once every request has returned, the pending queue and the wait handles are empty. */
  lemma AllReturnedLeavesNothing(steps: seq<Step>)
    requires Exec(steps).Some?
    requires forall r :: !InQueue(PhaseOf(Exec(steps).value, r))
    ensures Exec(steps).value.pending == {} && Exec(steps).value.handles == {}
  {
    hide Exec, Standing, PendingIn, QueueOk, OnlyPendingAccepted, RequestAgrees;
    var s := Exec(steps).value;
    EveryRunKeepsInvariant(steps);
    forall id ensures id !in s.pending && id !in s.handles {
      assert IdAgrees(s, id);
    }
  }

  ghost predicate TakesAfter(log: seq<Entry>, r: Request, i: int) {
    exists j :: 0 <= j < |log| && i < j && log[j].Taken? && log[j].r == r
  }

  /** A request that has its outcome took a decision after i exactly when it did not give up and had not taken one
      before.  What was accepted at i is then the outcome, unless it was replaced or taken by another in between. */
  lemma AcceptedIsTakenIff(steps: seq<Step>, r: Request, i: nat, outcome: Outcome)
    requires Exec(steps).Some? && HasOutcome(PhaseOf(Exec(steps).value, r))
    requires i < |Exec(steps).value.log| && Exec(steps).value.log[i] == Accepted(r.id, outcome)
    ensures
      var log := Exec(steps).value.log;
      && (TakesAfter(log, r, i) <==> GaveUp(r) !in log && NothingTaken(log[..i], r))
      && (forall j {:trigger TakenAt(log, r, j)} :: TakenAt(log, r, j) && i < j && Untouched(log, r.id, i + 1, j) ==>
            PhaseOf(Exec(steps).value, r).outcome == outcome)
  {
    hide Exec, Standing, IdAgrees, QueueOk, OnlyPendingAccepted;
    var s := Exec(steps).value;
    EveryRunKeepsInvariant(steps);
    assert RequestAgrees(s, r);
    if GaveUp(r) !in s.log {
      var j :| TakenAt(s.log, r, j) && PhaseOf(s, r).outcome == Verdict(s.log[j].decision);
      assert j < i ==> s.log[..i][j] == s.log[j];
      if i < j && Untouched(s.log, r.id, i + 1, j) {
        DecidedStands(s.log, r.id, outcome, i, j);
      }
    }
  }

  // --- which acceptances are sure to count

  // Since s, only r itself has touched the decision for its id.
  ghost predicate LeftAlone(s: State, t: State, r: Request) {
    forall k :: |s.log| <= k < |t.log| && Touches(t.log[k], r.id) ==> t.log[k].Taken? && t.log[k].r == r
  }

  ghost predicate TookSince(s: State, t: State, r: Request, outcome: Outcome) {
    exists j :: |s.log| <= j < |t.log| && t.log[j] == Taken(r, Some(outcome))
  }

  // About to take the decision, which is still there.
  predicate AboutToTake(t: State, r: Request, outcome: Outcome) {
    (PhaseOf(t, r) == Watching || PhaseOf(t, r) == Deciding) && DecisionFor(t, r.id) == Some(outcome)
  }

  lemma TakingStep(s: State, t: State, step: Step, r: Request, outcome: Outcome)
    requires AboutToTake(t, r, outcome) && Enabled(t, step) && |s.log| <= |t.log|
    requires LeftAlone(s, Apply(t, step), r)
    ensures AboutToTake(Apply(t, step), r, outcome) || TookSince(s, Apply(t, step), r, outcome)
  {
    var u := Apply(t, step);
    if step == Take(r) {
      assert u.log[|t.log|] == Taken(r, Some(outcome));
    } else if step.Record? {
      assert u.log[|t.log|] == Accepted(t.queue.value[0].0, t.queue.value[0].1);
    } else if step.Take? {
      assert u.log[|t.log|] == Taken(step.r, DecisionFor(t, step.r.id));
    }
  }

  lemma LeftAloneBefore(s: State, t: State, u: State, r: Request)
    requires t.log <= u.log && LeftAlone(s, u, r)
    ensures LeftAlone(s, t, r)
  {
    assert forall k :: 0 <= k < |t.log| ==> t.log[k] == u.log[k];
  }

  lemma TookStays(s: State, t: State, u: State, r: Request, outcome: Outcome)
    requires t.log <= u.log && TookSince(s, t, r, outcome)
    ensures TookSince(s, u, r, outcome)
  {
    var j :| |s.log| <= j < |t.log| && t.log[j] == Taken(r, Some(outcome));
    assert u.log[j] == t.log[j];
  }

  lemma {:induction false} TakesForSure(s: State, r: Request, outcome: Outcome, rest: seq<Step>)
    requires AboutToTake(s, r, outcome) && RunFrom(s, rest).Some? && LeftAlone(s, RunFrom(s, rest).value, r)
    ensures var t := RunFrom(s, rest).value; AboutToTake(t, r, outcome) || TookSince(s, t, r, outcome)
  {
    hide Apply, Enabled, AboutToTake, LeftAlone, TookSince;
    if rest != [] {
      var front, last := rest[..|rest| - 1], rest[|rest| - 1];
      var t, u := RunFrom(s, front).value, RunFrom(s, rest).value;
      LogOnlyGrows(s, front);
      assert t.log <= u.log by {
        assert u.log == t.log + EntryOf(t, last);
      }
      LeftAloneBefore(s, t, u, r);
      TakesForSure(s, r, outcome, front);
      if AboutToTake(t, r, outcome) {
        TakingStep(s, t, last, r, outcome);
      } else {
        TookStays(s, t, u, r, outcome);
      }
    }
  }

  lemma FirstStep(s: State, step: Step, rest: seq<Step>)
    requires Enabled(s, step)
    ensures RunFrom(s, [step] + rest) == RunFrom(Apply(s, step), rest)
  {
    hide Apply, Enabled;
    Extend(s, [], s, step);
    assert [] + [step] == [step];
    RunConcat(s, [step], rest);
  }

  // A requester that has not passed the cancel check of its round, or has looked in vain, may still turn away.
  lemma {:induction false} MayTurnAway(s: State, r: Request) returns (rest: seq<Step>)
    requires PhaseOf(s, r) in {Registered, Waiting, Looked} || HasOutcome(PhaseOf(s, r))
    ensures RunFrom(s, rest).Some?
    ensures var t := RunFrom(s, rest).value;
      HasOutcome(PhaseOf(t, r)) && t.log == s.log + if HasOutcome(PhaseOf(s, r)) then [] else [GaveUp(r)]
    decreases StepsLeft(PhaseOf(s, r)), !s.cancelled
  {
    if HasOutcome(PhaseOf(s, r)) {
      return [];
    }
    var step := match PhaseOf(s, r)
      case Registered => OpenHandle(r)
      case Waiting => if s.cancelled then SeeCancel(r) else Cancel
      case _ => Expire(r);
    var more := MayTurnAway(Apply(s, step), r);
    FirstStep(s, step, more);
    rest := [step] + more;
  }

  /** A decision that is held while r waits is sure to be the one it takes, provided nobody else touches it, exactly
      when r has passed the cancel check of its round and not yet looked in vain. */
  lemma SureToCountIff(s: State, r: Request, outcome: Outcome)
    requires DecisionFor(s, r.id) == Some(outcome) && !PhaseOf(s, r).Idle?
    ensures
      (forall rest {:trigger RunFrom(s, rest)} ::
         RunFrom(s, rest).Some? && HasOutcome(PhaseOf(RunFrom(s, rest).value, r))
         && LeftAlone(s, RunFrom(s, rest).value, r)
         ==> TookSince(s, RunFrom(s, rest).value, r, outcome))
      <==> (PhaseOf(s, r) == Watching || PhaseOf(s, r) == Deciding)
  {
    hide RunFrom, Apply, Enabled;
    if PhaseOf(s, r) == Watching || PhaseOf(s, r) == Deciding {
      forall rest | RunFrom(s, rest).Some? && HasOutcome(PhaseOf(RunFrom(s, rest).value, r))
                    && LeftAlone(s, RunFrom(s, rest).value, r)
        ensures TookSince(s, RunFrom(s, rest).value, r, outcome)
      {
        TakesForSure(s, r, outcome, rest);
      }
    } else {
      var rest := MayTurnAway(s, r);
      var t := RunFrom(s, rest).value;
      assert forall k :: |s.log| <= k < |t.log| ==> t.log[k] == GaveUp(r);
      assert LeftAlone(s, RunFrom(s, rest).value, r);
    }
  }

  // --- what stays behind

  ghost predicate AcceptedSince(log: seq<Entry>, id: Id, m: int) {
    exists i :: 0 <= i < |log| && m <= i && log[i].Accepted? && log[i].id == id
  }

  ghost predicate NoneTakenSince(log: seq<Entry>, id: Id, m: int)
    requires 0 <= m
  {
    forall k :: m <= k < |log| ==> !(log[k].Taken? && log[k].r.id == id)
  }

  lemma {:induction false} StandingSince(log: seq<Entry>, id: Id, m: nat)
    requires m <= |log| && NoneTakenSince(log, id, m)
    ensures Standing(log, id).Some? <==> Standing(log[..m], id).Some? || AcceptedSince(log, id, m)
  {
    if m == |log| {
      assert log[..m] == log;
    } else {
      var front, last := log[..|log| - 1], log[|log| - 1];
      assert front[..m] == log[..m];
      StandingSince(front, id, m);
      if i :| m <= i < |front| && front[i].Accepted? && front[i].id == id {
        assert log[i].Accepted? && log[i].id == id;
      }
      if i :| m <= i < |log| && log[i].Accepted? && log[i].id == id {
        assert i < |front| ==> front[i].Accepted? && front[i].id == id;
      }
    }
  }

  // After r entered at e, no other request took a decision for its id.
  ghost predicate OnlyTaker(log: seq<Entry>, r: Request, e: int)
    requires 0 <= e
  {
    forall k :: e <= k < |log| && log[k].Taken? && log[k].r.id == r.id ==> log[k].r == r
  }

  /** What the latest request of an id leaves behind.  If it gave up, a decision stays exactly when one was held as it
      entered or was accepted since; if it took one at j, exactly when another was accepted after that. */
  lemma DecisionStaysIff(steps: seq<Step>, r: Request, e: nat)
    requires Exec(steps).Some? && HasOutcome(PhaseOf(Exec(steps).value, r))
    requires StartedAt(Exec(steps).value.log, r, e) && OnlyTaker(Exec(steps).value.log, r, e)
    ensures
      var s := Exec(steps).value;
      && (GaveUp(r) in s.log ==>
            (r.id in s.decisions <==> Standing(s.log[..e], r.id).Some? || AcceptedSince(s.log, r.id, e)))
      && (forall j {:trigger TakenAt(s.log, r, j)} :: TakenAt(s.log, r, j) ==>
            (r.id in s.decisions <==> AcceptedSince(s.log, r.id, j + 1)))
  {
    hide Exec, Standing, PendingIn, SomeoneInQueue, SomeoneHasHandle, QueueOk, OnlyPendingAccepted;
    var s := Exec(steps).value;
    EveryRunKeepsInvariant(steps);
    assert RequestAgrees(s, r) && IdAgrees(s, r.id);
    if GaveUp(r) in s.log {
      StandingSince(s.log, r.id, e);
    }
    forall j | TakenAt(s.log, r, j) ensures r.id in s.decisions <==> AcceptedSince(s.log, r.id, j + 1) {
      assert Mentions(s.log[j], r);
      StandingSince(s.log, r.id, j + 1);
      TakenAway(s.log, r, j);
    }
  }

  lemma TakenAway(log: seq<Entry>, r: Request, j: int)
    requires TakenAt(log, r, j)
    ensures Standing(log[..j + 1], r.id).None?
  {
    assert log[..j + 1][..j] == log[..j];
  }

  // --- runs that lose a decision, or use an old one

  // One more step of a run that is being written down.
  lemma Then(steps: seq<Step>, s: State, step: Step) returns (steps': seq<Step>, s': State)
    requires Exec(steps) == Some(s) && Enabled(s, step)
    ensures Exec(steps') == Some(s') && s' == Apply(s, step)
  {
    Extend(INITIAL, steps, s, step);
    steps', s' := steps + [step], Apply(s, step);
  }

  // A decider approves id, from the answer to its lock being free again.
  lemma ThenApproved(steps: seq<Step>, s: State, id: Id) returns (steps': seq<Step>, s': State)
    requires Exec(steps) == Some(s) && s.queue.None? && id in s.pending
    ensures Exec(steps') == Some(s')
    ensures s' == s.(decisions := s.decisions[id := Approved], log := s.log + [Accepted(id, Approved)])
  {
    hide Exec;
    steps', s' := Then(steps, s, Decide(id, Approved));
    assert s'.queue == Some([(id, Approved)]) && s'.queue.value[1..] == [];
    steps', s' := Then(steps', s', Record);
    steps', s' := Then(steps', s', Release);
  }

  // The request has its outcome and returns.
  lemma ThenReturns(steps: seq<Step>, s: State, r: Request) returns (steps': seq<Step>, s': State)
    requires Exec(steps) == Some(s) && s.queue.None? && PhaseOf(s, r).Returning?
    ensures Exec(steps') == Some(s') && s'.queue.None? && s'.decisions == s.decisions && s'.cancelled == s.cancelled
    ensures s'.log == s.log + [Left(r)] && PhaseOf(s', r) == Done(PhaseOf(s, r).outcome)
    ensures forall q :: q != r ==> PhaseOf(s', q) == PhaseOf(s, q)
  {
    hide Exec;
    steps', s' := Then(steps, s, CloseHandle(r));
    steps', s' := Then(steps', s', Leave(r));
  }

  const R1 := Request(1, "call_1")
  const R2 := Request(2, "call_1")

  // R1 has entered and waits.
  lemma FirstWaits() returns (steps: seq<Step>, s: State)
    ensures Exec(steps) == Some(s) && s.log == [Entered(R1)] && s.queue.None? && !s.cancelled && s.decisions == map[]
    ensures "call_1" in s.pending && PhaseOf(s, R1) == Waiting && PhaseOf(s, R2) == Idle
  {
    hide Exec;
    NothingRun();
    steps, s := Then([], INITIAL, Enter(R1));
    steps, s := Then(steps, s, OpenHandle(R1));
  }

  lemma NothingRun()
    ensures Exec([]) == Some(INITIAL)
  {
  }

  /** An approval accepted as the wait expires is answered "accepted", but the request is denied and the decision stays
      behind when everything has returned. */
  lemma LateApprovalIsLost() returns (steps: seq<Step>, s: State)
    ensures Exec(steps) == Some(s)
    ensures s.log == [Entered(R1), Accepted("call_1", Approved), GaveUp(R1), Left(R1)]
    ensures PhaseOf(s, R1) == Done(Denied) && PhaseOf(s, R2) == Idle
    ensures s.decisions == map["call_1" := Approved] && s.queue.None? && !s.cancelled
  {
    hide Exec, Apply;
    steps, s := LookedThenApproved();
    var next := Expired(steps, s);
    steps, s := steps + [Expire(R1)], next;
    steps, s := ThenReturns(steps, s, R1);
  }

  lemma LookedThenApproved() returns (steps: seq<Step>, s: State)
    ensures Exec(steps) == Some(s) && s.log == [Entered(R1), Accepted("call_1", Approved)]
    ensures PhaseOf(s, R1) == Looked && PhaseOf(s, R2) == Idle
    ensures s.decisions == map["call_1" := Approved] && s.queue.None? && !s.cancelled
  {
    hide Exec;
    steps, s := FirstWaits();
    steps, s := Then(steps, s, Watch(R1));
    steps, s := Then(steps, s, SeeNone(R1));
    steps, s := ThenApproved(steps, s, "call_1");
  }

  lemma Expired(steps: seq<Step>, s: State) returns (t: State)
    requires Exec(steps) == Some(s) && PhaseOf(s, R1) == Looked && PhaseOf(s, R2) == Idle
    ensures Exec(steps + [Expire(R1)]) == Some(t) && t.log == s.log + [GaveUp(R1)] && t.queue == s.queue
    ensures t.decisions == s.decisions && t.cancelled == s.cancelled
    ensures PhaseOf(t, R1) == Returning(Denied) && PhaseOf(t, R2) == Idle
  {
    Extend(INITIAL, steps, s, Expire(R1));
    t := Apply(s, Expire(R1));
  }

  /** So is an approval accepted while the requester still waits, when the run is cancelled before its next look: the
      token is looked at first. */
  lemma CancelLosesApproval() returns (steps: seq<Step>, s: State)
    ensures Exec(steps) == Some(s) && s.log == [Entered(R1), Accepted("call_1", Approved), GaveUp(R1)]
    ensures PhaseOf(s, R1) == Returning(Denied) && s.decisions == map["call_1" := Approved]
  {
    hide Exec;
    steps, s := FirstWaits();
    steps, s := ThenApproved(steps, s, "call_1");
    steps, s := Then(steps, s, Cancel);
    steps, s := Then(steps, s, SeeCancel(R1));
  }

  /** A decision left behind answers the next request with the same id: it is approved although nobody decided it. */
  lemma StaleApproval() returns (steps: seq<Step>, s: State)
    ensures Exec(steps) == Some(s) && PhaseOf(s, R2) == Returning(Approved) && !OwnApproval(s.log, R2)
    ensures s.log == [Entered(R1), Accepted("call_1", Approved), GaveUp(R1), Left(R1), Entered(R2),
                      Taken(R2, Some(Approved))]
  {
    hide RunFrom, OwnApproval, StartedAt;
    var before, t := LateApprovalIsLost();
    var rest := TakesHeldApproval(t, R2);
    EnteredHere(before, R2);
    NothingInBetween(t.log, R2);
    Extend(INITIAL, before, t, Enter(R2));
    RunConcat(INITIAL, before + [Enter(R2)], rest);
    steps := before + [Enter(R2)] + rest;
    s := RunFrom(Apply(t, Enter(R2)), rest).value;
  }

  // --- nobody is stuck

  /** A requester's outcome never changes once it has one. */
  lemma OutcomeIsFinal(s: State, step: Step, r: Request)
    requires Enabled(s, step) && HasOutcome(PhaseOf(s, r))
    ensures HasOutcome(PhaseOf(Apply(s, step), r)) && PhaseOf(Apply(s, step), r).outcome == PhaseOf(s, r).outcome
  {
  }

  // What r does next when nobody else moves and its wait is over.
  function OwnStep(s: State, r: Request): Step
    requires InQueue(PhaseOf(s, r))
  {
    match PhaseOf(s, r)
    case Registered => OpenHandle(r)
    case Waiting => if s.cancelled then SeeCancel(r) else Watch(r)
    case Watching => if r.id in s.decisions then SeeDecision(r) else SeeNone(r)
    case Looked => Expire(r)
    case Deciding => Take(r)
    case Returning(_) => CloseHandle(r)
    case _ => Leave(r)
  }

  function StepsLeft(p: Phase): nat {
    match p
    case Registered => 6
    case Waiting => 5
    case Watching => 4
    case Looked => 3
    case Deciding => 3
    case Returning(_) => 2
    case Dropped(_) => 1
    case _ => 0
  }

  // The lock's holder has this many steps to do.
  function HolderLeft(s: State): nat {
    if s.queue.None? then 0 else |s.queue.value| + 1
  }

  predicate HolderOrOwn(step: Step, r: Request) {
    step.Record? || step.Release? || Mover(step) == Some(r)
  }

  /** Nobody is stuck: from every state, finishing the work under the lock and at most six steps of its own bring a
      requester back. */
  lemma {:induction false} EveryRequestCanReturn(s: State, r: Request) returns (rest: seq<Step>)
    requires !PhaseOf(s, r).Idle?
    ensures RunFrom(s, rest).Some? && PhaseOf(RunFrom(s, rest).value, r).Done?
    ensures |rest| <= HolderLeft(s) + StepsLeft(PhaseOf(s, r))
    ensures forall i :: 0 <= i < |rest| ==> HolderOrOwn(rest[i], r)
    decreases HolderLeft(s) + StepsLeft(PhaseOf(s, r))
  {
    if PhaseOf(s, r).Done? {
      return [];
    }
    var step := if s.queue.None? then OwnStep(s, r) else if s.queue.value == [] then Release else Record;
    var more := EveryRequestCanReturn(Apply(s, step), r);
    FirstStep(s, step, more);
    rest := [step] + more;
  }
}
