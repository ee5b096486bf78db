/** When a cancelled agent run ends CANCELLED, and how else it may end (agent/orchestrator.py,
    agent/cancellation.py). */
module AgentCancellation {
  import opened Wrappers
  import opened Transcripts
  import opened LoopDetection
  import opened AgentModels
  import opened AgentRuns
  import opened AgentOrchestrator
  import opened AgentLoop
  import opened AgentGuarantees
  import opened AgentCourse
  import opened AgentDeterminism

  /** The flag is set at moment t and stays set. */
  ghost predicate CancelledFrom(env: Environment, t: nat) {
    forall i: nat :: env.cancelled(i) <==> i >= t
  }

  // The cancellation exception came from outside.
  ghost predicate RaisesCancelled(env: Environment, log: seq<Entry>) {
    || env.toolsUp == Raised(CancelledError)
    || (exists i :: 0 <= i < |log| && log[i].Prompted? && log[i].reply == Raised(CancelledError))
    || (exists i :: 0 <= i < |log| && log[i].Called? && log[i].answer == Crashed(CancelledError))
  }

  ghost predicate TokenReadSince(log: seq<Entry>, t: nat) {
    exists i :: t <= i < |log| && log[i].CancelRead?
  }

  /** A run whose token is cancelled at moment t ends CANCELLED exactly when it looks at the token at t or later, or
      the exception comes from the tool definitions, the provider or a tool. */
  lemma CancelledIff(env: Environment, limits: AgentLimits, started: real, initial: seq<Message>,
                     stop: Stop, r: RunState, log: seq<Entry>, t: nat)
    requires RunEnded(env, limits, started, initial, stop, r, log) && CancelledFrom(env, t)
    ensures Verdict(stop).0 == Cancelled <==> TokenReadSince(log, t) || RaisesCancelled(env, log)
  {
    hide Books, Bounded, PromptsMatch, Prompts, Asked, StepsDone, AsAsked, BatchRefused, Signatures, Calls, FinalStep,
      Results, MayFollow;
    if i :| t <= i < |log| && log[i].CancelRead? {
      assert EntryOk(env, limits, started, log, i);
      NothingAfterTrip(env, limits, started, initial, stop, r, log, i);
    }
    if RaisesCancelled(env, log) && env.toolsUp != Raised(CancelledError) {
      var i :| 0 <= i < |log| && ((log[i].Prompted? && log[i].reply == Raised(CancelledError))
                                  || (log[i].Called? && log[i].answer == Crashed(CancelledError)));
      NothingAfterTrip(env, limits, started, initial, stop, r, log, i);
    }
    if Verdict(stop).0 == Cancelled {
      CancelledShown(env, limits, started, initial, stop, r, log, t);
    }
  }

  lemma CancelledShown(env: Environment, limits: AgentLimits, started: real, initial: seq<Message>,
                       stop: Stop, r: RunState, log: seq<Entry>, t: nat)
    requires RunEnded(env, limits, started, initial, stop, r, log) && CancelledFrom(env, t)
    requires Verdict(stop).0 == Cancelled
    ensures TokenReadSince(log, t) || RaisesCancelled(env, log)
  {
    hide Books, Bounded, PromptsMatch, Prompts, Asked, StepsDone, AsAsked, BatchRefused, Signatures, Calls, FinalStep,
      Results, MayFollow;
    if stop.CancelSeen? {
      assert EntryOk(env, limits, started, log, |log| - 1);
    }
  }

  // --- what can be told when the run is cancelled

  /** Nothing but a look at the token can come next and matter: the clock was just looked at and there was time left, or
      a call of a batch is due, or a call gave a result within the budget. */
  ghost predicate TokenIsNext(limits: AgentLimits, log: seq<Entry>) {
    && log != []
    && match log[|log| - 1]
       case ClockRead(expired) => !expired && (LoopTop(log[..|log| - 1]) || EndsInPrompt(log[..|log| - 1]))
       case CancelRead(cancelled) => !cancelled && CallMayStart(limits, log)
       case Prompted(_, _) => false
       case Called(_, answer) => !answer.Crashed? && OutputFits(limits, log)
       case Published(event) => event == ToolCompleted && OutputFits(limits, log)
  }

  // The token was cancelled, and is looked at.
  lemma Seen(env: Environment, limits: AgentLimits, started: real, initial: seq<Message>,
             stop: Stop, r: RunState, log: seq<Entry>, t: nat, k: nat)
    requires RunEnded(env, limits, started, initial, stop, r, log) && CancelledFrom(env, t) && t <= k < |log|
    requires Reports(env, limits, started, k, log[k]) && log[k].CancelRead?
    ensures Verdict(stop).0 == Cancelled
  {
    hide Ended;
    NothingAfterTrip(env, limits, started, initial, stop, r, log, k);
  }

  lemma TokenFollows(limits: AgentLimits, log: seq<Entry>, e: Entry)
    requires TokenIsNext(limits, log) && !log[|log| - 1].Called? && MayFollow(limits, log, e)
    ensures e.CancelRead?
  {
    hide MoreCalls, BatchAccepted, OutputFits, Prompts;
  }

  lemma FitsAfterCall(limits: AgentLimits, log: seq<Entry>, e: Entry)
    requires TokenIsNext(limits, log) && log[|log| - 1].Called? && MayFollow(limits, log, e)
    ensures TokenIsNext(limits, log + [e]) && e == Published(ToolCompleted)
  {
    hide TotalBytes;
    LogAddsUp(log, e);
    assert Results(log) + [] == Results(log);
  }

  // A run does not end where the token is looked at next.
  lemma GoesOnToToken(env: Environment, limits: AgentLimits, started: real, initial: seq<Message>,
                      stop: Stop, r: RunState, log: seq<Entry>)
    requires RunEnded(env, limits, started, initial, stop, r, log) && limits.Valid() && env.toolsUp.Returned?
    ensures !TokenIsNext(limits, log)
  {
    hide LogOk, PromptsMatch, FinalStep, AsAsked, StepsDone, Prompts, Asked, Calls, Results, TotalBytes, Failures,
      StepResults, Signatures, BatchRefused, BatchAllowed, LoopFree, Requested;
    if RefusedLast(stop, limits, r, log) {
      RefusedIsNotAllowed(limits, r.total, Signatures(Calls(log)), log[|log| - 3].reply.value.calls, stop);
    }
  }

  /** A run that is cancelled when the token is to be looked at next ends CANCELLED, whatever else happens. */
  lemma {:induction false} CancelledForSure(env: Environment, limits: AgentLimits, started: real, initial: seq<Message>,
                                            stop: Stop, r: RunState, log: seq<Entry>, t: nat, k: nat)
    requires RunEnded(env, limits, started, initial, stop, r, log) && limits.Valid() && env.toolsUp.Returned?
    requires CancelledFrom(env, t) && t <= k <= |log| && TokenIsNext(limits, log[..k])
    ensures Verdict(stop).0 == Cancelled
    decreases |log| - k
  {
    hide RunEnded, TokenIsNext, MayFollow, CancelledFrom, Verdict;
    if k == |log| {
      assert log[..k] == log;
      GoesOnToToken(env, limits, started, initial, stop, r, log);
    } else {
      NotFirst(limits, log[..k]);
      AfterCheck(env, limits, started, initial, stop, r, log, k - 1);
      if log[k - 1].Called? {
        FitsAfterCall(limits, log[..k], log[k]);
        assert log[..k + 1] == log[..k] + [log[k]];
        CancelledForSure(env, limits, started, initial, stop, r, log, t, k + 1);
      } else {
        TokenFollows(limits, log[..k], log[k]);
        Seen(env, limits, started, initial, stop, r, log, t, k);
      }
    }
  }

  lemma NotFirst(limits: AgentLimits, log: seq<Entry>)
    requires TokenIsNext(limits, log)
    ensures log != []
  {
  }

  /** From moment t on there is no time left, the provider fails and tools crash. */
  ghost predicate AdverseFrom(env: Environment, limits: AgentLimits, started: real, t: nat) {
    forall i: nat :: i >= t ==>
      && Expired(env, limits, started, i) && env.generate(i) == Raised(SageFailure)
      && env.execute(i) == Crashed(SageFailure)
  }

  // The entry shows how the run ends, and not as CANCELLED.
  predicate OtherwiseAt(e: Entry) {
    Trips(e) && Verdict(StopShown(e)).0 != Cancelled
  }

  lemma EndsOtherwise(env: Environment, limits: AgentLimits, started: real, initial: seq<Message>,
                      stop: Stop, r: RunState, log: seq<Entry>, k: nat)
    requires RunEnded(env, limits, started, initial, stop, r, log) && k < |log| && OtherwiseAt(log[k])
    ensures Verdict(stop).0 != Cancelled
  {
    hide Ended;
    NothingAfterTrip(env, limits, started, initial, stop, r, log, k);
  }

  lemma AdverseEntry(env: Environment, limits: AgentLimits, started: real, t: nat, k: nat, e: Entry)
    requires AdverseFrom(env, limits, started, t) && k >= t && Reports(env, limits, started, k, e)
    ensures e.ClockRead? || e.Prompted? || e.Called? ==> OtherwiseAt(e)
  {
  }

  lemma AfterPublished(limits: AgentLimits, log: seq<Entry>, e: Entry)
    requires log != [] && log[|log| - 1].Published? && MayFollow(limits, log, e)
    ensures e.ClockRead? || e.Prompted? || e.Called? || TokenIsNext(limits, log)
  {
    hide MoreCalls, BatchAccepted, OutputFits, Prompts;
  }

  lemma BeforeToken(limits: AgentLimits, log: seq<Entry>, e: Entry)
    requires MayFollow(limits, log, e) && e.CancelRead? && !Trips(log[|log| - 1])
    ensures TokenIsNext(limits, log)
  {
    hide MoreCalls, BatchAccepted, OutputFits, Prompts;
  }

  lemma CompletedUnsure(limits: AgentLimits, log: seq<Entry>, e: Entry)
    requires MayFollow(limits, log, e) && e.Published? && !TokenIsNext(limits, log)
    requires log != [] && !Trips(log[|log| - 1])
    ensures TokenIsNext(limits, log + [e]) ==> false
  {
    hide MoreCalls, BatchAccepted, Prompts, TotalBytes;
    LogAddsUp(log, e);
    assert Results(log) + [] == Results(log);
  }

  lemma PublishedLast(env: Environment, limits: AgentLimits, started: real, initial: seq<Message>,
                      stop: Stop, r: RunState, log: seq<Entry>)
    requires RunEnded(env, limits, started, initial, stop, r, log) && env.toolsUp.Returned?
    requires log != [] && log[|log| - 1].Published?
    ensures Verdict(stop).0 != Cancelled
  {
    hide LogOk, Books, Bounded, PromptsMatch, FinalStep, AsAsked, StepsDone, Prompts, Asked, Calls, Results,
      BatchRefused;
  }

  /** It is not sure to end CANCELLED in any other case: when the world turns against a run at the moment it is
      cancelled, it ends CANCELLED exactly when the token is to be looked at next. */
  lemma CancelledIfAdverse(env: Environment, limits: AgentLimits, started: real, initial: seq<Message>,
                           stop: Stop, r: RunState, log: seq<Entry>, t: nat)
    requires RunEnded(env, limits, started, initial, stop, r, log) && limits.Valid() && env.toolsUp.Returned?
    requires CancelledFrom(env, t) && AdverseFrom(env, limits, started, t) && t < |log|
    ensures Verdict(stop).0 == Cancelled <==> TokenIsNext(limits, log[..t])
  {
    hide RunEnded, TokenIsNext, MayFollow, CancelledFrom, Verdict, AdverseFrom, OtherwiseAt, Expired;
    if TokenIsNext(limits, log[..t]) {
      CancelledForSure(env, limits, started, initial, stop, r, log, t, t);
    } else {
      var x := WholeRun(env, stop, r, log);
      assert Ran(limits, started, initial, x);
      NextOk(limits, started, initial, x, t);
      AdverseEntry(env, limits, started, t, t, log[t]);
      if log[t].CancelRead? {
        SomethingBefore(limits, log[..t], log[t]);
        BeforeToken(limits, log[..t], log[t]);
      } else if log[t].Published? {
        AdverseAfterEvent(env, limits, started, initial, stop, r, log, t);
      } else {
        EndsOtherwise(env, limits, started, initial, stop, r, log, t);
      }
    }
  }

  lemma SomethingBefore(limits: AgentLimits, log: seq<Entry>, e: Entry)
    requires MayFollow(limits, log, e) && e != Published(Started)
    ensures log != []
  {
  }

  lemma AdverseAfterEvent(env: Environment, limits: AgentLimits, started: real, initial: seq<Message>,
                          stop: Stop, r: RunState, log: seq<Entry>, t: nat)
    requires RunEnded(env, limits, started, initial, stop, r, log) && limits.Valid() && env.toolsUp.Returned?
    requires AdverseFrom(env, limits, started, t) && t < |log| && log[t].Published? && !TokenIsNext(limits, log[..t])
    ensures Verdict(stop).0 != Cancelled
  {
    hide RunEnded, TokenIsNext, MayFollow, Verdict, AdverseFrom, OtherwiseAt, Expired;
    var x := WholeRun(env, stop, r, log);
    assert Ran(limits, started, initial, x);
    NextOk(limits, started, initial, x, t);
    assert log[..t + 1] == log[..t] + [log[t]];
    if t + 1 == |log| {
      PublishedLast(env, limits, started, initial, stop, r, log);
    } else {
      NextOk(limits, started, initial, x, t + 1);
      AfterPublished(limits, log[..t + 1], log[t + 1]);
      if log[..t] != [] {
        assert log[..t + 1][t - 1] == log[t - 1];
        CompletedUnsure(limits, log[..t], log[t]);
      } else {
        FirstUnsure(limits, log[..t + 1]);
      }
      AdverseEntry(env, limits, started, t, t + 1, log[t + 1]);
      EndsOtherwise(env, limits, started, initial, stop, r, log, t + 1);
    }
  }

  lemma FirstUnsure(limits: AgentLimits, log: seq<Entry>)
    requires |log| == 1 && MayFollow(limits, [], log[0])
    ensures !TokenIsNext(limits, log)
  {
  }

  /** Whatever two environments that agree until the run is cancelled do after that, the run ends CANCELLED in both when
      the token is to be looked at next. */
  lemma SureWhateverFollows(limits: AgentLimits, started: real, initial: seq<Message>, a: WholeRun, b: WholeRun, t: nat)
    requires Ran(limits, started, initial, a) && Ran(limits, started, initial, b) && a.env.toolsUp.Returned?
    requires SameUntil(a.env, b.env, t) && CancelledFrom(b.env, t)
    requires t <= |a.log| && TokenIsNext(limits, a.log[..t])
    ensures Verdict(b.stop).0 == Cancelled
  {
    hide RunEnded, TokenIsNext, CancelledFrom, Verdict;
    SamePast(limits, started, initial, a, b, t, t);
    CancelledForSure(b.env, limits, started, initial, b.stop, b.r, b.log, t, t);
  }

  // The same world until t; then it is cancelled and everything else goes wrong.
  function TurnedAt(env: Environment, limits: AgentLimits, started: real, t: nat): Environment {
    Environment(
      (i: nat) => if i < t then env.clock(i) else started + limits.maxWallTimeSeconds,
      (i: nat) => i >= t, env.toolsUp,
      (i: nat) => if i < t then env.generate(i) else Raised(SageFailure),
      (i: nat) => if i < t then env.execute(i) else Crashed(SageFailure),
      env.asksApproval)
  }

  lemma TurnedIsAdverse(env: Environment, limits: AgentLimits, started: real, t: nat)
    requires forall i: nat :: i < t ==> !env.cancelled(i)
    ensures SameUntil(env, TurnedAt(env, limits, started, t), t)
    ensures CancelledFrom(TurnedAt(env, limits, started, t), t)
    ensures AdverseFrom(TurnedAt(env, limits, started, t), limits, started, t)
  {
  }

  /** And when it is not: any run that is still going on at moment t may end otherwise if it is cancelled then. */
  method MayEndOtherwise(env: Environment, limits: AgentLimits, started: real, initial: seq<Message>, t: nat,
                         ghost a: WholeRun)
    returns (outcome: RunOutcome, ghost b: WholeRun)
    requires Ran(limits, started, initial, a) && a.env == env && env.toolsUp.Returned? && t < |a.log|
    requires forall i: nat :: i < t ==> !env.cancelled(i)
    ensures Ran(limits, started, initial, b) && SameUntil(env, b.env, t) && CancelledFrom(b.env, t)
    ensures outcome.Done? && outcome.result.state == Verdict(b.stop).0
    ensures outcome.result.state == Cancelled <==> TokenIsNext(limits, a.log[..t])
  {
    hide RunEnded, TokenIsNext, CancelledFrom, AdverseFrom, SameUntil, TurnedAt;
    var status := new AgentRunStatus();
    var out, entries, stop, abandoned := Run(TurnedAt(env, limits, started, t), limits, initial, status, started);
    outcome := out;
    b := WholeRun(TurnedAt(env, limits, started, t), stop, StateOf(out.result, abandoned), entries[..|entries| - 1]);
    TurnedIsAdverse(env, limits, started, t);
    StillGoing(limits, started, initial, a, b, t);
    CancelledIfAdverse(b.env, limits, started, initial, b.stop, b.r, b.log, t);
  }

  lemma StillGoing(limits: AgentLimits, started: real, initial: seq<Message>, a: WholeRun, b: WholeRun, t: nat)
    requires Ran(limits, started, initial, a) && Ran(limits, started, initial, b) && SameUntil(a.env, b.env, t)
    requires t < |a.log|
    ensures t < |b.log| && b.log[..t] == a.log[..t] && a.env.toolsUp == b.env.toolsUp
  {
    hide Ran;
    SamePast(limits, started, initial, a, b, t, t);
    BothGoOn(limits, started, initial, a, b, t);
  }

  // --- how else a cancelled run may end

  /** The clock is looked at before the token: a run that is out of time at its first check ends TIMED_OUT, although it
      was cancelled before it began. */
  lemma CancelledTimesOut(env: Environment, limits: AgentLimits, started: real, initial: seq<Message>,
                          stop: Stop, r: RunState, log: seq<Entry>)
    requires RunEnded(env, limits, started, initial, stop, r, log) && env.toolsUp.Returned?
    requires CancelledFrom(env, 0) && Expired(env, limits, started, 1)
    ensures Verdict(stop).0 == TimedOut
  {
    hide Ended, Expired;
    Begins(env, limits, started, initial, stop, r, log);
    NothingAfterTrip(env, limits, started, initial, stop, r, log, 1);
  }

  /** The provider's failure comes first: a run cancelled while the provider is asked ends FAILED when that raises. */
  lemma CancelledFails(env: Environment, limits: AgentLimits, started: real, initial: seq<Message>,
                       stop: Stop, r: RunState, log: seq<Entry>)
    requires RunEnded(env, limits, started, initial, stop, r, log) && env.toolsUp.Returned? && limits.maxSteps >= 1
    requires !Expired(env, limits, started, 1) && CancelledFrom(env, 3) && env.generate(4) == Raised(SageFailure)
    ensures Verdict(stop).0 == Failed
  {
    hide Ended, Expired;
    FirstAnswer(env, limits, started, initial, stop, r, log);
    NothingAfterTrip(env, limits, started, initial, stop, r, log, 4);
  }

  /** After a final answer the token is not looked at again: a run cancelled then ends COMPLETED. */
  lemma CancelledCompletes(env: Environment, limits: AgentLimits, started: real, initial: seq<Message>,
                           stop: Stop, r: RunState, log: seq<Entry>, response: Response)
    requires RunEnded(env, limits, started, initial, stop, r, log) && env.toolsUp.Returned?
    requires limits.Valid() && limits.maxSteps >= 2
    requires !Expired(env, limits, started, 1) && env.generate(4) == Returned(response) && response.calls == []
    requires !Expired(env, limits, started, 5) && CancelledFrom(env, 7)
    ensures Verdict(stop).0 == Completed && |log| == 8
  {
    hide RunEnded, Expired, RefusedLast;
    FirstAnswer(env, limits, started, initial, stop, r, log);
    FirstAnswerChecked(env, limits, started, initial, stop, r, log, response);
    if |log| == 7 {
      NothingToRefuse(env, limits, started, initial, stop, r, log);
    }
    assert log[7] == Published(StepCompleted);
    if |log| > 8 {
      NothingFollowsAnswer(limits, log[..8], log[8]);
      AfterCheck(env, limits, started, initial, stop, r, log, 7);
    }
    AnswerEnds(env, limits, started, initial, stop, r, log);
  }

  lemma NothingFollowsAnswer(limits: AgentLimits, log: seq<Entry>, e: Entry)
    requires |log| == 8 && log[5].ClockRead? && log[6].CancelRead? && log[7] == Published(StepCompleted)
    ensures !MayFollow(limits, log, e)
  {
  }

  lemma NothingToRefuse(env: Environment, limits: AgentLimits, started: real, initial: seq<Message>,
                        stop: Stop, r: RunState, log: seq<Entry>)
    requires RunEnded(env, limits, started, initial, stop, r, log)
    requires limits.Valid() && RefusedLast(stop, limits, r, log)
    ensures log[|log| - 3].reply.value.calls != []
  {
    hide LogOk, Books, PromptsMatch, Prompts, Asked, StepsDone, AsAsked, FinalStep, Justified, PrefixAllowed;
  }

  lemma AnswerEnds(env: Environment, limits: AgentLimits, started: real, initial: seq<Message>,
                   stop: Stop, r: RunState, log: seq<Entry>)
    requires RunEnded(env, limits, started, initial, stop, r, log) && log != []
    requires log[|log| - 1] == Published(StepCompleted)
    ensures stop.Finished?
  {
    hide LogOk, Books, Bounded, PromptsMatch, Prompts, Asked, StepsDone, AsAsked, FinalStep, BatchRefused;
  }

  lemma TwoChecksLast(limits: AgentLimits, stop: Stop, r: RunState, log: seq<Entry>)
    requires |log| == 8 && log[5].ClockRead?
    ensures !RefusedLast(stop, limits, r, log)
  {
    hide BatchRefused;
  }

  lemma CallPrepared(limits: AgentLimits, log: seq<Entry>, e: Entry)
    requires |log| == 7 && log[4].Prompted? && log[4].reply.Returned? && log[4].reply.value.calls != []
    requires log[5].ClockRead? && log[6].CancelRead? && MayFollow(limits, log, e)
    ensures e.CancelRead?
  {
  }

  lemma CallPreparedNext(limits: AgentLimits, log: seq<Entry>, e: Entry)
    requires |log| == 8 && log[5].ClockRead? && log[6].CancelRead? && log[7].CancelRead? && MayFollow(limits, log, e)
    ensures e.ClockRead?
  {
  }

  lemma CallPreparedLast(limits: AgentLimits, log: seq<Entry>, e: Entry)
    requires |log| == 9 && log[6].CancelRead? && log[7].CancelRead? && log[8].ClockRead? && MayFollow(limits, log, e)
    ensures e == Published(ToolRequested)
  {
  }

  // Up to the end of the first tool call.
  lemma FirstCall(env: Environment, limits: AgentLimits, started: real, initial: seq<Message>,
                  stop: Stop, r: RunState, log: seq<Entry>, response: Response, result: CallResult)
    requires RunEnded(env, limits, started, initial, stop, r, log) && env.toolsUp.Returned?
    requires limits.Valid() && limits.maxSteps >= 2
    requires !Expired(env, limits, started, 1) && !Expired(env, limits, started, 5) && !Expired(env, limits, started, 8)
    requires CancelledFrom(env, 10) && env.generate(4) == Returned(response) && env.execute(10) == Executed(result)
    requires |response.calls| == 1 && response.calls[0].name != ""
    ensures |log| > 11 && log[11] == Published(ToolCompleted) && log[10].Called? && log[10].answer == Executed(result)
    ensures forall k :: 0 <= k < 10 ==> !log[k].Called?
  {
    hide RunEnded, Expired, RefusedLast, MayFollow;
    FirstAnswer(env, limits, started, initial, stop, r, log);
    FirstAnswerChecked(env, limits, started, initial, stop, r, log, response);
    if |log| == 7 {
      NothingCalled(log);
      OneCallAccepted(env, limits, started, initial, stop, r, log);
    }
    CallPrepared(limits, log[..7], log[7]);
    if |log| == 8 {
      OnePrompt(log);
      TwoChecksLast(limits, stop, r, log);
      EndsAtCheck(env, limits, started, initial, stop, r, log);
    }
    AfterCheck(env, limits, started, initial, stop, r, log, 7);
    CallPreparedNext(limits, log[..8], log[8]);
    NextEntry(env, limits, started, initial, stop, r, log, 8);
    CallPreparedLast(limits, log[..9], log[9]);
    NextEntry(env, limits, started, initial, stop, r, log, 9);
    Called10(limits, log[..10], log[10]);
    NextEntry(env, limits, started, initial, stop, r, log, 10);
    Completed11(limits, log[..11], log[11]);
  }

  lemma Called10(limits: AgentLimits, log: seq<Entry>, e: Entry)
    requires EndsIn(log, ToolRequested) && MayFollow(limits, log, e)
    ensures e.Called?
  {
  }

  lemma Completed11(limits: AgentLimits, log: seq<Entry>, e: Entry)
    requires log != [] && log[|log| - 1].Called? && MayFollow(limits, log, e)
    ensures e == Published(ToolCompleted)
  {
  }

  /** The output budget is looked at before the token: a run cancelled during a tool call ends LIMIT_REACHED when that
      call's output is too much. */
  lemma CancelledHitsLimit(env: Environment, limits: AgentLimits, started: real, initial: seq<Message>,
                           stop: Stop, r: RunState, log: seq<Entry>, response: Response, result: CallResult)
    requires RunEnded(env, limits, started, initial, stop, r, log) && env.toolsUp.Returned?
    requires limits.Valid() && limits.maxSteps >= 2
    requires !Expired(env, limits, started, 1) && !Expired(env, limits, started, 5) && !Expired(env, limits, started, 8)
    requires CancelledFrom(env, 10) && env.generate(4) == Returned(response) && env.execute(10) == Executed(result)
    requires |response.calls| == 1 && response.calls[0].name != ""
    requires OutputBytes(result) > limits.maxTotalToolOutputBytes
    ensures Verdict(stop).0 == LimitReached
  {
    hide RunEnded, Expired, Prompts, Asked, Calls, Results, TotalBytes, OutputBytes;
    FirstCall(env, limits, started, initial, stop, r, log, response, result);
    OnlyResult(log[..12], result);
    if |log| > 12 {
      assert log[..12][11] == log[11];
      BudgetSpent(limits, log[..12], log[12]);
      AfterCheck(env, limits, started, initial, stop, r, log, 11);
    }
    EndsAfterCall(env, limits, started, initial, stop, r, log);
  }

  lemma OnlyResult(log: seq<Entry>, result: CallResult)
    requires |log| == 12 && log[10].Called? && log[10].answer == Executed(result) && !log[11].Called?
    requires forall k :: 0 <= k < 10 ==> !log[k].Called?
    ensures Results(log) == [result] && TotalBytes(Results(log)) == OutputBytes(result)
  {
    hide OutputBytes;
    NothingCalled(log[..10]);
    assert log[..11][..10] == log[..10];
    assert Results(log[..11]) == [] + [result] == [result];
    assert Results(log) == Results(log[..11]) + [];
    assert [result][..0] == [];
    assert TotalBytes([]) == 0;
  }

  lemma BudgetSpent(limits: AgentLimits, log: seq<Entry>, e: Entry)
    requires EndsIn(log, ToolCompleted) && TotalBytes(Results(log)) > limits.maxTotalToolOutputBytes
    ensures !MayFollow(limits, log, e)
  {
    hide TotalBytes, Results;
  }

  lemma EndsAfterCall(env: Environment, limits: AgentLimits, started: real, initial: seq<Message>,
                      stop: Stop, r: RunState, log: seq<Entry>)
    requires RunEnded(env, limits, started, initial, stop, r, log) && EndsIn(log, ToolCompleted)
    ensures stop == OutputLimit
  {
    hide LogOk, Books, Bounded, PromptsMatch, Prompts, Asked, StepsDone, AsAsked, FinalStep, BatchRefused;
  }

  // --- runs that show each ending

  const SMALL_LIMITS := AgentLimits(5, 5, 60.0, 5, 1, 2, 30.0)

  const FINAL_ANSWER := Response("done", false, [])

  const ONE_CALL := Response("", false, [RequestedCall("a", "read", "{}")])

  const LONG_OUTPUT := CallResult(true, Some("two lines"), "")

  // Cancelled from moment t on; the clock stands still.
  function Cancelling(t: nat, now: real, reply: Attempt<Response>): Environment {
    Environment(_ => now, i => i >= t, Returned(()), _ => reply, _ => Executed(LONG_OUTPUT), _ => false)
  }

  // The outcome is that of a whole run in this environment, which is cancelled from moment t on.
  ghost predicate OutcomeOf(env: Environment, t: nat, outcome: RunOutcome) {
    && CancelledFrom(env, t) && outcome.Done?
    && (exists stop, r, log :: RunEnded(env, SMALL_LIMITS, 0.0, [], stop, r, log)
                               && outcome.result.state == Verdict(stop).0)
  }

  method RunCancelled(t: nat, now: real, reply: Attempt<Response>)
    returns (outcome: RunOutcome, ghost stop: Stop, ghost r: RunState, ghost log: seq<Entry>)
    ensures outcome.Done? && outcome.result.state == Verdict(stop).0
    ensures RunEnded(Cancelling(t, now, reply), SMALL_LIMITS, 0.0, [], stop, r, log)
    ensures OutcomeOf(Cancelling(t, now, reply), t, outcome)
  {
    hide RunEnded;
    var status := new AgentRunStatus();
    var out, entries, s, abandoned := Run(Cancelling(t, now, reply), SMALL_LIMITS, [], status, 0.0);
    outcome, stop := out, s;
    r, log := StateOf(out.result, abandoned), entries[..|entries| - 1];
  }

  /** A run cancelled before it began that ends TIMED_OUT. */
  method TimedOutRun() returns (outcome: RunOutcome)
    ensures OutcomeOf(Cancelling(0, 60.0, Returned(FINAL_ANSWER)), 0, outcome) && outcome.result.state == TimedOut
  {
    hide OutcomeOf;
    var out, stop, r, log := RunCancelled(0, 60.0, Returned(FINAL_ANSWER));
    outcome := out;
    CancelledTimesOut(Cancelling(0, 60.0, Returned(FINAL_ANSWER)), SMALL_LIMITS, 0.0, [], stop, r, log);
  }

  /** A run cancelled before the provider answers that ends FAILED. */
  method FailedRun() returns (outcome: RunOutcome)
    ensures OutcomeOf(Cancelling(3, 0.0, Raised(SageFailure)), 3, outcome) && outcome.result.state == Failed
  {
    hide OutcomeOf;
    var out, stop, r, log := RunCancelled(3, 0.0, Raised(SageFailure));
    outcome := out;
    CancelledFails(Cancelling(3, 0.0, Raised(SageFailure)), SMALL_LIMITS, 0.0, [], stop, r, log);
  }

  /** A run cancelled after its last check that ends COMPLETED. */
  method CompletedRun() returns (outcome: RunOutcome)
    ensures OutcomeOf(Cancelling(7, 0.0, Returned(FINAL_ANSWER)), 7, outcome) && outcome.result.state == Completed
  {
    hide OutcomeOf;
    var out, stop, r, log := RunCancelled(7, 0.0, Returned(FINAL_ANSWER));
    outcome := out;
    CancelledCompletes(Cancelling(7, 0.0, Returned(FINAL_ANSWER)), SMALL_LIMITS, 0.0, [], stop, r, log, FINAL_ANSWER);
  }

  /** A run cancelled during a tool call that ends LIMIT_REACHED. */
  method LimitReachedRun() returns (outcome: RunOutcome)
    ensures OutcomeOf(Cancelling(10, 0.0, Returned(ONE_CALL)), 10, outcome) && outcome.result.state == LimitReached
  {
    hide OutcomeOf;
    var out, stop, r, log := RunCancelled(10, 0.0, Returned(ONE_CALL));
    outcome := out;
    CancelledHitsLimit(Cancelling(10, 0.0, Returned(ONE_CALL)), SMALL_LIMITS, 0.0, [], stop, r, log, ONE_CALL,
                       LONG_OUTPUT);
  }
}
