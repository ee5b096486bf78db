/** What every agent run guarantees, read off its end state. */
module AgentGuarantees {
  import opened Transcripts
  import opened LoopDetection
  import opened AgentModels
  import opened AgentRuns
  import opened AgentOrchestrator
  import opened AgentLoop

  /** Each prompt is the initial conversation followed by whole turns; it is well formed exactly when
      the provider gave an id to every call it asked for in those turns. */
  lemma PromptsWellFormed(env: Environment, limits: AgentLimits, started: real, initial: seq<Message>,
                          stop: Stop, r: RunState, log: seq<Entry>, k: nat)
    requires Ended(env, limits, started, initial, stop, r, log) && k < |Prompts(log)|
    ensures k <= |Turns(stop.Finished?, r.steps)| && initial <= Prompts(log)[k]
    ensures WellFormed(Prompts(log)[k][|initial|..]) <==> AllIdsGiven(Turns(stop.Finished?, r.steps)[..k])
  {
    var steps := Turns(stop.Finished?, r.steps);
    assert PromptsMatch(initial, steps, Prompts(log));
    assert Prompts(log)[k][|initial|..] == Transcript(steps[..k]);
    WellFormedIffIdsGiven(steps[..k]);
  }

  /** Tool results are conserved: in the steps, or in the turn that was cut short. */
  lemma ResultsConserved(env: Environment, limits: AgentLimits, started: real, initial: seq<Message>,
                         stop: Stop, r: RunState, log: seq<Entry>)
    requires Ended(env, limits, started, initial, stop, r, log)
    ensures Results(log) == StepResults(r.steps) + r.results
    ensures r.total == |StepResults(r.steps)| + |r.results| && r.failed <= r.total <= limits.maxToolCalls
    ensures stop.Finished? ==> r.total == |StepResults(r.steps)|
  {
    FailuresBounded(Results(log));
  }

  /** The tool calls made are those the provider asked for, in its order and numbered within each answer, none left out
      and none added: all of each recorded step's, and a part of one more answer's. */
  lemma CallsAsAsked(env: Environment, limits: AgentLimits, started: real, initial: seq<Message>,
                     stop: Stop, r: RunState, log: seq<Entry>)
    requires Ended(env, limits, started, initial, stop, r, log)
    ensures |r.steps| <= |Asked(log)| <= |r.steps| + 1
    ensures forall k :: 0 <= k < |r.steps| ==> r.steps[k].response == Asked(log)[k]
    ensures Requested(Asked(log)[..|r.steps|]) <= Calls(log) <= Requested(Asked(log))
    ensures stop.Finished? ==> Calls(log) == Requested(Asked(log)) && |Asked(log)| == |r.steps|
  {
    hide LogOk, Books, Bounded, Prompts, Calls, BatchRefused, Signatures, MayFollow;
    if stop.Finished? {
      AsManyAnswers(log);
      assert Asked(log)[..|r.steps|] == Asked(log);
    }
  }

  /** A run never makes `threshold` identical tool calls in a row. */
  lemma NoIdenticalRun(env: Environment, limits: AgentLimits, started: real, initial: seq<Message>,
                       stop: Stop, r: RunState, log: seq<Entry>, i: nat)
    requires Ended(env, limits, started, initial, stop, r, log)
    requires i + limits.loopDetectionThreshold <= |Calls(log)|
    ensures exists k ::
      (i <= k < i + limits.loopDetectionThreshold && Signature(Calls(log)[k]) != Signature(Calls(log)[i]))
  {
    var s := Signatures(Calls(log));
    assert !EqualRun(s, i, limits.loopDetectionThreshold);
    var k :| i <= k < i + limits.loopDetectionThreshold && s[k] != s[i];
    assert Signature(Calls(log)[k]) != Signature(Calls(log)[i]);
  }

  /** When the guard refuses a batch, the run ends without calling any of it. */
  lemma RefusedBatchNotCalled(env: Environment, limits: AgentLimits, started: real, initial: seq<Message>,
                              stop: Stop, r: RunState, log: seq<Entry>)
    requires limits.Valid() && Ended(env, limits, started, initial, stop, r, log)
    requires stop in {BatchTooLarge, CallLimit, EmptyToolId, LoopFound}
    ensures |log| >= 3 && log[|log| - 3].Prompted? && log[|log| - 3].reply.Returned?
    ensures !BatchAllowed(limits, r.total, Signatures(Calls(log)), log[|log| - 3].reply.value.calls)
    ensures forall i :: |log| - 3 < i < |log| ==> !log[i].Called?
  {
    hide *;
    RefusedAtTheEnd(env, limits, started, initial, stop, r, log);
    RefusedMeans(stop, limits, r, log);
    RefusedIsNotAllowed(limits, r.total, Signatures(Calls(log)), log[|log| - 3].reply.value.calls, stop);
  }

  lemma RefusedMeans(stop: Stop, limits: AgentLimits, r: RunState, log: seq<Entry>)
    requires RefusedLast(stop, limits, r, log)
    ensures |log| >= 3 && log[|log| - 3].Prompted? && log[|log| - 3].reply.Returned?
    ensures log[|log| - 2] == ClockRead(false) && log[|log| - 1] == CancelRead(false)
    ensures forall i :: |log| - 3 < i < |log| ==> !log[i].Called?
    ensures BatchRefused(limits, r.total, Signatures(Calls(log)), log[|log| - 3].reply.value.calls, stop)
  {
    hide BatchRefused, Signatures, Calls, LastReply;
    LastReplyMeans(log);
  }

  lemma LastReplyMeans(log: seq<Entry>)
    requires LastReply(log, |log| - 3)
    ensures |log| >= 3 && log[|log| - 3].Prompted? && log[|log| - 3].reply.Returned?
    ensures log[|log| - 2] == ClockRead(false) && log[|log| - 1] == CancelRead(false)
    ensures forall i :: |log| - 3 < i < |log| ==> !log[i].Called?
  {
  }

  lemma RefusedAtTheEnd(env: Environment, limits: AgentLimits, started: real, initial: seq<Message>,
                        stop: Stop, r: RunState, log: seq<Entry>)
    requires Ended(env, limits, started, initial, stop, r, log)
    requires stop in {BatchTooLarge, CallLimit, EmptyToolId, LoopFound}
    ensures RefusedLast(stop, limits, r, log)
  {
    hide LogOk, Books, Bounded, PromptsMatch, BatchRefused, Signatures, Calls, FinalStep, Prompts, Asked, StepsDone,
      AsAsked, Results, LastShows, RefusedLast;
    match stop
    case BatchTooLarge =>
    case CallLimit =>
    case EmptyToolId =>
    case LoopFound =>
  }

  /** The entry that shows that the run must stop is the last one, and says how it stops. */
  lemma NothingAfterTrip(env: Environment, limits: AgentLimits, started: real, initial: seq<Message>,
                         stop: Stop, r: RunState, log: seq<Entry>, i: nat)
    requires Ended(env, limits, started, initial, stop, r, log) && i < |log|
    ensures log[i] == ClockRead(true) ==> i == |log| - 1 && stop == ClockExpired
    ensures log[i] == CancelRead(true) ==> i == |log| - 1 && stop == CancelSeen
    ensures log[i].Prompted? && log[i].reply.Raised? ==> i == |log| - 1 && stop == ProviderRaised(log[i].reply.failure)
    ensures log[i].Called? && log[i].answer.Crashed? ==> i == |log| - 1 && stop == ToolRaised(log[i].answer.failure)
    ensures Trips(log[i]) ==> i == |log| - 1 && stop == StopShown(log[i])
  {
    hide EntryOk, Books, Bounded, PromptsMatch, Prompts, Asked, StepsDone, AsAsked, BatchRefused, Signatures, Calls,
      FinalStep, Results;
  }

  // The way to stop that a tripping entry shows.
  function StopShown(e: Entry): Stop
    requires Trips(e)
  {
    match e
    case ClockRead(_) => ClockExpired
    case CancelRead(_) => CancelSeen
    case Prompted(_, reply) => ProviderRaised(reply.failure)
    case Called(_, answer) => ToolRaised(answer.failure)
  }

  /** A run that completed had not been cancelled, nor had it run out of time, when it was last checked. */
  lemma CompletedInTime(env: Environment, limits: AgentLimits, started: real, initial: seq<Message>,
                        stop: Stop, r: RunState, log: seq<Entry>, t: nat)
    requires Ended(env, limits, started, initial, stop, r, log) && stop.Finished?
    requires StaysCancelled(env) && ClockMonotone(env)
    ensures t <= |log| - 2 ==> !env.cancelled(t)
    ensures t <= |log| - 3 ==> env.clock(t) - started < limits.maxWallTimeSeconds
  {
    assert EntryOk(env, limits, started, log, |log| - 2) && EntryOk(env, limits, started, log, |log| - 3);
    assert log[|log| - 2] == CancelRead(false) && log[|log| - 3] == ClockRead(false);
  }
}
