/** How an agent run proceeds, entry by entry (agent/orchestrator.py). */
module AgentCourse {
  import opened Transcripts
  import opened LoopDetection
  import opened AgentModels
  import opened AgentRuns
  import opened AgentOrchestrator
  import opened AgentLoop

  // Nothing ends a run right after such an entry.
  predicate GoesOn(e: Entry) {
    match e
    case ClockRead(expired) => !expired
    case CancelRead(_) => false
    case Prompted(_, reply) => reply.Returned?
    case Called(_, answer) => !answer.Crashed?
    case Published(event) => event in {Started, StepStarted, ToolRequested}
  }

  lemma NextEntry(env: Environment, limits: AgentLimits, started: real, initial: seq<Message>,
                  stop: Stop, r: RunState, log: seq<Entry>, k: nat)
    requires RunEnded(env, limits, started, initial, stop, r, log) && env.toolsUp.Returned?
    requires k < |log| && GoesOn(log[k])
    ensures k + 1 < |log| && MayFollow(limits, log[..k + 1], log[k + 1])
    ensures Reports(env, limits, started, k + 1, log[k + 1])
  {
    hide Books, Bounded, PromptsMatch, Prompts, Asked, StepsDone, AsAsked, BatchRefused, Signatures, Calls, FinalStep,
      Results, MayFollow;
    assert k + 1 < |log| ==> EntryOk(env, limits, started, log, k + 1);
  }

  lemma FirstEntry(env: Environment, limits: AgentLimits, started: real, initial: seq<Message>,
                   stop: Stop, r: RunState, log: seq<Entry>)
    requires RunEnded(env, limits, started, initial, stop, r, log)
    ensures log != [] && log[0] == Published(Started)
  {
    hide Books, Bounded, PromptsMatch, Prompts, BatchRefused, Signatures, Calls, FinalStep, Results, Asked, StepsDone,
      AsAsked;
    assert log != [];
    assert EntryOk(env, limits, started, log, 0) && log[..0] == [];
  }

  // The first two entries: the run begins, and reads the clock.
  lemma Begins(env: Environment, limits: AgentLimits, started: real, initial: seq<Message>,
               stop: Stop, r: RunState, log: seq<Entry>)
    requires RunEnded(env, limits, started, initial, stop, r, log) && env.toolsUp.Returned?
    ensures |log| > 1 && log[0] == Published(Started) && log[1] == ClockRead(Expired(env, limits, started, 1))
  {
    hide RunEnded, Expired;
    FirstEntry(env, limits, started, initial, stop, r, log);
    NextEntry(env, limits, started, initial, stop, r, log, 0);
    assert log[..1] == [Published(Started)];
  }

  // --- the first turn

  lemma {:induction false} NothingPrompted(log: seq<Entry>)
    requires forall k :: 0 <= k < |log| ==> !log[k].Prompted?
    ensures Prompts(log) == []
  {
    if log != [] {
      NothingPrompted(log[..|log| - 1]);
    }
  }

  lemma {:induction false} NothingCalled(log: seq<Entry>)
    requires forall k :: 0 <= k < |log| ==> !log[k].Called?
    ensures Calls(log) == [] && Results(log) == []
  {
    if log != [] {
      NothingCalled(log[..|log| - 1]);
    }
  }

  // An entry at which a check passed is the last only at the step limit, or when the guard refuses.
  lemma EndsAtCheck(env: Environment, limits: AgentLimits, started: real, initial: seq<Message>,
                    stop: Stop, r: RunState, log: seq<Entry>)
    requires RunEnded(env, limits, started, initial, stop, r, log)
    requires log != [] && log[|log| - 1] == CancelRead(false)
    ensures (stop == StepLimit && limits.maxSteps <= |Prompts(log)|) || RefusedLast(stop, limits, r, log)
  {
    hide LogOk, Books, Bounded, PromptsMatch, Prompts, Asked, StepsDone, AsAsked, RefusedLast, FinalStep;
  }

  lemma AfterCheck(env: Environment, limits: AgentLimits, started: real, initial: seq<Message>,
                   stop: Stop, r: RunState, log: seq<Entry>, k: nat)
    requires RunEnded(env, limits, started, initial, stop, r, log) && k + 1 < |log|
    ensures MayFollow(limits, log[..k + 1], log[k + 1]) && Reports(env, limits, started, k + 1, log[k + 1])
  {
    hide Books, Bounded, PromptsMatch, Prompts, Asked, StepsDone, AsAsked, Justified, FinalStep, MayFollow;
    assert EntryOk(env, limits, started, log, k + 1);
  }

  // Up to the provider's first answer.
  lemma FirstAnswer(env: Environment, limits: AgentLimits, started: real, initial: seq<Message>,
                    stop: Stop, r: RunState, log: seq<Entry>)
    requires RunEnded(env, limits, started, initial, stop, r, log) && env.toolsUp.Returned? && limits.maxSteps >= 1
    requires !Expired(env, limits, started, 1) && !env.cancelled(2)
    ensures |log| > 4 && log[0] == Published(Started) && log[1] == ClockRead(false) && log[2] == CancelRead(false)
    ensures log[3] == Published(StepStarted) && log[4].Prompted? && log[4].reply == env.generate(4)
  {
    hide RunEnded, Expired;
    Begins(env, limits, started, initial, stop, r, log);
    NextEntry(env, limits, started, initial, stop, r, log, 1);
    assert log[2] == CancelRead(false);
    if |log| == 3 {
      EndsAtCheck(env, limits, started, initial, stop, r, log);
      NothingPrompted(log);
    }
    AfterCheck(env, limits, started, initial, stop, r, log, 2);
    assert log[3] == Published(StepStarted);
    NextEntry(env, limits, started, initial, stop, r, log, 3);
  }

  // The checks after the first answer.
  lemma FirstAnswerChecked(env: Environment, limits: AgentLimits, started: real, initial: seq<Message>,
                           stop: Stop, r: RunState, log: seq<Entry>, response: Response)
    requires RunEnded(env, limits, started, initial, stop, r, log) && env.toolsUp.Returned? && limits.maxSteps >= 2
    requires !Expired(env, limits, started, 1) && !env.cancelled(2) && env.generate(4) == Returned(response)
    requires !Expired(env, limits, started, 5) && !env.cancelled(6)
    ensures |log| > 6 && log[5] == ClockRead(false) && log[6] == CancelRead(false)
    ensures |log| == 7 ==> RefusedLast(stop, limits, r, log)
    ensures |log| > 7 ==> MayFollow(limits, log[..7], log[7]) && Reports(env, limits, started, 7, log[7])
  {
    hide RunEnded, Expired, RefusedLast;
    FirstAnswer(env, limits, started, initial, stop, r, log);
    NextEntry(env, limits, started, initial, stop, r, log, 4);
    assert log[5] == ClockRead(false);
    NextEntry(env, limits, started, initial, stop, r, log, 5);
    assert log[6] == CancelRead(false);
    if |log| == 7 {
      EndsAtCheck(env, limits, started, initial, stop, r, log);
      OnePrompt(log);
    } else {
      AfterCheck(env, limits, started, initial, stop, r, log, 6);
    }
  }

  lemma {:induction false} OnePrompt(log: seq<Entry>)
    requires forall k :: 0 <= k < |log| && k != 4 ==> !log[k].Prompted?
    ensures |Prompts(log)| <= 1
  {
    if |log| == 5 {
      NothingPrompted(log[..4]);
    } else if log != [] {
      OnePrompt(log[..|log| - 1]);
    }
  }

  // A single call of a named tool breaks no limit at first.
  lemma OneCallAccepted(env: Environment, limits: AgentLimits, started: real, initial: seq<Message>,
                        stop: Stop, r: RunState, log: seq<Entry>)
    requires RunEnded(env, limits, started, initial, stop, r, log) && limits.Valid()
    requires Calls(log) == [] && Results(log) == [] && |log| >= 3
    requires log[|log| - 3].Prompted? && log[|log| - 3].reply.Returned?
    requires |log[|log| - 3].reply.value.calls| == 1 && log[|log| - 3].reply.value.calls[0].name != ""
    ensures !RefusedLast(stop, limits, r, log)
  {
    hide LogOk, PromptsMatch, Prompts, Asked, StepsDone, AsAsked, FinalStep, Justified, BatchRefused;
    var calls := log[|log| - 3].reply.value.calls;
    assert calls[..1] == calls;
    assert r.total == 0 && Signatures(Calls(log)) == [];
    assert BatchAllowed(limits, 0, [], calls);
    if RefusedLast(stop, limits, r, log) {
      RefusedIsNotAllowed(limits, 0, [], calls, stop);
    }
  }
}
