/** What becomes of a tool call to which the provider gave no id (agent/orchestrator.py). */
module AgentEmptyIds {
  import opened Wrappers
  import opened Transcripts
  import opened LoopDetection
  import opened AgentModels
  import opened AgentRuns
  import opened AgentOrchestrator
  import opened AgentLoop
  import opened AgentGuarantees
  import opened AgentCourse

  /** Nothing stops the run from outside, and the provider always asks for the same. */
  ghost predicate Repeating(env: Environment, limits: AgentLimits, started: real, response: Response,
                            result: CallResult) {
    && env.toolsUp.Returned?
    && (forall i :: !Expired(env, limits, started, i)) && (forall i: nat :: !env.cancelled(i))
    && (forall i: nat :: env.generate(i) == Returned(response)) && (forall i: nat :: env.execute(i) == Executed(result))
  }

  // Every entry is what such an environment says.
  ghost predicate Repeats(log: seq<Entry>, response: Response, result: CallResult) {
    forall i :: 0 <= i < |log| ==>
      && !Trips(log[i]) && (log[i].Prompted? ==> log[i].reply == Returned(response))
      && (log[i].Called? ==> log[i].answer == Executed(result))
  }

  lemma LogRepeats(env: Environment, limits: AgentLimits, started: real, log: seq<Entry>, response: Response,
                   result: CallResult)
    requires Repeating(env, limits, started, response, result) && LogOk(env, limits, started, log)
    ensures Repeats(log, response, result)
  {
    hide Expired, MayFollow;
    forall i | 0 <= i < |log|
      ensures !Trips(log[i]) && (log[i].Prompted? ==> log[i].reply == Returned(response))
      ensures log[i].Called? ==> log[i].answer == Executed(result)
    {
      assert EntryOk(env, limits, started, log, i);
    }
  }

  lemma {:induction false} AnswersRepeat(log: seq<Entry>, response: Response, result: CallResult)
    requires Repeats(log, response, result)
    ensures forall k :: 0 <= k < |Asked(log)| ==> Asked(log)[k] == response
  {
    if log != [] {
      AnswersRepeat(log[..|log| - 1], response, result);
    }
  }

  lemma {:induction false} FewCallsFit(log: seq<Entry>, response: Response, result: CallResult)
    requires Repeats(log, response, result) && |Calls(log)| <= 1
    ensures |Results(log)| == |Calls(log)| && TotalBytes(Results(log)) <= OutputBytes(result)
  {
    hide OutputBytes;
    if log != [] {
      FewCallsFit(log[..|log| - 1], response, result);
      if log[|log| - 1].Called? {
        assert Results(log) == [result];
        assert [result][..0] == [] && TotalBytes([]) == 0;
      } else {
        assert Results(log) == Results(log[..|log| - 1]) + [] == Results(log[..|log| - 1]);
      }
    }
  }

  lemma {:induction false} SomePrompt(log: seq<Entry>, i: nat)
    requires i < |log| && log[i].Prompted?
    ensures |Prompts(log)| >= 1
  {
    if i < |log| - 1 {
      SomePrompt(log[..|log| - 1], i);
    }
  }

  lemma {:induction false} TwoPrompts(log: seq<Entry>, i: nat, j: nat)
    requires i < j < |log| && log[i].Prompted? && log[j].Prompted?
    ensures |Prompts(log)| >= 2
  {
    if j < |log| - 1 {
      TwoPrompts(log[..|log| - 1], i, j);
    } else {
      SomePrompt(log[..|log| - 1], i);
    }
  }

  // Of the ways to stop only those are left that the second answer may bring about.
  lemma WaysToStop(env: Environment, limits: AgentLimits, started: real, initial: seq<Message>,
                   stop: Stop, r: RunState, log: seq<Entry>, response: Response, result: CallResult)
    requires RunEnded(env, limits, started, initial, stop, r, log) && env.toolsUp.Returned? && limits.maxSteps >= 2
    requires Repeats(log, response, result) && response.calls != []
    ensures |Prompts(log)| >= 2 || stop == OutputLimit || RefusedLast(stop, limits, r, log)
  {
    hide LogOk, Books, PromptsMatch, Prompts, Asked, StepsDone, AsAsked, FinalStep, BatchRefused, Signatures, Calls,
      Results;
  }

  lemma NothingRequested()
    ensures Requested([]) == []
  {
  }

  lemma BudgetSuffices(env: Environment, limits: AgentLimits, started: real, initial: seq<Message>,
                     stop: Stop, r: RunState, log: seq<Entry>, response: Response, result: CallResult)
    requires RunEnded(env, limits, started, initial, stop, r, log) && Repeats(log, response, result)
    requires |response.calls| == 1 && OutputBytes(result) <= limits.maxTotalToolOutputBytes && |Prompts(log)| <= 1
    ensures stop != OutputLimit
  {
    hide LogOk, PromptsMatch, Prompts, FinalStep, BatchRefused, Signatures, Calls, Results, OutputBytes, Asked;
    AsManyAnswers(log);
    AnswersRepeat(log, response, result);
    if Asked(log) != [] {
      assert Asked(log) == [response] == [] + [response];
      RequestedNext([], response);
      NothingRequested();
    }
    FewCallsFit(log, response, result);
  }

  /** The provider is asked again after a call without an id, and is shown a turn whose call and result have different
      ids. */
  lemma EmptyIdPrompt(env: Environment, limits: AgentLimits, started: real, initial: seq<Message>,
                      stop: Stop, r: RunState, log: seq<Entry>, response: Response, result: CallResult)
    requires RunEnded(env, limits, started, initial, stop, r, log) && limits.Valid() && limits.maxSteps >= 2
    requires Repeating(env, limits, started, response, result)
    requires |response.calls| == 1 && response.calls[0].name != "" && response.calls[0].id == ""
    requires OutputBytes(result) <= limits.maxTotalToolOutputBytes
    ensures |Prompts(log)| >= 2 && initial <= Prompts(log)[1] && !WellFormed(Prompts(log)[1][|initial|..])
  {
    hide RunEnded, Expired, RefusedLast, Prompts, OutputBytes, WellFormed, Turns, Repeats;
    RunRepeats(env, limits, started, initial, stop, r, log, response, result);
    if |Prompts(log)| <= 1 {
      StopsAfterSecond(env, limits, started, initial, stop, r, log, response, result);
    }
    SecondTurn(env, limits, started, initial, stop, r, log, response, result);
  }

  lemma RunRepeats(env: Environment, limits: AgentLimits, started: real, initial: seq<Message>,
                   stop: Stop, r: RunState, log: seq<Entry>, response: Response, result: CallResult)
    requires RunEnded(env, limits, started, initial, stop, r, log)
    requires Repeating(env, limits, started, response, result)
    ensures Repeats(log, response, result)
  {
    hide LogOk, Expired, Repeats;
    LogRepeats(env, limits, started, log, response, result);
  }

  lemma SecondTurn(env: Environment, limits: AgentLimits, started: real, initial: seq<Message>,
                   stop: Stop, r: RunState, log: seq<Entry>, response: Response, result: CallResult)
    requires RunEnded(env, limits, started, initial, stop, r, log) && Repeats(log, response, result)
    requires |response.calls| == 1 && response.calls[0].id == "" && |Prompts(log)| >= 2
    ensures initial <= Prompts(log)[1] && !WellFormed(Prompts(log)[1][|initial|..])
  {
    hide LogOk, Books, Bounded, Prompts, Asked, Calls, FinalStep, BatchRefused, Signatures, WellFormed, Justified,
      PromptsMatch, Requested, Repeats;
    PromptsWellFormed(env, limits, started, initial, stop, r, log, 1);
    CallsAsAsked(env, limits, started, initial, stop, r, log);
    AnswersRepeat(log, response, result);
    var turns := Turns(stop.Finished?, r.steps)[..1];
    assert turns[0] == r.steps[0] && r.steps[0].response == response;
    assert !IdsGiven(turns[0].response.calls);
  }

  lemma StopsAfterSecond(env: Environment, limits: AgentLimits, started: real, initial: seq<Message>,
                         stop: Stop, r: RunState, log: seq<Entry>, response: Response, result: CallResult)
    requires RunEnded(env, limits, started, initial, stop, r, log) && limits.Valid() && limits.maxSteps >= 2
    requires Repeating(env, limits, started, response, result) && Repeats(log, response, result)
    requires |response.calls| == 1 && response.calls[0].name != ""
    requires OutputBytes(result) <= limits.maxTotalToolOutputBytes
    ensures |Prompts(log)| >= 2
  {
    hide RunEnded, Expired, RefusedLast, Prompts, Calls, OutputBytes, Repeats;
    FirstAnswerChecked(env, limits, started, initial, stop, r, log, response);
    FirstAnswer(env, limits, started, initial, stop, r, log);
    if |Prompts(log)| <= 1 {
      WaysToStop(env, limits, started, initial, stop, r, log, response, result);
      BudgetSuffices(env, limits, started, initial, stop, r, log, response, result);
      RefusedMeans(stop, limits, r, log);
      if |log| == 7 {
        NothingCalled(log);
        OneCallAccepted(env, limits, started, initial, stop, r, log);
      } else {
        TwoPrompts(log, 4, |log| - 3);
      }
    }
  }

  // --- such a run

  const SOME_LIMITS := AgentLimits(5, 5, 60.0, 5, 100, 2, 30.0)

  const NAMELESS := Response("", false, [RequestedCall("", "read", "{}")])

  const SHORT_OUTPUT := CallResult(true, Some("text"), "")

  function AskingForever(): Environment {
    Environment(_ => 0.0, _ => false, Returned(()), _ => Returned(NAMELESS), _ => Executed(SHORT_OUTPUT), _ => false)
  }

  // The log of a whole run in this environment, up to the terminal event.
  ghost predicate IsRun(log: seq<Entry>) {
    exists stop, r :: RunEnded(AskingForever(), SOME_LIMITS, 0.0, [], stop, r, log)
  }

  ghost predicate ShownMalformed(log: seq<Entry>) {
    exists i :: 0 <= i < |log| && log[i].Prompted? && !WellFormed(log[i].messages)
  }

  lemma {:induction false} PromptInLog(log: seq<Entry>, k: nat) returns (i: nat)
    requires k < |Prompts(log)|
    ensures i < |log| && log[i].Prompted? && log[i].messages == Prompts(log)[k]
  {
    if k < |Prompts(log[..|log| - 1])| {
      i := PromptInLog(log[..|log| - 1], k);
    } else {
      i := |log| - 1;
    }
  }

  /** A run in which the provider is shown a malformed transcript. */
  method EmptyIdRun() returns (outcome: RunOutcome, log: seq<Entry>)
    ensures outcome.Done? && log != [] && IsRun(log[..|log| - 1]) && ShownMalformed(log[..|log| - 1])
  {
    hide RunEnded, WellFormed, Prompts;
    var status := new AgentRunStatus();
    ghost var stop, abandoned;
    outcome, log, stop, abandoned := Run(AskingForever(), SOME_LIMITS, [], status, 0.0);
    ghost var front := log[..|log| - 1];
    EmptyIdPrompt(AskingForever(), SOME_LIMITS, 0.0, [], stop, StateOf(outcome.result, abandoned), front, NAMELESS,
                  SHORT_OUTPUT);
    ghost var i := PromptInLog(front, 1);
    assert Prompts(front)[1][0..] == Prompts(front)[1];
  }
}
