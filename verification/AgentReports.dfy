/** What the provider is shown, and what the caller is told (agent/orchestrator.py). */
module AgentReports {
  import opened Decimals
  import opened Wrappers
  import opened Transcripts
  import opened LoopDetection
  import opened AgentModels
  import opened AgentRuns
  import opened AgentOrchestrator
  import opened AgentLoop
  import opened AgentGuarantees
  import opened AgentDeterminism

  // --- reading a conversation

  function AssistantTurns(ms: seq<Message>): seq<Message> {
    if ms == [] then [] else
      var last := ms[|ms| - 1];
      if last.Assistant? then AssistantTurns(ms[..|ms| - 1]) + [last] else AssistantTurns(ms[..|ms| - 1])
  }

  function ToolMessages(ms: seq<Message>): seq<Message> {
    if ms == [] then [] else
      var last := ms[|ms| - 1];
      if last.ToolMessage? then ToolMessages(ms[..|ms| - 1]) + [last] else ToolMessages(ms[..|ms| - 1])
  }

  lemma {:induction false} ReadConcat(a: seq<Message>, b: seq<Message>)
    ensures AssistantTurns(a + b) == AssistantTurns(a) + AssistantTurns(b)
    ensures ToolMessages(a + b) == ToolMessages(a) + ToolMessages(b)
  {
    if b == [] {
      assert a + b == a;
    } else {
      var front := b[..|b| - 1];
      assert (a + b)[..|a + b| - 1] == a + front;
      ReadConcat(a, front);
    }
  }

  lemma {:induction false} OnlyToolMessages(ms: seq<Message>)
    requires forall i :: 0 <= i < |ms| ==> ms[i].ToolMessage?
    ensures AssistantTurns(ms) == [] && ToolMessages(ms) == ms
  {
    if ms != [] {
      OnlyToolMessages(ms[..|ms| - 1]);
    }
  }

  lemma ReadTurn(step: StepRecord)
    requires Answered(step)
    ensures AssistantTurns(Turn(step)) == [Assistant(step.response.content, step.response.calls)]
    ensures ToolMessages(Turn(step)) == Answers(step.response.calls, step.results)
  {
    var head := [Assistant(step.response.content, step.response.calls)];
    ReadConcat(head, Answers(step.response.calls, step.results));
    OnlyToolMessages(Answers(step.response.calls, step.results));
    assert head[..0] == [];
  }

  // --- what a tool message tells

  /** An output as it is, or the first 4000 characters of a longer one and a mark; nothing for a success without output;
      the error of a failure. */
  predicate Tells(text: string, r: CallResult) {
    && (r.success && r.output.Some? && |r.output.value| <= 4000 ==> text == r.output.value)
    && (r.success && r.output.Some? && |r.output.value| > 4000 ==>
          text == r.output.value[..4000] + "\U{2026}(truncated)")
    && (r.success && r.output.None? ==> text == "")
    && (!r.success ==> text == "error: " + r.error)
  }

  ghost predicate MessagesTell(ms: seq<Message>, calls: seq<ToolCall>, results: seq<CallResult>) {
    && |ms| <= |calls| && |ms| <= |results|
    && (forall i :: 0 <= i < |ms| ==>
          ms[i].ToolMessage? && ms[i].callId == calls[i].id && Tells(ms[i].content, results[i]))
  }

  lemma AnswersTell(calls: seq<RequestedCall>, results: seq<CallResult>)
    requires |results| == |calls|
    ensures MessagesTell(Answers(calls, results), Numbered(calls), results)
  {
  }

  lemma TellMore(a: seq<Message>, b: seq<Message>, calls: seq<ToolCall>, c: seq<ToolCall>, results: seq<CallResult>,
                 d: seq<CallResult>)
    requires MessagesTell(a, calls, results) && MessagesTell(b, c, d)
    requires |a| == |calls| == |results|
    ensures MessagesTell(a + b, calls + c, results + d)
  {
    hide Tells;
  }

  lemma {:induction false} TranscriptTells(steps: seq<StepRecord>, asked: seq<Response>)
    requires AllAnswered(steps) && |asked| == |steps|
    requires forall i :: 0 <= i < |steps| ==> steps[i].response == asked[i]
    ensures |AssistantTurns(Transcript(steps))| == |steps|
    ensures forall i :: 0 <= i < |steps| ==>
      AssistantTurns(Transcript(steps))[i] == Assistant(asked[i].content, asked[i].calls)
    ensures |ToolMessages(Transcript(steps))| == |Requested(asked)| == |StepResults(steps)|
    ensures MessagesTell(ToolMessages(Transcript(steps)), Requested(asked), StepResults(steps))
    ensures forall i :: 0 <= i < |Transcript(steps)| ==> !Transcript(steps)[i].Prior?
  {
    hide Turn, MessagesTell, Numbered;
    if steps == [] {
      NothingTold();
    } else {
      var front, last := steps[..|steps| - 1], steps[|steps| - 1];
      var some := asked[..|asked| - 1];
      TranscriptTells(front, some);
      assert steps == front + [last];
      TranscriptGrows(front, last);
      ReadConcat(Transcript(front), Turn(last));
      ReadTurn(last);
      AnswersTell(last.response.calls, last.results);
      TellMore(ToolMessages(Transcript(front)), Answers(last.response.calls, last.results), Requested(some),
               Numbered(last.response.calls), StepResults(front), last.results);
      NoPrior(last);
    }
  }

  lemma NothingTold()
    ensures MessagesTell([], [], [])
  {
  }

  lemma NoPrior(step: StepRecord)
    requires Answered(step)
    ensures forall i :: 0 <= i < |Turn(step)| ==> !Turn(step)[i].Prior?
  {
  }

  /** What the k-th prompt adds to the initial conversation: the provider's first k answers, and one message for each
      call they asked for, under the call's id, telling its result. */
  lemma PromptTells(env: Environment, limits: AgentLimits, started: real, initial: seq<Message>,
                    stop: Stop, r: RunState, log: seq<Entry>, k: nat)
    requires Ended(env, limits, started, initial, stop, r, log) && k < |Prompts(log)|
    ensures k <= |Asked(log)| && initial <= Prompts(log)[k]
    ensures
      var added := Prompts(log)[k][|initial|..];
      && (forall i :: 0 <= i < |added| ==> !added[i].Prior?)
      && |AssistantTurns(added)| == k
      && (forall i :: 0 <= i < k ==>
            AssistantTurns(added)[i] == Assistant(Asked(log)[i].content, Asked(log)[i].calls))
      && |ToolMessages(added)| == |Requested(Asked(log)[..k])| <= |Results(log)|
      && |ToolMessages(added)| <= |Calls(log)|
      && (forall i :: 0 <= i < |ToolMessages(added)| ==>
            && ToolMessages(added)[i].ToolMessage? && ToolMessages(added)[i].callId == Calls(log)[i].id
            && Tells(ToolMessages(added)[i].content, Results(log)[i]))
  {
    hide LogOk, Bounded, Prompts, Asked, Calls, Results, Justified, FinalStep, StepsDone, Transcript, Tells, Requested,
      StepResults;
    var turns := Turns(stop.Finished?, r.steps);
    assert PromptsMatch(initial, turns, Prompts(log));
    assert Prompts(log)[k][|initial|..] == Transcript(turns[..k]);
    assert turns[..k] == r.steps[..k];
    TranscriptTells(turns[..k], Asked(log)[..k]);
    ResultsOfSome(r.steps, k);
    RequestedPrefix(Asked(log)[..k], Asked(log)[..|r.steps|]);
  }

  // --- what is recorded of a call

  /** The result recorded for a call is what the tool returned, or a failure with the text of its refusal. */
  lemma ResultTells(log: seq<Entry>, k: nat)
    requires k < |log| && log[k].Called? && forall i :: 0 <= i < k ==> !Trips(log[i])
    ensures !log[k].answer.Crashed? ==> |Calls(log[..k])| < |Results(log)|
    ensures log[k].answer.Executed? ==> Results(log)[|Calls(log[..k])|] == log[k].answer.result
    ensures log[k].answer.Refused? ==>
      var result := Results(log)[|Calls(log[..k])|];
      !result.success && result.output == None && result.error == log[k].answer.message
  {
    hide Results, Calls;
    NoneLost(log[..k]);
    ReadNext(log, k);
    ReadPrefix(log, k + 1);
  }

  // --- the counters

  function Joined(texts: seq<string>): string {
    if texts == [] then "" else Joined(texts[..|texts| - 1]) + texts[|texts| - 1]
  }

  // The text of a result that is counted: the output, or the error.
  ghost predicate Counted(texts: seq<string>, results: seq<CallResult>) {
    && |texts| == |results|
    && (forall i :: 0 <= i < |results| ==>
          && (results[i].success && results[i].output.Some? ==> texts[i] == results[i].output.value)
          && (!results[i].success || results[i].output.None? ==> texts[i] == results[i].error))
  }

  lemma {:induction false} BytesCounted(results: seq<CallResult>) returns (texts: seq<string>)
    ensures Counted(texts, results) && TotalBytes(results) == |Joined(texts)|
  {
    if results == [] {
      texts := [];
    } else {
      var last := results[|results| - 1];
      var before := BytesCounted(results[..|results| - 1]);
      texts := before + [if last.success && last.output.Some? then last.output.value else last.error];
      assert texts[..|texts| - 1] == before;
    }
  }

  ghost function FailedOnes(results: seq<CallResult>): set<nat> {
    set i: nat | i < |results| && !results[i].success
  }

  lemma {:induction false} FailuresCounted(results: seq<CallResult>)
    ensures Failures(results) == |FailedOnes(results)|
  {
    if results != [] {
      var n := |results| - 1;
      var front := results[..n];
      FailuresCounted(front);
      assert FailedOnes(results) == FailedOnes(front) + (if results[n].success then {} else {n});
    }
  }

  /** The counters of a run: how many calls gave a result, how many of these failed, and how much text they gave. */
  lemma CountersTell(env: Environment, limits: AgentLimits, started: real, initial: seq<Message>,
                     stop: Stop, r: RunState, log: seq<Entry>) returns (texts: seq<string>)
    requires Ended(env, limits, started, initial, stop, r, log)
    ensures r.total == |Results(log)| && r.failed == |FailedOnes(Results(log))|
    ensures Counted(texts, Results(log)) && r.bytes == |Joined(texts)|
    ensures stop == OutputLimit ==> |Joined(texts)| > limits.maxTotalToolOutputBytes
  {
    hide LogOk, Prompts, Asked, Calls, Results, PromptsMatch, AsAsked, StepsDone, FinalStep, StepResults, BatchRefused;
    FailuresCounted(Results(log));
    texts := BytesCounted(Results(log));
  }

  // --- the limits

  // Only a call that has just been made may have exceeded the budget.
  lemma {:induction false} FitsBeforeNext(env: Environment, limits: AgentLimits, started: real, log: seq<Entry>)
    requires LogOk(env, limits, started, log) && limits.maxTotalToolOutputBytes >= 0
    ensures
      || OutputFits(limits, log)
      || (log != [] && (log[|log| - 1].Called? || log[|log| - 1] == Published(ToolCompleted)))
  {
    hide LogOk, OutputFits;
    if log == [] {
      NoOutput(limits);
    } else {
      var front, e := log[..|log| - 1], log[|log| - 1];
      FrontOk(env, limits, started, log);
      FitsBeforeNext(env, limits, started, front);
      FitsNext(limits, front, e);
      assert log == front + [e];
    }
  }

  lemma NoOutput(limits: AgentLimits)
    requires limits.maxTotalToolOutputBytes >= 0
    ensures OutputFits(limits, [])
  {
  }

  lemma FrontOk(env: Environment, limits: AgentLimits, started: real, log: seq<Entry>)
    requires LogOk(env, limits, started, log) && log != []
    ensures LogOk(env, limits, started, log[..|log| - 1]) && MayFollow(limits, log[..|log| - 1], log[|log| - 1])
  {
    hide MayFollow;
    var front := log[..|log| - 1];
    assert EntryOk(env, limits, started, log, |front|);
    forall i | 0 <= i < |front| ensures EntryOk(env, limits, started, front, i) {
      assert EntryOk(env, limits, started, log, i) && front[..i] == log[..i];
      assert forall j :: 0 <= j <= i ==> front[j] == log[j];
    }
  }

  lemma FitsNext(limits: AgentLimits, log: seq<Entry>, e: Entry)
    requires MayFollow(limits, log, e)
    requires
      || OutputFits(limits, log)
      || (log != [] && (log[|log| - 1].Called? || log[|log| - 1] == Published(ToolCompleted)))
    ensures OutputFits(limits, log + [e]) || e.Called? || e == Published(ToolCompleted)
  {
    hide TotalBytes, BatchAccepted, Results, Calls, Asked, Requested, Prompts;
    LogAddsUp(log, e);
    if !e.Called? {
      assert Results(log) + [] == Results(log);
    }
  }

  // A call that raised adds nothing.
  lemma FitsBeforeCrash(env: Environment, limits: AgentLimits, started: real, log: seq<Entry>)
    requires LogOk(env, limits, started, log) && limits.maxTotalToolOutputBytes >= 0
    requires log != [] && log[|log| - 1].Called? && log[|log| - 1].answer.Crashed?
    ensures OutputFits(limits, log)
  {
    hide LogOk, TotalBytes, Results;
    var front := log[..|log| - 1];
    FrontOk(env, limits, started, log);
    FitsBeforeNext(env, limits, started, front);
    LogAddsUp(front, log[|log| - 1]);
    assert log == front + [log[|log| - 1]] && Results(front) + [] == Results(front);
  }

  /** A run stops for its output budget exactly when the output exceeds it, so at the first call that does so. */
  lemma BudgetStops(env: Environment, limits: AgentLimits, started: real, initial: seq<Message>,
                    stop: Stop, r: RunState, log: seq<Entry>)
    requires limits.Valid() && Ended(env, limits, started, initial, stop, r, log)
    ensures stop == OutputLimit <==> r.bytes > limits.maxTotalToolOutputBytes
  {
    hide LogOk, Prompts, Asked, Calls, Results, TotalBytes, PromptsMatch, AsAsked, StepsDone, FinalStep, StepResults,
      BatchRefused, Bounded, Failures, Signatures;
    FitsBeforeNext(env, limits, started, log);
    if log != [] && log[|log| - 1].Called? && log[|log| - 1].answer.Crashed? {
      FitsBeforeCrash(env, limits, started, log);
    }
  }

  /** The limits on steps and calls hold; a run that stops for its steps has made all of them, and one that finishes
      ends with an answer that asks for no tools. */
  lemma LimitsKept(env: Environment, limits: AgentLimits, started: real, initial: seq<Message>,
                   stop: Stop, r: RunState, log: seq<Entry>)
    requires Ended(env, limits, started, initial, stop, r, log)
    ensures |r.steps| <= limits.maxSteps && |Calls(log)| <= limits.maxToolCalls
    ensures forall k :: 0 <= k < |r.steps| ==> r.steps[k].sequence == k + 1
    ensures stop == StepLimit ==> |r.steps| == limits.maxSteps
    ensures stop.Finished? ==> r.steps != [] && r.steps[|r.steps| - 1].response.calls == []
  {
    hide LogOk, Prompts, Asked, Calls, Results, TotalBytes, PromptsMatch, AsAsked, StepsDone, StepResults, BatchRefused,
      Failures, Signatures, LoopFree;
  }

  /** Clock, token, provider and tools are reported truly. */
  lemma ReadTruly(env: Environment, limits: AgentLimits, started: real, initial: seq<Message>,
                  stop: Stop, r: RunState, log: seq<Entry>, i: nat)
    requires Ended(env, limits, started, initial, stop, r, log) && i < |log|
    ensures log[i].ClockRead? ==> (log[i].expired <==> env.clock(i) - started >= limits.maxWallTimeSeconds)
    ensures log[i].CancelRead? ==> (log[i].cancelled <==> env.cancelled(i))
    ensures log[i].Prompted? ==> log[i].reply == env.generate(i)
    ensures log[i].Called? ==> log[i].answer == env.execute(i)
    ensures log[i].Prompted? || log[i].Called? ==>
      && i >= 3 && {log[i - 3], log[i - 2]} == {ClockRead(false), CancelRead(false)}
  {
    hide Prompts, Asked, Calls, Results, TotalBytes, PromptsMatch, AsAsked, StepsDone, FinalStep, StepResults,
      BatchRefused, Bounded, Failures, Signatures, MayFollow, Justified;
    assert EntryOk(env, limits, started, log, i);
  }

  // --- why a batch was refused

  /** A refused batch, the last one the provider asked for, breaks the limit that the reason names. */
  lemma RefusedWhy(env: Environment, limits: AgentLimits, started: real, initial: seq<Message>,
                   stop: Stop, r: RunState, log: seq<Entry>)
    requires limits.Valid() && Ended(env, limits, started, initial, stop, r, log)
    requires stop in {BatchTooLarge, CallLimit, EmptyToolId, LoopFound}
    ensures |log| >= 3 && log[|log| - 3].Prompted? && log[|log| - 3].reply.Returned?
    ensures
      var calls := log[|log| - 3].reply.value.calls;
      && (stop == BatchTooLarge <==> |calls| > limits.maxSingleToolCalls)
      && (stop == CallLimit <==> |calls| <= limits.maxSingleToolCalls && r.total + |calls| > limits.maxToolCalls)
      && (stop == EmptyToolId ==> exists m :: 0 <= m < |calls| && calls[m].name == "")
      && (stop == LoopFound ==> !LoopFree(Signatures(Calls(log) + Numbered(calls)), limits.loopDetectionThreshold))
  {
    hide Ended, RefusedLast, PrefixAllowed, Signatures, Calls, Numbered, LoopFree;
    RefusedAtTheEnd(env, limits, started, initial, stop, r, log);
    RefusedMeans(stop, limits, r, log);
    var calls := log[|log| - 3].reply.value.calls;
    if stop == LoopFound {
      var m: nat :| LoopAt(limits, Signatures(Calls(log)), calls, m);
      LoopIn(limits, Calls(log), calls, m);
    } else if stop == EmptyToolId {
      var m: nat :| UnnamedAt(limits, Signatures(Calls(log)), calls, m);
      assert calls[m].name == "";
    }
  }

  lemma LoopIn(limits: AgentLimits, before: seq<ToolCall>, calls: seq<RequestedCall>, m: nat)
    requires limits.Valid() && LoopAt(limits, Signatures(before), calls, m)
    ensures !LoopFree(Signatures(before + Numbered(calls)), limits.loopDetectionThreshold)
  {
    hide LoopFree;
    var all := Signatures(before + Numbered(calls));
    var some := Signatures(before) + RequestSignatures(calls[..m + 1]);
    assert all == some + all[|some|..];
    if LoopFree(all, limits.loopDetectionThreshold) {
      LoopFreePrefix(some, all[|some|..], limits.loopDetectionThreshold);
    }
  }

  predicate NoColon(s: string) {
    ':' !in s
  }

  /** Two calls count as identical exactly when tool and arguments are the same (tool ids contain no colon). */
  lemma IdenticalIff(a: ToolCall, b: ToolCall)
    requires NoColon(a.toolId) && NoColon(b.toolId)
    ensures Signature(a) == Signature(b) <==> a.toolId == b.toolId && a.arguments == b.arguments
  {
    if Signature(a) == Signature(b) {
      UpToColon(a.toolId, a.arguments, b.toolId, b.arguments);
    }
  }

  lemma UpToColon(a: string, x: string, b: string, y: string)
    requires NoColon(a) && NoColon(b) && a + ":" + x == b + ":" + y
    ensures a == b && x == y
  {
    var s, t := a + ":" + x, b + ":" + y;
    assert s[|a|] == ':' && t[|b|] == ':';
    assert forall i :: 0 <= i < |a| ==> s[i] == a[i] != ':';
    assert forall i :: 0 <= i < |b| ==> t[i] == b[i] != ':';
    assert a == s[..|a|] && b == t[..|b|] && x == s[|a| + 1..] && y == t[|b| + 1..];
  }

  // --- generated ids

  /** A call without an id is executed as call_<n>, n being its number in the batch; a given id is kept. */
  lemma CallNumbered(calls: seq<RequestedCall>, i: nat)
    requires i < |calls|
    ensures calls[i].id != "" ==> Numbered(calls)[i].id == calls[i].id
    ensures calls[i].id == "" ==>
      exists n :: Numbered(calls)[i].id == "call_" + n && ValueOf(n) == i + 1 && n != "" && n[0] != '0'
    ensures Numbered(calls)[i].toolId == calls[i].name && Numbered(calls)[i].arguments == calls[i].arguments
  {
    DecimalReads(i + 1);
    assert Decimal(i + 1) != "";
    assert calls[i].id == "" ==> Numbered(calls)[i].id == "call_" + Decimal(i + 1);
  }
}
