/** Runs of the agent loop, from the first state to the terminal one (agent/orchestrator.py, run). */
module AgentLoop {
  import opened Wrappers
  import opened Transcripts
  import opened LoopDetection
  import opened AgentModels
  import opened AgentRuns
  import opened AgentOrchestrator

  // The local variables of a run; results belongs to the turn in progress.
  datatype RunState = RunState(
    messages: seq<Message>,
    steps: seq<StepRecord>,
    results: seq<CallResult>,
    total: nat,
    failed: nat,
    bytes: nat)

  /** The counters are what the log adds up to, and every result is in a step or in the open turn. */
  ghost predicate Books(r: RunState, log: seq<Entry>) {
    && Results(log) == StepResults(r.steps) + r.results
    && r.total == |Results(log)| && r.failed == Failures(Results(log)) && r.bytes == TotalBytes(Results(log))
  }

  /** The k-th prompt was the initial conversation and the turns of the first k steps. */
  ghost predicate PromptsMatch(initial: seq<Message>, steps: seq<StepRecord>, prompts: seq<seq<Message>>) {
    && AllAnswered(steps) && |prompts| <= |steps| + 1
    && (forall k :: 0 <= k < |prompts| ==> prompts[k] == initial + Transcript(steps[..k]))
  }

  // The last entry shows the failed check or the call that raised.
  predicate LastShows(stop: Stop, log: seq<Entry>) {
    && log != []
    && match stop
       case ClockExpired => log[|log| - 1] == ClockRead(true)
       case CancelSeen => log[|log| - 1] == CancelRead(true)
       case ProviderRaised(f) => log[|log| - 1].Prompted? && log[|log| - 1].reply == Raised(f)
       case ToolRaised(f) => log[|log| - 1].Called? && log[|log| - 1].answer == Crashed(f)
       case _ => false
  }

  /** What the end of the log (before the terminal event) shows for each way to stop. */
  ghost predicate Justified(stop: Stop, env: Environment, limits: AgentLimits, r: RunState, log: seq<Entry>) {
    match stop
    case ToolsDown(f) => env.toolsUp == Raised(f) && log != [] && log[|log| - 1] == Published(Started) && r.steps == []
    case StepLimit => TopChecked(log) && log[|log| - 1] == CancelRead(false) && |r.steps| == limits.maxSteps
    case OutputLimit =>
      log != [] && log[|log| - 1] == Published(ToolCompleted) && r.bytes > limits.maxTotalToolOutputBytes
    case Finished =>
      LastReply(log, |log| - 4) && log[|log| - 1] == Published(StepCompleted) && log[|log| - 4].reply.value.calls == []
    case BatchTooLarge => RefusedLast(stop, limits, r, log)
    case CallLimit => RefusedLast(stop, limits, r, log)
    case EmptyToolId => RefusedLast(stop, limits, r, log)
    case LoopFound => RefusedLast(stop, limits, r, log)
    case _ => LastShows(stop, log)
  }

  // The log ends with the provider's answer, whose batch the guard refuses: none of it was called.
  ghost predicate RefusedLast(stop: Stop, limits: AgentLimits, r: RunState, log: seq<Entry>) {
    LastReply(log, |log| - 3)
    && BatchRefused(limits, r.total, Signatures(Calls(log)), log[|log| - 3].reply.value.calls, stop)
  }

  // The provider answered at i and both checks after it passed.
  predicate LastReply(log: seq<Entry>, i: int) {
    && 0 <= i && i + 2 < |log| && log[i].Prompted? && log[i].reply.Returned?
    && log[i + 1] == ClockRead(false) && log[i + 2] == CancelRead(false)
  }

  // --- single observations

  lemma Note(env: Environment, limits: AgentLimits, started: real, log: seq<Entry>, e: Entry)
    requires Watched(env, limits, started, log) && MayFollow(limits, log, e)
    requires e.Prompted? || e.Called? ==> ReadyToCall(log)
    requires Reports(env, limits, started, |log|, e)
    ensures LogOk(env, limits, started, log + [e])
    ensures !Trips(e) ==> Watched(env, limits, started, log + [e])
    ensures Prompts(log + [e]) == Prompts(log) + PromptIn(e) && Asked(log + [e]) == Asked(log) + AskedIn(e)
    ensures StepsDone(log + [e]) == StepsDone(log) + if e == Published(StepCompleted) then 1 else 0
    ensures Calls(log + [e]) == Calls(log) + CallIn(e)
    ensures Results(log + [e]) == Results(log) + ResultIn(e)
  {
    hide MayFollow, LogOk, Watched, Prompts, Asked, StepsDone, Calls, Results;
    var next := log + [e];
    assert next[..|log|] == log && next[|log|] == e;
    assert ReadyToCall(log) ==> Cleared(next, |log|);
    LogGrows(env, limits, started, log, e);
    LogAddsUp(log, e);
  }

  // What the environment says at that moment.
  predicate Reports(env: Environment, limits: AgentLimits, started: real, moment: nat, e: Entry) {
    match e
    case ClockRead(expired) => expired == Expired(env, limits, started, moment)
    case CancelRead(cancelled) => cancelled == env.cancelled(moment)
    case Prompted(_, reply) => reply == env.generate(moment)
    case Called(_, answer) => answer == env.execute(moment)
    case Published(_) => true
  }

  // The log and what it adds up to are as before, apart from entries that are no calls.
  ghost predicate SameBusiness(log: seq<Entry>, next: seq<Entry>) {
    && Prompts(next) == Prompts(log) && Asked(next) == Asked(log)
    && Calls(next) == Calls(log) && Results(next) == Results(log)
  }

  method Publish(env: Environment, limits: AgentLimits, started: real, log: seq<Entry>, event: Event)
    returns (next: seq<Entry>)
    requires Watched(env, limits, started, log) && MayFollow(limits, log, Published(event))
    ensures next == log + [Published(event)] && Watched(env, limits, started, next) && SameBusiness(log, next)
    ensures StepsDone(next) == StepsDone(log) + if event == StepCompleted then 1 else 0
  {
    hide MayFollow, Watched, LogOk, Prompts, Asked, StepsDone, Calls, Results;
    next := log + [Published(event)];
    Note(env, limits, started, log, Published(event));
  }

  // _check_wall_clock
  method CheckClock(env: Environment, limits: AgentLimits, started: real, log: seq<Entry>)
    returns (next: seq<Entry>, stop: Option<Stop>)
    requires Watched(env, limits, started, log) && MayFollow(limits, log, ClockRead(true))
    ensures next == log + [ClockRead(stop.Some?)] && (stop.Some? ==> stop.value == ClockExpired)
    ensures LogOk(env, limits, started, next) && SameBusiness(log, next) && StepsDone(next) == StepsDone(log)
    ensures stop.None? ==> Watched(env, limits, started, next)
  {
    hide Watched, LogOk, Prompts, Asked, StepsDone, Calls, Results, TotalBytes;
    var expired := Expired(env, limits, started, |log|);
    next := log + [ClockRead(expired)];
    Note(env, limits, started, log, ClockRead(expired));
    stop := if expired then Some(ClockExpired) else None;
  }

  // token.raise_if_cancelled
  method CheckCancel(env: Environment, limits: AgentLimits, started: real, log: seq<Entry>)
    returns (next: seq<Entry>, stop: Option<Stop>)
    requires Watched(env, limits, started, log) && MayFollow(limits, log, CancelRead(true))
    ensures next == log + [CancelRead(stop.Some?)] && (stop.Some? ==> stop.value == CancelSeen)
    ensures LogOk(env, limits, started, next) && SameBusiness(log, next) && StepsDone(next) == StepsDone(log)
    ensures stop.None? ==> Watched(env, limits, started, next)
  {
    hide Watched, LogOk, Prompts, Asked, StepsDone, Calls, Results, TotalBytes;
    var cancelled := env.cancelled(|log|);
    next := log + [CancelRead(cancelled)];
    Note(env, limits, started, log, CancelRead(cancelled));
    stop := if cancelled then Some(CancelSeen) else None;
  }

  // --- one tool call

  // The state once a call has returned a result.
  function AfterCall(r: RunState, call: ToolCall, result: CallResult): RunState {
    r.(results := r.results + [result],
       total := r.total + 1,
       failed := r.failed + if result.success then 0 else 1,
       bytes := r.bytes + OutputBytes(result),
       messages := r.messages + [ToolMessage(call.id, RenderResult(result))])
  }

  lemma BooksAfterCall(r: RunState, log: seq<Entry>, next: seq<Entry>, call: ToolCall, result: CallResult)
    requires Books(r, log) && Results(next) == Results(log) + [result]
    ensures Books(AfterCall(r, call, result), next)
  {
  }

  // _execute_call: a refusal becomes a failed result, any other exception goes through.
  function ToResult(answer: ToolReply): CallResult
    requires !answer.Crashed?
  {
    if answer.Executed? then answer.result else CallResult(false, None, answer.message)
  }

  predicate CanRunTool(s: AgentState) {
    s in {Running, WaitingForApproval, ExecutingTool}
  }

  // Two passed checks and an event make a call possible.
  predicate ReadyToCall(log: seq<Entry>) {
    && |log| >= 3 && Clear(log[|log| - 3]) && Clear(log[|log| - 2]) && log[|log| - 3] != log[|log| - 2]
    && log[|log| - 1].Published?
  }

  // The checks before a tool call.
  method Preflight(env: Environment, limits: AgentLimits, started: real, log0: seq<Entry>)
    returns (stop: Option<Stop>, log: seq<Entry>)
    requires Watched(env, limits, started, log0) && CallMayStart(limits, log0)
    ensures LogOk(env, limits, started, log) && SameBusiness(log0, log) && StepsDone(log) == StepsDone(log0)
    ensures stop.None? ==> Watched(env, limits, started, log) && ReadyToCall(log) && EndsIn(log, ToolRequested)
    ensures stop.Some? ==> LastShows(stop.value, log)
  {
    hide Watched, LogOk, CallMayStart, Prompts, Asked, StepsDone, Calls, Results, TotalBytes;
    log, stop := CheckCancel(env, limits, started, log0);
    if stop.Some? {
      return;
    }
    assert log[..|log| - 1] == log0 && PreflightCancel(limits, log);
    ghost var checked := log;
    log, stop := CheckClock(env, limits, started, log);
    if stop.Some? {
      return;
    }
    assert log[..|log| - 1] == checked;
    log := Publish(env, limits, started, log, ToolRequested);
    LogOfWatched(env, limits, started, log);
  }

  lemma LogOfWatched(env: Environment, limits: AgentLimits, started: real, log: seq<Entry>)
    requires Watched(env, limits, started, log)
    ensures LogOk(env, limits, started, log)
  {
  }

  // From the two checks to the tool's answer.
  method CallTool(env: Environment, limits: AgentLimits, started: real, call: ToolCall,
                  status: AgentRunStatus, log0: seq<Entry>)
    returns (stop: Option<Stop>, answer: ToolReply, log: seq<Entry>)
    requires Watched(env, limits, started, log0) && CallMayStart(limits, log0)
    requires status.Valid() && CanRunTool(status.state)
    modifies status`state, status`path
    ensures status.Valid() && CanRunTool(status.state)
    ensures LogOk(env, limits, started, log) && Prompts(log) == Prompts(log0) && Asked(log) == Asked(log0)
    ensures StepsDone(log) == StepsDone(log0)
    ensures stop.None? ==> !answer.Crashed? && Watched(env, limits, started, log) && log != [] && log[|log| - 1].Called?
    ensures stop.None? ==> Calls(log) == Calls(log0) + [call] && Results(log) == Results(log0) + [ToResult(answer)]
    ensures stop.Some? ==> Results(log) == Results(log0) && Calls(log) in {Calls(log0), Calls(log0) + [call]}
    ensures stop.Some? ==> LastShows(stop.value, log)
  {
    hide Watched, LogOk, ReadyToCall, LegalPath, Prompts, Asked, StepsDone, Calls, Results, CallMayStart;
    answer := Refused("");
    stop, log := Preflight(env, limits, started, log0);
    if stop.Some? {
      return;
    }
    // the status change comes before the event; neither depends on the other
    var ok := status.Transition(ExecutingTool);
    assert ok;
    if env.asksApproval(|log|) {
      // AgentService._on_approval_pending, called while the tool service waits for a decision
      var legal := status.Transition(WaitingForApproval);
      assert legal;
    }
    answer := env.execute(|log|);
    Note(env, limits, started, log, Called(call, answer));
    log := log + [Called(call, answer)];
    if answer.Crashed? {
      stop := Some(ToolRaised(answer.failure));
    }
  }

  // The observable counters are those of the run.
  ghost predicate Shown(status: AgentRunStatus, r: RunState)
    reads status
  {
    status.toolCalls == r.total && status.failedToolCalls == r.failed
  }

  /** Everything before the last result fitted the output budget. */
  ghost predicate BudgetKept(limits: AgentLimits, results: seq<CallResult>) {
    results != [] ==> TotalBytes(results[..|results| - 1]) <= limits.maxTotalToolOutputBytes
  }

  // What follows a call that gave a result: the event, the output budget, the token.
  method AfterTool(env: Environment, limits: AgentLimits, started: real, r: RunState, log0: seq<Entry>)
    returns (stop: Option<Stop>, log: seq<Entry>)
    requires Watched(env, limits, started, log0) && log0 != [] && log0[|log0| - 1].Called? && Books(r, log0)
    ensures LogOk(env, limits, started, log) && SameBusiness(log0, log) && StepsDone(log) == StepsDone(log0)
    ensures Books(r, log)
    ensures stop.None? ==> Watched(env, limits, started, log) && CallDone(log)
    ensures stop.None? ==> r.bytes <= limits.maxTotalToolOutputBytes
    ensures stop.Some? ==> Justified(stop.value, env, limits, r, log) && !stop.value.Finished?
  {
    hide Watched, LogOk, Prompts, Asked, StepsDone, Calls, Results, Books, TotalBytes, RefusedLast, LastReply,
      CallMayStart, PreflightCancel, PreflightDone, ReplyChecked, LoopTop, TopChecked, EndsInPrompt, ClockThenCancel;
    log := Publish(env, limits, started, log0, ToolCompleted);
    BooksCarry(r, log0, log);
    if r.bytes > limits.maxTotalToolOutputBytes {
      LogOfWatched(env, limits, started, log);
      return Some(OutputLimit), log;
    }
    ghost var log1 := log;
    BytesOfBooks(r, log);
    log, stop := CheckCancel(env, limits, started, log);
    BooksCarry(r, log1, log);
  }

  // One call of a batch, with everything done about its result.
  method ExecuteOne(env: Environment, limits: AgentLimits, started: real, call: ToolCall,
                    status: AgentRunStatus, r0: RunState, log0: seq<Entry>)
    returns (stop: Option<Stop>, r: RunState, log: seq<Entry>)
    requires Watched(env, limits, started, log0) && CallMayStart(limits, log0) && Books(r0, log0)
    requires r0.bytes <= limits.maxTotalToolOutputBytes
    requires status.Valid() && CanRunTool(status.state) && Shown(status, r0)
    modifies status`state, status`path, status`toolCalls, status`failedToolCalls
    ensures status.Valid() && CanRunTool(status.state) && Shown(status, r)
    ensures LogOk(env, limits, started, log) && Prompts(log) == Prompts(log0) && Asked(log) == Asked(log0)
    ensures StepsDone(log) == StepsDone(log0)
    ensures Books(r, log) && BudgetKept(limits, Results(log))
    ensures r == r0 || (|r.results| == |r0.results| + 1 && r == AfterCall(r0, call, r.results[|r0.results|]))
    ensures Calls(log) in {Calls(log0), Calls(log0) + [call]}
    ensures stop.None? ==> Watched(env, limits, started, log) && r != r0 && Calls(log) == Calls(log0) + [call]
    ensures stop.None? ==> r.bytes <= limits.maxTotalToolOutputBytes && CallDone(log)
    ensures stop.Some? ==> Justified(stop.value, env, limits, r, log) && !stop.value.Finished?
  {
    hide Watched, LogOk, Prompts, Asked, StepsDone, Calls, Results, BudgetKept, Books, LegalPath, TotalBytes, Failures,
      RefusedLast, LastReply, CallMayStart, CallDone, OutputBytes, RenderResult, EndsIn;
    var answer;
    r := r0;
    BudgetFromBooks(limits, r0, log0, Refused(""));
    stop, answer, log := CallTool(env, limits, started, call, status, log0);
    if stop.Some? {
      BooksCarry(r0, log0, log);
      return;
    }
    BudgetFromBooks(limits, r0, log0, answer);
    BooksAfterCall(r0, log0, log, call, ToResult(answer));
    r := AfterCall(r0, call, ToResult(answer));
    status.toolCalls := r.total;
    status.failedToolCalls := r.failed;
    stop, log := AfterTool(env, limits, started, r, log);
  }

  lemma BytesOfBooks(r: RunState, log: seq<Entry>)
    requires Books(r, log)
    ensures r.bytes == TotalBytes(Results(log))
  {
  }

  lemma BooksCarry(r: RunState, log: seq<Entry>, next: seq<Entry>)
    requires Books(r, log) && Results(next) == Results(log)
    ensures Books(r, next)
  {
  }

  lemma BudgetFromBooks(limits: AgentLimits, r: RunState, log: seq<Entry>, answer: ToolReply)
    requires Books(r, log) && r.bytes <= limits.maxTotalToolOutputBytes
    ensures BudgetKept(limits, Results(log))
    ensures !answer.Crashed? ==> BudgetKept(limits, Results(log) + [ToResult(answer)])
  {
  }

  // --- one batch

  // What the conversation looks like with the first results of the turn in it.
  ghost predicate OpenTurn(initial: seq<Message>, response: Response, r: RunState) {
    && AllAnswered(r.steps) && |r.results| <= |response.calls|
    && r.messages == initial + Transcript(r.steps)
         + ([Assistant(response.content, response.calls)] + Answers(response.calls, r.results))
  }

  lemma TurnContinues(initial: seq<Message>, response: Response, r: RunState, i: nat, result: CallResult)
    requires OpenTurn(initial, response, r) && i == |r.results| < |response.calls|
    ensures OpenTurn(initial, response, AfterCall(r, Numbered(response.calls)[i], result))
  {
    hide Transcript, AllAnswered, RenderResult, EffectiveId;
    var next := AfterCall(r, Numbered(response.calls)[i], result);
    var head, before := [Assistant(response.content, response.calls)], Answers(response.calls, r.results);
    var added := ToolMessage(EffectiveId(response.calls[i], i + 1), RenderResult(result));
    assert Answers(response.calls, next.results) == before + [added];
    assert initial + Transcript(r.steps) + (head + before) + [added]
        == initial + Transcript(r.steps) + (head + (before + [added]));
  }

  method ExecuteBatch(env: Environment, limits: AgentLimits, started: real, initial: seq<Message>,
                      response: Response, calls: seq<ToolCall>, status: AgentRunStatus,
                      r0: RunState, log0: seq<Entry>)
    returns (stop: Option<Stop>, r: RunState, log: seq<Entry>)
    requires calls == Numbered(response.calls) && calls != [] && CallMayStart(limits, log0)
    requires Requested(Asked(log0)) == Calls(log0) + calls
    requires Watched(env, limits, started, log0) && Books(r0, log0) && r0.bytes <= limits.maxTotalToolOutputBytes
    requires OpenTurn(initial, response, r0) && r0.results == []
    requires status.Valid() && CanRunTool(status.state) && Shown(status, r0)
    modifies status`state, status`path, status`toolCalls, status`failedToolCalls
    ensures status.Valid() && CanRunTool(status.state) && Shown(status, r)
    ensures LogOk(env, limits, started, log) && Prompts(log) == Prompts(log0) && Asked(log) == Asked(log0)
    ensures StepsDone(log) == StepsDone(log0)
    ensures Books(r, log) && BudgetKept(limits, Results(log)) && OpenTurn(initial, response, r) && r.steps == r0.steps
    ensures r.total == r0.total + |r.results| && |r.results| <= |calls|
    ensures Calls(log0) <= Calls(log) <= Calls(log0) + calls
    ensures stop.None? ==> Watched(env, limits, started, log) && Calls(log) == Calls(log0) + calls
    ensures stop.None? ==> |r.results| == |calls| && r.bytes <= limits.maxTotalToolOutputBytes
    ensures stop.None? ==> CallDone(log) && !MoreCalls(log)
    ensures stop.Some? ==> Justified(stop.value, env, limits, r, log) && !stop.value.Finished?
  {
    hide *;
    LogOfWatched(env, limits, started, log0);
    BudgetFromBooks(limits, r0, log0, Crashed(SageFailure));
    stop, r, log := None, r0, log0;
    var i := 0;
    assert Calls(log0) == Calls(log0) + calls[..0];
    while i < |calls|
      invariant i <= |calls| && |r.results| == i && stop.None?
      invariant if i < |calls| then CallMayStart(limits, log) else !MoreCalls(log)
      invariant i > 0 ==> CallDone(log)
      invariant status.Valid() && CanRunTool(status.state) && Shown(status, r)
      invariant LogOk(env, limits, started, log) && Watched(env, limits, started, log)
      invariant Prompts(log) == Prompts(log0) && Asked(log) == Asked(log0) && Books(r, log)
      invariant StepsDone(log) == StepsDone(log0)
      invariant Calls(log) == Calls(log0) + calls[..i]
      invariant BudgetKept(limits, Results(log)) && r.bytes <= limits.maxTotalToolOutputBytes
      invariant OpenTurn(initial, response, r) && r.steps == r0.steps && r.total == r0.total + i
    {
      ghost var r1, log1 := r, log;
      stop, r, log := ExecuteOne(env, limits, started, calls[i], status, r, log);
      assert Calls(log1) + [calls[i]] == Calls(log0) + calls[..i + 1];
      PrefixesOfBatch(Calls(log0), calls, i);
      if stop.None? {
        CallsLeft(limits, log, Calls(log0), calls, i + 1);
      }
      if r != r1 {
        TurnContinues(initial, response, r1, i, r.results[i]);
        AfterCallCounts(r1, calls[i], r.results[i]);
      }
      if stop.Some? {
        return;
      }
      i := i + 1;
    }
    assert calls[..|calls|] == calls;
  }

  // After i calls of the batch.
  lemma CallsLeft(limits: AgentLimits, log: seq<Entry>, before: seq<ToolCall>, calls: seq<ToolCall>, i: nat)
    requires CallDone(log) && i <= |calls|
    requires Calls(log) == before + calls[..i] && Requested(Asked(log)) == before + calls
    ensures if i < |calls| then CallMayStart(limits, log) else !MoreCalls(log)
  {
    hide Calls, Requested, Asked;
  }

  lemma PrefixesOfBatch(before: seq<ToolCall>, calls: seq<ToolCall>, i: nat)
    requires i < |calls|
    ensures before <= before + calls[..i] <= before + calls && before <= before + calls[..i + 1] <= before + calls
  {
  }

  lemma AfterCallCounts(r: RunState, call: ToolCall, result: CallResult)
    ensures AfterCall(r, call, result).total == r.total + 1 && AfterCall(r, call, result).steps == r.steps
    ensures |AfterCall(r, call, result).results| == |r.results| + 1
  {
  }

  // --- one turn

  // The clock, then the cancellation.
  method BothChecks(env: Environment, limits: AgentLimits, started: real, log0: seq<Entry>)
    returns (stop: Option<Stop>, log: seq<Entry>)
    requires Watched(env, limits, started, log0) && (LoopTop(log0) || EndsInPrompt(log0))
    ensures LogOk(env, limits, started, log) && SameBusiness(log0, log) && StepsDone(log) == StepsDone(log0)
    ensures stop.None? ==> Watched(env, limits, started, log) && log == log0 + [ClockRead(false), CancelRead(false)]
    ensures stop.Some? ==> LastShows(stop.value, log) && (stop.value == ClockExpired || stop.value == CancelSeen)
  {
    hide Watched, LogOk, Prompts, Asked, StepsDone, Calls, Results, TotalBytes, LoopTop, EndsInPrompt;
    log, stop := CheckClock(env, limits, started, log0);
    if stop.Some? {
      return;
    }
    assert log[..|log| - 1] == log0;
    log, stop := CheckCancel(env, limits, started, log);
    assert stop.None? ==> log[..|log| - 2] == log0;
  }

  // The checks, the provider call, and the checks after it.
  method AskProvider(env: Environment, limits: AgentLimits, started: real, r: RunState,
                     status: AgentRunStatus, log0: seq<Entry>)
    returns (stop: Option<Stop>, reply: Response, log: seq<Entry>)
    requires Watched(env, limits, started, log0) && LoopTop(log0)
    requires |Prompts(log0)| == |r.steps| <= limits.maxSteps
    requires status.Valid() && (status.state == Running || status.state == ProcessingResult)
    modifies status`state, status`path
    ensures status.Valid() && (status.state == Running || status.state == ProcessingResult)
    ensures LogOk(env, limits, started, log) && Calls(log) == Calls(log0) && Results(log) == Results(log0)
    ensures StepsDone(log) == StepsDone(log0)
    ensures Prompts(log) in {Prompts(log0), Prompts(log0) + [r.messages]}
    ensures Asked(log) in {Asked(log0), Asked(log0) + [reply]}
    ensures stop.None? ==> Watched(env, limits, started, log) && status.state == Running && |r.steps| < limits.maxSteps
    ensures stop.None? ==> Prompts(log) == Prompts(log0) + [r.messages] && Asked(log) == Asked(log0) + [reply]
    ensures stop.None? ==> LastReply(log, |log| - 3) && log[|log| - 3].reply == Returned(reply)
    ensures stop.Some? ==> Justified(stop.value, env, limits, r, log) && !stop.value.Finished?
  {
    hide Watched, LogOk, Prompts, Asked, StepsDone, Calls, Results, LegalPath, RefusedLast, LoopTop;
    reply := Response("", false, []);
    stop, log := BothChecks(env, limits, started, log0);
    if stop.Some? {
      return;
    }
    if |r.steps| >= limits.maxSteps {
      return Some(StepLimit), reply, log;
    }
    var ok := status.Transition(Running);
    assert ok;
    assert log[..|log| - 2] == log0 && TopChecked(log);
    log := Publish(env, limits, started, log, StepStarted);
    var answer := env.generate(|log|);
    Note(env, limits, started, log, Prompted(r.messages, answer));
    log := log + [Prompted(r.messages, answer)];
    if answer.Raised? {
      assert Asked(log) == Asked(log0) + [] == Asked(log0);
      return Some(ProviderRaised(answer.failure)), reply, log;
    }
    reply := answer.value;
    stop, log := BothChecks(env, limits, started, log);
  }

  /** Between turns: the run is within its limits and everything is accounted for. */
  ghost predicate AtTop(env: Environment, limits: AgentLimits, started: real, initial: seq<Message>,
                        r: RunState, log: seq<Entry>) {
    && Watched(env, limits, started, log) && Books(r, log) && r.results == []
    && AllAnswered(r.steps) && r.messages == initial + Transcript(r.steps)
    && PromptsMatch(initial, r.steps, Prompts(log)) && |Prompts(log)| == |r.steps|
    && AsAsked(r.steps, Asked(log), Calls(log)) && |Asked(log)| == |r.steps|
    && Bounded(limits, r, log) && r.bytes <= limits.maxTotalToolOutputBytes && r.total == |Calls(log)|
  }

  // The limits a run keeps to the end.
  ghost predicate Bounded(limits: AgentLimits, r: RunState, log: seq<Entry>) {
    && |r.steps| <= limits.maxSteps && r.total <= limits.maxToolCalls && |Calls(log)| <= limits.maxToolCalls
    && LoopFree(Signatures(Calls(log)), limits.loopDetectionThreshold)
    && (forall k :: 0 <= k < |r.steps| ==> r.steps[k].sequence == k + 1)
    && BudgetKept(limits, Results(log))
  }

  // The steps that are turns with tool calls: all but a final answer.
  function Turns(finished: bool, steps: seq<StepRecord>): seq<StepRecord> {
    if finished && steps != [] then steps[..|steps| - 1] else steps
  }

  /** What holds when the loop has stopped. */
  ghost predicate Ended(env: Environment, limits: AgentLimits, started: real, initial: seq<Message>,
                        stop: Stop, r: RunState, log: seq<Entry>) {
    && LogOk(env, limits, started, log) && Books(r, log) && Bounded(limits, r, log)
    && PromptsMatch(initial, Turns(stop.Finished?, r.steps), Prompts(log))
    && Justified(stop, env, limits, r, log) && |r.steps| <= |Prompts(log)|
    && AsAsked(r.steps, Asked(log), Calls(log)) && StepsDone(log) == |r.steps|
    && (stop.Finished? ==> FinalStep(r, log))
  }

  // The last step records the provider's last answer, which asked for no tools.
  ghost predicate FinalStep(r: RunState, log: seq<Entry>) {
    && r.steps != [] && LastReply(log, |log| - 4) && r.results == []
    && r.steps[|r.steps| - 1] == StepRecord(|r.steps|, log[|log| - 4].reply.value, [])
  }

  lemma PromptAdded(initial: seq<Message>, r: RunState, prompts: seq<seq<Message>>, next: seq<seq<Message>>)
    requires AllAnswered(r.steps) && r.messages == initial + Transcript(r.steps)
    requires PromptsMatch(initial, r.steps, prompts) && |prompts| == |r.steps|
    requires next == prompts || next == prompts + [r.messages]
    ensures PromptsMatch(initial, r.steps, next)
  {
    assert r.steps[..|r.steps|] == r.steps;
  }

  lemma PromptsStillMatch(initial: seq<Message>, steps: seq<StepRecord>, step: StepRecord, prompts: seq<seq<Message>>)
    requires PromptsMatch(initial, steps, prompts) && Answered(step)
    ensures PromptsMatch(initial, steps + [step], prompts)
  {
    var longer := steps + [step];
    forall k | 0 <= k < |prompts| ensures AllAnswered(longer) && prompts[k] == initial + Transcript(longer[..k]) {
      assert longer[..k] == steps[..k];
    }
  }

  // The loop stops before the provider has answered.
  lemma EndedBeforeAnswer(env: Environment, limits: AgentLimits, started: real, initial: seq<Message>,
                          reply: Response, stop: Stop, r: RunState, log0: seq<Entry>, log: seq<Entry>)
    requires AtTop(env, limits, started, initial, r, log0)
    requires LogOk(env, limits, started, log) && Calls(log) == Calls(log0) && Results(log) == Results(log0)
    requires Prompts(log) in {Prompts(log0), Prompts(log0) + [r.messages]}
    requires Asked(log) in {Asked(log0), Asked(log0) + [reply]}
    requires Justified(stop, env, limits, r, log) && !stop.Finished?
    requires StepsDone(log) == |r.steps|
    ensures Ended(env, limits, started, initial, stop, r, log)
  {
    hide Watched, LogOk, Prompts, Asked, StepsDone, Calls, Results, Transcript, AllAnswered, PromptsMatch, Justified,
      LoopFree, Signatures, BudgetKept, StepResults, Failures, TotalBytes;
    PromptAdded(initial, r, Prompts(log0), Prompts(log));
    AnswerAsked(r.steps, Asked(log0), Calls(log0), reply);
  }

  // The last answer is not recorded yet, and nothing it asked for has been called.
  ghost predicate Asking(steps: seq<StepRecord>, asked: seq<Response>, calls: seq<ToolCall>, response: Response) {
    && |asked| == |steps| + 1 && asked == asked[..|steps|] + [response]
    && AsAsked(steps, asked, calls) && Requested(asked[..|steps|]) == calls
  }

  // The state after AskProvider succeeded.
  ghost predicate Answering(env: Environment, limits: AgentLimits, started: real, initial: seq<Message>,
                            response: Response, r: RunState, log: seq<Entry>) {
    && Watched(env, limits, started, log) && Books(r, log) && r.results == []
    && AllAnswered(r.steps) && r.messages == initial + Transcript(r.steps)
    && PromptsMatch(initial, r.steps, Prompts(log))
    && Bounded(limits, r, log) && r.bytes <= limits.maxTotalToolOutputBytes && r.total == |Calls(log)|
    && |r.steps| < limits.maxSteps && |Prompts(log)| == |r.steps| + 1
    && Asking(r.steps, Asked(log), Calls(log), response)
    && LastReply(log, |log| - 3) && log[|log| - 3].reply == Returned(response)
  }

  lemma NowAnswering(env: Environment, limits: AgentLimits, started: real, initial: seq<Message>,
                     response: Response, r: RunState, log0: seq<Entry>, log: seq<Entry>)
    requires AtTop(env, limits, started, initial, r, log0)
    requires Watched(env, limits, started, log) && Calls(log) == Calls(log0) && Results(log) == Results(log0)
    requires Prompts(log) == Prompts(log0) + [r.messages] && |r.steps| < limits.maxSteps
    requires Asked(log) == Asked(log0) + [response]
    requires LastReply(log, |log| - 3) && log[|log| - 3].reply == Returned(response)
    ensures Answering(env, limits, started, initial, response, r, log)
  {
    PromptAdded(initial, r, Prompts(log0), Prompts(log));
    AnswerAsked(r.steps, Asked(log0), Calls(log0), response);
    assert Asked(log)[..|r.steps|] == Asked(log0);
  }

  // The guard refuses the batch: nothing of it has been called.
  lemma EndedAtGuard(env: Environment, limits: AgentLimits, started: real, initial: seq<Message>,
                     response: Response, stop: Stop, r: RunState, log: seq<Entry>)
    requires Answering(env, limits, started, initial, response, r, log)
    requires BatchRefused(limits, r.total, Signatures(Calls(log)), response.calls, stop)
    requires StepsDone(log) == |r.steps|
    ensures Ended(env, limits, started, initial, stop, r, log)
  {
  }

  lemma SignaturesOfMore(before: seq<ToolCall>, calls: seq<RequestedCall>)
    ensures Signatures(before + Numbered(calls)) == Signatures(before) + RequestSignatures(calls)
  {
  }

  lemma LoopFreeSoFar(limits: AgentLimits, some: seq<ToolCall>, all: seq<ToolCall>)
    requires limits.Valid() && some <= all && LoopFree(Signatures(all), limits.loopDetectionThreshold)
    ensures LoopFree(Signatures(some), limits.loopDetectionThreshold)
  {
    assert Signatures(all) == Signatures(some) + Signatures(all[|some|..]);
    LoopFreePrefix(Signatures(some), Signatures(all[|some|..]), limits.loopDetectionThreshold);
  }

  // What a batch keeps, whether or not it was completed.
  lemma BatchBounded(limits: AgentLimits, response: Response, r0: RunState, log0: seq<Entry>,
                     r: RunState, log: seq<Entry>)
    requires limits.Valid() && Bounded(limits, r0, log0) && r0.total == |Calls(log0)|
    requires BatchAllowed(limits, r0.total, Signatures(Calls(log0)), response.calls)
    requires Calls(log) <= Calls(log0) + Numbered(response.calls)
    requires r.steps == r0.steps && r.total <= r0.total + |response.calls| && BudgetKept(limits, Results(log))
    ensures Bounded(limits, r, log)
  {
    SignaturesOfMore(Calls(log0), response.calls);
    assert response.calls[..|response.calls|] == response.calls;
    LoopFreeSoFar(limits, Calls(log), Calls(log0) + Numbered(response.calls));
  }

  lemma EndedInBatch(env: Environment, limits: AgentLimits, started: real, initial: seq<Message>, response: Response,
                     stop: Stop, r0: RunState, log0: seq<Entry>, r: RunState, log: seq<Entry>)
    requires Answering(env, limits, started, initial, response, r0, log0)
    requires Bounded(limits, r, log) && LogOk(env, limits, started, log) && Books(r, log) && r.steps == r0.steps
    requires Prompts(log) == Prompts(log0) && Justified(stop, env, limits, r, log) && !stop.Finished?
    requires Asked(log) == Asked(log0) && Calls(log0) <= Calls(log) <= Calls(log0) + Numbered(response.calls)
    requires StepsDone(log) == |r.steps|
    ensures Ended(env, limits, started, initial, stop, r, log)
  {
    hide LogOk, Watched, Prompts, Asked, StepsDone, Calls, Results, Requested, AsAsked, Books, Bounded, Justified;
    SomeCallsAsked(r.steps, Asked(log)[..|r.steps|], Calls(log0), Calls(log), response);
  }

  // Appending the completed turn to the steps.
  function CloseTurn(r: RunState, response: Response): RunState {
    r.(steps := r.steps + [StepRecord(|r.steps| + 1, response, r.results)], results := [])
  }

  lemma TurnClosed(env: Environment, limits: AgentLimits, started: real, initial: seq<Message>, response: Response,
                   r0: RunState, log0: seq<Entry>, r: RunState, log: seq<Entry>)
    requires Answering(env, limits, started, initial, response, r0, log0) && response.calls != []
    requires Watched(env, limits, started, log) && Books(r, log) && Bounded(limits, r, log)
    requires OpenTurn(initial, response, r) && r.steps == r0.steps && |r.results| == |response.calls|
    requires Prompts(log) == Prompts(log0) && r.bytes <= limits.maxTotalToolOutputBytes && r.total == |Calls(log)|
    requires Asked(log) == Asked(log0) && Calls(log) == Calls(log0) + Numbered(response.calls)
    ensures AtTop(env, limits, started, initial, CloseTurn(r, response), log)
  {
    hide Watched, LoopFree, BudgetKept, Results, Prompts, Asked, StepsDone, Calls, TotalBytes, Failures, LastReply,
      Books, OpenTurn, Transcript, AllAnswered, PromptsMatch, Signatures, AsAsked, Asking, Requested, Numbered;
    var step := StepRecord(|r.steps| + 1, response, r.results);
    PromptsStillMatch(initial, r.steps, step, Prompts(log));
    BooksClosed(r, response, log);
    MessagesClosed(initial, r, response);
    TurnAsAsked(r.steps, Asked(log), Calls(log0), Calls(log), step);
  }

  lemma TurnAsAsked(steps: seq<StepRecord>, asked: seq<Response>, before: seq<ToolCall>, calls: seq<ToolCall>,
                    step: StepRecord)
    requires Asking(steps, asked, before, step.response) && calls == before + Numbered(step.response.calls)
    ensures AsAsked(steps + [step], asked, calls) && |asked| == |steps| + 1
  {
    hide AsAsked, Requested, Numbered;
    SomeCallsAsked(steps, asked[..|steps|], before, calls, step.response);
    StepAsAsked(steps, asked[..|steps|], calls, step);
  }

  lemma BooksClosed(r: RunState, response: Response, log: seq<Entry>)
    requires Books(r, log)
    ensures Books(CloseTurn(r, response), log)
  {
  }

  lemma MessagesClosed(initial: seq<Message>, r: RunState, response: Response)
    requires OpenTurn(initial, response, r) && response.calls != [] && |r.results| == |response.calls|
    ensures AllAnswered(CloseTurn(r, response).steps)
    ensures CloseTurn(r, response).messages == initial + Transcript(CloseTurn(r, response).steps)
  {
    hide Transcript, Answers, AllAnswered, RenderResult, EffectiveId;
    var step := StepRecord(|r.steps| + 1, response, r.results);
    TranscriptGrows(r.steps, step);
    Associative(initial, Transcript(r.steps), Turn(step));
  }

  lemma Associative(a: seq<Message>, b: seq<Message>, c: seq<Message>)
    ensures (a + b) + c == a + (b + c)
  {
  }

  lemma AnswerClosed(env: Environment, limits: AgentLimits, started: real, initial: seq<Message>, response: Response,
                     r: RunState, log0: seq<Entry>, log: seq<Entry>)
    requires Answering(env, limits, started, initial, response, r, log0) && response.calls == []
    requires log == log0 + [Published(StepCompleted)] && LogOk(env, limits, started, log) && SameBusiness(log0, log)
    requires StepsDone(log) == |r.steps| + 1
    ensures Ended(env, limits, started, initial, Finished, CloseTurn(r, response), log)
  {
    hide Watched, LogOk, LoopFree, BudgetKept, Results, Prompts, Calls, TotalBytes, Failures, Books, Signatures,
      PromptsMatch, Transcript;
    var next := CloseTurn(r, response);
    assert next.steps[..|next.steps| - 1] == r.steps;
    assert log[|log| - 4] == log0[|log0| - 3];
    BooksCarry(r, log0, log);
    BooksClosed(r, response, log);
    assert Calls(log0) == Calls(log0) + Numbered([]);
    TurnAsAsked(r.steps, Asked(log), Calls(log0), Calls(log), next.steps[|r.steps|]);
  }

  // A state in which the run is under way.
  predicate Active(s: AgentState) {
    s in {Running, WaitingForApproval, ExecutingTool, ProcessingResult}
  }

  ghost predicate StatusOk(status: AgentRunStatus, r: RunState)
    reads status
  {
    status.Valid() && Shown(status, r) && status.steps == |r.steps|
  }

  ghost predicate DetectorOk(detector: LoopDetector, limits: AgentLimits, log: seq<Entry>)
    reads detector
  {
    detector.Valid() && detector.threshold == limits.loopDetectionThreshold
    && detector.recorded == Signatures(Calls(log))
  }

  // The batch of a response that asked for tools, and the turn's step.
  method RunTools(env: Environment, limits: AgentLimits, started: real, initial: seq<Message>, response: Response,
                  detector: LoopDetector, status: AgentRunStatus, r0: RunState, log0: seq<Entry>)
    returns (stop: Option<Stop>, r: RunState, log: seq<Entry>)
    requires limits.Valid() && Answering(env, limits, started, initial, response, r0, log0) && response.calls != []
    requires DetectorOk(detector, limits, log0) && StatusOk(status, r0) && status.state == Running
    requires StepsDone(log0) == |r0.steps|
    modifies detector, status
    ensures StatusOk(status, r) && Active(status.state)
    ensures stop.None? ==> AtTop(env, limits, started, initial, r, log) && DetectorOk(detector, limits, log)
    ensures stop.None? ==> |r.steps| == |r0.steps| + 1 && status.state == ProcessingResult && LoopTop(log)
    ensures stop.None? ==> StepsDone(log) == |r.steps|
    ensures stop.Some? ==> Ended(env, limits, started, initial, stop.value, r, log) && !stop.value.Finished?
  {
    hide Watched, LogOk, Books, Bounded, Answering, AtTop, Ended, LegalPath, Prompts, Asked, StepsDone, Calls,
      Results, LoopFree, PromptsMatch, BudgetKept, BatchAllowed, BatchRefused, OpenTurn, IsStreak, Justified,
      Signatures, Numbered, RequestSignatures, Transcript, Answers, AllAnswered, LastReply, RefusedLast, FinalStep,
      StepResults;
    GuardReady(limits, r0, log0, env, started, initial, response);
    var guarded := GuardCalls(response.calls, limits, r0.total, detector);
    if guarded.Err? {
      EndedAtGuard(env, limits, started, initial, response, guarded.error, r0, log0);
      NotFinished(limits, r0, log0, response, guarded.error);
      return Some(guarded.error), r0, log0;
    }
    var begun := r0.(messages := r0.messages + [Assistant(response.content, response.calls)]);
    TurnOpened(env, limits, started, initial, response, r0, log0);
    BatchMayStart(env, limits, started, initial, response, r0, log0);
    var r1, log1;
    stop, r1, log1 := ExecuteBatch(env, limits, started, initial, response, guarded.value, status, begun, log0);
    BatchBounded(limits, response, r0, log0, r1, log1);
    if stop.Some? {
      EndedInBatch(env, limits, started, initial, response, stop.value, r0, log0, r1, log1);
      return stop, r1, log1;
    }
    BatchComplete(r0, log0, r1, log1, response);
    SignaturesOfMore(Calls(log0), response.calls);
    TurnClosed(env, limits, started, initial, response, r0, log0, r1, log1);
    r, log := FinishTurn(env, limits, started, initial, response, status, r1, log1);
  }

  // Recording the completed turn.
  method FinishTurn(env: Environment, limits: AgentLimits, started: real, initial: seq<Message>, response: Response,
                    status: AgentRunStatus, r1: RunState, log1: seq<Entry>)
    returns (r: RunState, log: seq<Entry>)
    requires AtTop(env, limits, started, initial, CloseTurn(r1, response), log1) && CallDone(log1) && !MoreCalls(log1)
    requires status.Valid() && CanRunTool(status.state) && Shown(status, r1)
    requires StepsDone(log1) == |r1.steps|
    modifies status
    ensures r == CloseTurn(r1, response) && AtTop(env, limits, started, initial, r, log) && LoopTop(log)
    ensures StepsDone(log) == |r.steps|
    ensures Calls(log) == Calls(log1) && StatusOk(status, r) && status.state == ProcessingResult
  {
    hide Watched, LogOk, Books, Bounded, Answering, AtTop, Ended, LegalPath, Prompts, Asked, StepsDone, Calls,
      Results, LoopFree, PromptsMatch, BudgetKept, BatchAllowed, BatchRefused, OpenTurn, IsStreak, Justified,
      Signatures, Numbered, RequestSignatures, Transcript, Answers, AllAnswered, LastReply, RefusedLast, FinalStep,
      StepResults;
    TopFacts(env, limits, started, initial, CloseTurn(r1, response), log1);
    var ok := status.Transition(ProcessingResult);
    assert ok;
    r := CloseTurn(r1, response);
    status.steps := |r.steps|;
    log := Publish(env, limits, started, log1, StepCompleted);
    assert log[..|log| - 1] == log1;
    StillAtTop(env, limits, started, initial, r, log1, log);
  }

  lemma GuardReady(limits: AgentLimits, r: RunState, log: seq<Entry>, env: Environment, started: real,
                   initial: seq<Message>, response: Response)
    requires Answering(env, limits, started, initial, response, r, log)
    ensures LoopFree(Signatures(Calls(log)), limits.loopDetectionThreshold)
    ensures r.total == |Calls(log)| && Bounded(limits, r, log) && r.bytes <= limits.maxTotalToolOutputBytes
    ensures Watched(env, limits, started, log) && Books(r, log) && r.results == []
    ensures LogOk(env, limits, started, log) && ReplyChecked(log, response.calls != [])
  {
  }

  lemma BatchMayStart(env: Environment, limits: AgentLimits, started: real, initial: seq<Message>, response: Response,
                      r: RunState, log: seq<Entry>)
    requires Answering(env, limits, started, initial, response, r, log) && response.calls != []
    requires BatchAllowed(limits, r.total, Signatures(Calls(log)), response.calls)
    ensures CallMayStart(limits, log) && Requested(Asked(log)) == Calls(log) + Numbered(response.calls)
  {
    hide Watched, LogOk, PromptsMatch, Bounded, Transcript, BatchAllowed, Signatures, Calls, Results, Prompts, Asked,
      StepResults, Failures, TotalBytes, AllAnswered, Requested, Numbered;
    RequestedNext(Asked(log)[..|r.steps|], response);
  }

  lemma NotFinished(limits: AgentLimits, r: RunState, log: seq<Entry>, response: Response, stop: Stop)
    requires BatchRefused(limits, r.total, Signatures(Calls(log)), response.calls, stop)
    ensures !stop.Finished?
  {
  }

  lemma TurnOpened(env: Environment, limits: AgentLimits, started: real, initial: seq<Message>, response: Response,
                   r: RunState, log: seq<Entry>)
    requires Answering(env, limits, started, initial, response, r, log)
    ensures
      var begun := r.(messages := r.messages + [Assistant(response.content, response.calls)]);
      OpenTurn(initial, response, begun) && Books(begun, log)
  {
  }

  lemma BatchComplete(r0: RunState, log0: seq<Entry>, r: RunState, log: seq<Entry>, response: Response)
    requires r0.total == |Calls(log0)| && r.total == r0.total + |response.calls|
    requires Calls(log) == Calls(log0) + Numbered(response.calls)
    ensures r.total == |Calls(log)|
  {
  }

  lemma StillAtTop(env: Environment, limits: AgentLimits, started: real, initial: seq<Message>, r: RunState,
                   log: seq<Entry>, next: seq<Entry>)
    requires AtTop(env, limits, started, initial, r, log)
    requires Watched(env, limits, started, next) && SameBusiness(log, next)
    ensures AtTop(env, limits, started, initial, r, next)
  {
  }

  // One pass through the loop body.
  method RunStep(env: Environment, limits: AgentLimits, started: real, initial: seq<Message>,
                 detector: LoopDetector, status: AgentRunStatus, r0: RunState, log0: seq<Entry>)
    returns (stop: Option<Stop>, r: RunState, log: seq<Entry>)
    requires limits.Valid() && AtTop(env, limits, started, initial, r0, log0)
    requires DetectorOk(detector, limits, log0) && StatusOk(status, r0) && LoopTop(log0)
    requires status.state == Running || status.state == ProcessingResult
    requires StepsDone(log0) == |r0.steps|
    modifies detector, status
    ensures StatusOk(status, r) && (stop.None? ==> LoopTop(log))
    ensures stop.None? ==> AtTop(env, limits, started, initial, r, log) && DetectorOk(detector, limits, log)
    ensures stop.None? ==> |r.steps| == |r0.steps| + 1 && status.state == ProcessingResult
    ensures stop.None? ==> StepsDone(log) == |r.steps|
    ensures stop.Some? ==> Ended(env, limits, started, initial, stop.value, r, log)
    ensures stop.Some? ==> if stop.value.Finished? then status.state == Completed else Active(status.state)
  {
    hide Watched, LogOk, Books, Bounded, Answering, AtTop, Ended, LegalPath, Prompts, Asked, StepsDone, Calls,
      Results, LoopFree, PromptsMatch, BudgetKept, BatchAllowed, BatchRefused, OpenTurn, IsStreak, Justified,
      Signatures, Numbered, RequestSignatures, Transcript, Answers, AllAnswered, LastReply, RefusedLast, FinalStep,
      StepResults;
    TopFacts(env, limits, started, initial, r0, log0);
    var response;
    stop, response, log := AskProvider(env, limits, started, r0, status, log0);
    if stop.Some? {
      EndedBeforeAnswer(env, limits, started, initial, response, stop.value, r0, log0, log);
      return stop, r0, log;
    }
    NowAnswering(env, limits, started, initial, response, r0, log0, log);
    if response.calls != [] {
      stop, r, log := RunTools(env, limits, started, initial, response, detector, status, r0, log);
      return;
    }
    GuardReady(limits, r0, log, env, started, initial, response);
    r := CloseTurn(r0, response);
    status.steps := |r.steps|;
    var ok := status.Transition(Completed);
    assert ok;
    ghost var log1 := log;
    log := Publish(env, limits, started, log, StepCompleted);
    LogOfWatched(env, limits, started, log);
    AnswerClosed(env, limits, started, initial, response, r0, log1, log);
    stop := Some(Finished);
  }

  lemma TopFacts(env: Environment, limits: AgentLimits, started: real, initial: seq<Message>, r: RunState,
                 log: seq<Entry>)
    requires AtTop(env, limits, started, initial, r, log)
    ensures Watched(env, limits, started, log) && |Prompts(log)| == |r.steps| <= limits.maxSteps
  {
  }

  method RunLoop(env: Environment, limits: AgentLimits, started: real, initial: seq<Message>,
                 detector: LoopDetector, status: AgentRunStatus, r0: RunState, log0: seq<Entry>)
    returns (stop: Stop, r: RunState, log: seq<Entry>)
    requires limits.Valid() && AtTop(env, limits, started, initial, r0, log0)
    requires DetectorOk(detector, limits, log0) && StatusOk(status, r0) && status.state == Running && LoopTop(log0)
    requires StepsDone(log0) == |r0.steps|
    modifies detector, status
    ensures StatusOk(status, r) && Ended(env, limits, started, initial, stop, r, log)
    ensures if stop.Finished? then status.state == Completed else Active(status.state)
  {
    hide *;
    r, log := r0, log0;
    while true
      invariant AtTop(env, limits, started, initial, r, log) && LoopTop(log)
      invariant StepsDone(log) == |r.steps|
      invariant DetectorOk(detector, limits, log) && StatusOk(status, r)
      invariant status.state == Running || status.state == ProcessingResult
      decreases limits.maxSteps - |r.steps|
    {
      TopFacts(env, limits, started, initial, r, log);
      var ended;
      ended, r, log := RunStep(env, limits, started, initial, detector, status, r, log);
      if ended.Some? {
        return ended.value, r, log;
      }
      TopFacts(env, limits, started, initial, r, log);
    }
  }

  // --- the whole run

  datatype AgentResult = AgentResult(
    state: AgentState,
    steps: seq<StepRecord>,
    toolCalls: nat,
    failedToolCalls: nat,
    toolOutputBytes: nat,
    finalText: Option<string>,
    reason: Option<string>)

  // Rejected is what the source raises before the loop is entered.
  datatype RunOutcome = Rejected | Done(result: AgentResult)

  // The counters of a result as a run state; abandoned holds the results of an unfinished turn.
  function StateOf(res: AgentResult, abandoned: seq<CallResult>): RunState {
    RunState([], res.steps, abandoned, res.toolCalls, res.failedToolCalls, res.toolOutputBytes)
  }

  lemma EndedWithoutMessages(env: Environment, limits: AgentLimits, started: real, initial: seq<Message>,
                             stop: Stop, r: RunState, log: seq<Entry>)
    requires Ended(env, limits, started, initial, stop, r, log)
    ensures Ended(env, limits, started, initial, stop, r.(messages := []), log)
  {
  }

  lemma FinishedHasStep(env: Environment, limits: AgentLimits, started: real, initial: seq<Message>,
                        stop: Stop, r: RunState, log: seq<Entry>)
    requires Ended(env, limits, started, initial, stop, r, log)
    ensures stop.Finished? ==> r.steps != []
  {
  }

  lemma FirstState(env: Environment, limits: AgentLimits, started: real, initial: seq<Message>, log: seq<Entry>)
    requires limits.Valid() && Watched(env, limits, started, log)
    requires Prompts(log) == [] && Asked(log) == [] && Calls(log) == [] && Results(log) == []
    ensures AtTop(env, limits, started, initial, RunState(initial, [], [], 0, 0, 0), log)
    ensures LogOk(env, limits, started, log)
  {
  }

  lemma EndedAtTop(env: Environment, limits: AgentLimits, started: real, initial: seq<Message>, stop: Stop,
                   r: RunState, log: seq<Entry>)
    requires AtTop(env, limits, started, initial, r, log) && Justified(stop, env, limits, r, log) && !stop.Finished?
    requires StepsDone(log) == |r.steps|
    ensures Ended(env, limits, started, initial, stop, r, log)
  {
  }

  // The log before the first event: the clock reading the run starts from is not an entry.
  lemma EmptyLog(env: Environment, limits: AgentLimits, started: real)
    ensures Watched(env, limits, started, [])
  {
  }

  /** The terminal state and reason of each stop. */
  function Verdict(stop: Stop): (AgentState, Option<string>) {
    if stop.Finished? then (Completed, None) else
      var (state, reason) := Handle(RaisedBy(stop));
      (state, Some(reason))
  }

  /** The state and the reason of a run's result, for each way to stop. */
  lemma EndingsTold(stop: Stop)
    ensures EndsAs(stop, Verdict(stop).0, Verdict(stop).1)
  {
    match stop
    case ToolsDown(_) =>
    case ProviderRaised(_) =>
    case ToolRaised(_) =>
    case _ =>
  }

  /** How a run ends; without tool definitions it never begins. */
  ghost predicate RunEnded(env: Environment, limits: AgentLimits, started: real, initial: seq<Message>,
                           stop: Stop, r: RunState, log: seq<Entry>) {
    Ended(env, limits, started, initial, stop, r, log) && (env.toolsUp.Raised? ==> stop.ToolsDown?)
  }

  // From the first event to the end of the loop.
  method RunStarted(env: Environment, limits: AgentLimits, started: real, initial: seq<Message>,
                    detector: LoopDetector, status: AgentRunStatus)
    returns (stop: Stop, r: RunState, log: seq<Entry>)
    requires limits.Valid() && detector.Valid() && detector.threshold == limits.loopDetectionThreshold
    requires detector.recorded == []
    requires status.Valid() && status.state == Running
    requires status.steps == 0 && status.toolCalls == 0 && status.failedToolCalls == 0
    modifies detector, status
    ensures StatusOk(status, r) && RunEnded(env, limits, started, initial, stop, r, log)
    ensures if stop.Finished? then status.state == Completed else Active(status.state)
    ensures stop.Finished? ==> r.steps != []
  {
    hide Watched, LogOk, Books, Bounded, AtTop, LegalPath, Prompts, Asked, StepsDone, Calls, Results, LoopFree,
      PromptsMatch, BudgetKept, IsStreak, Signatures, Transcript, LastReply, RefusedLast, Ended;
    EmptyLog(env, limits, started);
    log := Publish(env, limits, started, [], Started);
    EmptyBusiness();
    FirstState(env, limits, started, initial, log);
    r := RunState(initial, [], [], 0, 0, 0);
    if env.toolsUp.Raised? {
      stop := ToolsDown(env.toolsUp.failure);
      EndedAtTop(env, limits, started, initial, stop, r, log);
    } else {
      stop, r, log := RunLoop(env, limits, started, initial, detector, status, r, log);
    }
    FinishedHasStep(env, limits, started, initial, stop, r, log);
  }

  /** One whole run: for every environment it ends in one terminal state, after one terminal event. */
  method Run(env: Environment, limits: AgentLimits, initial: seq<Message>, status: AgentRunStatus, started: real)
    returns (outcome: RunOutcome, log: seq<Entry>, ghost stop: Stop, ghost abandoned: seq<CallResult>)
    requires status.Valid() && status.steps == 0 && status.toolCalls == 0 && status.failedToolCalls == 0
    modifies status
    ensures status.Valid()
    ensures outcome.Rejected? <==>
      !limits.Valid() || !(old(status.state) == Running || CanTransition(old(status.state), Running))
    ensures outcome.Rejected? ==> log == [] && status.state == old(status.state)
    ensures outcome.Done? ==> IsTerminal(outcome.result.state) && status.state == outcome.result.state
    ensures outcome.Done? ==> EndsAs(stop, outcome.result.state, outcome.result.reason)
    ensures outcome.Done? ==> (outcome.result.state, outcome.result.reason) == Verdict(stop)
    ensures outcome.Done? ==> log != [] && log[|log| - 1] == Published(Terminal(outcome.result.state))
    ensures outcome.Done? ==>
      RunEnded(env, limits, started, initial, stop, StateOf(outcome.result, abandoned), log[..|log| - 1])
    ensures outcome.Done? && stop.Finished? ==> outcome.result.steps != []
    ensures outcome.Done? && stop.Finished? ==>
      outcome.result.finalText == Some(FinalText(outcome.result.steps[|outcome.result.steps| - 1].response))
    ensures outcome.Done? && !stop.Finished? ==> outcome.result.finalText == None
    ensures outcome.Done? ==> status.steps == |outcome.result.steps| && status.toolCalls == outcome.result.toolCalls
    ensures outcome.Done? ==> status.failedToolCalls == outcome.result.failedToolCalls
    ensures outcome.Done? ==> status.reason == outcome.result.reason
  {
    hide Watched, LogOk, Books, Bounded, AtTop, LegalPath, Prompts, Asked, StepsDone, Calls, Results, LoopFree,
      PromptsMatch, BudgetKept, IsStreak, Signatures, Transcript, LastReply, RefusedLast, Ended, EndsAs;
    stop, abandoned, log := Finished, [], [];
    if !limits.Valid() {
      return Rejected, [], Finished, [];
    }
    var detector := new LoopDetector(limits.loopDetectionThreshold);
    var ok := status.Transition(Running);
    if !ok {
      return Rejected, [], Finished, [];
    }
    var s, r;
    s, r, log := RunStarted(env, limits, started, initial, detector, status);
    stop, abandoned := s, r.results;
    EndedWithoutMessages(env, limits, started, initial, s, r, log);
    var (state, reason) := Verdict(s);
    EndingsTold(s);
    if !s.Finished? {
      var legal := status.Transition(state);
      assert legal;
    }
    status.reason := reason;
    var text := if s.Finished? then Some(FinalText(r.steps[|r.steps| - 1].response)) else None;
    outcome := Done(AgentResult(state, r.steps, r.total, r.failed, r.bytes, text, reason));
    ghost var front := log;
    log := log + [Published(Terminal(state))];
    assert log[..|log| - 1] == front;
  }

  lemma EmptyBusiness()
    ensures Prompts([]) == [] && Asked([]) == [] && StepsDone([]) == 0
    ensures Calls([]) == [] && Results([]) == [] && Signatures([]) == []
  {
  }
}
