/** The bounded provider -> tool -> provider loop (agent/orchestrator.py). */
module AgentOrchestrator {
  import opened Wrappers
  import opened Transcripts
  import opened LoopDetection
  import opened AgentModels
  import opened AgentRuns

  // Why the loop ended: a final answer, or what was raised.
  datatype Stop =
    | Finished
    | ClockExpired
    | CancelSeen
    | ToolsDown(failure: Failure)
    | StepLimit
    | BatchTooLarge
    | CallLimit
    | EmptyToolId
    | LoopFound
    | OutputLimit
    | ProviderRaised(failure: Failure)
    | ToolRaised(failure: Failure)

  // The exception behind each stop.
  function RaisedBy(stop: Stop): Failure
    requires !stop.Finished?
  {
    match stop
    case ClockExpired => TimeoutError
    case CancelSeen => CancelledError
    case StepLimit => LimitError("max_steps")
    case BatchTooLarge => LimitError("single_tool_calls")
    case CallLimit => LimitError("max_tool_calls")
    case EmptyToolId => ValidationError
    case LoopFound => LimitError("loop_detection")
    case OutputLimit => LimitError("output_bytes")
    case ToolsDown(f) => f
    case ProviderRaised(f) => f
    case ToolRaised(f) => f
  }

  // The except clauses: terminal state and reason.
  function Handle(f: Failure): (AgentState, string) {
    match f
    case TimeoutError => (TimedOut, "wall_clock")
    case CancelledError => (Cancelled, "cancelled")
    case LimitError(kind) => (LimitReached, kind)
    case ValidationError => (Failed, "validation")
    case SageFailure => (Failed, "failure")
    case UnexpectedFailure => (Failed, "failure")
  }

  function FinalText(r: Response): string {
    if r.lengthLimited then r.content + "\n[generation length limit reached]" else r.content
  }

  /** The terminal state and the reason for each way to stop. */
  predicate EndsAs(stop: Stop, state: AgentState, reason: Option<string>) {
    match stop
    case Finished => state == Completed && reason == None
    case ClockExpired => state == TimedOut && reason == Some("wall_clock")
    case CancelSeen => state == Cancelled && reason == Some("cancelled")
    case StepLimit => state == LimitReached && reason == Some("max_steps")
    case BatchTooLarge => state == LimitReached && reason == Some("single_tool_calls")
    case CallLimit => state == LimitReached && reason == Some("max_tool_calls")
    case EmptyToolId => state == Failed && reason == Some("validation")
    case LoopFound => state == LimitReached && reason == Some("loop_detection")
    case OutputLimit => state == LimitReached && reason == Some("output_bytes")
    case ToolsDown(failure) => EndsAsRaised(failure, state, reason)
    case ProviderRaised(failure) => EndsAsRaised(failure, state, reason)
    case ToolRaised(failure) => EndsAsRaised(failure, state, reason)
  }

  // For an exception that came from outside.
  predicate EndsAsRaised(failure: Failure, state: AgentState, reason: Option<string>) {
    && (failure == TimeoutError ==> state == TimedOut && reason == Some("wall_clock"))
    && (failure == CancelledError ==> state == Cancelled && reason == Some("cancelled"))
    && (failure.LimitError? ==> state == LimitReached && reason == Some(failure.kind))
    && (failure == ValidationError ==> state == Failed && reason == Some("validation"))
    && (failure in {SageFailure, UnexpectedFailure} ==> state == Failed && reason == Some("failure"))
  }

  /** The text of a finished run: the last answer, marked when the provider cut it off. */
  lemma FinalTextTold(r: Response)
    ensures !r.lengthLimited ==> FinalText(r) == r.content
    ensures r.lengthLimited ==> FinalText(r) == r.content + "\n[generation length limit reached]"
  {
  }

  // --- guarding a batch of requested calls

  // The call at m names no tool, although everything before it is fine.
  ghost predicate UnnamedAt(limits: AgentLimits, recorded: seq<string>, calls: seq<RequestedCall>, m: nat) {
    m < |calls| && PrefixAllowed(limits, recorded, calls, m) && calls[m].name == ""
  }

  // The call at m closes a loop.
  ghost predicate LoopAt(limits: AgentLimits, recorded: seq<string>, calls: seq<RequestedCall>, m: nat) {
    && m < |calls| && PrefixAllowed(limits, recorded, calls, m) && calls[m].name != ""
    && !PrefixAllowed(limits, recorded, calls, m + 1)
  }

  // What is wrong with a batch that is refused.
  ghost predicate BatchRefused(limits: AgentLimits, total: nat, recorded: seq<string>, calls: seq<RequestedCall>,
                               stop: Stop) {
    match stop
    case BatchTooLarge => |calls| > limits.maxSingleToolCalls
    case CallLimit => |calls| <= limits.maxSingleToolCalls && total + |calls| > limits.maxToolCalls
    case EmptyToolId => WithinCounts(limits, total, calls) && exists m: nat :: UnnamedAt(limits, recorded, calls, m)
    case LoopFound => WithinCounts(limits, total, calls) && exists m: nat :: LoopAt(limits, recorded, calls, m)
    case _ => false
  }

  lemma NextSignature(calls: seq<RequestedCall>, m: nat)
    requires m < |calls|
    ensures RequestSignatures(calls[..m + 1])
         == RequestSignatures(calls[..m]) + [calls[m].name + ":" + calls[m].arguments]
  {
  }

  lemma EmptyPrefixAllowed(limits: AgentLimits, recorded: seq<string>, calls: seq<RequestedCall>)
    requires LoopFree(recorded, limits.loopDetectionThreshold)
    ensures PrefixAllowed(limits, recorded, calls, 0)
    ensures recorded + RequestSignatures(calls[..0]) == recorded
  {
    assert recorded + RequestSignatures(calls[..0]) == recorded;
  }

  // Records the call at m with the detector.
  method GuardOne(calls: seq<RequestedCall>, m: nat, limits: AgentLimits, detector: LoopDetector,
                  ghost recorded: seq<string>)
    returns (stop: Option<Stop>)
    requires detector.Valid() && detector.threshold == limits.loopDetectionThreshold
    requires m < |calls| && PrefixAllowed(limits, recorded, calls, m)
    requires detector.recorded == recorded + RequestSignatures(calls[..m])
    modifies detector
    ensures detector.Valid()
    ensures stop.None? ==> PrefixAllowed(limits, recorded, calls, m + 1)
    ensures stop.None? ==> detector.recorded == recorded + RequestSignatures(calls[..m + 1])
    ensures stop.Some? ==> stop.value == EmptyToolId || stop.value == LoopFound
    ensures stop == Some(EmptyToolId) ==> UnnamedAt(limits, recorded, calls, m)
    ensures stop == Some(LoopFound) ==> LoopAt(limits, recorded, calls, m)
  {
    hide LoopFree, IsStreak, EffectiveId;
    var call := ToolCall(EffectiveId(calls[m], m + 1), calls[m].name, calls[m].arguments, m + 1);
    if call.toolId == "" {
      return Some(EmptyToolId);
    }
    NextSignature(calls, m);
    assert recorded + RequestSignatures(calls[..m + 1])
        == (recorded + RequestSignatures(calls[..m])) + [Signature(call)];
    var loop := detector.Record(call);
    return if loop then Some(LoopFound) else None;
  }

  method GuardCalls(calls: seq<RequestedCall>, limits: AgentLimits, total: nat, detector: LoopDetector)
    returns (r: Result<seq<ToolCall>, Stop>)
    requires detector.Valid() && detector.threshold == limits.loopDetectionThreshold
    requires LoopFree(detector.recorded, detector.threshold)
    modifies detector
    ensures detector.Valid()
    ensures r.Ok? ==> r.value == Numbered(calls) && BatchAllowed(limits, total, old(detector.recorded), calls)
    ensures r.Ok? ==> detector.recorded == old(detector.recorded) + RequestSignatures(calls)
    ensures r.Err? ==> BatchRefused(limits, total, old(detector.recorded), calls, r.error)
  {
    hide PrefixAllowed, LoopFree, UnnamedAt, LoopAt, IsStreak, EffectiveId;
    if |calls| > limits.maxSingleToolCalls {
      return Err(BatchTooLarge);
    }
    if total + |calls| > limits.maxToolCalls {
      return Err(CallLimit);
    }
    ghost var recorded := detector.recorded;
    EmptyPrefixAllowed(limits, recorded, calls);
    var validated: seq<ToolCall> := [];
    for m := 0 to |calls|
      invariant detector.Valid() && validated == Numbered(calls)[..m]
      invariant detector.recorded == recorded + RequestSignatures(calls[..m])
      invariant PrefixAllowed(limits, recorded, calls, m)
    {
      var stop := GuardOne(calls, m, limits, detector, recorded);
      if stop.Some? {
        return Err(stop.value);
      }
      validated := validated + [Numbered(calls)[m]];
    }
    assert calls[..|calls|] == calls;
    r := Ok(validated);
  }

  lemma SignaturesPrefix(calls: seq<RequestedCall>, m: nat)
    requires m <= |calls|
    ensures RequestSignatures(calls[..m]) == RequestSignatures(calls)[..m]
  {
    hide Numbered, Signatures;
  }

  lemma LargerPrefix(limits: AgentLimits, recorded: seq<string>, calls: seq<RequestedCall>, m: nat)
    requires limits.loopDetectionThreshold > 0 && m <= |calls|
    requires PrefixAllowed(limits, recorded, calls, |calls|)
    ensures PrefixAllowed(limits, recorded, calls, m)
  {
    hide LoopFree, Numbered, Signatures, RequestSignatures;
    SignaturesPrefix(calls, |calls|);
    SignaturesPrefix(calls, m);
    PrefixLoopFree(recorded, RequestSignatures(calls), m, limits.loopDetectionThreshold);
  }

  lemma PrefixLoopFree(recorded: seq<string>, all: seq<string>, m: nat, n: int)
    requires n > 0 && m <= |all| && LoopFree(recorded + all[..|all|], n)
    ensures LoopFree(recorded + all[..m], n)
  {
    hide LoopFree;
    assert recorded + all[..|all|] == (recorded + all[..m]) + all[m..];
    LoopFreePrefix(recorded + all[..m], all[m..], n);
  }

  /** A batch is refused only when it is not allowed. */
  lemma RefusedIsNotAllowed(limits: AgentLimits, total: nat, recorded: seq<string>, calls: seq<RequestedCall>,
                            stop: Stop)
    requires limits.Valid() && BatchRefused(limits, total, recorded, calls, stop)
    ensures !BatchAllowed(limits, total, recorded, calls)
  {
    if stop.LoopFound? && PrefixAllowed(limits, recorded, calls, |calls|) {
      var m: nat :| LoopAt(limits, recorded, calls, m);
      LargerPrefix(limits, recorded, calls, m + 1);
    }
  }
}
