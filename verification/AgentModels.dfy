/** Agent run states, their legal transitions, and run limits (agent/models.py, agent/limits.py). */
module AgentModels {
  import opened Wrappers

  datatype AgentState =
    | Created | Running | WaitingForApproval | ExecutingTool | ProcessingResult
    | Completed | Failed | Cancelled | TimedOut | LimitReached

  predicate IsTerminal(s: AgentState) {
    s in {Completed, Failed, Cancelled, TimedOut, LimitReached}
  }

  // The transition table.
  function Transitions(s: AgentState): set<AgentState> {
    match s
    case Created => {Running}
    case Running =>
      {WaitingForApproval, ExecutingTool, ProcessingResult, Completed, Failed, Cancelled, TimedOut, LimitReached}
    case WaitingForApproval =>
      {Running, ExecutingTool, ProcessingResult, Failed, Cancelled, TimedOut, LimitReached}
    case ExecutingTool =>
      {WaitingForApproval, ProcessingResult, Failed, Cancelled, TimedOut, LimitReached}
    case ProcessingResult =>
      {Running, WaitingForApproval, Completed, Failed, Cancelled, TimedOut, LimitReached}
    case _ => {}
  }

  predicate CanTransition(current: AgentState, target: AgentState) {
    target in Transitions(current)
  }

  /** A run starts as RUNNING and never goes back to CREATED; it completes from RUNNING or with a tool result, runs on
      from anywhere but a tool in execution, executes no tool while it handles a result, and may be given up at any
      time. */
  lemma TransitionRule(s: AgentState, t: AgentState)
    ensures CanTransition(s, t) <==>
      && !IsTerminal(s) && s != t && t != Created && (s == Created ==> t == Running)
      && (t == Completed ==> s == Running || s == ProcessingResult)
      && (t == Running ==> s != ExecutingTool) && (t == ExecutingTool ==> s != ProcessingResult)
  {
  }

  /** A history of states in which every change is in the table. */
  ghost predicate LegalPath(path: seq<AgentState>) {
    path != [] && forall i :: 0 < i < |path| ==> CanTransition(path[i - 1], path[i])
  }

  /** A terminal state is the last one of its history. */
  lemma TerminalIsLast(path: seq<AgentState>, i: nat)
    requires LegalPath(path) && i < |path| && IsTerminal(path[i])
    ensures i == |path| - 1
  {
    assert i + 1 < |path| ==> CanTransition(path[i], path[i + 1]);
  }

  class AgentRunStatus {
    var state: AgentState
    var steps: nat
    var toolCalls: nat
    var failedToolCalls: nat
    var reason: Option<string>
    ghost var path: seq<AgentState>  // every state so far

    ghost predicate Valid()
      reads this
    {
      LegalPath(path) && path[|path| - 1] == state
    }

    constructor ()
      ensures Valid() && state == Created && path == [Created]
      ensures steps == 0 && toolCalls == 0 && failedToolCalls == 0
    {
      state, steps, toolCalls, failedToolCalls, reason, path := Created, 0, 0, 0, None, [Created];
    }

    // False where the source raises AgentStateError.
    method Transition(target: AgentState) returns (ok: bool)
      requires Valid()
      modifies this`state, this`path
      ensures Valid()
      ensures ok <==> target == old(state) || CanTransition(old(state), target)
      ensures state == if ok then target else old(state)
      ensures path == if ok && target != old(state) then old(path) + [target] else old(path)
    {
      ok := target == state || CanTransition(state, target);
      if ok && target != state {
        state := target;
        path := path + [target];
      }
    }
  }

  const MAX_STEPS_CEILING := 25
  const MAX_TOOL_CALLS_CEILING := 50
  const MAX_WALL_TIME_SECONDS_CEILING := 1800.0
  const MAX_SINGLE_TOOL_CALLS_CEILING := 10
  const MAX_TOTAL_TOOL_OUTPUT_BYTES_CEILING := 16 * 1024 * 1024
  const LOOP_DETECTION_THRESHOLD_CEILING := 25
  const AGENT_APPROVAL_WAIT_SECONDS_CEILING := 300.0

  datatype AgentLimits = AgentLimits(
    maxSteps: int,
    maxToolCalls: int,
    maxWallTimeSeconds: real,
    maxSingleToolCalls: int,
    maxTotalToolOutputBytes: int,
    loopDetectionThreshold: int,
    approvalWaitSeconds: real)
  {
    // validate() passes
    predicate Valid() {
      && 1 <= maxSteps <= MAX_STEPS_CEILING
      && 1 <= maxToolCalls <= MAX_TOOL_CALLS_CEILING
      && 0.0 < maxWallTimeSeconds <= MAX_WALL_TIME_SECONDS_CEILING
      && 1 <= maxSingleToolCalls <= MAX_SINGLE_TOOL_CALLS_CEILING
      && 1 <= maxTotalToolOutputBytes <= MAX_TOTAL_TOOL_OUTPUT_BYTES_CEILING
      && 2 <= loopDetectionThreshold <= LOOP_DETECTION_THRESHOLD_CEILING
      && approvalWaitSeconds <= AGENT_APPROVAL_WAIT_SECONDS_CEILING
    }
  }
  /** The limits a run may have. */
  lemma LimitsAre(l: AgentLimits)
    ensures l.Valid() <==>
      && 1 <= l.maxSteps <= 25 && 1 <= l.maxToolCalls <= 50 && 0.0 < l.maxWallTimeSeconds <= 1800.0
      && 1 <= l.maxSingleToolCalls <= 10 && 1 <= l.maxTotalToolOutputBytes <= 16777216
      && 2 <= l.loopDetectionThreshold <= 25 && l.approvalWaitSeconds <= 300.0
  {
  }
}
