/** Delegation events, states, their legal transitions, and limits (delegation/models.py, delegation/limits.py). */
module DelegationEvents {
  import opened Wrappers

  // Provider-neutral events; action is the permission's name, text an optional message.
  datatype Event =
    | Progress(text: Option<string>)
    | Completed(summary: Option<string>)
    | ExecutorFailed(message: string)
    | ExecutorCancelled
    | PermissionRequested(id: string, action: string, path: string, text: Option<string>)
    | Note
}

module DelegationModels {
  import opened Wrappers

  datatype DelegationState =
    | Created | Starting | Running | WaitingForPermission | Completing | Completed | Failed | Cancelled | TimedOut

  predicate IsTerminal(s: DelegationState) {
    s in {Completed, Failed, Cancelled, TimedOut}
  }

  // The transition table.
  function Transitions(s: DelegationState): set<DelegationState> {
    match s
    case Created => {Starting}
    case Starting => {Running, Completed, Failed, Cancelled, TimedOut}
    case Running => {WaitingForPermission, Completing, Completed, Failed, Cancelled, TimedOut}
    case WaitingForPermission => {Running, Failed, Cancelled, TimedOut}
    case Completing => {Completed, Failed, Cancelled, TimedOut}
    case _ => {}
  }

  // transition_state succeeds
  predicate MayEnter(current: DelegationState, target: DelegationState) {
    target == current || target in Transitions(current)
  }

  /** A delegation starts once; it waits for a permission and completes from RUNNING, goes back to RUNNING from a
      permission, is not completed while it waits for one, and may be given up at any time after its start. */
  lemma TransitionRule(s: DelegationState, t: DelegationState)
    ensures t in Transitions(s) <==>
      && !IsTerminal(s) && s != t && t != Created && (s == Created <==> t == Starting)
      && (t == Running ==> s == Starting || s == WaitingForPermission)
      && (t == WaitingForPermission || t == Completing ==> s == Running)
      && (t == Completed ==> s != WaitingForPermission)
  {
  }

  ghost predicate LegalPath(path: seq<DelegationState>) {
    path != [] && forall i :: 0 < i < |path| ==> path[i] in Transitions(path[i - 1])
  }

  // The reasons given with a result that is not COMPLETED or CANCELLED.
  datatype Reason =
    | SessionCount | SessionCreateFailed | PromptSendFailed
    | PermissionLimit | OutputLimit | ExecutorError | EventConnectionLost | Timeout

  class DelegationRunStatus {
    var state: DelegationState
    var permissionRequests: nat
    var outputBytes: nat
    var reason: Option<Reason>
    ghost var path: seq<DelegationState>  // every state so far

    ghost predicate Valid()
      reads this
    {
      LegalPath(path) && path[|path| - 1] == state
    }

    constructor ()
      ensures Valid() && state == Created && path == [Created]
      ensures permissionRequests == 0 && outputBytes == 0 && reason == None
    {
      state, permissionRequests, outputBytes, reason, path := Created, 0, 0, None, [Created];
    }

    /** transition; the source raises DelegationStateError when the precondition fails. */
    method Transition(target: DelegationState)
      requires Valid() && MayEnter(state, target)
      modifies this`state, this`path
      ensures Valid() && state == target
      ensures path == if target == old(state) then old(path) else old(path) + [target]
    {
      if target != state {
        path := path + [target];
      }
      state := target;
    }
  }

  const MAX_WALL_TIME_SECONDS_CEILING := 7200.0
  const MAX_OUTPUT_BYTES_CEILING := 32 * 1024 * 1024
  const MAX_PERMISSION_REQUESTS_CEILING := 200
  const MAX_SESSION_COUNT_CEILING := 10
  const MAX_DELEGATION_DEPTH_CEILING := 1
  const RECONNECT_LIMIT := 3
  const RESULTS_KEEP := 25

  datatype DelegationLimits = DelegationLimits(
    maxWallTimeSeconds: real,
    maxOutputBytes: int,
    maxPermissionRequests: int,
    maxSessionCount: int,
    maxDelegationDepth: int)
  {
    // validate() passes
    predicate Valid() {
      && 0.0 < maxWallTimeSeconds <= MAX_WALL_TIME_SECONDS_CEILING
      && 1 <= maxOutputBytes <= MAX_OUTPUT_BYTES_CEILING
      && 1 <= maxPermissionRequests <= MAX_PERMISSION_REQUESTS_CEILING
      && 1 <= maxSessionCount <= MAX_SESSION_COUNT_CEILING
      && 1 <= maxDelegationDepth <= MAX_DELEGATION_DEPTH_CEILING
    }
  }
  /** The limits a delegation may have. */
  lemma LimitsAre(l: DelegationLimits)
    ensures l.Valid() <==>
      && 0.0 < l.maxWallTimeSeconds <= 7200.0 && 1 <= l.maxOutputBytes <= 33554432
      && 1 <= l.maxPermissionRequests <= 200 && 1 <= l.maxSessionCount <= 10 && l.maxDelegationDepth == 1
  {
  }
}
