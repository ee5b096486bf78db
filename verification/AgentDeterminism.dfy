/** What an agent run promises leaves no choice: its log and its result are fixed by what it is told
    (agent/orchestrator.py, run). */
module AgentDeterminism {
  import opened Transcripts
  import opened LoopDetection
  import opened AgentModels
  import opened AgentRuns
  import opened AgentOrchestrator
  import opened AgentLoop
  import opened AgentGuarantees
  import opened AgentCourse

  // --- what comes next

  predicate SameKind(e: Entry, f: Entry) {
    match e
    case ClockRead(_) => f.ClockRead?
    case CancelRead(_) => f.CancelRead?
    case Prompted(_, _) => f.Prompted?
    case Called(_, _) => f.Called?
    case Published(_) => f == e
  }

  /** The kind of the next entry is determined by the entries before it. */
  lemma NextIsDetermined(limits: AgentLimits, log: seq<Entry>, e: Entry, f: Entry)
    requires MayFollow(limits, log, e) && MayFollow(limits, log, f)
    ensures SameKind(e, f)
  {
    hide MoreCalls, BatchAccepted, OutputFits, Prompts;
    if log != [] {
      match log[|log| - 1]
      case ClockRead(_) =>
      case CancelRead(_) =>
      case Prompted(_, _) =>
      case Called(_, _) =>
      case Published(_) =>
    }
  }

  /** A run that is over could not go on: nothing may follow its last entry. */
  lemma NothingAfterEnd(env: Environment, limits: AgentLimits, started: real, initial: seq<Message>,
                        stop: Stop, r: RunState, log: seq<Entry>, e: Entry)
    requires limits.Valid() && Ended(env, limits, started, initial, stop, r, log) && !stop.ToolsDown?
    requires log != [] ==> !Trips(log[|log| - 1])
    ensures !MayFollow(limits, log, e)
  {
    hide LogOk, PromptsMatch, Prompts, Asked, StepsDone, AsAsked, Calls, Results, BatchRefused, BatchAllowed,
      Signatures, FinalStep, TotalBytes, MoreCalls, Requested, Failures, StepResults, LoopFree;
    if stop in {BatchTooLarge, CallLimit, EmptyToolId, LoopFound} {
      RefusedAtTheEnd(env, limits, started, initial, stop, r, log);
      RefusedNotEmpty(limits, r, log, stop);
      RefusedIsNotAllowed(limits, r.total, Signatures(Calls(log)), log[|log| - 3].reply.value.calls, stop);
    }
  }

  lemma RefusedNotEmpty(limits: AgentLimits, r: RunState, log: seq<Entry>, stop: Stop)
    requires limits.Valid() && RefusedLast(stop, limits, r, log) && r.total <= limits.maxToolCalls
    ensures log[|log| - 3].reply.value.calls != []
  {
    hide PrefixAllowed, Signatures, Calls;
  }

  // --- what a beginning of the log adds up to

  lemma {:induction false} ReadPrefix(log: seq<Entry>, k: nat)
    requires k <= |log|
    ensures Prompts(log[..k]) <= Prompts(log) && Asked(log[..k]) <= Asked(log)
    ensures Calls(log[..k]) <= Calls(log) && Results(log[..k]) <= Results(log)
  {
    if k == |log| {
      assert log[..k] == log;
    } else {
      var front := log[..|log| - 1];
      ReadPrefix(front, k);
      assert front[..k] == log[..k];
    }
  }

  lemma ReadNext(log: seq<Entry>, k: nat)
    requires k < |log|
    ensures Prompts(log[..k + 1]) == Prompts(log[..k]) + PromptIn(log[k])
    ensures Asked(log[..k + 1]) == Asked(log[..k]) + AskedIn(log[k])
    ensures Calls(log[..k + 1]) == Calls(log[..k]) + CallIn(log[k])
    ensures Results(log[..k + 1]) == Results(log[..k]) + ResultIn(log[k])
  {
    assert log[..k + 1][..k] == log[..k];
  }

  lemma {:induction false} NoneLost(log: seq<Entry>)
    requires forall i :: 0 <= i < |log| ==> !Trips(log[i])
    ensures |Results(log)| == |Calls(log)| && |Asked(log)| == |Prompts(log)|
  {
    if log != [] {
      NoneLost(log[..|log| - 1]);
    }
  }

  lemma QuietEntry(log: seq<Entry>, k: nat)
    requires k < |log| && !log[k].Prompted? && !log[k].Called?
    ensures Asked(log[..k + 1]) == Asked(log[..k]) && Calls(log[..k + 1]) == Calls(log[..k])
  {
    ReadNext(log, k);
  }

  /** When the provider is asked again, all the calls it asked for have been made. */
  lemma AllCallsMade(env: Environment, limits: AgentLimits, started: real, log: seq<Entry>, k: nat)
    requires LogOk(env, limits, started, log) && k <= |log| && EndsIn(log[..k], StepStarted)
    ensures |Calls(log[..k])| >= |Requested(Asked(log[..k]))|
  {
    hide Asked, Calls, Requested, Prompts, BatchAccepted, OutputFits;
    assert EntryOk(env, limits, started, log, k - 1);
    assert log[..k - 1][..k - 3] == log[..k - 3];
    QuietEntry(log, k - 1);
    QuietEntry(log, k - 2);
    QuietEntry(log, k - 3);
    QuietEntry(log, k - 4);
    assert EntryOk(env, limits, started, log, k - 4);
    if log[k - 4] == Published(Started) {
      NothingYet(log[..k - 4]);
    } else {
      assert log[..k - 3][..k - 4] == log[..k - 4];
    }
  }

  lemma NothingYet(log: seq<Entry>)
    requires log == []
    ensures Requested(Asked(log)) == []
  {
  }

  /** A call is made only when one is due. */
  lemma CallDue(env: Environment, limits: AgentLimits, started: real, log: seq<Entry>, k: nat)
    requires LogOk(env, limits, started, log) && k <= |log| && EndsIn(log[..k], ToolRequested)
    ensures MoreCalls(log[..k])
  {
    hide Asked, Calls, Requested, Prompts, BatchAccepted, OutputFits;
    assert EntryOk(env, limits, started, log, k - 1);
    assert log[..k - 1][..k - 2] == log[..k - 2] && log[..k - 2][..k - 3] == log[..k - 3];
    QuietEntry(log, k - 1);
    QuietEntry(log, k - 2);
    QuietEntry(log, k - 3);
  }

  // --- turns are determined by the answers and the results

  ghost predicate SameResponses(a: seq<StepRecord>, b: seq<StepRecord>) {
    |a| == |b| && forall i :: 0 <= i < |a| ==> a[i].response == b[i].response && |a[i].results| == |b[i].results|
  }

  lemma {:induction false} SameResults(a: seq<StepRecord>, b: seq<StepRecord>, all: seq<CallResult>)
    requires SameResponses(a, b) && StepResults(a) <= all && StepResults(b) <= all
    ensures |StepResults(a)| == |StepResults(b)|
    ensures forall i :: 0 <= i < |a| ==> a[i].results == b[i].results
  {
    if a != [] {
      var x, y := a[|a| - 1].results, b[|b| - 1].results;
      var m := |StepResults(a[..|a| - 1])|;
      SameResults(a[..|a| - 1], b[..|b| - 1], all);
      assert x == all[m..m + |x|] && y == all[m..m + |y|];
    }
  }

  lemma {:induction false} SameTranscript(a: seq<StepRecord>, b: seq<StepRecord>)
    requires AllAnswered(a) && AllAnswered(b) && |a| == |b|
    requires forall i :: 0 <= i < |a| ==> a[i].response == b[i].response && a[i].results == b[i].results
    ensures Transcript(a) == Transcript(b)
  {
    if a != [] {
      SameTranscript(a[1..], b[1..]);
    }
  }

  lemma {:induction false} ResultsOfSome(steps: seq<StepRecord>, j: nat)
    requires j <= |steps|
    ensures StepResults(steps[..j]) <= StepResults(steps)
  {
    if j == |steps| {
      assert steps[..j] == steps;
    } else {
      ResultsOfSome(steps[..|steps| - 1], j);
      assert steps[..|steps| - 1][..j] == steps[..j];
    }
  }

  // As many results as calls were asked for.
  lemma {:induction false} ResultsMatchCalls(steps: seq<StepRecord>, asked: seq<Response>)
    requires AllAnswered(steps) && |asked| == |steps|
    requires forall i :: 0 <= i < |steps| ==> steps[i].response == asked[i]
    ensures |StepResults(steps)| == |Requested(asked)|
  {
    if steps != [] {
      ResultsMatchCalls(steps[..|steps| - 1], asked[..|steps| - 1]);
    }
  }

  // The results of the first j turns are the first ones of the log.
  lemma TurnsRead(env: Environment, limits: AgentLimits, started: real, initial: seq<Message>,
                  stop: Stop, r: RunState, log: seq<Entry>, k: nat, j: nat)
    requires Ended(env, limits, started, initial, stop, r, log) && k < |log|
    requires EndsIn(log[..k], StepStarted) && j == |Prompts(log[..k])| <= |Turns(stop.Finished?, r.steps)|
    ensures
      var turns := Turns(stop.Finished?, r.steps)[..j];
      && AllAnswered(turns) && |Asked(log[..k])| == j && StepResults(turns) <= Results(log[..k])
      && (forall i :: 0 <= i < j ==> turns[i].response == Asked(log[..k])[i])
  {
    hide Bounded, Justified, FinalStep, Prompts, Asked, StepsDone, Calls, Results, StepResults, MayFollow, LogOk,
      Requested;
    var turns := Turns(stop.Finished?, r.steps)[..j];
    BeforeTheLast(env, limits, started, log, k);
    NoneLost(log[..k]);
    ReadPrefix(log, k);
    AllCallsMade(env, limits, started, log, k);
    assert forall i :: 0 <= i < j ==> turns[i].response == r.steps[i].response == Asked(log)[i] == Asked(log[..k])[i];
    ResultsMatchCalls(turns, Asked(log[..k]));
    assert turns == r.steps[..j];
    ResultsOfSome(r.steps, j);
  }

  lemma BeforeTheLast(env: Environment, limits: AgentLimits, started: real, log: seq<Entry>, k: nat)
    requires LogOk(env, limits, started, log) && k < |log|
    ensures forall i :: 0 <= i < k ==> !Trips(log[..k][i])
  {
    hide EntryOk, Trips;
  }

  // --- two runs that are told the same

  datatype WholeRun = WholeRun(env: Environment, stop: Stop, r: RunState, log: seq<Entry>)

  ghost predicate Ran(limits: AgentLimits, started: real, initial: seq<Message>, x: WholeRun) {
    limits.Valid() && RunEnded(x.env, limits, started, initial, x.stop, x.r, x.log)
  }

  /** Both environments say the same up to moment t. */
  ghost predicate SameUntil(a: Environment, b: Environment, t: nat) {
    && a.toolsUp == b.toolsUp
    && (forall i: nat :: i < t ==>
          && a.clock(i) == b.clock(i) && a.cancelled(i) == b.cancelled(i)
          && a.generate(i) == b.generate(i) && a.execute(i) == b.execute(i))
  }

  // Both logs are the same so far and go on.
  ghost predicate Together(a: WholeRun, b: WholeRun, k: nat) {
    k < |a.log| && k < |b.log| && a.log[..k] == b.log[..k]
  }

  lemma PromptRead(log: seq<Entry>, k: nat)
    requires k < |log| && log[k].Prompted?
    ensures |Prompts(log[..k])| < |Prompts(log)| && Prompts(log)[|Prompts(log[..k])|] == log[k].messages
  {
    ReadNext(log, k);
    ReadPrefix(log, k + 1);
  }

  lemma SamePrompt(limits: AgentLimits, started: real, initial: seq<Message>, a: WholeRun, b: WholeRun, k: nat)
    requires Ran(limits, started, initial, a) && Ran(limits, started, initial, b) && Together(a, b, k)
    requires EndsIn(a.log[..k], StepStarted) && a.log[k].Prompted? && b.log[k].Prompted?
    ensures a.log[k].messages == b.log[k].messages
  {
    hide Prompts, LogOk, Books, Bounded, Justified, FinalStep, AsAsked, StepsDone, Transcript, StepResults, Asked,
      Results, Turns;
    var j := |Prompts(a.log[..k])|;
    PromptRead(a.log, k);
    PromptRead(b.log, k);
    TurnsRead(a.env, limits, started, initial, a.stop, a.r, a.log, k, j);
    TurnsRead(b.env, limits, started, initial, b.stop, b.r, b.log, k, j);
    var x, y := Turns(a.stop.Finished?, a.r.steps)[..j], Turns(b.stop.Finished?, b.r.steps)[..j];
    assert SameResponses(x, y);
    SameResults(x, y, Results(a.log[..k]));
    SameTranscript(x, y);
  }

  lemma CallRead(log: seq<Entry>, k: nat)
    requires k < |log| && log[k].Called?
    ensures |Calls(log[..k])| < |Calls(log)| && Calls(log)[|Calls(log[..k])|] == log[k].call
  {
    ReadNext(log, k);
    ReadPrefix(log, k + 1);
  }

  lemma {:induction false} RequestedPrefix(some: seq<Response>, all: seq<Response>)
    requires some <= all
    ensures Requested(some) <= Requested(all)
  {
    if some == all {
    } else {
      RequestedPrefix(some, all[..|all| - 1]);
    }
  }

  // The call made is the one that was due.
  lemma CallIsRequested(env: Environment, limits: AgentLimits, started: real, initial: seq<Message>,
                        stop: Stop, r: RunState, log: seq<Entry>, k: nat)
    requires Ended(env, limits, started, initial, stop, r, log) && k < |log|
    requires EndsIn(log[..k], ToolRequested) && log[k].Called?
    ensures MoreCalls(log[..k]) && log[k].call == Requested(Asked(log[..k]))[|Calls(log[..k])|]
  {
    hide Prompts, LogOk, Books, Bounded, Justified, FinalStep, StepsDone, Requested, Asked, Calls, PromptsMatch;
    CallDue(env, limits, started, log, k);
    CallRead(log, k);
    ReadPrefix(log, k);
    RequestedPrefix(Asked(log[..k]), Asked(log));
  }

  lemma SameCall(limits: AgentLimits, started: real, initial: seq<Message>, a: WholeRun, b: WholeRun, k: nat)
    requires Ran(limits, started, initial, a) && Ran(limits, started, initial, b) && Together(a, b, k)
    requires EndsIn(a.log[..k], ToolRequested) && a.log[k].Called? && b.log[k].Called?
    ensures a.log[k].call == b.log[k].call
  {
    hide Ended, Requested, Asked, Calls;
    CallIsRequested(a.env, limits, started, initial, a.stop, a.r, a.log, k);
    CallIsRequested(b.env, limits, started, initial, b.stop, b.r, b.log, k);
  }

  lemma NextOk(limits: AgentLimits, started: real, initial: seq<Message>, x: WholeRun, k: nat)
    requires Ran(limits, started, initial, x) && k < |x.log|
    ensures MayFollow(limits, x.log[..k], x.log[k]) && Reports(x.env, limits, started, k, x.log[k])
    ensures forall i :: 0 <= i < k ==> !Trips(x.log[..k][i])
  {
    hide Books, Bounded, PromptsMatch, Justified, FinalStep, AsAsked, StepsDone, MayFollow, Trips;
    assert EntryOk(x.env, limits, started, x.log, k);
    BeforeTheLast(x.env, limits, started, x.log, k);
  }

  lemma SameEntry(limits: AgentLimits, started: real, initial: seq<Message>, a: WholeRun, b: WholeRun, t: nat, k: nat)
    requires Ran(limits, started, initial, a) && Ran(limits, started, initial, b) && Together(a, b, k)
    requires SameUntil(a.env, b.env, t) && k < t
    ensures a.log[k] == b.log[k]
  {
    hide Ran, PreflightDone, PreflightCancel, LoopTop, CallMayStart, TopChecked, ReplyChecked, CallDone, OutputFits,
      EndsInPrompt, Prompts, Trips, EndsIn;
    NextOk(limits, started, initial, a, k);
    NextOk(limits, started, initial, b, k);
    NextIsDetermined(limits, a.log[..k], a.log[k], b.log[k]);
    if a.log[k].Prompted? {
      SamePrompt(limits, started, initial, a, b, k);
    } else if a.log[k].Called? {
      SameCall(limits, started, initial, a, b, k);
    }
  }

  // The one run goes on where the other does.
  lemma BothGoOn(limits: AgentLimits, started: real, initial: seq<Message>, a: WholeRun, b: WholeRun, k: nat)
    requires Ran(limits, started, initial, a) && Ran(limits, started, initial, b)
    requires a.env.toolsUp == b.env.toolsUp && k < |a.log| && k <= |b.log| && a.log[..k] == b.log[..k]
    ensures k < |b.log|
  {
    hide Ended, MayFollow, Trips;
    if k == |b.log| {
      assert b.log[..k] == b.log;
      NextOk(limits, started, initial, a, k);
      if b.stop.ToolsDown? {
        NeverBegun(b.env, limits, started, initial, b.stop, b.r, b.log);
        NeverBegun(a.env, limits, started, initial, a.stop, a.r, a.log);
      } else {
        NothingAfterEnd(b.env, limits, started, initial, b.stop, b.r, b.log, a.log[k]);
      }
    }
  }

  lemma NeverBegun(env: Environment, limits: AgentLimits, started: real, initial: seq<Message>,
                   stop: Stop, r: RunState, log: seq<Entry>)
    requires Ended(env, limits, started, initial, stop, r, log) && stop.ToolsDown?
    ensures env.toolsUp == Raised(stop.failure) && log == [Published(Started)]
  {
    hide Books, Bounded, PromptsMatch, FinalStep, AsAsked, StepsDone, BatchRefused;
    assert EntryOk(env, limits, started, log, |log| - 1);
  }

  lemma SameTools(a: Environment, b: Environment, t: nat)
    requires SameUntil(a, b, t)
    ensures a.toolsUp == b.toolsUp
  {
  }

  /** Two runs whose environments say the same up to moment t do the same up to then. */
  lemma {:induction false} SamePast(limits: AgentLimits, started: real, initial: seq<Message>, a: WholeRun, b: WholeRun,
                                    t: nat, k: nat)
    requires Ran(limits, started, initial, a) && Ran(limits, started, initial, b) && SameUntil(a.env, b.env, t)
    requires k <= t && k <= |a.log|
    ensures k <= |b.log| && a.log[..k] == b.log[..k]
  {
    hide Ran, SameUntil;
    if k > 0 {
      SameTools(a.env, b.env, t);
      SamePast(limits, started, initial, a, b, t, k - 1);
      BothGoOn(limits, started, initial, a, b, k - 1);
      SameEntry(limits, started, initial, a, b, t, k - 1);
      assert a.log[..k] == a.log[..k - 1] + [a.log[k - 1]] && b.log[..k] == b.log[..k - 1] + [b.log[k - 1]];
    }
  }

  // --- the whole run

  lemma SameStop(limits: AgentLimits, started: real, initial: seq<Message>, a: WholeRun, b: WholeRun)
    requires Ran(limits, started, initial, a) && Ran(limits, started, initial, b)
    requires a.log == b.log && a.env.toolsUp == b.env.toolsUp && a.r.total == b.r.total
    ensures a.stop == b.stop
  {
    hide LogOk, Books, PromptsMatch, FinalStep, AsAsked, StepsDone, BatchRefused, Signatures, Calls, Prompts, Results,
      Asked;
    if RefusedLast(a.stop, limits, a.r, a.log) && RefusedLast(b.stop, limits, b.r, b.log) {
      OneRefusal(limits, a.r.total, Signatures(Calls(a.log)), a.log[|a.log| - 3].reply.value.calls, a.stop, b.stop);
    }
  }

  lemma OneRefusal(limits: AgentLimits, total: nat, recorded: seq<string>, calls: seq<RequestedCall>, a: Stop, b: Stop)
    requires limits.Valid()
    requires BatchRefused(limits, total, recorded, calls, a) && BatchRefused(limits, total, recorded, calls, b)
    ensures a == b
  {
    hide PrefixAllowed;
    if a != b && a in {EmptyToolId, LoopFound} && b in {EmptyToolId, LoopFound} {
      var m: nat :| UnnamedAt(limits, recorded, calls, m);
      var n: nat :| LoopAt(limits, recorded, calls, n);
      UnnamedOrLoop(limits, recorded, calls, m, n);
    }
  }

  lemma ShorterPrefix(limits: AgentLimits, recorded: seq<string>, calls: seq<RequestedCall>, n: nat, m: nat)
    requires limits.loopDetectionThreshold > 0 && n <= m && PrefixAllowed(limits, recorded, calls, m)
    ensures PrefixAllowed(limits, recorded, calls, n)
  {
    assert calls[..m][..|calls[..m]|] == calls[..m] && calls[..m][..n] == calls[..n];
    LargerPrefix(limits, recorded, calls[..m], n);
  }

  lemma UnnamedOrLoop(limits: AgentLimits, recorded: seq<string>, calls: seq<RequestedCall>, m: nat, n: nat)
    requires limits.Valid() && UnnamedAt(limits, recorded, calls, m)
    ensures !LoopAt(limits, recorded, calls, n)
  {
    hide LoopFree;
    if LoopAt(limits, recorded, calls, n) {
      if n < m {
        ShorterPrefix(limits, recorded, calls, n + 1, m);
      }
    }
  }

  lemma SameSteps(limits: AgentLimits, started: real, initial: seq<Message>, a: WholeRun, b: WholeRun)
    requires Ran(limits, started, initial, a) && Ran(limits, started, initial, b) && a.log == b.log
    ensures |a.r.steps| == |b.r.steps| && a.r.total == b.r.total && a.r.failed == b.r.failed && a.r.bytes == b.r.bytes
    ensures forall k :: 0 <= k < |a.r.steps| ==>
      a.r.steps[k].sequence == b.r.steps[k].sequence && a.r.steps[k].response == b.r.steps[k].response
  {
    hide LogOk, PromptsMatch, FinalStep, BatchRefused, Signatures, Calls, Prompts, Results, Asked, StepsDone, Justified,
      LoopFree, BudgetKept, Requested;
  }

  // All recorded steps, also a final answer, have as many results as calls.
  lemma StepsComplete(limits: AgentLimits, started: real, initial: seq<Message>, x: WholeRun)
    requires Ran(limits, started, initial, x)
    ensures forall k :: 0 <= k < |x.r.steps| ==> |x.r.steps[k].results| == |x.r.steps[k].response.calls|
  {
    hide LogOk, Books, BatchRefused, Signatures, Calls, Prompts, Results, Asked, StepsDone, Transcript, AsAsked,
      Bounded;
    forall k | 0 <= k < |x.r.steps| ensures |x.r.steps[k].results| == |x.r.steps[k].response.calls| {
      if !x.stop.Finished? || k < |x.r.steps| - 1 {
        assert Answered(Turns(x.stop.Finished?, x.r.steps)[k]);
      }
    }
  }

  // The results that a run returns, apart from the conversation it kept.
  predicate SameOutcome(a: WholeRun, b: WholeRun) {
    a.log == b.log && a.stop == b.stop && a.r.(messages := []) == b.r.(messages := [])
  }

  /** A run is fixed by what its environment says while it lasts: whatever keeps the promises of Run makes the same
      calls in the same order, with the same messages, and ends with the same result. */
  lemma RunIsDetermined(limits: AgentLimits, started: real, initial: seq<Message>, a: WholeRun, b: WholeRun)
    requires Ran(limits, started, initial, a) && Ran(limits, started, initial, b)
    requires SameUntil(a.env, b.env, |a.log|)
    ensures SameOutcome(a, b)
  {
    hide Ran, StepResults, Results;
    SamePast(limits, started, initial, a, b, |a.log|, |a.log|);
    if |a.log| < |b.log| {
      BothGoOn(limits, started, initial, b, a, |a.log|);
    }
    assert a.log == a.log[..|a.log|] == b.log[..|a.log|] == b.log;
    SameSteps(limits, started, initial, a, b);
    SameStop(limits, started, initial, a, b);
    StepsComplete(limits, started, initial, a);
    StepsComplete(limits, started, initial, b);
    OwnResults(limits, started, initial, a);
    OwnResults(limits, started, initial, b);
    assert SameResponses(a.r.steps, b.r.steps);
    SameResults(a.r.steps, b.r.steps, Results(a.log));
    SameRest(a, b);
  }

  lemma OwnResults(limits: AgentLimits, started: real, initial: seq<Message>, x: WholeRun)
    requires Ran(limits, started, initial, x)
    ensures Results(x.log) == StepResults(x.r.steps) + x.r.results
  {
    hide LogOk, Bounded, PromptsMatch, FinalStep, AsAsked, StepsDone, Justified, Results, StepResults;
  }

  lemma SameRest(a: WholeRun, b: WholeRun)
    requires |a.r.steps| == |b.r.steps| && a.log == b.log && a.stop == b.stop
    requires forall k :: 0 <= k < |a.r.steps| ==> a.r.steps[k] == b.r.steps[k]
    requires a.r.total == b.r.total && a.r.failed == b.r.failed && a.r.bytes == b.r.bytes
    requires StepResults(a.r.steps) + a.r.results == StepResults(b.r.steps) + b.r.results
    ensures SameOutcome(a, b)
  {
    hide StepResults;
    assert a.r.steps == b.r.steps;
    var m := |StepResults(a.r.steps)|;
    assert a.r.results == (StepResults(a.r.steps) + a.r.results)[m..];
    assert b.r.results == (StepResults(b.r.steps) + b.r.results)[m..];
  }
}
