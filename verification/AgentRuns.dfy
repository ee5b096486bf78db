/** What an agent run observes and does, and the bookkeeping over it (agent/orchestrator.py). */
module AgentRuns {
  import opened Wrappers
  import opened Transcripts
  import opened LoopDetection
  import opened AgentModels

  // The exception classes the run distinguishes.
  datatype Failure =
    | TimeoutError | CancelledError | LimitError(kind: string) | ValidationError | SageFailure | UnexpectedFailure

  datatype Attempt<+T> = Returned(value: T) | Raised(failure: Failure)

  // Refused: permission denied, unknown tool or invalid request, which become a failed result.
  datatype ToolReply = Executed(result: CallResult) | Refused(message: string) | Crashed(failure: Failure)

  /** Everything outside the run, as arbitrary functions of the moment at which it is consulted. */
  datatype Environment = Environment(
    clock: nat -> real,
    cancelled: nat -> bool,
    toolsUp: Attempt<()>,
    generate: nat -> Attempt<Response>,
    execute: nat -> ToolReply,
    asksApproval: nat -> bool)

  datatype Event = Started | StepStarted | ToolRequested | ToolCompleted | StepCompleted | Terminal(state: AgentState)

  // One observation or action of the run; its position in the log is the moment it happens.
  datatype Entry =
    | ClockRead(expired: bool)
    | CancelRead(cancelled: bool)
    | Prompted(messages: seq<Message>, reply: Attempt<Response>)
    | Called(call: ToolCall, answer: ToolReply)
    | Published(event: Event)

  predicate Expired(env: Environment, limits: AgentLimits, started: real, moment: nat) {
    env.clock(moment) - started >= limits.maxWallTimeSeconds
  }

  // A check that passed.
  predicate Clear(e: Entry) {
    e == ClockRead(false) || e == CancelRead(false)
  }

  // A provider or tool call at i comes right after a clock check and a cancellation check that passed.
  predicate Cleared(log: seq<Entry>, i: nat)
    requires i < |log|
  {
    i >= 3 && Clear(log[i - 3]) && Clear(log[i - 2]) && log[i - 3] != log[i - 2] && log[i - 1].Published?
  }

  // --- which batches may run

  function RequestSignatures(calls: seq<RequestedCall>): (s: seq<string>)
    ensures |s| == |calls| && forall i :: 0 <= i < |calls| ==> s[i] == calls[i].name + ":" + calls[i].arguments
    ensures s == Signatures(Numbered(calls))
  {
    seq(|calls|, i requires 0 <= i < |calls| => calls[i].name + ":" + calls[i].arguments)
  }

  // The first m calls name a tool and close no loop.
  ghost predicate PrefixAllowed(limits: AgentLimits, recorded: seq<string>, calls: seq<RequestedCall>, m: nat) {
    && m <= |calls| && (forall i :: 0 <= i < m ==> calls[i].name != "")
    && LoopFree(recorded + RequestSignatures(calls[..m]), limits.loopDetectionThreshold)
  }

  predicate WithinCounts(limits: AgentLimits, total: nat, calls: seq<RequestedCall>) {
    |calls| <= limits.maxSingleToolCalls && total + |calls| <= limits.maxToolCalls
  }

  /** The batch may run: within both limits, every call names a tool, and no loop is closed. */
  ghost predicate BatchAllowed(limits: AgentLimits, total: nat, recorded: seq<string>, calls: seq<RequestedCall>) {
    WithinCounts(limits, total, calls) && PrefixAllowed(limits, recorded, calls, |calls|)
  }

  // --- the order of events: what may come next

  predicate EndsIn(log: seq<Entry>, event: Event) {
    log != [] && log[|log| - 1] == Published(event)
  }

  predicate EndsInPrompt(log: seq<Entry>) {
    log != [] && log[|log| - 1].Prompted?
  }

  predicate ClockThenCancel(log: seq<Entry>) {
    |log| >= 2 && log[|log| - 2].ClockRead? && log[|log| - 1].CancelRead?
  }

  // Both checks after a reply that asks for tools, or for none.
  predicate ReplyChecked(log: seq<Entry>, tools: bool) {
    && ClockThenCancel(log) && |log| >= 3 && log[|log| - 3].Prompted? && log[|log| - 3].reply.Returned?
    && (log[|log| - 3].reply.value.calls != [] <==> tools)
  }

  // The check after a tool call.
  predicate CallDone(log: seq<Entry>) {
    |log| >= 2 && log[|log| - 2] == Published(ToolCompleted) && log[|log| - 1].CancelRead?
  }

  // The start of the loop body: at first, and after a step that called tools.
  predicate LoopTop(log: seq<Entry>) {
    EndsIn(log, Started) || (EndsIn(log, StepCompleted) && CallDone(log[..|log| - 1]))
  }

  predicate TopChecked(log: seq<Entry>) {
    ClockThenCancel(log) && LoopTop(log[..|log| - 2])
  }

  // Some of the calls that the provider asked for are still to be made.
  predicate MoreCalls(log: seq<Entry>) {
    |Calls(log)| < |Requested(Asked(log))|
  }

  // The batch just asked for passes the guard.
  ghost predicate BatchAccepted(limits: AgentLimits, log: seq<Entry>)
    requires |log| >= 3 && log[|log| - 3].Prompted? && log[|log| - 3].reply.Returned?
  {
    BatchAllowed(limits, |Results(log)|, Signatures(Calls(log)), log[|log| - 3].reply.value.calls)
  }

  // The next call of a batch is due.
  ghost predicate CallMayStart(limits: AgentLimits, log: seq<Entry>) {
    MoreCalls(log) && ((ReplyChecked(log, true) && BatchAccepted(limits, log)) || CallDone(log))
  }

  ghost predicate PreflightCancel(limits: AgentLimits, log: seq<Entry>) {
    log != [] && log[|log| - 1].CancelRead? && CallMayStart(limits, log[..|log| - 1])
  }

  ghost predicate PreflightDone(limits: AgentLimits, log: seq<Entry>) {
    log != [] && log[|log| - 1].ClockRead? && PreflightCancel(limits, log[..|log| - 1])
  }

  predicate OutputFits(limits: AgentLimits, log: seq<Entry>) {
    TotalBytes(Results(log)) <= limits.maxTotalToolOutputBytes
  }

  /** The entry may come next.  What comes before it leaves no choice; nothing follows a final answer, a refused batch,
      an exceeded output budget or the last step allowed. */
  ghost predicate MayFollow(limits: AgentLimits, log: seq<Entry>, e: Entry) {
    match e
    case ClockRead(_) => LoopTop(log) || EndsInPrompt(log) || PreflightCancel(limits, log)
    case CancelRead(_) =>
      || (log != [] && log[|log| - 1].ClockRead? && (LoopTop(log[..|log| - 1]) || EndsInPrompt(log[..|log| - 1])))
      || CallMayStart(limits, log)
      || (EndsIn(log, ToolCompleted) && OutputFits(limits, log))
    case Prompted(_, _) => EndsIn(log, StepStarted)
    case Called(_, _) => EndsIn(log, ToolRequested)
    case Published(event) =>
      match event
      case Started => log == []
      case StepStarted => TopChecked(log) && |Prompts(log)| < limits.maxSteps
      case ToolRequested => PreflightDone(limits, log)
      case ToolCompleted => log != [] && log[|log| - 1].Called?
      case StepCompleted => ReplyChecked(log, false) || (CallDone(log) && !MoreCalls(log))
      case Terminal(_) => false
  }

  // The entry reports what the environment said at that moment, comes in its place, and calls are cleared.
  ghost predicate EntryOk(env: Environment, limits: AgentLimits, started: real, log: seq<Entry>, i: nat)
    requires i < |log|
  {
    && MayFollow(limits, log[..i], log[i])
    && match log[i]
       case ClockRead(expired) => expired == Expired(env, limits, started, i)
       case CancelRead(cancelled) => cancelled == env.cancelled(i)
       case Prompted(_, reply) => reply == env.generate(i) && Cleared(log, i)
       case Called(_, answer) => answer == env.execute(i) && Cleared(log, i)
       case Published(_) => true
  }

  /** Every entry is in order, and none but the last shows that the run must stop. */
  ghost predicate LogOk(env: Environment, limits: AgentLimits, started: real, log: seq<Entry>) {
    && (forall i :: 0 <= i < |log| ==> EntryOk(env, limits, started, log, i))
    && (forall i :: 0 <= i < |log| - 1 ==> !Trips(log[i]))
  }

  // An entry after which the run stops.
  predicate Trips(e: Entry) {
    match e
    case ClockRead(expired) => expired
    case CancelRead(cancelled) => cancelled
    case Prompted(_, reply) => reply.Raised?
    case Called(_, answer) => answer.Crashed?
    case Published(_) => false
  }

  ghost predicate Watched(env: Environment, limits: AgentLimits, started: real, log: seq<Entry>) {
    LogOk(env, limits, started, log) && forall i :: 0 <= i < |log| ==> !Trips(log[i])
  }

  lemma LogGrows(env: Environment, limits: AgentLimits, started: real, log: seq<Entry>, e: Entry)
    requires Watched(env, limits, started, log)
    requires EntryOk(env, limits, started, log + [e], |log|)
    ensures LogOk(env, limits, started, log + [e])
    ensures !Trips(e) ==> Watched(env, limits, started, log + [e])
  {
    hide EntryOk, Trips;
    forall i | 0 <= i < |log| ensures EntryOk(env, limits, started, log + [e], i) {
      EntryStays(env, limits, started, log, e, i);
    }
  }

  lemma EntryStays(env: Environment, limits: AgentLimits, started: real, log: seq<Entry>, e: Entry, i: nat)
    requires i < |log| && EntryOk(env, limits, started, log, i)
    ensures EntryOk(env, limits, started, log + [e], i)
  {
    hide MayFollow;
    assert (log + [e])[..i] == log[..i];
    assert forall j :: 0 <= j <= i ==> (log + [e])[j] == log[j];
  }

  // --- what the log adds up to

  function PromptIn(e: Entry): seq<seq<Message>> {
    if e.Prompted? then [e.messages] else []
  }

  function AskedIn(e: Entry): seq<Response> {
    if e.Prompted? && e.reply.Returned? then [e.reply.value] else []
  }

  function CallIn(e: Entry): seq<ToolCall> {
    if e.Called? then [e.call] else []
  }

  function ResultIn(e: Entry): seq<CallResult> {
    if !e.Called? then [] else
      match e.answer
      case Executed(result) => [result]
      case Refused(message) => [CallResult(false, None, message)]
      case Crashed(_) => []
  }

  /** The conversations handed to the provider, in order. */
  function Prompts(log: seq<Entry>): seq<seq<Message>> {
    if log == [] then [] else Prompts(log[..|log| - 1]) + PromptIn(log[|log| - 1])
  }

  /** The provider's answers, in order. */
  function Asked(log: seq<Entry>): seq<Response> {
    if log == [] then [] else Asked(log[..|log| - 1]) + AskedIn(log[|log| - 1])
  }

  /** How many steps were completed. */
  function StepsDone(log: seq<Entry>): nat {
    if log == [] then 0
    else StepsDone(log[..|log| - 1]) + if log[|log| - 1] == Published(StepCompleted) then 1 else 0
  }

  /** The tool calls made, in order. */
  function Calls(log: seq<Entry>): seq<ToolCall> {
    if log == [] then [] else Calls(log[..|log| - 1]) + CallIn(log[|log| - 1])
  }

  /** The results those calls gave; a call that crashed gave none. */
  function Results(log: seq<Entry>): seq<CallResult> {
    if log == [] then [] else Results(log[..|log| - 1]) + ResultIn(log[|log| - 1])
  }

  lemma LogAddsUp(log: seq<Entry>, e: Entry)
    ensures Prompts(log + [e]) == Prompts(log) + PromptIn(e)
    ensures Asked(log + [e]) == Asked(log) + AskedIn(e)
    ensures StepsDone(log + [e]) == StepsDone(log) + if e == Published(StepCompleted) then 1 else 0
    ensures Calls(log + [e]) == Calls(log) + CallIn(e)
    ensures Results(log + [e]) == Results(log) + ResultIn(e)
  {
  }

  /** The tool calls that answers ask for, numbered within each. */
  function Requested(asked: seq<Response>): seq<ToolCall> {
    if asked == [] then [] else Requested(asked[..|asked| - 1]) + Numbered(asked[|asked| - 1].calls)
  }

  /** Each step records what the provider answered.  The calls made are those asked for, in order: all of each recorded
      step's, then some of the next answer's. */
  ghost predicate AsAsked(steps: seq<StepRecord>, asked: seq<Response>, calls: seq<ToolCall>) {
    && |steps| <= |asked| <= |steps| + 1
    && (forall k :: 0 <= k < |steps| ==> steps[k].response == asked[k])
    && Requested(asked[..|steps|]) <= calls <= Requested(asked)
  }

  lemma RequestedNext(asked: seq<Response>, response: Response)
    ensures Requested(asked + [response]) == Requested(asked) + Numbered(response.calls)
    ensures (asked + [response])[..|asked|] == asked && asked[..|asked|] == asked
  {
    assert (asked + [response])[..|asked|] == asked;
  }

  // One answer more, of which nothing has been called.
  lemma AnswerAsked(steps: seq<StepRecord>, asked: seq<Response>, calls: seq<ToolCall>, response: Response)
    requires AsAsked(steps, asked, calls) && |asked| == |steps|
    ensures AsAsked(steps, asked + [response], calls) && calls == Requested(asked)
    ensures Requested(asked + [response]) == calls + Numbered(response.calls)
  {
    hide Requested, Numbered;
    RequestedNext(asked, response);
  }

  // Some of its calls have been made.
  lemma SomeCallsAsked(steps: seq<StepRecord>, asked: seq<Response>, before: seq<ToolCall>, calls: seq<ToolCall>,
                       response: Response)
    requires AsAsked(steps, asked + [response], before) && Requested(asked) == before && |asked| == |steps|
    requires before <= calls <= before + Numbered(response.calls)
    ensures AsAsked(steps, asked + [response], calls)
  {
    hide Requested, Numbered;
    RequestedNext(asked, response);
  }

  // All of them have been made, and the step is recorded.
  lemma StepAsAsked(steps: seq<StepRecord>, asked: seq<Response>, calls: seq<ToolCall>, step: StepRecord)
    requires AsAsked(steps, asked + [step.response], calls) && |asked| == |steps|
    requires calls == Requested(asked) + Numbered(step.response.calls)
    ensures AsAsked(steps + [step], asked + [step.response], calls)
  {
    hide Requested, Numbered;
    RequestedNext(asked, step.response);
    var longer := asked + [step.response];
    assert longer[..|steps + [step]|] == longer;
  }

  lemma {:induction false} AsManyAnswers(log: seq<Entry>)
    ensures |Asked(log)| <= |Prompts(log)|
  {
    if log != [] {
      AsManyAnswers(log[..|log| - 1]);
    }
  }

  function Failures(results: seq<CallResult>): nat {
    if results == [] then 0
    else Failures(results[..|results| - 1]) + if results[|results| - 1].success then 0 else 1
  }

  function TotalBytes(results: seq<CallResult>): nat {
    if results == [] then 0 else TotalBytes(results[..|results| - 1]) + OutputBytes(results[|results| - 1])
  }

  function StepResults(steps: seq<StepRecord>): seq<CallResult> {
    if steps == [] then [] else StepResults(steps[..|steps| - 1]) + steps[|steps| - 1].results
  }

  lemma {:induction false} FailuresBounded(results: seq<CallResult>)
    ensures Failures(results) <= |results|
  {
    if results != [] {
      FailuresBounded(results[..|results| - 1]);
    }
  }

  // --- cancellation and deadline, over a whole log

  /** Once the flag is set it stays set. */
  ghost predicate StaysCancelled(env: Environment) {
    forall i: nat, j: nat :: i <= j && env.cancelled(i) ==> env.cancelled(j)
  }

  ghost predicate ClockMonotone(env: Environment) {
    forall i: nat, j: nat :: i <= j ==> env.clock(i) <= env.clock(j)
  }

  /** No provider or tool call is made once a check has seen the cancellation, whatever the flag does later; while it
      stays set, none starts later than three log entries after it was set. */
  lemma NoCallAfterCancellation(env: Environment, limits: AgentLimits, started: real, log: seq<Entry>, t: nat, i: nat)
    requires LogOk(env, limits, started, log)
    requires i < |log| && (log[i].Prompted? || log[i].Called?)
    ensures forall k :: 0 <= k < i ==> log[k] != CancelRead(true)
    ensures StaysCancelled(env) && env.cancelled(t) ==> i < t + 3
  {
    assert forall k :: 0 <= k < i ==> !Trips(log[k]);
    assert EntryOk(env, limits, started, log, i);
    var k := if log[i - 3].CancelRead? then i - 3 else i - 2;
    assert EntryOk(env, limits, started, log, k) && log[k] == CancelRead(false);
  }

  /** No provider or tool call is made once a check has seen the wall clock expired; while the clock does not run
      backwards, none starts later than three log entries after it expired. */
  lemma NoCallAfterDeadline(env: Environment, limits: AgentLimits, started: real, log: seq<Entry>, t: nat, i: nat)
    requires LogOk(env, limits, started, log)
    requires i < |log| && (log[i].Prompted? || log[i].Called?)
    ensures forall k :: 0 <= k < i ==> log[k] != ClockRead(true)
    ensures ClockMonotone(env) && env.clock(t) - started >= limits.maxWallTimeSeconds ==> i < t + 3
  {
    assert forall k :: 0 <= k < i ==> !Trips(log[k]);
    assert EntryOk(env, limits, started, log, i);
    var k := if log[i - 3].ClockRead? then i - 3 else i - 2;
    assert EntryOk(env, limits, started, log, k) && log[k] == ClockRead(false);
  }
}
