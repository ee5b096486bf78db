# Great Sage: verified model

A Dafny model of the parts of Great Sage whose control flow has to be right over every input or every run, with
proofs of what those parts promise. `dafny verify dfyconfig.toml` checks the whole project.

What is modelled, in the order in which the files build on each other:

- **Task graphs** (`Digraph`, `CycleSearch`, `Plans`, `TaskGraph`, `ExecutionOrders`, `Kahn`, `Levels`): the
  three-colour depth-first cycle search with its stack, Kahn's loop with its sequence-ordered ready list, and dependency
  depth. `Digraph` holds the independent notions they are measured against: closed walks, acyclicity, listings with
  dependencies first.
- **Plans** (`PlanVerification`): `verify_plan`, `Plan.validate`, and how their verdicts relate.
- **Service registry** (`TextOrder`, `PassOrder`, `ServiceRegistry`): the order that repeated alphabetical passes
  produce, start with rollback, stop.
- **Agent loop** (`Transcripts`, `LoopDetection`, `AgentModels`, `AgentRuns`, `AgentOrchestrator`, `AgentLoop`,
  `AgentGuarantees`, `AgentCourse`, `AgentDeterminism`, `AgentCancellation`, `AgentEmptyIds`, `AgentReports`): the
  bounded loop under six limits. Provider, tools, clock and cancellation are arbitrary functions of the position in the
  run's log, so every statement about `Run` is about every run; `AgentReports` says what provider and caller are told,
  and `AgentDeterminism` shows that the contract of `Run` leaves nothing open.
- **Delegation** (`DelegationModels`, `DelegationRuns`, `DelegationMonitor`, `DelegationManager`,
  `DelegationGuarantees`): the monitor loop over an arbitrary executor, permission routing, bounded reconnects, the
  deadline, clean-up and the kept results. `EventSweep` is the polling adapter on its own; `DelegatedPolling` puts the
  monitor on top of the adapter.
- **Approval hand-off** (`ApprovalHandOff`, `ApprovalGuarantees`): requesters, deciders, timeouts and cancellation as an
  interleaving of atomic steps under two locks. Each call is a request of its own; ids may be used again, even at once.
- **Fast forms and the simple ones they must agree with**: the chunked log tail (`Utf8`, `AuditTail`), SQL filters over
  time texts (`Decimals`, `IsoTime`, `MemoryFilters`), incremental pruning (`RunHistory`, `RunReplacements`, `RunStore`),
  lazily swept memory (`WorkingMemory`), scheduler ticks (`Scheduler`).

Steps, plans and records are values; what the source updates in place (the cycle search, the registry, run statuses,
the loop detector, the adapter's id sets, the delegation manager, the stores, the scheduler) are classes whose methods are
proved against specification functions. Clocks, the network, subprocesses and randomness are parameters. Strings are
sequences of Unicode scalar values.

## Where the code differs from its own words, or from what one would expect

- `greatsage/planning/graph.py:46-47` says the reported cycle reads in execution order. It does not: each entry is
  followed by one of its own dependencies (`CycleSearch.FindCycle`). Every cycle reads in execution order as well exactly
  when each dependency that leads back is mutual (`ReadsForwardsIff`; `CycleReadsBackwards` for a graph where none does).
- `greatsage/memory/service.py:72-77` says the Python filter mirrors the SQL one. They agree on all memories and filters
  exactly when the times that are compared share their UTC offsets (`MemoryFilters.AlwaysAgreeIff`), while
  `greatsage/memory/service.py:558-562` and `greatsage/memory/models.py:175-185` accept any aware datetime. An expiry
  that is not in UTC is enough (`MemoryFilters.ExpiredYetSelected`).
- `greatsage/agent/cancellation.py:3-5` says a cancelled run always ends CANCELLED. It is sure to, whatever follows, when
  it is cancelled just after a clock check that was passed, before a call of a batch, or after a call within the output
  budget (`AgentCancellation.SureWhateverFollows`); cancelled at any other moment it may end otherwise
  (`MayEndOtherwise`): TIMED_OUT, FAILED, COMPLETED or LIMIT_REACHED, and there is a run for each.
- A provider may leave a tool call's id empty. The assistant turn then keeps the empty id while the tool result carries
  `call_<n>` (`greatsage/agent/orchestrator.py:396`), so the transcript is well formed exactly when all ids are given
  (`AgentGuarantees.PromptsWellFormed`; `AgentEmptyIds.EmptyIdRun` is a run that shows the provider a malformed one).
- An approval can be answered "accepted" and still be lost: it comes as the wait runs out
  (`ApprovalGuarantees.LateApprovalIsLost`), or the run is cancelled before the requester's next look
  (`CancelLosesApproval`). If nobody else touches the decision, it is sure to count exactly when the requester has passed
  the cancel check of its round and has not yet looked in vain (`SureToCountIff`); `DecisionStaysIff` says when a decision
  stays behind.
- Request ids are used again (`greatsage/agent/orchestrator.py:396`, `:414-415`, `greatsage/delegation/manager.py:700`), so
  a decision that stayed behind answers the next request with its id (`ApprovalGuarantees.StaleApproval`). That any
  approval a request may get is its own is sure exactly when none is held as it enters, or the run is cancelled
  (`ApprovalIsOwnIff`).
- `greatsage/memory/working_memory.py:64` says that an item added without a time to live never expires. Line 65 gives it
  1800 seconds; only an explicit value of zero or less makes an item stay (`WorkingMemory.NewItem`).
- `greatsage/memory/working_memory.py:78-103` drops expired items as it goes. What get and list answer does not depend on
  it exactly when the clock never goes up and back (`WorkingMemory.AlwaysSameIff`); what remove and sweep answer does.
- `greatsage/agent/history.py:233-250` keeps the newest 500 rows, unless a run that is among them is recorded again with
  an earlier time than the first row left out (`RunReplacements.AlwaysNewestIff`; `RunStore.NewestMissing` for 500 rows).
  `list` may stay right for much longer: it is sure to as long as the runs recorded again with an earlier time, less the
  new and newest runs since, leave room for as many rows as it lists (`RunStore.AlwaysListedRightIff`).
- A permission whose reply raised is never offered again by the adapter: it has had its one answer
  (`DelegatedPolling.NoPermissionAnsweredTwice`).
- `Plan.validate` accepts two steps with one id (`PlanVerification.ValidPlanMayRepeatIds`).

## Model

| member | source | states |
|---|---|---|
| Digraph.AcyclicIffListed | greatsage/planning/graph.py:43-78 | A finite graph has no closed walk if and only if its nodes can be listed with all dependencies first; this is the independent meaning of "valid" used below. |
| CycleSearch.Search.Visit | greatsage/planning/graph.py:55-73 | The recursive visit ends either with a simple cycle or with the node and everything below it done; the stack is restored and stays a path, finished nodes come after their dependencies. |
| CycleSearch.FindCycle | greatsage/planning/graph.py:43-78 | Sound and complete: None if and only if the graph of known ids is acyclic; otherwise a closed walk with distinct interior nodes in which each node is followed by one of its dependencies. |
| CycleSearch.ReadsForwardsIff | greatsage/planning/graph.py:46-47 | Every simple cycle of a graph, so whichever is reported, reads in execution order if and only if every dependency from which a way leads back is mutual. |
| CycleSearch.CycleReadsBackwards | greatsage/planning/graph.py:46-47 | A cyclic graph such that in every cycle of it that can be reported no entry may run before the next. |
| TaskGraph.FindMissingDeps | greatsage/planning/graph.py:23-31 | Reports exactly the (step, dependency) pairs whose dependency is no step. |
| TaskGraph.FindSelfDeps | greatsage/planning/graph.py:34-40 | Reports exactly the steps that depend on themselves. |
| Kahn.DrainedIsComplete | greatsage/planning/graph.py:107-133 | On an acyclic graph an empty ready list means that nothing is left over, so "could not be fully ordered" is unreachable. |
| Kahn.TopologicalOrder | greatsage/planning/graph.py:81-133 | With distinct ids: succeeds exactly on valid graphs of at most 50 steps, with a permutation in which every step follows its dependencies and which is lexicographically least by sequence among all such orders; each error is justified. |
| ExecutionOrders.LowestReadyFirstIsLeast | greatsage/planning/graph.py:107-128 | Always running the ready step with the smallest sequence gives the lexicographically least of all execution orders. |
| ExecutionOrders.LowestReadyFirstIsUnique | greatsage/planning/graph.py:107-128 | There is only one such order, so the result is determined by the plan. |
| ExecutionOrders.SequenceOrderKept | greatsage/planning/graph.py:81-133 | When every dependency has a smaller sequence, the order is exactly sequence order. |
| Levels.ComputeLevels | greatsage/planning/graph.py:136-146 | Each step's level is the length of its longest dependency chain, and below the number of steps. |
| Levels.DeeperThanDependencies | greatsage/planning/graph.py:136-146 | A step's level is strictly greater than that of each dependency. |
| PlanVerification.StepErrorsCharacterised | greatsage/planning/verify.py:103-124 | The per-step check is clean if and only if ids are distinct and every step is well formed. |
| PlanVerification.StepFaultsReported | greatsage/planning/verify.py:103-124 | Each issue of a single step (duplicate id, empty description, empty or unknown tool, invalid risk) is reported if and only if a step has it; a duplicate, if and only if two steps carry the id. |
| PlanVerification.RiskyIdsCharacterised | greatsage/planning/verify.py:115-124 | A step is listed for approval, and warned about, if and only if its risk is high or critical; it is warned about if and only if it has no acceptance criteria. |
| PlanVerification.VerifyPlan | greatsage/planning/verify.py:75-153 | The report is ok if and only if the content is in order and there are at most 50 steps; then it carries the full execution order and the deepest level. Every fault of the plan is reported and nothing else (of cycles, one that there is); the defensive except is entered only above 50 steps. |
| PlanVerification.ValidatePlan | greatsage/planning/models.py:101-128 | Accepts exactly the plans with a goal, valid steps, contiguous sequences and a valid graph; whatever an error says is so. |
| PlanVerification.VerifiedPlanValidates | greatsage/planning/verify.py:75-153 | A verified plan passes validation if and only if no dependency is a blank id, so always when no step id is blank. |
| PlanVerification.VerifiedLinearPlan | greatsage/planning/verify.py:136-143 | A verified plan whose dependencies point backwards runs exactly as written. |
| PlanVerification.ValidPlanMayRepeatIds | greatsage/planning/models.py:101-128 | Validation alone lets through a plan in which two steps share an id; verification never does. |
| PassOrder.PassOrderIsUnique | greatsage/core/registry.py:62-81 | The start order is determined by the dependency graph alone: by (number of backward-sorting dependencies on a chain, name). |
| ServiceRegistry.StartOrder | greatsage/core/registry.py:62-81 | Terminates within n passes; returns each service once after its dependencies if and only if nothing is missing and there is no cycle; a missing dependency is the first one in order, a reported tangle is the exact remainder and contains a cycle. |
| ServiceRegistry.PassesBounded | greatsage/core/registry.py:65-80 | Every pass but the last places a service, so there are at most as many passes as services. |
| ServiceRegistry.Registry.Register | greatsage/core/registry.py:38-41 | A new name is added at the end, a known name is refused and changes nothing. |
| ServiceRegistry.Registry.StartAll | greatsage/core/registry.py:83-97 | All services are started in start order, or, when one start raises, exactly those started before it are stopped, in reverse; the error names the last one started. |
| ServiceRegistry.Registry.StopAll | greatsage/core/registry.py:99-101 | Stops in reverse registration order. |
| ServiceRegistry.Registry.StopReverse | greatsage/core/registry.py:103-116 | Every listed service with a stop() is stopped, last first, although stops may raise. |
| ServiceRegistry.StopsInReverse | greatsage/core/registry.py:103-116 | What is listed later is stopped first. |
| ServiceRegistry.StopsEach | greatsage/core/registry.py:103-116 | Exactly the listed services that have a stop() are stopped, and none is started. |
| ServiceRegistry.StartsInOrder | greatsage/core/registry.py:83-97 | What is listed earlier is started first. |
| ServiceRegistry.StartsEach | greatsage/core/registry.py:83-97 | Exactly the listed services that have a start() are started, and none is stopped. |
| LoopDetection.LoopDetector.Record | greatsage/agent/loopdetect.py:42-50 | The streak is always the length of the maximal equal suffix of the recorded calls, and a loop is reported exactly when `threshold` equal calls in a row have just appeared. |
| LoopDetection.StreakDecidesLoop | greatsage/agent/loopdetect.py:42-50 | Looking at the streak alone decides whether the whole history contains `threshold` equal calls in a row. |
| AgentModels.AgentRunStatus.Transition | greatsage/agent/models.py:71-133 | A change of state happens if and only if the table allows it; the history of states stays legal. |
| AgentModels.TransitionRule | greatsage/agent/models.py:71-118 | The table in words: which states a run may enter from which, for every pair. |
| AgentModels.TerminalIsLast | greatsage/agent/models.py:71-123 | In a legal history a terminal state is the last. |
| AgentOrchestrator.GuardCalls | greatsage/agent/orchestrator.py:375-411 | Accepts a batch only within the batch, call and loop limits and with named tools, and then records all of it; otherwise says which limit the batch breaks. |
| AgentOrchestrator.RefusedIsNotAllowed | greatsage/agent/orchestrator.py:375-411 | No batch is refused that keeps all limits. |
| Transcripts.WellFormedIffIdsGiven | greatsage/agent/orchestrator.py:527-545 | A transcript is well formed (each tool-call turn followed by its results, same ids, same order) if and only if the provider gave every call an id. |
| Transcripts.EmptyIdMalformed | greatsage/agent/orchestrator.py:396 | One answered call without an id: its turn is malformed. |
| AgentRuns.NoCallAfterCancellation | greatsage/agent/orchestrator.py:140-238 | No provider or tool call is made once a check has seen the cancellation, whatever the flag does then; while it stays set, none starts later than three log entries after it was set. |
| AgentRuns.NoCallAfterDeadline | greatsage/agent/orchestrator.py:453-459 | The same for the wall clock. |
| AgentLoop.ExecuteBatch | greatsage/agent/orchestrator.py:171-215 | Calls run in order, each answered at once, until a check or the output budget stops the run; counters match the log. |
| AgentLoop.RunLoop | greatsage/agent/orchestrator.py:140-306 | The loop ends within max_steps turns, with everything in `Ended` true of the run. |
| AgentLoop.Run | greatsage/agent/orchestrator.py:100-306 | For every environment: one terminal state, equal to the status and the one that belongs to the way the run stopped, after exactly one terminal event, by legal transitions only; the result's counters, reason and text are those of the log. |
| AgentLoop.EndingsTold | greatsage/agent/orchestrator.py:250-306 | Which terminal state and which reason each way to stop has. |
| AgentGuarantees.PromptsWellFormed | greatsage/agent/orchestrator.py:140-238 | Every prompt is the initial conversation and whole turns, and is well formed if and only if the ids in those turns were given. |
| AgentEmptyIds.EmptyIdPrompt | greatsage/agent/orchestrator.py:164-215 | Whenever a provider keeps asking for one named call without an id and nothing stops the run, it is asked a second time, with a malformed transcript. |
| AgentEmptyIds.EmptyIdRun | greatsage/agent/orchestrator.py:164-215 | There is such a run. |
| AgentGuarantees.CallsAsAsked | greatsage/agent/orchestrator.py:163-238 | The tool calls made are exactly those the provider asked for, in order and with their numbered ids: all of each recorded step's, then a prefix of one more answer's; each step records what the provider answered. |
| AgentReports.PromptTells | greatsage/agent/orchestrator.py:140-238 | Each prompt of a run adds to the initial conversation the provider's answers so far and, for each call they asked for, one message under the call's id that tells its recorded result: an output of at most 4000 characters as it is, a longer one cut and marked, nothing for a success without output, the error of a failure. |
| AgentReports.ResultTells | greatsage/agent/orchestrator.py:413-451 | The result recorded for a call is what the tool returned, or a failure with the text of its refusal. |
| AgentReports.CountersTell | greatsage/agent/orchestrator.py:190-215 | The counters of a run are the number of results, of failed ones among them, and the length of all outputs and errors put together. |
| AgentReports.BudgetStops | greatsage/agent/orchestrator.py:190-215 | A run stops for its output budget if and only if the output exceeds it, and so at the first call that exceeds it. |
| AgentReports.LimitsKept | greatsage/agent/orchestrator.py:140-306 | No more steps and calls than the limits allow; steps are numbered from 1; a run that stops for its steps has made all of them, one that finishes ends with an answer without tool calls. |
| AgentReports.ReadTruly | greatsage/agent/orchestrator.py:140-238 | Every look at clock and token reports what they said at that moment, every call what provider or tool answered; before each call both checks passed. |
| AgentReports.RefusedWhy | greatsage/agent/orchestrator.py:375-411 | A refused batch is the last one asked for, and breaks the limit that the reason names. |
| AgentReports.IdenticalIff | greatsage/agent/loopdetect.py:15-22 | Two calls count as identical if and only if tool and arguments are the same, for tool ids without a colon. |
| AgentReports.CallNumbered | greatsage/agent/orchestrator.py:396 | A call without an id gets call_<its number in the batch>; a given id is kept. |
| AgentGuarantees.ResultsConserved | greatsage/agent/orchestrator.py:140-238 | Tool results are those of the recorded steps and the aborted turn; failed <= total <= max_tool_calls. |
| AgentGuarantees.NoIdenticalRun | greatsage/agent/loopdetect.py:42-50 | No run makes `threshold` identical tool calls in a row. |
| AgentGuarantees.RefusedBatchNotCalled | greatsage/agent/orchestrator.py:375-411 | When the guard refuses a batch, the run ends without calling any of it. |
| AgentGuarantees.NothingAfterTrip | greatsage/agent/orchestrator.py:140-306 | A late clock, a set token, a provider or tool that raised is the last thing in the run, and each fixes how the run stops. |
| AgentGuarantees.CompletedInTime | greatsage/agent/orchestrator.py:140-306 | A completed run had been neither cancelled nor out of time at its last checks. |
| AgentDeterminism.RunIsDetermined | greatsage/agent/orchestrator.py:100-306 | What Run promises fixes it: two runs whose environments say the same while the first lasts have the same log (calls, messages, events, checks), stop, steps, counters and abandoned results. |
| AgentDeterminism.SamePast | greatsage/agent/orchestrator.py:140-306 | Runs whose environments agree up to moment t have the same log up to t. |
| AgentDeterminism.NothingAfterEnd | greatsage/agent/orchestrator.py:140-306 | A run ends only where it cannot go on: no entry may follow its last one. |
| AgentCancellation.CancelledIff | greatsage/agent/orchestrator.py:140-306 | A run cancelled at moment t ends CANCELLED if and only if it looks at the token at t or later, or definitions, provider or a tool raise the cancellation error. |
| AgentCancellation.CancelledForSure | greatsage/agent/orchestrator.py:140-238 | A run cancelled when the token is to be looked at next (after a passed clock check, before a call of a batch, after a call within the budget) ends CANCELLED, whatever the environment does then. |
| AgentCancellation.SureWhateverFollows | greatsage/agent/orchestrator.py:140-238 | So it does in every environment that is the same up to that moment. |
| AgentCancellation.MayEndOtherwise | greatsage/agent/orchestrator.py:140-238 | For every run still going on at moment t there is one with the same past that is cancelled at t and ends CANCELLED if and only if the token is to be looked at next. |
| AgentCancellation.CancelledTimesOut | greatsage/agent/orchestrator.py:141-142 | The clock is looked at before the token: out of time at the first check, a run cancelled from the start ends TIMED_OUT. |
| AgentCancellation.CancelledFails | greatsage/agent/orchestrator.py:155-162 | Cancelled while the provider is asked, a run ends FAILED when the provider raises. |
| AgentCancellation.CancelledCompletes | greatsage/agent/orchestrator.py:161-238 | Cancelled after the checks of a final answer, a run ends COMPLETED. |
| AgentCancellation.CancelledHitsLimit | greatsage/agent/orchestrator.py:208-215 | Cancelled during a tool call whose output exceeds the budget, a run ends LIMIT_REACHED. |
| AgentCancellation.TimedOutRun | greatsage/agent/orchestrator.py:141-142 | There is such a run that ends TIMED_OUT. |
| AgentCancellation.FailedRun | greatsage/agent/orchestrator.py:155-162 | There is such a run that ends FAILED. |
| AgentCancellation.CompletedRun | greatsage/agent/orchestrator.py:161-238 | There is such a run that ends COMPLETED. |
| AgentCancellation.LimitReachedRun | greatsage/agent/orchestrator.py:208-215 | There is such a run that ends LIMIT_REACHED. |
| DelegationModels.DelegationRunStatus.Transition | greatsage/delegation/models.py:66-118 | Under the table's condition the state changes and the history stays legal; every call in the model meets the condition. |
| DelegationModels.TransitionRule | greatsage/delegation/models.py:66-101 | The table in words: which states a delegation may enter from which, for every pair. |
| DelegationMonitor.HandlePermission | greatsage/delegation/manager.py:663-754 | Exactly one response to a request within the limit, with the verdict of policy and approver; none over the limit; the state is RUNNING again. |
| DelegationMonitor.WatchSweep | greatsage/delegation/manager.py:566-623 | The events of a sweep are handled in order, each after a look at token and clock, up to the first that ends the run or whose reply raises. |
| DelegationMonitor.Monitor | greatsage/delegation/manager.py:550-659 | Ends for every executor and every poll interval, with a result that fits the first stopping entry of the log; at most three sweeps are lost before the last; sweeps are spaced and started before the deadline; the stored state stays RUNNING unless completed. |
| DelegationManager.Manager.RunSession | greatsage/delegation/manager.py:475-533 | From the created session on: the session is aborted unless the executor completed, disposed exactly once and last, and the task is not left among the running ones. |
| DelegationManager.Manager.Run | greatsage/delegation/manager.py:440-548 | Refused, without a call, when as many delegations are running as may be; a terminal result in every case, and it is stored. |
| DelegationManager.AbortedUnlessCompleted | greatsage/delegation/manager.py:475-533 | A session is created first and disposed last, each once; in between it is aborted if and only if the executor did not complete and the session has an id. |
| DelegationManager.KeepsNew | greatsage/delegation/manager.py:535-539 | At most 25 results are kept, one per task, always including the new one; only the oldest can be dropped. |
| DelegationManager.KeptAreNewest | greatsage/delegation/manager.py:535-539 | For different task ids the kept results are the newest 25 of all that ever ran. |
| DelegationManager.KeptAreLatest | greatsage/delegation/manager.py:535-539 | Task ids may be used again: the kept results are those of the 25 tasks that entered the dictionary last, in that order, each the latest of its task. |
| DelegationGuarantees.RequestsAnswered | greatsage/delegation/manager.py:663-754 | Over a whole run each handled request within the limit has one answer, in order; one request over the limit ends the run, and only then is the reason permission_limit. |
| DelegationGuarantees.ApprovedIffAllowed | greatsage/delegation/manager.py:721-754 | A permission is accepted if and only if the policy allows it, or asks and the installed approver approves; the answer carries the request's id. |
| DelegationGuarantees.AnswersCounted | greatsage/delegation/manager.py:663-754 | There are as many answers as requests, up to the limit. |
| DelegationGuarantees.RequestsAt | greatsage/delegation/manager.py:566-584 | The k-th request is the k-th event that asks for a permission. |
| DelegationGuarantees.NothingAfterTheEnd | greatsage/delegation/manager.py:561-623 | The first set token, clock at or past the deadline, or final event is the last thing in the run. |
| DelegationGuarantees.EndDecides | greatsage/delegation/manager.py:561-653 | State and reason of the result follow, both ways, from the last entry of the run; event_connection_lost means that exactly four sweeps were lost. |
| DelegationGuarantees.LossesAreLost | greatsage/delegation/manager.py:624-653 | A sweep counts as lost if and only if it brings nothing, breaks off, or has a request whose reply raises. |
| DelegationGuarantees.EveryStepChecked | greatsage/delegation/manager.py:561-576 | Every sweep and every event comes right after a look at a token that was not set and a clock that was before the deadline. |
| DelegationGuarantees.OutputBounded | greatsage/delegation/manager.py:585-607 | output_limit if and only if the output exceeds the limit, which only the last event can do. |
| DelegationGuarantees.OutputIsText | greatsage/delegation/manager.py:586 | The counted output is the length in UTF-8 of all progress messages put together. |
| DelegationGuarantees.UsedUpToFailure | greatsage/delegation/manager.py:566-653 | A sweep is used up to the first reply that fails, that request included; all of it when none does. |
| DelegationGuarantees.SweepsBounded | greatsage/delegation/manager.py:550-659 | At most ceil(wall / pace) sweeps are started, where pace is the least time between two of them, such as a positive poll interval. |
| EventSweep.Adapter.IterSessionEvents | greatsage/intelligence/opencode.py:231-302 | One sweep yields what the specification says for a consumer stopping anywhere, and changes no other session. |
| EventSweep.Adapter.DisposeSession | greatsage/intelligence/opencode.py:374-379 | Forgets one session and only that one. |
| EventSweep.TranslateConcat | greatsage/intelligence/opencode.py:386-428 | A timeline may be read in two pieces, the second with the ids of the first already seen. |
| EventSweep.TranslateTells | greatsage/intelligence/opencode.py:386-428 | What each kind of message becomes, and that every new message with an id is translated, in order. |
| EventSweep.AllPendingAsked | greatsage/intelligence/opencode.py:263-292 | A sweep of permissions that ends has asked for each usable id not known before exactly once, in order, with its action ("unknown" without one), path and text. |
| EventSweep.SweepTells | greatsage/intelligence/opencode.py:241-302 | A whole sweep: the translated messages, then the requests, or a note when there is neither. |
| EventSweep.SweepIsPrefix | greatsage/intelligence/opencode.py:255-266 | However early the consumer stops, the events and recorded ids are those of a prefix of the snapshot. |
| EventSweep.PollingReproducesStream | greatsage/intelligence/opencode.py:241-302 | For an append-only timeline, however it is cut into sweeps and whichever polls fail, the message events are the translation of a prefix of it, each once and in order, and all of the last snapshot when its messages were exhausted. |
| EventSweep.PermissionsSurfaceOnce | greatsage/intelligence/opencode.py:267-292 | Over a series of polls each permission id surfaces at most once. |
| EventSweep.NoPermissionForgotten | greatsage/intelligence/opencode.py:263-292 | Over a series of polls, every id pending in a poll that was exhausted has surfaced. |
| EventSweep.ExhaustedSweepYields | greatsage/intelligence/opencode.py:293-302 | A sweep that runs to its end yields something, so a quiet session is never taken for a lost one. |
| DelegatedPolling.YieldedUpTo | greatsage/intelligence/opencode.py:241-302 | What a consumer gets from a sweep is the full sweep cut where it stops. |
| DelegatedPolling.StreamIsReplay | greatsage/delegation/manager.py:566-653 | The requests and messages the monitor is offered, with its early stops, are those of the series of polls. |
| DelegatedPolling.AdapterEnvironmentPolls | greatsage/intelligence/opencode.py:241-302 | Every series of snapshots belongs to an environment whose sweeps are the adapter's, so the results below are about something. |
| DelegatedPolling.NoPermissionAnsweredTwice | greatsage/delegation/manager.py:663-754 | Manager and adapter together never answer one permission id twice in a run. |
| DelegatedPolling.MessagesReachManagerOnce | greatsage/delegation/manager.py:566-653 | Manager and adapter together: the i-th of the executor's messages that the manager acts on is the i-th one of its timeline, so none is lost, doubled or out of place. |
| ApprovalHandOff.EveryRunKeepsInvariant | greatsage/agent/approval_broker.py:77-138 | Every interleaving keeps the pending queue, wait handles, decisions and outcomes in agreement with what happened. |
| ApprovalGuarantees.RecordedAsDecided | greatsage/agent/approval_broker.py:116-138 | An approval in the log was called for; so was a denial, singly or with all pending ones. |
| ApprovalGuarantees.DecisionIsRecorded | greatsage/agent/approval_broker.py:116-130 | A decision about a pending id is in the log, with its outcome, once the decider has let go of the lock. |
| ApprovalGuarantees.NotPendingIgnored | greatsage/agent/approval_broker.py:116-130 | A decision about an id that is not pending changes nothing. |
| ApprovalGuarantees.RejectAllIsRecorded | greatsage/agent/approval_broker.py:132-138 | After rejecting all, every id that was pending has been denied. |
| ApprovalGuarantees.RecordedStands | greatsage/agent/approval.py:88-97 | The last recorded decision about an id is the one held, as long as none was taken or recorded since. |
| ApprovalGuarantees.LookedMayStillTake | greatsage/agent/approval.py:62-75 | A requester that has looked in vain may still take a decision that was recorded since, in its next round. |
| ApprovalGuarantees.HandleWhileWaiting | greatsage/agent/approval.py:43-75 | For an id that one request uses, there is a wait handle exactly from entering the wait to leaving it. |
| ApprovalGuarantees.ApprovedWasAccepted | greatsage/agent/approval.py:43-97 | An APPROVED outcome was accepted while its id was pending, and neither replaced nor taken before; it is older than the request exactly when it was already held at entry and untouched since. |
| ApprovalGuarantees.ApprovalIsOwnIff | greatsage/agent/approval.py:43-97 | Over all continuations: any approval this request gets was accepted during its own attempt if and only if, as it enters, no approval is held for its id or the run is cancelled. |
| ApprovalGuarantees.StaleApproval | greatsage/agent/orchestrator.py:396-415 | A run in which the second request with an id is approved by the decision the first one left behind. |
| ApprovalGuarantees.GivingUpDenies | greatsage/agent/approval.py:43-75 | A requester that timed out or saw the cancellation is denied. |
| ApprovalGuarantees.AllReturnedLeavesNothing | greatsage/agent/approval_broker.py:77-90 | Once all requests have returned, the pending queue and the wait handles are empty. |
| ApprovalGuarantees.AcceptedIsTakenIff | greatsage/agent/approval.py:55-75 | After a decision was accepted, the request takes one if and only if it did not give up and had not taken one before; the outcome is the accepted one unless it was replaced or taken in between. |
| ApprovalGuarantees.SureToCountIff | greatsage/agent/approval.py:55-75 | A held decision is sure to be the one taken, if nobody else touches it, if and only if the requester has passed the cancel check of its round and not yet looked in vain. |
| ApprovalGuarantees.DecisionStaysIff | greatsage/agent/approval.py:88-97 | What the latest request of an id leaves behind: after giving up, a decision if and only if one was held at entry or accepted since; after taking one, if and only if another was accepted later. |
| ApprovalGuarantees.LateApprovalIsLost | greatsage/agent/approval.py:62-69 | A run in which an approval accepted after the last look ends in a denial and stays behind. |
| ApprovalGuarantees.CancelLosesApproval | greatsage/agent/approval.py:56-61 | A run in which an approval accepted while the requester waits is lost to a cancellation before its next look. |
| ApprovalGuarantees.OutcomeIsFinal | greatsage/agent/approval.py:43-75 | An outcome never changes. |
| ApprovalGuarantees.EveryRequestCanReturn | greatsage/agent/approval_broker.py:77-138 | From every state, finishing the work under the lock and at most six steps of its own bring a requester back. |
| Utf8.DecodeEncode | greatsage/delegation/manager.py:586 | Decoding undoes encoding, whatever bytes follow; the byte count of output is that of this encoding. |
| Utf8.FirstIsMaximal | greatsage/observability/audit_view.py:60 | Bytes that do not start with a character are replaced as far as they could have been the start of one, and by one byte at least. |
| Utf8.DecodeAtNewline | greatsage/observability/audit_view.py:60 | Decoding with replacement falls apart at every newline byte, also after truncated sequences. |
| AuditTail.SplitAfterNewline | greatsage/observability/audit_view.py:60 | After a newline, splitting into lines starts afresh, for all of Python's line breaks. |
| AuditTail.SplitLinesCut | greatsage/observability/audit_view.py:60 | Splitting cuts the text at every line break and nowhere else, keeps \r\n together and loses nothing. |
| AuditTail.TailDecides | greatsage/observability/audit_view.py:55-61 | More newlines than lines asked for decide the last lines, although the data may start inside a line or a character. |
| AuditTail.TailLines | greatsage/observability/audit_view.py:45-61 | The backward chunked read gives the last lines of splitting the whole file, `limit` of them or all, for every content, limit >= 1 and chunk size. |
| AuditTail.TailAudit | greatsage/observability/audit_view.py:64-74 | Fails exactly for a bad count or a missing or unreadable file; otherwise gives, in order, the parsed lines at exactly those places among the last lines where a line is not blank. |
| AuditTail.SearchLines | greatsage/observability/audit_view.py:89-99 | The bounded deque, reversed, is the newest `limit` matches, newest first: matching lines at falling places, none left out that is above one of them. |
| AuditTail.SearchAudit | greatsage/observability/audit_view.py:77-99 | Fails exactly for a blank or long query, a bad limit or a missing or unreadable file; otherwise gives the parsed ones, at exactly the places that are not blank, of the newest `limit` matching lines of the decoded file, newest first. |
| AuditTail.TextLinesCut | greatsage/observability/audit_view.py:92-95 | Reading a text file line by line cuts it at every newline and nowhere else, keeps \r\n together, gives each line the newline it had as \n, and loses nothing. |
| IsoTime.TextOrderIsTimeOrder | greatsage/memory/sqlite_repository.py:128-129 | For one UTC offset, comparing the variable-width texts is comparing the instants, and equal texts are equal instants. |
| IsoTime.OffsetsAgreeIffEqual | greatsage/memory/sqlite_repository.py:128-129 | Text order is time order for two offsets if and only if they are the same. |
| IsoTime.YearsApart | greatsage/memory/sqlite_repository.py:128-129 | Times with a whole calendar year between them compare alike as texts and as instants, whatever their offsets. |
| IsoTime.FieldsOrderLocal | greatsage/memory/sqlite_repository.py:128-129 | Calendar fields order datetimes of one offset as the proleptic Gregorian day count does. |
| IsoTime.IsoReads | greatsage/memory/sqlite_repository.py:128-129 | The text of a time is YYYY-MM-DDTHH:MM:SS with the digits of its fields, a fraction of six digits if there is one, and the signed offset. |
| IsoTime.TicksAreCounted | greatsage/memory/sqlite_repository.py:128-129 | The next microsecond on the calendar's clock is one instant later, over the ends of minutes, days, months and leap years. |
| IsoTime.MonthStarts | greatsage/memory/sqlite_repository.py:128-129 | The days before each month of the calendar. |
| IsoTime.SameInstantAbroad | greatsage/memory/sqlite_repository.py:128-129 | A clock further east shows the same instant later, by the difference of the offsets. |
| MemoryFilters.WhereClause | greatsage/memory/sqlite_repository.py:556-590 | The appended conditions and parameters are those of the specification, in order. |
| MemoryFilters.SelectedReads | greatsage/memory/sqlite_repository.py:556-590 | The SQL condition (three-valued, over stored texts) selects a row if and only if the record satisfies the Python predicate with times compared as texts. |
| MemoryFilters.FiltersAgree | greatsage/memory/service.py:71-108 | When the compared times share their offsets, a row satisfies the SQL condition if and only if its record satisfies the Python predicate. |
| MemoryFilters.AlwaysAgreeIff | greatsage/memory/service.py:71-108 | For any offsets: the two filters agree on all memories, filters and times with them if and only if each compared pair shares its offset (creation time and both bounds, expiry and its bound, expiry and UTC unless expired ones are included), or the filter asks for an expiry and there is none. |
| MemoryFilters.ExpiredYetSelected | greatsage/memory/sqlite_repository.py:582-584 | The default filter and an expiry on a clock ahead of UTC: SQL selects the expired memory, the Python filter rejects it. |
| RunHistory.RankedIsSorted | greatsage/agent/history.py:239-247 | The ranking holds every row, by descending text of the finishing time. |
| RunHistory.RankedAt | greatsage/agent/history.py:239-247 | The ranking by place: every row once, later times first, and of equal times the row recorded later first. |
| RunHistory.RankedByTime | greatsage/agent/history.py:239-247 | For finishing times in UTC the ranking is by time, latest first. |
| RunHistory.InsertTake | greatsage/agent/history.py:233-250 | The first n of the ranking are the same whether it is cut before or after an insertion. |
| RunReplacements.NewestKept | greatsage/agent/history.py:218-250 | For every history, in any order of arrival and with ids recorded again: a table of n rows agrees with the ranking of everything on its first n - deficit rows, where the deficit grows by one with each run recorded again with an earlier time and shrinks by one with each run that is new and newest. |
| RunReplacements.UnprunedAt | greatsage/agent/history.py:218-231 | The table without pruning holds, in order of arrival, exactly the latest recording of every id. |
| RunReplacements.NewestAt | greatsage/agent/history.py:218-277 | What the first rows of the ranking are, in terms of the history alone: the latest recordings of their ids, later times first and of equal times the one recorded later, with all of the first `limit` and no more. |
| RunReplacements.DistinctUndemoted | greatsage/agent/history.py:218-250 | When no id repeats the deficit is zero, so the newest n of everything recorded are kept. |
| RunReplacements.ListedAreNewest | greatsage/agent/history.py:233-277 | Within that bound no missing run's finishing text is greater than a listed one's. |
| RunReplacements.ListedAreNewestInTime | greatsage/agent/history.py:233-277 | For finishing times in UTC, no missing run finished later than a listed one. |
| RunReplacements.DemotedIff | greatsage/agent/history.py:218-277 | The bound is exact: after d runs of a full table, latest first, were recorded again with ever earlier times, a list of `limit` rows is right if and only if d + limit <= n. |
| RunReplacements.AlwaysNewestIff | greatsage/agent/history.py:218-250 | For histories in which ids repeat: the table always holds the newest n rows if and only if no row among the first n is recorded again with a time before that of the first row left out. |
| RunReplacements.DroppedStaysDropped | greatsage/agent/history.py:218-250 | For every n and more than n runs with different ids: when the latest is recorded again with the earliest time, the run at place n of the old ranking is among the newest n and is not in the table. |
| RunStore.AgentRunStore.List | greatsage/agent/history.py:261-277 | Fails exactly for a limit outside 1..200; otherwise lists the newest of everything ever recorded (as RunReplacements.NewestRuns says it, without table and ranking), although older rows are gone, whenever the deficit and the limit fit into 500, or no row fell out of the table. |
| RunStore.AlwaysListedRightIff | greatsage/agent/history.py:261-277 | A list of `limit` rows is right for all histories with finishing times in UTC and a deficit of at most d if and only if d + limit <= 500. |
| RunStore.NewestMissing | greatsage/agent/history.py:29 | A history with finishing times in UTC and a single run recorded again with an earlier time, after which one of the newest 500 runs is not in the table. |
| WorkingMemory.StepAgrees | greatsage/memory/working_memory.py:57-105 | One operation on maps that agree on live items gives the same answer and keeps them in agreement. |
| WorkingMemory.SameAnswers | greatsage/memory/working_memory.py:57-105 | While the clock never goes up and back again, every history of operations is answered as if nothing were ever swept. |
| WorkingMemory.LazyWithin | greatsage/memory/working_memory.py:57-105 | Whatever the clock does, the swept map holds nothing that the never-swept one does not. |
| WorkingMemory.AlwaysSameIff | greatsage/memory/working_memory.py:57-105 | For any readings of the clock: all histories with these readings are answered alike if and only if no three readings, one after the other, have a second greater than the first and the third. |
| WorkingMemory.GetTells | greatsage/memory/working_memory.py:57-88 | What the never-swept map answers: an item is found if and only if the last addition of its id stands (no removal or clearing since) and its time has not come, where a missing ttl is 1800 seconds and one of zero or less never ends. |
| WorkingMemory.ListTells | greatsage/memory/working_memory.py:90-95 | The same for a listing: it has exactly these items. |
| WorkingMemory.Memory.Get | greatsage/memory/working_memory.py:78-88 | Returns what the never-swept map returns; with a clock that goes up and back, whatever it does return is right. |
| WorkingMemory.Memory.List | greatsage/memory/working_memory.py:90-103 | Returns the live items of the never-swept map, newest first; with a clock that goes up and back, some of them. |
| Scheduler.RunsAfter | greatsage/scheduler/service.py:141-178 | The k-th run comes at least k intervals after the schedule first falls due, for any tick times. |
| Scheduler.RunsWhenDue | greatsage/scheduler/service.py:141-178 | An enabled schedule runs at exactly these ticks: the first one at or after it falls due, and then the first one at or after each run plus its interval; a disabled one never runs. |
| Scheduler.TickTells | greatsage/scheduler/service.py:141-178 | What a tick leaves of each schedule: one that ran is due one interval later and remembers how its handler ended; the others are unchanged. |
| Scheduler.ServiceRunsSpaced | greatsage/scheduler/service.py:141-178 | In any series of ticks of the service, runs of one schedule k apart are at least k intervals apart. |
| Scheduler.RunsAreTimes | greatsage/scheduler/service.py:141-178 | Schedules do not disturb each other: each runs as it would alone. |
| Scheduler.SchedulerService.RunDue | greatsage/scheduler/service.py:141-178 | A tick runs exactly the due, enabled schedules, once each and in order, and leaves none due, whatever handlers do. |
| Scheduler.SchedulerService.Add | greatsage/scheduler/service.py:92-126 | Adds a schedule that is due at once, exactly when its kind is known, there is room, and name, interval and tool id are valid. |

## Left out

- Kahn.TopologicalOrder: when ids repeat, only termination, the length of the result and the justification of errors are
  stated; `verify_plan` reports repeated ids before it asks for an order.
- Levels.ComputeLevels: with repeated ids only that success implies a valid graph.
- AgentLoop.Run: durations, provider and model names in the result, and session bookkeeping are not modelled.
- LoopDetection.LoopDetector.constructor: takes a threshold of at least 2, which limit validation guarantees; the exception
  for smaller values is not modelled.
- AgentRuns.NoCallAfterCancellation: counts in log entries, one entry per check, event or call.
- DelegationMonitor.Monitor: some least time passes between two sweeps (with a poll interval of zero, in the sweeps
  themselves, with a positive one in the pause, see DelegationRuns.PollIsPace); without it only the executor could end a
  run. abort_session and the approval provider are taken not to raise, and the stored diff of a completed session is not
  modelled.
- DelegationManager.Manager.Run: one caller at a time; the session-count check and the registration are separate critical
  sections, so the bound does not hold for concurrent callers.
- DelegationManager.KeptAreNewest: is for different task ids; KeptAreLatest is for ids that are used again.
- DelegatedPolling.NoPermissionAnsweredTwice: a response that raised counts as given.
- IsoTime.TextOrderIsTimeOrder: UTC offsets are whole minutes.
- MemoryFilters.FiltersAgree: confidence values are reals, and rows are compared as values, not through SQLite's storage.
- WorkingMemory.SameAnswers: the results of remove and sweep and the size do depend on when items were dropped and are no
  part of the answers; the order of equal timestamps in a listing is not stated.
- Scheduler.SchedulerService.Add: of the payload only the tool id is modelled.
- AuditTail.SearchLines: case folding and redaction are part of the arbitrary match predicate; what the records contain is
  part of the arbitrary parse function.
- Ranking of memories, forgetting and expiring in the repository, full-text search and embeddings.
- The command line, HUD, dashboard, HTTP server, processes, MCP, Telegram, audio and hardware probing.
- Tool policy, path security, redaction and the tool executor: arbitrary functions where they are needed.
- Configuration tables, dictionary conversions, health aggregation and the router.
