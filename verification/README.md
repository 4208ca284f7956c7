# A model of the workflow orchestrator, its worker pool and its codecs

This Dafny project models the three parts of the workflow framework on which its guarantees rest, and proves
those guarantees for every input, every run and every interleaving.

**The orchestrator** (`src/workflow_orchestrator.cpp`) keeps four tables: definitions, executions, step
executions and singleton locks. Register, start, poll-and-claim, keep-alive, complete, fail, cancel and sweep
change them. Each operation appears twice: as a function of the tables it sees (`Operations.dfy`,
`Candidates.dfy`) and, statement by statement, as a method of the class `Orchestrator` that reads and stages
rows through a `Transaction` (`Orchestrator.dfy`, `Transactions.dfy`). Each method is proved to throw when its
function does, to return the function's value, to stage exactly its writes and to have read everything the
outcome depends on. The properties are then proved of the functions:

- `Invariant.dfy`, `Preservation.dfy`, `Runs.dfy`: the cross-table invariant, and what one call can do to one
  execution; a run is any sequence of calls, each with its own clock readings, ids and decisions.
- `Candidates.dfy`, `Polling.dfy`, `Serving.dfy`: what a poll hands out, that no running execution is left behind,
  and which definitions that holds for.
- `Sweeping.dfy`: the sweep as one simultaneous change, whatever the order of its query's rows.
- `Leases.dfy`: who holds a step, until when, and how it changes hands over whole runs; `Reclaim.dfy` is such a run.
- `Singletons.dfy`, `Retries.dfy`, `Progress.dfy`, `Inputs.dfy`, `Routing.dfy`: singletons, retry bounds, the
  number of transitions, and the inputs steps get.
- `Admission.dfy`: exactly which calls go through, in every state a run reaches.
- `Verdicts.dfy`, `Lengths.dfy`: what failures come to and how long leases are, read off the definition's own fields.
- `Histories.dfy`, `Turns.dfy`, `Ends.dfy`: each step row as the calls of the run account for it, the turn in which
  polls hand steps out, how executions end, what callers are told and what the logic is asked.
- `Records.dfy`, `Origins.dfy`: how long the tables keep a delay, an output, a reason; which call of the run started
  an execution, gave a lease, decided a state.
- `Footprints.dfy`, `Serializability.dfy`, `Conflicts.dfy`: interleaved transactions give what the committed calls
  give when made one at a time, and which of them cannot both commit.

**The worker pool** (`src/workflow_worker_pool.cpp`) is `WorkerPool.dfy`: the fields `stateMutex` guards as a
class whose methods are the locked sections, and pollers and executors as threads interleaving those sections.

**The codecs** are `Duration.dfy`, `Calendar.dfy`, `Timestamp.dfy`, `Definitions.dfy`, `Cutting.dfy`, `Rows.dfy`,
`Wire.dfy`, `Documents.dfy` and `Keys.dfy`: durations and the lease rule, timestamps, the definition validator and parser, the conversions
between entities, table rows and JSON, and the keys and ids rows are filed under.

`Text.dfy`, `JsonValue.dfy`, `Domain.dfy`, `Tables.dfy` and `Prelude.dfy` hold numerals, JSON values, the entities,
the tables and small shared types. `dafny verify dfyconfig.toml` checks the whole project.

## What is assumed

- A transaction reads a snapshot together with its own staged puts, and its commit is refused when the answer
  to any row read or query it made has changed (README.md:462 and README.md:697 of the repository). The sources
  of `mt` are not part of this model.
- A new execution's id is not in use. `Keys.IdsApart` shows that different draws give different ids; that two
  draws differ is the assumption.
- `putWorkflowExecution` and `putWorkflowStepExecution` are not part of a run: they overwrite rows unchecked.
- Times are whole microseconds. No operation needs the clock to go forward; where a call reads it more than once
  the readings are separate values.
- The workflow logic, asked the same question again, answers the same or throws again (`decideNextStep` is a
  function of its context with an optional result).
- The tables are keyed by tuples; `Keys.DefinitionKeysApart` and `Keys.StepKeysApart` show that the strings the
  source uses as keys tell the same rows apart.
- Duration arithmetic that overflows a 64-bit integer has no meaning in C++: the model says when it happens
  (`Duration.ParseExact`), and the lease rule treats it as a refusal. The properties of the orchestrator hold for
  any lease rule.

## What the code does not do

Some properties one might expect do not hold; the code is kept as it is, and each comes with the exact condition
or a concrete case.

- A definition the validator accepts can stop every poll of its workflow. README.md:241 promises that only supported
  durations pass, but the validator lets a step through that has no expected time, or one in years, months or weeks,
  of zero, or of more seconds than 63 bits hold, and for each of these the lease calculator throws
  (`Serving.UntimedYetStuck`, `Serving.ValidatedYetStuck`, `Duration.YearsGap`, `Duration.ZeroGap`,
  `Duration.DaysOverflow`). `Serving.ServedByJson` gives the exact condition on the JSON, `Serving.ServedByDefinition`
  on any definition, `Polling.ServedExactly` on the tables. In the other direction the calculator accepts a trailing
  `T` (`Duration.TrailingTGap`, `Duration.ValidatorAgainstCalculator`).
- The sum of a duration's parts can overflow: a number of days above 106751991167300 that fits 63 bits itself is
  valid and its seconds do not fit (`Duration.DaysOverflow`; `Duration.ParseExact` for all durations). With arithmetic
  that wraps, `P94368760191893771D` would get a lease of 42 seconds (`Duration.OverflowGap`).
- Integers of a definition are cut to 32 bits before they are compared. README.md:237 asks for a version of at least
  1, yet -4294967295 is accepted, as version 1, and 2147483648 is refused; README.md:249 asks for retries that are not
  negative, yet -4294967296 is accepted, as none, and 2147483648 is refused (`Cutting.IntegerGaps`). Validator and
  rule agree exactly as `Cutting.CutAgrees` and `Cutting.ValidatorAgainstRule` say. Versions that differ by a multiple
  of 2^32 are filed under one key, so registering version 4294967297 replaces version 1 (`Cutting.SameKey`).
- Registering a workflow as a singleton while one of its executions runs does not protect that execution
  (`Singletons.OverwrittenDefinitionBreaksSingleton`, `Singletons.StartIsAlone`).
- A pool that is stopping can leave a step in its queue (`WorkerPool.LateStepIsLeft`). Started again it claims more
  than it has executors for: it never does exactly when the queue it starts on is empty, or when nobody can poll and
  there are executors for what is queued (`WorkerPool.EnoughExactly`).
- Timestamps from the year 10000 on are misread (`Timestamp.TimestampRoundTrip`). This concerns systems whose clock
  counts microseconds or coarser units; one that counts nanoseconds in 64 bits ends in 2262 and has no such time.
- Routing back to a step overwrites that step's earlier rows, so "a closed step row is never rewritten" holds only
  once the execution has ended (`Runs.RunFreezesFinished`).

## Model

| member | source | states |
|---|---|---|
| Invariant.OneOpenRow | src/workflow_orchestrator.cpp:392-1014 | the open step rows of an execution are exactly its current one while it runs and none afterwards, in every state that satisfies the invariant |
| Runs.RunKeeps | src/workflow_orchestrator.cpp:364-1014 | the cross-table invariant holds in every state of every run |
| Runs.RunOneOpenRow | src/workflow_orchestrator.cpp:392-1014 | in every state of every run a running execution has exactly one pending or running row, the one its step name and attempt name; a finished one has none |
| Runs.CallChanges | src/workflow_orchestrator.cpp:470-1014 | a call leaves an execution and all its step rows alone or changes them in one listed way: claimed, renewed, completed, failed or expired once, cancelled |
| Runs.CallAdds | src/workflow_orchestrator.cpp:392-451 | executions are never removed, and only a start that goes through adds one, its own |
| Runs.RunFreezesFinished | src/workflow_orchestrator.cpp:470-1014 | once an execution has left Running, no later call of the run changes its row or any of its step rows |
| Runs.RunShapes | src/workflow_orchestrator.cpp:567-1008 | in every run completedAt is set iff an execution is not running, failureReason iff it failed, and a step row has a lease iff it runs |
| Orchestration.Orchestrator.RegisterWorkflowDefinition | src/workflow_orchestrator.cpp:370-379 | throws for an empty name or a version below 1, otherwise stages the definition and nothing else |
| Orchestration.Orchestrator.StartWorkflow | src/workflow_orchestrator.cpp:392-451 | refines the start function: the running execution, its first pending row and, for a singleton, the lock; throws when the definition is missing or the lock names a running execution |
| Orchestration.Orchestrator.TakeSingletonLock | src/workflow_orchestrator.cpp:422-441 | takes the lock unless it names an execution that is running, and reads both rows the answer depends on |
| Orchestration.Orchestrator.PollAndClaimWorkflowSteps | src/workflow_orchestrator.cpp:470-578 | refines the poll function, reading the definition and the two queries |
| Orchestration.Orchestrator.QueryCandidates | src/workflow_orchestrator.cpp:496-535 | whatever order the queries return rows in, the sorted candidates are the one ordered list of the workflow's open rows |
| Orchestration.Orchestrator.ClaimCandidates | src/workflow_orchestrator.cpp:537-577 | the loop claims exactly the first claimable candidates up to the maximum, and throws iff one of them has no usable lease |
| Orchestration.Orchestrator.CheckClaim | src/workflow_orchestrator.cpp:220-261 | the checks shared by keep-alive, complete and fail, with everything they read |
| Orchestration.Orchestrator.KeepAliveStep | src/workflow_orchestrator.cpp:592-647 | refines the keep-alive function: a new lease on the current row for its owner, nothing else |
| Orchestration.Orchestrator.CompleteStep | src/workflow_orchestrator.cpp:667-781 | refines the completion function on what the logic decides; a throw of the checks or of the logic leaves nothing staged, a later one exactly the closed row |
| Orchestration.Orchestrator.CarryOn | src/workflow_orchestrator.cpp:732-780 | once the logic has decided, refines the completion function, and stages exactly the closed row when the decision cannot be carried out |
| Orchestration.Orchestrator.CompleteStepAtomically | src/workflow_orchestrator.cpp:649-665 | in a transaction of its own, a completion that throws leaves the tables as they were, whatever it had staged |
| Orchestration.Orchestrator.FailStep | src/workflow_orchestrator.cpp:796-874 | refines the failure function: the row failed, and the next attempt opened or the execution failed |
| Orchestration.Orchestrator.SettleStep | src/workflow_orchestrator.cpp:846-873 | the tail that failStep and the sweep share does what the settlement function says |
| Orchestration.Orchestrator.CancelWorkflow | src/workflow_orchestrator.cpp:882-927 | refines the cancel function: every open row of the execution cancelled, whatever order the query returns them in |
| Orchestration.Orchestrator.CancelOpenSteps | src/workflow_orchestrator.cpp:906-919 | the loop stages the cancelled form of the open rows and of no others |
| Orchestration.Orchestrator.SweepExpiredLeases | src/workflow_orchestrator.cpp:934-1014 | refines the sweep function on the list its query returned, each row judged on the tables as the earlier iterations left them |
| Orchestration.Orchestrator.SweepStep | src/workflow_orchestrator.cpp:942-1011 | one iteration: skip, settle or throw, with everything it reads |
| Candidates.SortCandidates | src/workflow_orchestrator.cpp:516-535 | the candidates come out ordered by creation time, id, step name and attempt, and are the same multiset |
| Candidates.BeforeTotal | src/workflow_orchestrator.cpp:518-534 | the comparator puts any two rows with different keys in exactly one order |
| Candidates.BeforeTransitive | src/workflow_orchestrator.cpp:518-534 | the comparator is transitive |
| Candidates.BeforeIsLexicographic | src/workflow_orchestrator.cpp:517-535 | the comparator is the lexicographic order of time of creation, execution id, step name and attempt, where a missing time comes first and texts compare where they first differ |
| Candidates.SortedUnique | src/workflow_orchestrator.cpp:516-535 | a set of rows with distinct keys has one ordered list |
| Polling.PollReturnsFirst | src/workflow_orchestrator.cpp:494-577 | a poll that does not throw returns the first claimable rows in order, none passed over, each the current step of a running execution, claimed for the caller and otherwise as it was |
| Polling.OldestFirst | src/workflow_orchestrator.cpp:516-577 | a claimable row that a poll does not return is not older than any row it does, and the poll is full |
| Turns.HandsOutWaiting | src/workflow_orchestrator.cpp:298-310 | in every run what a poll hands out is the current step of a running execution, under no lease that has not run out and not put off beyond now |
| Turns.InTurn | src/workflow_orchestrator.cpp:517-535 | a poll returns steps in the order of the creation readings of the calls that opened them, then of their executions' ids |
| Turns.NeverPassedOver | src/workflow_orchestrator.cpp:540-562 | a step at hand is left out only by a full poll of steps all opened earlier, so of two at hand the one opened earlier is never passed over for the other |
| Polling.ServedExactly | src/workflow_orchestrator.cpp:537-577 | there is a time from which every poll with room hands out a running execution's step iff every running execution of its workflow is at a step with a usable lease |
| Polling.NeverStuck | src/workflow_orchestrator.cpp:470-578 | if every registration declares the same steps with usable leases, from every reachable state each running execution is handed out from some time on |
| Serving.ServedByDefinition | src/workflow_orchestrator.cpp:537-563 | every execution of a workflow can always be polled on, in every run that registers this definition and no other for it, iff its start step and every declared step have a usable lease (or it starts at the empty step name, which no worker can complete) |
| Serving.ServedByJson | src/workflow_json.cpp:655-685 | for a definition the validator accepts: iff every step has an expected time without years, months or weeks whose total is positive and fits 63 bits |
| Serving.StuckFromStart | src/workflow_orchestrator.cpp:548-563 | once an execution is started whose start step has no usable lease, every poll of its workflow throws, at any time and for any worker |
| Serving.UntimedYetStuck | src/workflow_json.cpp:670-672 | a definition without expected times that the validator accepts and whose every poll throws |
| Serving.ValidatedYetStuck | src/workflow_json.cpp:49-75 | a definition with an expected time in years that the validator accepts and whose every poll throws |
| Sweeping.SweepExact | src/workflow_orchestrator.cpp:940-1012 | the loop settles each execution with an expired current row exactly once, as the tables before the sweep say, and throws iff one of them is at an undeclared step |
| Sweeping.SweepOrderFree | src/workflow_orchestrator.cpp:938-1012 | the sweep's writes and counts do not depend on the order of the queried rows; the exact condition for a throw |
| Sweeping.SweptExecution | src/workflow_orchestrator.cpp:980-1010 | after a sweep each execution is untouched unless due, retried below its bound and failed at it |
| Sweeping.SweepCounts | src/workflow_orchestrator.cpp:1000-1010 | retriedCount + failedCount is the number of running rows whose lease had run out |
| Verdicts.SweepTally | src/workflow_orchestrator.cpp:991-1010 | retriedCount is the number of executions with an expired step that run after the sweep, failedCount the number of those that have failed |
| Sweeping.SweepTwice | src/workflow_orchestrator.cpp:934-1014 | a second sweep at the same time returns (0,0) and writes nothing |
| Leases.RunGrants | src/workflow_orchestrator.cpp:557-645 | in every run from empty tables the lease on a row is the one last granted to a caller by a claim or keep-alive and not ended since |
| Leases.CallMovesLease | src/workflow_orchestrator.cpp:298-310 | what each operation may do to the lease on a step: a claim only after it has run out, keep-alive, complete and fail only for its holder before it has |
| Leases.HandedOver | src/workflow_orchestrator.cpp:557-573 | a step under a lease all the way from one worker to another was claimed in between at or after the time last granted |
| Leases.OnlyTheHolderWorks | src/workflow_orchestrator.cpp:220-261 | keep-alive, complete and fail go through only for the worker last granted the current step and strictly before the time granted |
| Admission.FailGoesThrough | src/workflow_orchestrator.cpp:796-846 | in every state of every run from empty tables, at the first attempt and every other, a report of failure goes through iff it comes from the worker last granted the step the execution is at, before that lease is up, and the definition declares the step |
| Admission.KeepAliveGoesThrough | src/workflow_orchestrator.cpp:592-647 | the same of a keep-alive, iff the first step declared by the name has an expected time the lease rule accepts |
| Admission.CompleteGoesThrough | src/workflow_orchestrator.cpp:667-762 | the same of a completion, iff its delay is absent or positive and the decision ends the workflow or names a declared step |
| Admission.PollGoesThrough | src/workflow_orchestrator.cpp:470-573 | a poll goes through iff its arguments are in order, the workflow is registered, and every execution whose current step is among the first claimable ones is at a step with a usable lease |
| Admission.SweepGoesThrough | src/workflow_orchestrator.cpp:934-980 | a sweep goes through iff the definition declares every step whose lease has run out |
| Admission.RegisterGoesThrough | src/workflow_orchestrator.cpp:170-184 | iff the name is not empty and the version at least 1 |
| Admission.StartGoesThrough | src/workflow_orchestrator.cpp:392-409 | a start of a workflow that is not a singleton goes through iff it is registered under a valid name and version |
| Admission.SingletonStartGoesThrough | src/workflow_orchestrator.cpp:422-441 | where every registration makes the workflow a singleton: iff it is registered and none of its executions is running, in every state of every run |
| Admission.CancelGoesThrough | src/workflow_orchestrator.cpp:882-901 | iff the id names a running execution |
| Lengths.GrantLength | src/workflow_orchestrator.cpp:564-569 | a lease a poll or keep-alive gives ends, to the microsecond, a third of the step's expected duration after the clock reading, and a second after it when that is less; the duration is read off the definition's text |
| Lengths.LeaseLength | src/workflow_orchestrator.cpp:641-645 | so it is with every lease in the tables of a run, from the call that gave it |
| Reclaim.ClaimTakes | src/workflow_orchestrator.cpp:564-573 | a poll that gets a step puts it under a lease of the caller from now for exactly the step's lease |
| Reclaim.ReclaimedStep | src/workflow_orchestrator.cpp:298-310 | for any definition whose start step has a name and a lease, a run in which the step is claimed, reclaimed by another worker when its lease has run out, and completed by that worker |
| Singletons.RunSingleton | src/workflow_orchestrator.cpp:422-441 | if every registration of a workflow makes it a singleton, at most one of its executions ever runs, the one its lock names |
| Singletons.StartIsAlone | src/workflow_orchestrator.cpp:422-441 | a start of a singleton ends up alone iff every running execution of the workflow was the one the lock named |
| Singletons.OverwrittenDefinitionBreaksSingleton | src/workflow_orchestrator.cpp:370-379 | a run in which a workflow becomes a singleton while running and ends with two executions running |
| Retries.RunAttemptsBounded | src/workflow_orchestrator.cpp:846-848 | with the retry bounds of a workflow fixed, no attempt goes past its step's bound in any run |
| Retries.FailuresSoFar | src/workflow_orchestrator.cpp:846-864 | the attempts of the current visit before the current one are there and failed, and there are as many as the attempt number says |
| Retries.FailsOnLastFailure | src/workflow_orchestrator.cpp:846-873 | a call fails an execution iff it leaves one more failed attempt of the visit than the step has retries |
| Verdicts.RetriedOrFailed | src/workflow_orchestrator.cpp:165-168 | a failure or expiry leads to the next attempt iff the first step declared by the name has a maxRetries above the attempt number, and fails the execution otherwise, so always when it has none |
| Verdicts.LastAttemptRead | src/workflow_orchestrator.cpp:165-168 | the last attempt of a step is its maxRetries when that is positive and 0 otherwise |
| Progress.FewTransitions | src/workflow_orchestrator.cpp:764-873 | any started execution whose routing never comes back to a step completes, fails and expires steps at most as often as the sum of retries plus one over its definition's steps says |
| Inputs.CallKeepsInput | src/workflow_orchestrator.cpp:858-863 | no call but a completion changes the input of the step an execution is at |
| Inputs.VisitKeepsInput | src/workflow_orchestrator.cpp:995-1000 | all the attempts of a visit work on the same input, over any run |
| Inputs.FirstStepInput | src/workflow_orchestrator.cpp:444-448 | the first step works on the workflow's input until it is completed |
| Inputs.RoutedCompletion | src/workflow_orchestrator.cpp:738-778 | under the stock logic a completion goes on to the step the output names, on the output without its routing field and with an empty state, or finishes |
| Routing.Routes | src/logic/step_output_routing_logic.cpp:6-23 | the logic goes on iff the output names a step, and takes nothing but the route out of it |
| Routing.RequestsAreGranted | src/logic/step_output_routing_logic.cpp:6-23 | an output is a request for a step and an input iff the logic decides on just that step and input |
| Routing.GoesOnExactly | src/logic/step_output_routing_logic.cpp:6-23 | the logic goes on iff the output is a request for a step with a name that is not empty |
| Records.DelayHonoured | README.md:505-507 | after a completion with a delay the next step waits in a row scheduled for the end of the delay, and if it is ever found under a lease, the poll that first claimed it came at or after that time, in any run |
| Records.OutputKept | src/workflow_orchestrator.cpp:732-736 | the output of a completed attempt, its worker and time stay in its row until the execution comes back to that step and attempt, over any run |
| Records.OutputReplaced | src/workflow_orchestrator.cpp:764-778 | a completion that goes on to the key it completes leaves a fresh pending row there, on the decided input and without output |
| Records.ClosedRowKept | src/workflow_orchestrator.cpp:470-1014 | a closed row is changed by no call of a run until its execution comes back to its key |
| Records.ReasonKept | src/workflow_orchestrator.cpp:848-852 | the reason a worker gives for a failure, or "lease expired", stays in the row of the failed attempt until the execution comes back to it, over any run |
| Records.FailureTraced | src/workflow_orchestrator.cpp:867-873 | every failed execution was failed by one call of the run, a worker's report or a sweep; execution and last attempt carry the reason that call gave, and nothing of the execution has changed since |
| Records.RetryReady | src/workflow_orchestrator.cpp:854-866 | a retry can be claimed at once by anyone, on the same input |
| Histories.RowHistory | src/workflow_orchestrator.cpp:275-296 | in every run each step row is what its calls account for: created at the reading of the call that last opened it and on the same input and state since, put off only by that completion's delay, started at the poll that last handed it out, held by that worker, closed at the reading and with the status, output and reason of the call that closed it |
| Histories.WhenOpened | src/workflow_orchestrator.cpp:293 | the call whose creation reading a row carries is the last that opened it: a start, completion, failure or sweep |
| Ends.EndTraced | src/workflow_orchestrator.cpp:740-1009 | every execution that is over was ended by one call of the run, at the time that call read, with its status and reason, and its last attempt with it; nothing has changed since |
| Ends.RepliesHold | src/workflow_orchestrator.cpp:378-1013 | a call that goes through returns what the tables then hold, and a sweep the counts of what it has done |
| Ends.FirstQuestion | src/workflow_orchestrator.cpp:721-728 | until a step is completed the logic is asked with the input of the execution's start and an empty state |
| Ends.LaterQuestion | src/workflow_orchestrator.cpp:721-738 | afterwards with that input and the state of the last completion's decision |
| Origins.RunOrigin | src/workflow_orchestrator.cpp:411-448 | every execution was started by exactly one call of the run, which left it waiting at its definition's first step on the caller's input; workflow, input and start time are those of that call for life |
| Origins.StartAddsOne | src/workflow_orchestrator.cpp:422-448 | a start adds that execution, its row and, for a singleton, its lock, and nothing else |
| Origins.StateDecided | src/workflow_orchestrator.cpp:738-778 | the state the logic decides on at a completion is the execution's until its next completion, over any run, and the row it is at carries it |
| Origins.RunCarriesState | src/workflow_orchestrator.cpp:854-866 | in every run the row a running execution is at carries the execution's state, from attempt to attempt and from step to step |
| Origins.GrantingCall | src/workflow_orchestrator.cpp:557-645 | every lease in the tables was given by one poll or keep-alive of the run to the worker it names, from the time of that call for as long as the definition then registered says, and has stood unchanged since |
| Transactions.Transaction.Query | README.md:697 | a query returns the matching rows of the snapshot and the staged puts, each once, and is recorded |
| Transactions.Database.Commit | README.md:697 | a commit goes through iff every read would be answered now as it was, and then all the writes appear |
| Serializability.SameReadsSameCall | README.md:697 | each operation comes out the same, writes and reply, on any tables that answer its reads alike |
| Serializability.AcceptedCommit | src/workflow_orchestrator.cpp:649-665 | a call that returned in a fresh transaction and is accepted has its function's value and writes, and nothing it depends on has changed |
| Serializability.InterleavingsAreSerial | README.md:462 | in every interleaving the committed calls, made one at a time in commit order, lead to the committed tables and to every reply given |
| Serializability.InterleavingsKeepInvariant | README.md:462 | the invariant holds of the committed tables of every interleaving |
| Serializability.InterleavedSingleton | README.md:427-435 | under concurrent starts the committed tables never hold two running executions of a singleton workflow |
| Conflicts.RunLocksNamed | src/workflow_orchestrator.cpp:424-441 | in every run each lock row names an execution there is |
| Conflicts.StartsConflict | README.md:427-430 | of two overlapping starts of a singleton the second to commit is refused, and tried again it throws |
| Conflicts.PollsConflict | README.md:543 | of two overlapping polls of a workflow the second is refused once the first has claimed anything, for any rule whose leases last |
| Conflicts.WorkersConflict | README.md:543 | the same for the leases the orchestrator gives |
| WorkerPool.Impl.ReserveSlots | src/workflow_worker_pool.cpp:142-153 | takes at most the idle slots and at most the poll size, and nothing when none is idle |
| WorkerPool.Impl.DeliverSteps | src/workflow_worker_pool.cpp:176-193 | returns the slots not used and appends the steps in order |
| WorkerPool.Impl.TakeStep | src/workflow_worker_pool.cpp:216-225 | takes the first step, or leaves when there is none |
| WorkerPool.Subset | src/workflow_worker_pool.cpp:108-112 | the loop gives a poller every pollerCount-th definition, from its own number on |
| WorkerPool.EachWatchedOnce | src/workflow_worker_pool.cpp:104-107 | every definition is watched by exactly one poller, however many there are |
| WorkerPool.SlotsConserved | src/workflow_worker_pool.cpp:59-235 | in every interleaving idle slots, slots held by pollers, queued steps and steps being executed add up to the number of executors plus what the queue held at the start, with no negative idle count and every step accounted for once |
| WorkerPool.EveryQueuedStepHasAnExecutor | src/workflow_worker_pool.cpp:140-193 | after a first start every queued step and every slot held for a poll has an executor not executing anything |
| WorkerPool.SlotsTaken | src/workflow_worker_pool.cpp:145-152 | as many slots as are idle or as a poll may ask for, whichever is less, and none when none is idle |
| WorkerPool.PollsWithinLimit | src/workflow_worker_pool.cpp:142-165 | no poll asks for more than the configured maximum, nor after a first start for more than there are free executors |
| WorkerPool.EnoughExactly | src/workflow_worker_pool.cpp:59-62 | started on a given queue, no interleaving ever has more steps queued, executed and asked for than executors, iff the queue is empty, or nobody can poll and it is no longer than the executors are many |
| WorkerPool.StoppingExecutesEverything | src/workflow_worker_pool.cpp:75-100 | when the last executor leaves, every step queued so far has been executed, each once; what is left in the queue at the end came in after that |
| WorkerPool.LateStepIsLeft | src/workflow_worker_pool.cpp:213-222 | an interleaving in which a step arrives after the only executor has left |
| Duration.MatchersDecide | src/duration.cpp:11-18 | the matcher accepts the pattern's language, in which a text has one reading; the same for the validator's pattern |
| Duration.ParseExact | src/duration.cpp:20-42 | every text of the language parses to its exact weighted sum iff that is positive and fits 63 bits; the arithmetic overflows iff every part fits by itself and the sum does not, and everything else is refused |
| Duration.DaysOverflow | src/duration.cpp:33-35 | for every number of days: valid for the validator, and refused, parsed or overflowing in the calculator as its size says |
| Duration.OverflowGap | src/duration.cpp:33-35 | a number of days the validator accepts whose seconds overflow to 128 modulo 2^64 |
| Duration.LeaseRule | src/duration.cpp:45-56 | the lease is max(1, total/3), lies between 1 and the total, and grows with it |
| Duration.TransportRoundTrip | src/transport/http_transport.cpp:19-22 | the parser reads back every positive count the transport prints |
| Duration.ValidatorAgainstCalculator | src/workflow_json.cpp:49-75 | what the calculator accepts the validator accepts iff it does not end in T, and what the validator accepts the calculator accepts iff it has no date part and a positive total that fits |
| Duration.YearsGap | src/workflow_json.cpp:49-60 | a text the validator accepts and the calculator refuses because it names years |
| Duration.ZeroGap | src/duration.cpp:37-40 | a text the validator accepts and the calculator refuses because its total is zero |
| Duration.TrailingTGap | src/duration.cpp:11 | a text the calculator accepts and the validator refuses |
| Calendar.CalendarInverse | src/workflow_json.cpp:264-265 | from 1970 on days and calendar dates correspond one to one |
| Calendar.DayNumberIsCivil | src/workflow_json.cpp:264-300 | counting months and years gives the closed formula for days since 1970, for every date |
| Timestamp.ParseTimestamp | src/workflow_json.cpp:275-302 | the scan, the edits of the fields and the padding loop compute the reading function, for any text |
| Timestamp.CutOrFill | src/workflow_json.cpp:289-297 | the cut and the padding loop give the fraction's microseconds, for any digits |
| Timestamp.ReadsInstant | src/workflow_json.cpp:275-302 | a timestamp with one to nine digits of fraction reads as the time its fields name, rounded down to microseconds |
| Documents.TimestampRead | src/workflow_json.cpp:275-302 | a timestamp with six digits of fraction reads as its microseconds since 1970 by the closed formula |
| Timestamp.TimestampRoundTrip | src/workflow_json.cpp:258-302 | a microsecond from 1970 on reads back from its text iff it lies before the year 10000 |
| Definitions.ValidateWorkflowJson | src/workflow_json.cpp:602-699 | reports valid iff the JSON is a well-formed definition |
| Definitions.ValidateSteps | src/workflow_json.cpp:655-685 | the loop reports every step well-formed and no two of a name, and collects the names |
| Cutting.CutAgrees | src/workflow_json.cpp:624-631 | an integer passes for a version or for retries iff its low 32 bits are an int from the least one allowed, and exactly which integers this judges as the documented rule does |
| Cutting.ValidatorAgainstRule | README.md:237-249 | validator and documented rule agree on a definition iff it breaks another rule anyway or its integers and their low 32 bits are allowed alike |
| Cutting.IntegerGaps | src/workflow_json.cpp:624-631 | version -4294967295 is accepted as 1 and 2147483648 refused, retries -4294967296 accepted and 2147483648 refused |
| Cutting.IntegersKept | src/workflow_json.cpp:701-753 | a definition is parsed with the version and retries it was written with iff they are 32-bit ints |
| Cutting.SameKey | src/workflow_orchestrator.cpp:370-379 | two accepted definitions are filed under one key iff their names are the same and their versions differ by a multiple of 2^32, and registering the second then replaces the first |
| Definitions.ParseWorkflowDefinition | src/workflow_json.cpp:701-753 | parses iff well-formed, field by field, cutting integers to 32 bits and keeping the fields of a step it has no place for |
| Definitions.PrintDefinition | src/workflow_json.cpp:361-377 | the printing loop gives the definition's JSON |
| Definitions.ParsePrintParse | src/workflow_json.cpp:338-377 | parsing what was printed from a parsed value gives the same definition, for every value that parses |
| Definitions.ParsedShape | src/workflow_json.cpp:701-753 | what parses has a positive version, retries from 0, different step names and a declared start step |
| Definitions.NamePattern | src/workflow_json.cpp:45-47 | a name is valid iff it is an ASCII letter followed by ASCII letters, digits, hyphens and underscores |
| Documents.DefinitionRead | README.md:155-232 | a definition that parses says in the fields of its document, by their names, what it is parsed to |
| Rows.StepsToRows | src/tables/workflow_row_conversions.hpp:80-83 | the loop converts every step, in order |
| Rows.StepsFromRows | src/tables/workflow_row_conversions.hpp:98-101 | the loop converts every row, in order |
| Rows.StepArrayToJson | src/tables/generated/workflow_definition_row.hpp:102-112 | the loop gives every row's JSON, in order |
| Rows.StepArrayFromJson | src/tables/generated/workflow_definition_row.hpp:114-125 | the loop reads every item, and throws iff one of them does |
| Rows.DefinitionStored | src/tables/workflow_row_conversions.hpp:41-104 | a definition comes back from row and JSON as it was put |
| Rows.ExecutionStored | src/tables/workflow_row_conversions.hpp:106-138 | an execution comes back as it was put iff its times lie before the year 10000 |
| Rows.StepExecutionStored | src/tables/generated/workflow_step_execution_row.hpp:109-181 | a step execution comes back as it was put iff its times lie before the year 10000 |
| Wire.ExecutionWireIsRow | src/workflow_json.cpp:387-405 | the interface writes an execution as the table stores it and reads whatever the table reads as the same execution |
| Wire.StepExecutionWireIsRow | src/workflow_json.cpp:407-434 | the same for step executions |
| Documents.ExecutionWritten | src/workflow_json.cpp:387-405 | an execution's document, field by field by name, with the words for its status |
| Documents.StepExecutionWritten | src/workflow_json.cpp:407-434 | a step execution's |
| Wire.WireRoundTrip | src/workflow_json.cpp:482-573 | a client reads back what the orchestrator holds iff the times lie before the year 10000 |
| Keys.IdShape | src/workflow_orchestrator.cpp:57-72 | every generated id has 36 characters, no colon, its hyphens in place and the version and variant digits of section 5.4 of RFC 9562 |
| Keys.IdsApart | src/workflow_orchestrator.cpp:57-72 | ids are equal iff the masked draws are |
| Keys.GeneratedIdsApart | src/workflow_orchestrator.cpp:57-72 | ids generated from 32-bit draws are equal iff the draws agree on the 122 bits the masks leave |
| Keys.DefinitionKeysApart | src/workflow_orchestrator.cpp:32-46 | definition and lock keys are equal iff name and version are, for all names |
| Keys.StepKeysApart | src/workflow_orchestrator.cpp:48-55 | step keys of ids of one length are equal iff id, step name and attempt are, for all names |
| Keys.StepKeysCollide | src/workflow_orchestrator.cpp:48-55 | with ids of different lengths two rows can share a key |
| Keys.RowsFoundAgain | src/tables/generated/workflow_step_execution_row.hpp:68-72 | the key a row is filed under is the key it is looked up by |

## Left out

- HTTP server, HTTP transport (but for its duration printer), client, in-process transport and command line: they
  forward calls.
- The `mt` store: backends, JSON text, index maintenance and schema checks. What `operator[]` does on an absent
  field is not part of this model; the row readers take it to throw.
- The orchestrator's tables hold entities, not their rows. The conversions are proved to be the identity for times
  from 1970 through 9999 and 32-bit numbers; a lease that ends after 9999 would be stored wrong, and attempt
  numbers beyond 32 bits do not occur in the model's conversions.
- The range and unit of `std::chrono::system_clock`, which depend on the system: times here are whole microseconds
  without bound.
- Random numbers, `std::shuffle` and `std::random_device`: ids are arbitrary unused ones, and pollers may poll in
  any order.
- Times before 1970.
- Getters, listing and the `put` operations that overwrite rows.
- Error messages: an operation throws or does not.
- The single-threaded worker, keep-alive timing, wake-ups and the service's sweep loop: a sweep is a call that may
  come at any time. Condition variables are not modelled; an executor may take a step whenever there is one.
- Starting a pool that has not been stopped.
- The transaction provider's retry loop: a retry is another transaction.
