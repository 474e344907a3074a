# Verified models of Hassette

Hassette runs Home Assistant automations: an event bus and a scheduler call handlers, a code generator
writes typed state and entity modules, and a web frontend shows what is going on. This project models the
parts of it whose correctness spans many steps and proves, in Dafny, what they promise for every run and
every input. `dafny verify dfyconfig.toml` checks all of it.

How the models are built:

- A concurrent part is a transition system. One event is one stretch of code that runs without an await, a
  thread switch or a return to the browser's event loop; every interleaving of the events is a run. `Inv` is
  the invariant, `NextInv` shows that each event keeps it, and the theorems are about all runs.
- Code that updates variables step by step is a class with those variables. Each method makes the
  assignments that the program makes, and its `ensures` ties the whole new state to the transition function,
  about which the theorems are proved.
- A key or path order is a parameter that sorts every set (`Orders.dfy`).
- Fields called histories (`called`, `verdicts`, `exits`, `offers`, `taken`, `delays`, `written`, ...) record
  what happened. No modelled decision reads them.

| file | models |
| --- | --- |
| `ExecutionModel.dfy`, `ExecutionInvariant.dfy`, `ExecutionTheorems.dfy`, `ExecutionDecisions.dfy`, `CompletionBridge.dfy`, `ExecutionGuard.dfy` | the overlap guard of a listener, its lock, its tasks and done-callbacks, and the future bridge that parks callers |
| `CloneGraph.dfy`, `CloneClusters.dfy`, `CloneViolations.dfy`, `IgnoreMarkers.dfy` | the duplicate-code checker from duplication blocks to violations, and its ignore markers |
| `CodePoints.dfy`, `PythonLiterals.dfy`, `DocstringEscape.dfy`, `MethodDocstring.dfy` | what the generator writes into docstrings and string literals, read back by section 2.4.1 of the Python 3.13 Language Reference |
| `LogPipeline.dfy`, `LogSettlement.dfy`, `LogOverlap.dfy` | the log queue, the listener thread and the batches for the database |
| `LogBuffer.dfy` | the frontend's ring buffer and the version counter of its store |
| `Reconnect.dfy`, `ReconnectHistory.dfy` | the WebSocket hook: sockets, auth check, reconnect timer, status |
| `Debounce.dfy` | the trailing and the max-wait timer of the query invalidator |
| `Manifest.dfy`, `Ownership.dfy`, `OwnershipWrites.dfy` | the generator's manifest file, which files runs of it may touch, and what a check run reports |
| `PercentEncoding.dfy`, `QueryString.dfy`, `QueryParams.dfy` | percent-encoding (section 2.1 of RFC 3986), the query-string codec and the parameter hook |
| `Orders.dfy`, `Wrappers.dfy` | sorting, `Option` and `Result` |

## Where code and documentation disagree

The models follow the code; the theorems named here say what holds instead, and when.

- `drain_next` (`src/hassette/execution_mode.py:152-174`) drops a factory whose spawn raises, and nothing
  resolves its caller. `run_through_guard` names only the release case (`src/hassette/execution_mode.py:231-234`).
  `FailedSpawnStrandsItsCaller` is such a run without any release; `WhoHangs` says exactly who hangs, and
  `NobodyHangs` when the documented use is enough.
- `run_through_guard` says that a task spawned by `drain_next` during `release` "may detach rather than
  cancel" (`src/hassette/execution_mode.py:236-239`). Within the guard this does not happen, because `release`
  clears queue and tracked task in one stretch: `ReleaseLeavesNothing`.
- `escape_docstring_text` warns of a single trailing quote (`codegen/src/hassette_codegen/rendering.py:58-60`).
  Two are left alone as well: against the delimiter the text comes back exactly if the number of quotes at its
  end is a multiple of three (`DocstringRoundTrip`).
- `merge_manifest` is said not to touch unprocessed domains (`codegen/src/hassette_codegen/manifest.py:53-57`).
  A filter that holds a directory on the way to the modules (`states`, `entities`, `models`, `hassette`, or a
  run of these such as `models/states`) disowns all of them: `MergeKeepsOthers`, `FilteredRunDisowns`, and
  `FilterForModelsDisownsOthers` for one such run.
- The max wait is said to cap invalidations at one per 1500 ms
  (`frontend/src/hooks/use-query-invalidator.ts:11-15`). It bounds the wait, not the frequency: invalidations
  are at least the smaller of the two delays apart, and no more than that is guaranteed; the cap holds
  exactly if the max wait is not longer than the delay (`CapsFrequencyExactly`).
- `get` is said to treat the empty string as absent, and `buildQueryString` to exclude empty values
  (`frontend/src/hooks/use-query-params.ts:6`, `frontend/src/hooks/use-query-params.ts:31`). A parameter without
  `=` reads as `""`, is written as `key=`, and is then gone: `GetAfterSet`, `BareKeyIsLost`, `SetAndTakenBack`.

## Assumptions

- Guard: nobody cancels a coroutine that waits in `run_through_guard` or inside `release`, and tasks do not
  start eagerly. A task ends when it ends, cancelled or not; a lock wakes its waiters first in, first out; a
  gather is over only when its task is. A task ending and each of its done-callbacks running are separate
  events in any order, which includes the order asyncio uses.
- Log pipeline: the database's `enqueue` returns a bool or raises `RuntimeError`. In `LogPipeline` a turn of the
  listener and a flush on another thread do not overlap. They can: the flush at shutdown
  (`src/hassette/core/logging_service.py:136-137`) comes while the listener still runs if stopping it timed out.
  `LogOverlap` takes both apart. What stays in one piece there is appending a record, and replacing the batch
  with handing over the one that was read.
- WebSocket hook: one mounted effect; `open` comes only to a connecting socket, messages only to an open one,
  `close` once.
- Debounce: key and delays stay the same, and timers fire at their deadline.
- Generator: `atomic_write` replaces a file as a whole or leaves it alone, and the manifest file is written as a
  whole. A name that passes the identifier check holds no line break.
- Query strings: keys are sorted by some total order.

## Model

| member | source | states |
|---|---|---|
| `ExecutionTheorems.AtMostOneUnfinished` | src/hassette/execution_mode.py:105-192 | in every run at most one spawned task is unfinished, and it is the tracked one or the one a `release` holding the lock waits for |
| `ExecutionTheorems.NoStrandedQueue` | src/hassette/execution_mode.py:135-174 | a queue that is not empty is at most `cap` long and has a tracked, newest task whose drain callback is still to come |
| `ExecutionTheorems.CalledAtMostOnce` | src/hassette/execution_mode.py:146-174 | a factory is called at most once, and exactly if its verdict says started or raised, or it left the queue other than by being discarded |
| `ExecutionTheorems.InvConserved` | src/hassette/execution_mode.py:105-192 | the invariant implies the conservation of triggers |
| `ExecutionTheorems.Conservation` | src/hassette/execution_mode.py:105-192 | in every run each trigger past the lock has one verdict, in arrival order; the accepted ones are those that left the queue followed by those in it; calls match verdicts and exits; the counters count the refusals |
| `ExecutionTheorems.InOrder` | src/hassette/execution_mode.py:135-174 | factories leave the queue in the order they were accepted, before everything still pending, over any number of drains and failed spawns |
| `ExecutionTheorems.RestartKeepsLatest` | src/hassette/execution_mode.py:124-133 | in restart mode the tracked task after a start belongs to the latest trigger that got the lock, and every other task has ended |
| `ExecutionTheorems.DiscardedNotCalled` | src/hassette/execution_mode.py:179-192 | a discarded factory is never called |
| `ExecutionTheorems.ReleaseIsFinal` | src/hassette/execution_mode.py:179-192 | no factory pending when `release` takes the lock is called in any later step |
| `ExecutionTheorems.ReleaseLeavesNothing` | src/hassette/execution_mode.py:152-192 | when `release` gives the lock back nothing is pending or tracked, every task has ended, and ever after the drain callback of such a task changes nothing |
| `ExecutionTheorems.NeverTrackedAgain` | src/hassette/execution_mode.py:152-162 | a task that is no longer tracked is never tracked again |
| `ExecutionDecisions.TriggerGetsItsDue` | src/hassette/execution_mode.py:105-150 | in every run a trigger that gets the lock when every task has ended is run at once, whichever mode; if one has not ended it is suppressed and counted in `single`, cancels it and waits in `restart`, and in `queued` joins the queue behind the rest if fewer than `cap` wait and is dropped and counted otherwise |
| `ExecutionDecisions.ReplacementRuns` | src/hassette/execution_mode.py:131-133 | a trigger that waited for the task it cancelled is run once every task has ended |
| `ExecutionDecisions.RefusedOnlyWhileBusy` | src/hassette/execution_mode.py:116-144 | whatever was refused in a run was refused while a task had not ended, and in `queued` mode the queue was full |
| `ExecutionDecisions.OutcomeIsTheVerdict` | src/hassette/execution_mode.py:105-144 | what a call returns is what the guard decided about it |
| `ExecutionDecisions.DrainTriesEach` | src/hassette/execution_mode.py:160-174 | a drain calls the waiting factories in order, each that fails is dropped and the next one tried, until one runs or none is left |
| `ExecutionDecisions.ReleaseCancels` | src/hassette/execution_mode.py:185-192 | a release that gets the lock asks just the task that has not ended to cancel and keeps the lock until it has |
| `ExecutionDecisions.NobodyElseCancels` | src/hassette/execution_mode.py:95-192 | no other step asks a task to cancel but the start of a release and, in `restart` mode, a trigger |
| `ExecutionDecisions.ResolvedForGood` | src/hassette/execution_mode.py:247-271 | a future is resolved once, by whoever came first |
| `ExecutionInvariant.NextInv` | src/hassette/execution_mode.py:95-271 | every event of guard, bridge and event loop keeps the invariant |
| `ExecutionInvariant.RunInv` | src/hassette/execution_mode.py:95-271 | it holds in every reachable state |
| `ExecutionInvariant.DecideInv` | src/hassette/execution_mode.py:105-144 | so does every decision under the lock, whichever mode |
| `ExecutionInvariant.BeginReleaseInv` | src/hassette/execution_mode.py:179-192 | so does the start of a release |
| `ExecutionInvariant.StartFromQueueInv` | src/hassette/execution_mode.py:163-174 | so does a drain in which any factories fail: it ends with a tracked task or an empty queue |
| `CompletionBridge.NoEarlyReturnNoLostCaller` | src/hassette/execution_mode.py:241-271 | a call that ran or was accepted returns only after its own task finished or after `drain_pending_done`; a future is registered exactly while unresolved, and an unresolved one has one of five known reasons; a call returns as refused exactly if the guard refused it |
| `CompletionBridge.DrainResolvesEveryone` | src/hassette/execution_mode.py:264-271 | after `drain_pending_done` every future created so far is resolved and stays so |
| `CompletionBridge.InternalEventsDecrease` | src/hassette/execution_mode.py:95-261 | a measure of outstanding work falls with every event that nobody asked for |
| `CompletionBridge.QuietRunsAreShort` | src/hassette/execution_mode.py:95-261 | without new triggers a run has no more events than the measure |
| `CompletionBridge.RestIsSettled` | src/hassette/execution_mode.py:95-261 | when nothing can happen by itself the queue is empty, the lock free, every task and callback done, every call decided |
| `CompletionBridge.ComesToRest` | src/hassette/execution_mode.py:95-261 | from every reachable state the system gets there by itself |
| `CompletionBridge.WhoHangs` | src/hassette/execution_mode.py:163-172 | at rest a caller hangs if and only if its factory was accepted and left the queue without starting, and the run has no `drain_pending_done` after the call arrived |
| `CompletionBridge.DrainedIsResolved` | src/hassette/execution_mode.py:264-271 | whoever arrived before a `drain_pending_done` of the run is resolved at its end |
| `CompletionBridge.ResolvedByDrainWasDrained` | src/hassette/execution_mode.py:241-271 | nothing but a `drain_pending_done` after the arrival resolves a future in that way |
| `CompletionBridge.NobodyHangs` | src/hassette/execution_mode.py:231-236 | if a `drain_pending_done` comes after every release and no spawn fails in a drain, every call has returned or raised at rest |
| `CompletionBridge.NeverStartedHasNoTask` | src/hassette/execution_mode.py:163-192 | a factory that left the queue without starting was accepted and has no task |
| `CompletionBridge.FailedSpawnStrandsItsCaller` | src/hassette/execution_mode.py:163-172 | a run without release that leaves the guard idle and one caller hanging |
| `ExecutionGuard.GuardRuntime.constructor` | src/hassette/execution_mode.py:83-93 | starts in the initial state of the transition system, with a queue depth of 10 by default |
| `ExecutionGuard.GuardRuntime.RunSingle` | src/hassette/execution_mode.py:116-122 | decides as the transition system does in single mode |
| `ExecutionGuard.GuardRuntime.BeginRestart` | src/hassette/execution_mode.py:124-133 | the same up to the wait, which happens exactly if a task runs |
| `ExecutionGuard.GuardRuntime.Replace` | src/hassette/execution_mode.py:132-133 | the new task is tracked; if the spawn raises, the old one stays tracked |
| `ExecutionGuard.GuardRuntime.RunQueued` | src/hassette/execution_mode.py:135-144 | the same in queued mode, with the newest trigger dropped at the cap |
| `ExecutionGuard.GuardRuntime.StartQueued` | src/hassette/execution_mode.py:146-150 | a start with a drain callback, or an unchanged guard if the spawn raises |
| `ExecutionGuard.GuardRuntime.CallHead` | src/hassette/execution_mode.py:163-174 | one attempt of a drain: the oldest factory leaves the queue, as started or as failed |
| `ExecutionGuard.GuardRuntime.DrainNext` | src/hassette/execution_mode.py:152-174 | the drain loop does what the recursive drain of the transition system does |
| `ExecutionGuard.GuardRuntime.BeginReleasing` | src/hassette/execution_mode.py:179-192 | the whole state after a release began |
| `ExecutionGuard.GuardRuntime.RunAndTrack` | src/hassette/execution_mode.py:252-255 | one more invocation; a task with a resolve callback unless the spawn raises |
| `ExecutionGuard.GuardRuntime.Resolve` | src/hassette/execution_mode.py:247-250 | takes the future out of the set and resolves it unless it was |
| `ExecutionGuard.GuardRuntime.Leave` | src/hassette/execution_mode.py:257-261 | a refused call resolves its own future and returns, any other parks, nothing else changes |
| `ExecutionGuard.GuardRuntime.RunUnderLock` | src/hassette/execution_mode.py:108-114 | the decision of all modes with the caller's part |
| `ExecutionGuard.GuardRuntime.GrantLock` | src/hassette/execution_mode.py:108-114 | the first waiter gets the lock and runs to its first await |
| `ExecutionGuard.GuardRuntime.ResumeHolder` | src/hassette/execution_mode.py:131-133 | what follows the wait in restart and release |
| `ExecutionGuard.GuardRuntime.Enter` | src/hassette/execution_mode.py:241-245 | a new call registers its future and queues on the lock |
| `ExecutionGuard.GuardRuntime.DrainPending` | src/hassette/execution_mode.py:264-271 | the loop resolves exactly the registered futures |
| `ExecutionGuard.GuardRuntime.AskForRelease` | src/hassette/execution_mode.py:185 | a release queues on the lock like a call |
| `ExecutionGuard.GuardRuntime.TaskResolves` | src/hassette/execution_mode.py:247-254 | the done-callback of a task resolves the future of its call and no other |
| `ExecutionGuard.GuardRuntime.Wake` | src/hassette/execution_mode.py:261 | a parked caller whose future is resolved returns |
| `CloneClusters.RootEndsTheWalk` | tools/check_duplicate_code.py:439-444 | walking up from a node ends at its root and at no other node that is its own parent |
| `CloneClusters.HalveStep` | tools/check_duplicate_code.py:441-443 | path halving keeps the forest and every root, and moves up |
| `CloneClusters.AttachStep` | tools/check_duplicate_code.py:446-449 | hanging one root below another joins exactly their two classes |
| `CloneClusters.UnionFind.Register` | tools/check_duplicate_code.py:440 | a new node is its own root; no other root changes |
| `CloneClusters.UnionFind.Find` | tools/check_duplicate_code.py:439-444 | terminates, returns the root, changes no root of a known node and no key order |
| `CloneClusters.UnionFind.Union` | tools/check_duplicate_code.py:446-449 | the two classes become one with the second one's root; every other class stays |
| `CloneClusters.UniteRepresents` | tools/check_duplicate_code.py:446-452 | one more edge and one union keep: nodes are endpoints, roots are connected, no edge leaves a class |
| `CloneClusters.SameRootIffConnected` | tools/check_duplicate_code.py:435-457 | two nodes have the same root if and only if a chain of edges joins them |
| `CloneClusters.GroupsArePartition` | tools/check_duplicate_code.py:454-457 | grouping by root gives the components of the graph |
| `CloneClusters.Collect` | tools/check_duplicate_code.py:454-457 | the loop groups each node under its root, once, although `find` still rewrites parents |
| `CloneClusters.Cluster` | tools/check_duplicate_code.py:435-457 | every endpoint is in exactly one component, once, and two are in the same one if and only if connected |
| `CloneGraph.ConnectedMonotone` | tools/check_duplicate_code.py:435-457 | connectivity carries over when every edge does |
| `CloneViolations.BuildEdges` | tools/check_duplicate_code.py:415-422 | the edges are, block by block, the pairs of neighbours among the kept fragments |
| `CloneViolations.KeptExactly` | tools/check_duplicate_code.py:254-255 | a fragment is kept if and only if no other reason drops it and it has at least five lines |
| `CloneViolations.ChainEdgesLoseNothing` | tools/check_duplicate_code.py:419-421 | neighbour edges give the same endpoints, connections and components as edges between all pairs |
| `CloneViolations.BlockInOneComponent` | tools/check_duplicate_code.py:415-457 | a block with two or more kept fragments lies in one component |
| `CloneViolations.BlockVerdictHolds` | tools/check_duplicate_code.py:467-473 | the component of a block with three distinct kept fragments is reported if and only if a fragment connected to it is not ignored |
| `CloneViolations.Reportable` | tools/check_duplicate_code.py:470-473 | keeps the components with three or more fragments of which one is not ignored, all of them |
| `CloneViolations.IgnoredInOneRange` | tools/check_duplicate_code.py:292-294 | a fragment is ignored if and only if one range of its file covers all its lines |
| `CloneViolations.FragmentVerdict` | tools/check_duplicate_code.py:467-473 | a fragment is in a violation if and only if it is one of at least three connected ones, and one of those connected with it is not ignored |
| `CloneViolations.FindViolations` | tools/check_duplicate_code.py:467-473 | the whole path from blocks to violations has these properties, for each block and each fragment, and no component is reported twice |
| `IgnoreMarkers.IgnoreRanges` | tools/check_duplicate_code.py:259-289 | returns normally if and only if the file is well marked, with ranges that increase, are disjoint, hold no other marker, and cover every marker; otherwise raises for the first illegal line or the start left open |
| `IgnoreMarkers.ReadLine` | tools/check_duplicate_code.py:271-286 | one line: which error comes first, and the state after it |
| `IgnoreMarkers.EndpointOfOne` | tools/check_duplicate_code.py:259-289 | in a well marked file each marker line is an endpoint of exactly one range, and no other line of any |
| `IgnoreMarkers.WellMarkedMeansAlternating` | tools/check_duplicate_code.py:269-288 | well marked means: start, end, start, end, a reason on each start, none left open |
| `DocstringEscape.ThreePassesAreOne` | codegen/src/hassette_codegen/rendering.py:62 | the three replace passes equal one pass from left to right |
| `DocstringEscape.EscapedTextReadsBack` | codegen/src/hassette_codegen/rendering.py:41-62 | escaped text followed by anything but a quote reads back as the text: no delimiter inside, no malformed escape, no backslash that reaches out |
| `DocstringEscape.AgainstTheDelimiter` | codegen/src/hassette_codegen/rendering.py:58-62 | right against the delimiter it reads back exactly if its trailing quotes are a multiple of three |
| `DocstringEscape.NormalizeEscaped` | codegen/src/hassette_codegen/rendering.py:53-56 | normalizing newlines in the source and escaping commute |
| `DocstringEscape.DocstringRoundTrip` | codegen/src/hassette_codegen/rendering.py:41-62 | the whole literal denotes the text exactly if the text has no carriage return and its trailing quotes are a multiple of three |
| `DocstringEscape.DocstringOnItsOwnLine` | codegen/src/hassette_codegen/rendering.py:58-62 | with white space before the delimiter it does so exactly if there is no carriage return |
| `DocstringEscape.NoNul` | codegen/src/hassette_codegen/rendering.py:46-52 | the escaped text holds no NUL |
| `MethodDocstring.DocstringSaysTheSame` | codegen/src/hassette_codegen/generators/entities.py:168-212 | whatever the descriptions hold, the wrapped docstring is one literal that swallows nothing of what follows, and its words are the words of the summary, and of `Args:`, names and descriptions, in order, with the periods added |
| `MethodDocstring.BuildMethodDocstring` | codegen/src/hassette_codegen/generators/entities.py:185-212 | the lines in their order, the opening quotes kept if there is nothing to say, the closing ones on a line of their own |
| `MethodDocstring.WordsOfEscaped` | codegen/src/hassette_codegen/generators/entities.py:215-220 | the words of the escaped text are the escaped words of the text |
| `MethodDocstring.PeriodOfEscaped` | codegen/src/hassette_codegen/generators/entities.py:215-220 | collapsing and adding the period commute with escaping |
| `MethodDocstring.WrapOfEscaped` | codegen/src/hassette_codegen/generators/entities.py:185-192 | wrapping the escaped text escapes a wrapping of the text line by line |
| `MethodDocstring.WordsOfWrap` | codegen/src/hassette_codegen/generators/entities.py:185-192 | wrapping keeps the words |
| `MethodDocstring.LinesFit` | codegen/src/hassette_codegen/generators/entities.py:185-192 | no line is longer than 120 characters unless it holds a single word |
| `MethodDocstring.LinesAreFull` | codegen/src/hassette_codegen/generators/entities.py:185-192 | a line ends only where the next word would take it past 120 characters |
| `MethodDocstring.PeriodIsAdded` | codegen/src/hassette_codegen/generators/entities.py:215-220 | white space is collapsed and a period added unless the text is empty or ends in `.`, `!` or `?` |
| `DocstringEscape.PyLiteralRoundTrip` | codegen/src/hassette_codegen/rendering.py:22-38 | a rendered string reads back as itself, unless it is empty and a quote follows |
| `DocstringEscape.JsonLeavesTheRest` | codegen/src/hassette_codegen/rendering.py:25-35 | nothing is escaped but quotes, backslashes and control characters |
| `LogPipeline.NothingIsLost` | src/hassette/logging_.py:210-319 | between turns of the listener: offered records are queued, counted as dropped or handled; handled ones at the level are in the batch, in flight, accepted or counted as dropped; the batch stays below 50 |
| `LogOverlap.AccountedForExactly` | src/hassette/logging_.py:287-319 | with turns and flushes of two threads in any interleaving: everything is accounted for at every step as long as no flush replaces the batch between the read and the replacement of another; after that a batch has been handed over twice, and if the handled records differ the account is wrong from then on |
| `LogOverlap.OverlapRepeatsAndLoses` | src/hassette/core/logging_service.py:122-137 | a run with such an overlap, in which one record is handed over twice and another one is lost |
| `LogOverlap.UninterruptedTurn` | src/hassette/logging_.py:234-292 | a turn of the listener that nobody interrupts is one event of the pipeline |
| `LogOverlap.UninterruptedFlush` | src/hassette/logging_.py:294-319 | so is a flush |
| `LogPipeline.OrderIsKept` | src/hassette/logging_.py:210-319 | records are handled and batched in the order they were let in, and the database gets its batches in the order they were flushed |
| `LogPipeline.HandledBeforeExit` | src/hassette/logging_.py:229-245 | once the listener has exited it has taken exactly what was ahead of the sentinel |
| `LogSettlement.CountedAsAnswered` | src/hassette/logging_.py:298-319 | in every run the database has received just the batches it took, in the order of its answers, and `db_write_queue_drops` counts just the records of those it refused and of those flushed when the loop was closed |
| `LogSettlement.RefusedExactlyWhenFull` | src/hassette/logging_.py:210-215 | a record is refused and counted if and only if the queue is bounded and full, and otherwise joins it |
| `LogSettlement.QueueIsBounded` | src/hassette/logging_.py:210-232 | a bounded queue never holds more than it may |
| `LogSettlement.BatchesAreFull` | src/hassette/logging_.py:287-296 | a batch holds 50 records when it is handed over, or fewer but some if a timeout or another thread flushed it |
| `LogSettlement.FlushLeavesNothing` | src/hassette/logging_.py:294-300 | a flush hands over the whole batch |
| `LogPipeline.NextInv` | src/hassette/logging_.py:210-319 | every step of producers, listener and event loop keeps the invariant |
| `LogPipeline.LogService.EnqueueRecord` | src/hassette/logging_.py:210-215 | a full queue counts the record, any other takes it |
| `LogPipeline.LogService.PutSentinel` | src/hassette/logging_.py:229-232 | the sentinel joins the queue behind everything in it, once there is room |
| `LogPipeline.LogService.MonitorTurn` | src/hassette/logging_.py:234-250 | one turn: handle, flush on timeout, or exit at the sentinel |
| `LogPipeline.LogService.EmitRecord` | src/hassette/logging_.py:287-292 | batches records at the level and flushes at 50 |
| `LogPipeline.LogService.FlushNow` | src/hassette/logging_.py:298-319 | the batch is handed over whole, or counted if the loop is closed |
| `LogPipeline.LogService.HandBatchOver` | src/hassette/logging_.py:300-319 | what a flush does once it has read a batch, whichever it read |
| `LogPipeline.LogService.RunOldestCallback` | src/hassette/logging_.py:306-313 | the database takes the captured batch, or its size is counted |
| `LogBuffer.RingBuffer.Push` | frontend/src/utils/ring-buffer.ts:14-21 | the contents are the last `capacity` of the old contents and the new item |
| `LogBuffer.RingBuffer.ToArray` | frontend/src/utils/ring-buffer.ts:23-29 | returns the contents, oldest first |
| `LogBuffer.RingBuffer.Clear` | frontend/src/utils/ring-buffer.ts:35-38 | leaves nothing |
| `LogBuffer.LogStore.Push` | frontend/src/state/store.ts:208-212 | pushes and raises the version |
| `LogBuffer.LogStore.Clear` | frontend/src/state/store.ts:215-219 | clears and raises the version |
| `LogBuffer.LogStore.Connected` | frontend/src/state/store.ts:223-242 | a reconnect brings a new empty buffer and a new version, a first connect neither |
| `LogBuffer.LogStore.GetLogEntries` | frontend/src/state/store.ts:220 | returns what the buffer holds |
| `LogBuffer.ShowsTheMostRecent` | frontend/src/utils/ring-buffer.ts:5-39 | over any operations the entries are the last `capacity` pushed since the last clear or reconnect, in order |
| `LogBuffer.ShowsTheLastThousand` | frontend/src/state/store.ts:208-242 | with the capacity of the store, the last 1000 |
| `LogBuffer.VersionIsSound` | frontend/src/state/store.ts:208-242 | the version never falls, and two states of a run with the same version have the same entries |
| `LogBuffer.VersionCounts` | frontend/src/state/store.ts:208-242 | the version counts the pushes, clears and reconnects, and nothing else |
| `Reconnect.NeverLeaksNeverSticks` | frontend/src/hooks/use-websocket.ts:37-231 | in every state of a mounted effect exactly one of: live socket, auth check in flight, timer armed, redirected; all older sockets are closed |
| `Reconnect.SomethingIsPending` | frontend/src/hooks/use-websocket.ts:163-218 | a mounted hook that has not redirected is connected or on its way: what is due next can come, no event takes the attempt back, and at most five due ones end it in a connection, the login page or the next attempt |
| `Reconnect.HandshakeIsBounded` | frontend/src/hooks/use-websocket.ts:62-69 | an open socket that has not completed its handshake has its timer armed, which closes it when it fires |
| `Reconnect.ConnectedIsTrue` | frontend/src/hooks/use-websocket.ts:88-105 | "connected" means that the current socket completed its handshake and has not closed |
| `Reconnect.DelaysGrowToTheCap` | frontend/src/hooks/use-websocket.ts:214-218 | the k-th delay since the last handshake is 1000 times 1.5 to the k, at most 30000 |
| `Reconnect.SilentAfterUnmount` | frontend/src/hooks/use-websocket.ts:222-230 | after unmounting no socket is created, no timer armed and nobody redirected |
| `ReconnectHistory.RedirectedExactly` | frontend/src/hooks/use-websocket.ts:191-202 | the user is sent to the login page if and only if an auth check ended with a 401 before unmounting |
| `ReconnectHistory.OtherEndsRetry` | frontend/src/hooks/use-websocket.ts:206-210 | any other end of an auth check arms the reconnect timer and redirects nobody |
| `ReconnectHistory.CloseIsClassified` | frontend/src/hooks/use-websocket.ts:163-185 | a close starts an auth check if its socket never opened, and schedules a reconnect if it did |
| `ReconnectHistory.ErrorCloses` | frontend/src/hooks/use-websocket.ts:187-189 | an error closes a live socket, whose close event then comes |
| `ReconnectHistory.TimerIsArmedWith` | frontend/src/hooks/use-websocket.ts:94-218 | the timer is armed with 1000 ms times 1.5 to the number of reconnects that the events scheduled since the last "connected" message, at most 30 s |
| `ReconnectHistory.StatusIsTrue` | frontend/src/hooks/use-websocket.ts:41-230 | at every moment the status is what the events amount to: connected, reconnecting after a lost connection, connecting or disconnected before the first, disconnected once unmounted |
| `ReconnectHistory.ConnectionIsKept` | frontend/src/hooks/use-websocket.ts:62-105 | the hook itself never ends a connection before it is unmounted |
| `Reconnect.UseWebSocket.DoConnect` | frontend/src/hooks/use-websocket.ts:41-60 | opens a socket unless unmounted |
| `Reconnect.UseWebSocket.OnOpen` | frontend/src/hooks/use-websocket.ts:62-69 | notes the open socket and arms the handshake timer |
| `Reconnect.UseWebSocket.OnConnected` | frontend/src/hooks/use-websocket.ts:88-105 | resets the backoff and sets the status |
| `Reconnect.UseWebSocket.OnHandshakeTimeout` | frontend/src/hooks/use-websocket.ts:64-68 | closes a socket that did not complete |
| `Reconnect.UseWebSocket.OnCloseEvent` | frontend/src/hooks/use-websocket.ts:163-185 | sets the status and starts an auth check or schedules a reconnect |
| `Reconnect.UseWebSocket.OnAuthCheckEnd` | frontend/src/hooks/use-websocket.ts:191-211 | redirects on a 401, otherwise schedules, and neither once unmounted |
| `Reconnect.UseWebSocket.OnError` | frontend/src/hooks/use-websocket.ts:187-189 | an error closes the socket, and its close event is still to come |
| `Reconnect.UseWebSocket.DoScheduleReconnect` | frontend/src/hooks/use-websocket.ts:214-218 | arms the timer with the current delay, at most 30000, and raises the next one by half |
| `Reconnect.UseWebSocket.OnReconnectTimer` | frontend/src/hooks/use-websocket.ts:217 | the timer that fires is disarmed and connects |
| `Reconnect.UseWebSocket.Cleanup` | frontend/src/hooks/use-websocket.ts:222-230 | disarms the timer, closes the socket, sets the status |
| `Debounce.WithinMaxWait` | frontend/src/hooks/use-query-invalidator.ts:68-83 | every matching event is followed by an invalidation within the max wait |
| `Debounce.WithinDelayIfQuiet` | frontend/src/hooks/use-query-invalidator.ts:75-78 | and within the delay if no further one comes in it |
| `Debounce.InvalidationsAreApart` | frontend/src/hooks/use-query-invalidator.ts:55-83 | successive invalidations have a matching event between them and are at least the smaller delay apart |
| `Debounce.AsCloseAsThat` | frontend/src/hooks/use-query-invalidator.ts:55-83 | for every pair of delays there is a run in which they are just that far apart |
| `Debounce.CapsFrequencyExactly` | frontend/src/hooks/use-query-invalidator.ts:10-16 | successive invalidations are at least the max wait apart in every run if and only if the max wait is not longer than the delay |
| `Debounce.EachHasItsCause` | frontend/src/hooks/use-query-invalidator.ts:55-83 | right before each invalidation, the first one included, comes a matching event |
| `Debounce.FiresExactlyWhenDue` | frontend/src/hooks/use-query-invalidator.ts:75-82 | an invalidation comes just the delay after the last matching event or just the max wait after the first one since the last invalidation |
| `Debounce.HistoryTells` | frontend/src/hooks/use-query-invalidator.ts:68-83 | matching events are the values that match, but for the run of the effect on mount; invalidations are the timers that fire |
| `Debounce.BothOrNone` | frontend/src/hooks/use-query-invalidator.ts:55-83 | both timers are armed or neither |
| `Debounce.QueryInvalidator.OnValue` | frontend/src/hooks/use-query-invalidator.ts:68-83 | the effect restarts one timer and starts the other only if it is not armed |
| `Debounce.QueryInvalidator.OnFire` | frontend/src/hooks/use-query-invalidator.ts:55-66 | either timer disarms both and invalidates |
| `Manifest.Load` | codegen/src/hassette_codegen/manifest.py:18-30 | the loop collects the stripped lines that are neither empty nor comments |
| `Manifest.ManifestRoundTrip` | codegen/src/hassette_codegen/manifest.py:18-40 | loading what was saved gives the same paths if and only if each is non-empty, on one line, without outer white space and no comment |
| `Manifest.WhatIsLoadedIsClean` | codegen/src/hassette_codegen/manifest.py:18-30 | whatever the file holds, each loaded path has that form |
| `Manifest.LoadedExactly` | codegen/src/hassette_codegen/manifest.py:18-30 | whatever the file holds, a path is loaded if and only if it has that form and some line holds it with nothing but white space around it |
| `Manifest.SplitsAtBreaks` | codegen/src/hassette_codegen/manifest.py:25-29 | lines end at every line break of Python, a carriage return and line feed being one, and at the end |
| `Manifest.ModulePathIsClean` | codegen/src/hassette_codegen/manifest.py:33-40 | so has the path of every module whose name is on one line |
| `Manifest.MatchesExactly` | codegen/src/hassette_codegen/manifest.py:65-71 | a module's path matches a filter entry, whatever it holds, if and only if the entry is the module's name, a directory on the way, or a run of these |
| `Manifest.MergeKeepsOthers` | codegen/src/hassette_codegen/manifest.py:53-62 | an entry that was not written again survives a merge if and only if the filter holds none of these |
| `Ownership.ForeignFilesAreSafe` | codegen/src/hassette_codegen/pipeline.py:285-352 | over any runs that hand the manifest file on, an existing module that is not listed is never changed and never becomes listed, exceptions included |
| `Ownership.SavedIsLoaded` | codegen/src/hassette_codegen/manifest.py:18-40 | saving and loading is the identity on such paths, in whatever order they are sorted |
| `Ownership.ListsWhatItWrote` | codegen/src/hassette_codegen/pipeline.py:417-439 | after a full generate run the manifest file, read again, lists exactly what the run wrote; after a filtered one that merged into what it listed |
| `Ownership.OtherRunsListNothing` | codegen/src/hassette_codegen/pipeline.py:171-174 | a check run or a run that raises leaves the manifest file alone |
| `Ownership.CheckChangesNothing` | codegen/src/hassette_codegen/pipeline.py:266-282 | `--check` changes neither files nor manifest |
| `Ownership.CheckPassesExactly` | codegen/src/hassette_codegen/pipeline.py:442-476 | `--check` exits with 0 if and only if it looked at something, no name or wrapper was rejected, every domain was extracted and rendered, the ported predicate is up to date, and every output is what the checkout holds |
| `Ownership.NotWrittenIsFrozen` | codegen/src/hassette_codegen/pipeline.py:417-439 | what a full run did not write, because its domain was skipped, say, no later run ever changes |
| `Ownership.FilteredRunDisowns` | codegen/src/hassette_codegen/pipeline.py:417-431 | a filtered run keeps a module that it did not write again listed if and only if the filter holds neither its name nor a directory on the way nor a run of these; what it disowns no later run changes |
| `Ownership.FilterForModelsDisownsOthers` | codegen/src/hassette_codegen/manifest.py:53-71 | a complete run for `light,models` does not touch the listed state model of any other domain, and disowns it, so that no later run updates it |
| `Ownership.DomainsGated` | codegen/src/hassette_codegen/pipeline.py:220-263 | at each point of a run nothing existing and unlisted was written, and what was written is what is claimed |
| `OwnershipWrites.RegeneratesWhatItOwns` | codegen/src/hassette_codegen/pipeline.py:285-352 | a generate run that completes writes a state model, with what was rendered, if and only if the domain was extracted, the rendering validates, and the file was absent, or there was no manifest, or it was listed; a wrapper likewise, after its state model |
| `OwnershipWrites.WritesNothingElse` | codegen/src/hassette_codegen/pipeline.py:220-414 | it writes no other file but the three ungated outputs and changes none that it does not write |
| `OwnershipWrites.RunWrites` | codegen/src/hassette_codegen/pipeline.py:116-185 | all files after such a run, and all it wrote, in terms of the checkout before it |
| `OwnershipWrites.CompletesExactly` | codegen/src/hassette_codegen/pipeline.py:116-185 | a generate run completes if and only if there is something to do and nothing that it has to render or write raises |
| `Ownership.Disk.Output` | codegen/src/hassette_codegen/pipeline.py:266-282 | writes or compares, and says which |
| `Ownership.Disk.AtomicWrite` | codegen/src/hassette_codegen/output.py:97-135 | the file is replaced as a whole and claimed, or left alone |
| `Ownership.Disk.OneDomain` | codegen/src/hassette_codegen/pipeline.py:302-326 | the state model of a domain: gate, write, skip |
| `Ownership.Disk.OneWrapper` | codegen/src/hassette_codegen/pipeline.py:328-352 | its entity wrapper: rejection, gate, write |
| `Ownership.Disk.AllDomains` | codegen/src/hassette_codegen/pipeline.py:239-263 | the loop accumulates the outcomes, and an exception ends it |
| `Ownership.Disk.UngatedOutputs` | codegen/src/hassette_codegen/pipeline.py:355-414 | the three outputs written without asking, their drift, and an exception among them |
| `Ownership.Disk.Run` | codegen/src/hassette_codegen/pipeline.py:116-185 | a whole run and how it ends, with the manifest saved only at the end of a generate run that raised nowhere |
| `Ownership.RejectUnsafeDomainNames` | codegen/src/hassette_codegen/pipeline.py:479-505 | the safe names and the rejected ones, each in order |
| `Ownership.KeptOrRejected` | codegen/src/hassette_codegen/pipeline.py:479-505 | every name is kept or rejected as often as it was given, and for the right reason |
| `Ownership.PickedInOrder` | codegen/src/hassette_codegen/pipeline.py:479-505 | both lists keep the order of the names |
| `PercentEncoding.EncodeSucceeds` | frontend/src/hooks/use-query-params.ts:39 | encoding succeeds exactly on text without lone surrogates |
| `PercentEncoding.DecodeOfEncode` | frontend/src/hooks/use-query-params.ts:54-58 | decoding undoes encoding |
| `PercentEncoding.EncodedIsPlain` | frontend/src/hooks/use-query-params.ts:39 | encoded text holds no delimiter of a query string |
| `PercentEncoding.EncodedCharacter` | frontend/src/hooks/use-query-params.ts:39 | just letters, digits and `-_.!~*'()` are left alone; of any other character each byte becomes a percent sign and two upper-case digits |
| `PercentEncoding.HexIsCaseBlind` | frontend/src/hooks/use-query-params.ts:54-58 | escapes are read in either case |
| `PercentEncoding.OthersAreThemselves` | frontend/src/hooks/use-query-params.ts:54-58 | text without a percent sign decodes to itself, `+` included |
| `PercentEncoding.DecodedIsWellFormed` | frontend/src/hooks/use-query-params.ts:54-58 | what was decoded can be encoded again |
| `QueryString.BuildQueryString` | frontend/src/hooks/use-query-params.ts:34-42 | the loop builds the sorted, encoded parts, or throws as the encoder does |
| `QueryString.ParseQueryString` | frontend/src/hooks/use-query-params.ts:49-63 | the loop reads the parts left to right, or throws as the decoder does |
| `QueryString.BuildThenParse` | frontend/src/hooks/use-query-params.ts:34-63 | parsing what was built gives exactly the entries whose key and value are not empty |
| `QueryString.RoundTrip` | frontend/src/hooks/use-query-params.ts:34-63 | it gives the map itself if and only if no key or value is empty |
| `QueryString.PartsInOrder` | frontend/src/hooks/use-query-params.ts:36-41 | the parts between the ampersands are the entries, encoded, in the order of the sorted keys |
| `QueryString.LaterPartWins` | frontend/src/hooks/use-query-params.ts:52-61 | of two parts with the same key the later one counts |
| `QueryString.BuildThrows` | frontend/src/hooks/use-query-params.ts:34-42 | building throws exactly on a lone surrogate |
| `QueryString.ParsedIsEncodable` | frontend/src/hooks/use-query-params.ts:49-63 | whatever parses can be built |
| `QueryString.BuildDetermines` | frontend/src/hooks/use-query-params.ts:98-106 | two maps have the same query string if and only if they are equal, so the no-op guard is exact |
| `QueryParams.QueryParamsHook.Get` | frontend/src/hooks/use-query-params.ts:79-82 | looks the key up in the parsed parameters |
| `QueryParams.QueryParamsHook.Set` | frontend/src/hooks/use-query-params.ts:84-116 | the new raw string, and one navigation exactly if the parameters change |
| `QueryParams.QueryParamsHook.Merge` | frontend/src/hooks/use-query-params.ts:91-98 | the loop over the updates is the map update with `null` and `""` as removal |
| `QueryParams.UrlReadsBack` | frontend/src/hooks/use-query-params.ts:108-110 | the new URL has the old path, and after a question mark, if anything, the new search string |
| `QueryParams.SetThrows` | frontend/src/hooks/use-query-params.ts:84-116 | `set` throws exactly if the raw string does not decode or the updated parameters hold a lone surrogate |
| `QueryParams.GetAfterSet` | frontend/src/hooks/use-query-params.ts:79-116 | after `set` the parameters read as the update if and only if nothing changes or no key or value is empty |
| `QueryParams.TwoSetsAreOne` | frontend/src/hooks/use-query-params.ts:84-116 | for any raw string, if two calls before a re-render succeed the one with the merged updates does, and it reads the same if and only if no key or value was empty before, or the first call changes nothing, or the merged one changes something |
| `QueryParams.SetAndTakenBack` | frontend/src/hooks/use-query-params.ts:98-106 | where it does not: setting another parameter and taking it back drops one without `=`, and the two updates merged do nothing |
| `QueryParams.TwoSetsWriteTheSame` | frontend/src/hooks/use-query-params.ts:84-116 | from a canonical raw string they even write the same string |
| `QueryParams.CanonicalStaysCanonical` | frontend/src/hooks/use-query-params.ts:84-116 | `set` keeps a raw string canonical |
| `QueryParams.BareKeyIsLost` | frontend/src/hooks/use-query-params.ts:52-56 | any parameter without `=` reads as `""` and is dropped when another one is set |

## Left out

- The `parallel` mode, `resolve_execution_mode` and `run_with_stall_watch`: one branch each.
- Cancelling a coroutine that waits in `run_through_guard` or `release`, and eager task factories.
- `CloneClusters.Cluster`: does not state in which order the components and their fragments come; the report sorts the fragments.
- PMD, XML, file reading, regular expressions and syntax trees in the duplicate checker: fragments, the reasons to drop one that need its file, and classified marker lines are inputs.
- `DocstringEscape.PyLiteralRoundTrip`: is about strings only; integers, which `py_literal` renders with `repr`, and the refusal of other types would add easy members.
- `\N{...}` escapes in Python literals, which need the names of Unicode; no rendered text contains one unescaped.
- `LogPipeline.NothingIsLost`: is about flushes that do not overlap; for the others see `LogOverlap.AccountedForExactly`.
- `LogOverlap.AccountedForExactly`: does not cover a flush that comes in while `emit` has looked up the batch and not yet appended to it, nor one between replacing the batch and handing over the old one, which can change the order of batches.
- structlog, formatting, correlation ids, the broadcast handler and the database service in `logging_.py`; closing the loop with callbacks still scheduled leaves their batches in flight for good.
- React rendering, wouter, TanStack Query, schema validation and `setSendLogLevel`; key changes and unmounting of the query invalidator.
- What a browser rewrites in a URL after `navigate`: the next raw string is taken as it was written.
- `localeCompare`: keys that differ but compare as equal would be sorted by insertion.
- Extraction, templates, ruff, `py_compile`, override validation and printed reports of the generator; orphan detection, which only prints.
- `textwrap.fill` on text that is not collapsed: the builder collapses first.
- `Path` normalisation: a path is its string, so `ManifestRoundTrip` is about strings.
- Seed data, demo stack, API clients, generated types, pages and display formatters: input and output, or easy members only.
