# Entry-analyzer verification

Dafny models of the concurrent and algorithmic core of the entry analyzer, with proofs about
every run, every input and every interleaving. `dafny verify dfyconfig.toml` checks the project.

## What is modelled

- **Agent slots** (`HeapQ`, `SlotProtocol`, `SlotInvariants`, `SlotManager`, `WaitHistogram`).
  The priority semaphore of `app/agent_slots.py`. `SlotProtocol` is a transition system with one
  step per `with self._lock` block; a run is any interleaving of those steps, of closing event
  loops and of capacity changes. `SlotInvariants` proves what every run keeps. `SlotManager` is
  the class itself: the waiters are a binary heap, and each method is proved to take exactly one
  protocol step, so everything proved of runs holds of the class.
- **Call-chain database** (`CallGraph`, `Closure`, `EntryTrees`, `EntryCategories`, `CallchainDB`).
  The layered closure, the breadth-first trees and the classification of
  `app/pipeline/callchain_db.py`, against walks and shortest distances in a finite directed
  multigraph. SQL tables are sets and maps, SQL statements are comprehensions.
- **Pipeline scheduler** (`Scheduler`, `SchedulerInvariants`, `PipelineRun`). The barrier of
  `run` in `app/pipeline/engine.py`: work that is discovered while other work finishes, two
  semaphores, two events, and cancellation. `PipelineRun` holds the variables that the coroutines
  share and nothing else; a ghost state of the protocol says where each coroutine is, and what is
  proved of runs is stated of the variables.
- **Worker and judge loops** (`StageLoops`). R2 to R5 of one function. The answers of the agents
  and the moment of cancellation are arbitrary inputs.
- **Extraction** (`Scanner`, `Scopes`, `Extractor`, `R2Script`, `PythonText`, `StableSort`). The
  lexer that finds the end of a function, the scope stack, the assembly of records and the check
  that they must pass.
- **Agent output** (`ByteLines`, `AgentStream`, `SessionRepair`). Lines from chunks, and the repair
  of a session file.
- **Dispatcher** (`Dispatcher`). Startup reset, pump and stale scan over the task table.
- **Metrics** (`WaitHistogram`, `Quantile`, `StageEvents`). Bucket counts, interpolated quantiles
  and the pairing of start and done events.

Times, counts of seconds and priorities are reals; rounding plays no part in what is stated.
Counters are unbounded as in Python.

## Where a promise fails, and exactly when

- A lease that was reclaimed as orphaned and is then released by its owner gives its slot back
  twice. It is the only step that breaks slot conservation: `SlotInvariants.ConservedIffNotLeaky`
  is an equivalence per step, and `StaleReleaseExample` shows the step.
- An award to a waiter whose event loop has closed leaves the slot with somebody that never runs
  again: it stays there in every continuation in which the waiter is not thrown out
  (`SlotInvariants.ClosedLoopHoldsSlot`; a winner can go on exactly while its loop is open,
  `SlotInvariants.ProceedsIffLoopOpen`), and such a state is reachable
  (`SlotInvariants.StrandedReachable`). The branch that raises for such a ticket, at
  `app/agent_slots.py:351`, is never taken (`SlotManager.AgentProcessSlotManager.Check`).
- Early returns on cancellation skip the barrier counters, so `run` may wait forever. A run in
  which nothing can move has returned exactly when no file and no function began, and no R1 found
  functions, after the cancellation (`SchedulerInvariants.StuckReturnsIffNoneSkipped`,
  `CancelHangExample`); without cancellation it always returns.
- The classification uses 999 for "no external ancestor". The promised category comes out exactly
  when the depth limit is below 999 or there is an external ancestor
  (`EntryCategories.PromiseIffNoSentinel`; `SentinelExample` gives a graph). Both callers in the
  repository pass the default limit of 2, for which it holds.
- The brace scanner takes line ends as they stand, while C first removes each backslash at a line end
  together with the line end. Where such a backslash is inside a literal, a line comment or half a
  comment mark, the two readings part: the modes agree on every prefix if and only if there is no
  such place (`Scanner.ModesAgreeIff`), and then the end found is the end of C
  (`Scanner.EndIsEndInC`). A continued literal hides the end of its function
  (`Scanner.ContinuedLiteral`); a continued line comment ends it too early
  (`Scanner.ContinuedComment`).
- When the limits are spent, R4 passes a function whatever the judge said, and keeps the last
  worker's decision. A decision to drop the function therefore stands although every judge rejected
  it, where the comment at `app/pipeline/engine.py:708` promises that nothing is missed. The function
  is dropped exactly when the last worker decided so (`StageLoops.FunctionState.R4Loop`,
  `StageLoops.FunctionState.RejectedAnswerStands`).
- `build_closure` inserts the first layer even for a limit below 1 (`CallchainDB.Layers`), and
  `build_entry_trees` with no roots keeps the trees of an earlier call.
- `_active_ids` logs "skip this round" when the workers cannot be asked, but the scan goes on with
  an empty set and restarts every live task (`Dispatcher.NoAnswerRestartsAll`). The recovery of
  pending tasks says it leaves queued messages alone, but only executing ones are active, so a
  queued task is published a second time (`Dispatcher.QueuedTaskIsPublishedAgain`).
- A cancelled R2 is left unpassed if a check behind an agent call sees the cancellation first, but is
  force-passed if the loop guard or the guard before a repair does: exactly every other look at the
  event (`StageLoops.FunctionState.R2Loop`).
- A SKIP or DISCARD verdict ends the R2 loop but is then force-passed like any other
  (`StageLoops.FunctionState.R2Loop`). The check that R4 confirmed a function before R5 never
  decides anything (`StageLoops.FunctionState.FuncPipeline`).

## Model

| member | source | states |
|---|---|---|
| HeapQ.RootIsLeast | app/agent_slots.py:158-159 | the root of the waiting list precedes every other waiter, by priority and then arrival |
| HeapQ.HeapPush | app/agent_slots.py:273 | a new waiter joins: still a heap, and exactly one element more |
| HeapQ.HeapPop | app/agent_slots.py:158-159 | the least element leaves, the rest is a heap of the remaining elements |
| HeapQ.Heapify | app/agent_slots.py:313-317 | any list becomes a heap of the same elements, as needed after a cancelled waiter is filtered out |
| SlotProtocol.NormalizeLimit | app/models.py:41-48 | every requested capacity ends between 1 and the hard limit |
| SlotProtocol.NearestLimit | app/models.py:41-48 | the capacity granted is the one from 1 to 128 that is nearest to the request, and 8 if the request is no number |
| SlotProtocol.LeastExists | app/agent_slots.py:152-165 | a non-empty queue has a waiter that nobody precedes |
| SlotInvariants.StepKeepsInv | app/agent_slots.py:152-449 | every atomic step of every thread keeps the protocol invariant, stale releases included |
| SlotInvariants.ConservedIffNotLeaky | app/agent_slots.py:398-413 | a step keeps slots in use equal to leases plus unclaimed awards if and only if it is not a stale release of a slot in use |
| SlotInvariants.ClampsNeverFire | app/agent_slots.py:337-449 | the steps without their clamps at zero lead to the same state, except exactly the release of a lease that is no longer registered while no slot is in use |
| SlotInvariants.RaisesOnlyBelowCapacity | app/agent_slots.py:194-203 | a step that raises the count ends within capacity, and the fast path runs only with an empty queue |
| SlotInvariants.SkipDropsCancelled | app/agent_slots.py:152-165 | serving drops only cancelled tickets, and what is left starts with the least that is not cancelled |
| SlotInvariants.HoldersWithinPeak | app/agent_slots.py:113-449 | mutual exclusion over runs: without leaks, leases and unclaimed awards together never exceed the largest capacity so far |
| SlotInvariants.RunInv | app/agent_slots.py:113-449 | every state of every run satisfies the invariant |
| SlotInvariants.RunConserved | app/agent_slots.py:113-449 | slots are conserved in every run without leaks, through any interleaving |
| SlotInvariants.NoLostWaiter | app/agent_slots.py:246-371 | in every run a waiting ticket is queued if and only if it is not awarded; an award that is not cancelled has been woken, and a cancelled one belongs to a closed loop |
| SlotInvariants.NoIdleSlot | app/agent_slots.py:194-203 | in every run a non-empty queue means that all capacity is in use |
| SlotInvariants.WaitersHaveServers | app/agent_slots.py:398-413 | in every run without leaks, while somebody waits at least as many leases and unclaimed awards exist as the capacity |
| SlotInvariants.AwardOrder | app/agent_slots.py:152-165 | no step lets a waiter be served before one that precedes it, nor drops a waiter that did not cancel |
| SlotInvariants.NoOvertaking | app/agent_slots.py:152-165 | over whole runs a waiter is never passed by a later or less urgent one, whatever cancellations happen in between |
| SlotInvariants.ReleaseAdvances | app/agent_slots.py:398-413 | a release serves the first waiter and moves each other one up by exactly one |
| SlotInvariants.ServedWithin | app/agent_slots.py:398-413 | bounded waiting over whole runs: with k waiters ahead and none more urgent arriving, k+1 releases outside a shrink end the wait, whatever else happens in between |
| SlotInvariants.ShrinkDrains | app/agent_slots.py:400-407 | after a shrink each release retires one slot and serves nobody until capacity is reached |
| SlotInvariants.StaleReleaseExample | app/agent_slots.py:398-413 | a reachable state in which a stale release frees a slot that is still leased |
| SlotInvariants.ClosedLoopHoldsSlot | app/agent_slots.py:167-184 | a slot awarded to a waiter on a closed loop stays with it in every continuation that does not throw the waiter out |
| SlotInvariants.ProceedsIffLoopOpen | app/agent_slots.py:167-184 | a winner has a step other than its own cancellation that ends its hold if and only if its loop is open |
| SlotInvariants.StrandedReachable | app/agent_slots.py:178-182 | a reachable state in which the only slot in use is held that way |
| SlotManager.AgentProcessSlotManager.constructor | app/agent_slots.py:126-139 | a new manager is in the initial protocol state, with the capacity asked for but at least one |
| SlotManager.AgentProcessSlotManager.AwardNextWaiter | app/agent_slots.py:152-165 | the heap loop serves the protocol's least waiter, and answers whether there was one |
| SlotManager.AgentProcessSlotManager.PassOnOrReturn | app/agent_slots.py:337-339 | a returned slot goes to the least waiter, or the count drops |
| SlotManager.AgentProcessSlotManager.SetCapacity | app/agent_slots.py:186-205 | one protocol step: the capacity nearest to the request within its limits, and every slot it grants |
| SlotManager.AgentProcessSlotManager.GrantAll | app/agent_slots.py:194-203 | new capacity is granted to the least waiters until it or the queue is used up |
| SlotManager.AgentProcessSlotManager.Acquire | app/agent_slots.py:207-274 | one protocol step: a lease if a slot is free, else a place in the queue with the priority asked for; a lease records when it was granted, and a direct wait is recorded |
| SlotManager.AgentProcessSlotManager.Check | app/agent_slots.py:350-394 | one protocol step: lease or wait on, by the ticket's flags; a lease records when it was granted; it never raises, since only a ticket of a closed loop is marked cancelled |
| SlotManager.AgentProcessSlotManager.CloseLoop | app/agent_slots.py:178-182 | the environment's step: a waiter's loop shuts down and the manager stays in a reachable state |
| SlotManager.AgentProcessSlotManager.Cancel | app/agent_slots.py:300-348 | one protocol step: a winner passes its slot on, a waiter leaves the queue |
| SlotManager.AgentProcessSlotManager.RemoveWaiter | app/agent_slots.py:313-317 | one ticket leaves the heap, which stays a heap of the others |
| SlotManager.AgentProcessSlotManager.LeaseRelease | app/agent_slots.py:106-110 | a lease is given back at most once by its owner, and no other lease is touched |
| SlotManager.AgentProcessSlotManager.BindPid | app/agent_slots.py:103-104 | a process is bound to one lease and nothing else changes |
| SlotManager.AgentProcessSlotManager.ReleaseSlot | app/agent_slots.py:398-413 | one protocol step for a returned slot |
| SlotManager.AgentProcessSlotManager.ForceReleaseOrphaned | app/agent_slots.py:419-449 | exactly the leases whose process is dead, or that have had none for longer than the age limit, are reclaimed, each slot passed on or given back |
| SlotManager.AgentProcessSlotManager.GrantedLeaseStays | app/agent_slots.py:419-449 | a lease granted now outlives every scan up to the age limit whatever lives, and later ones while the process bound to it lives |
| WaitHistogram.RecordWait | app/agent_slots.py:143-150 | samples, total, maximum and first-fit counts describe the waits recorded so far |
| WaitHistogram.PrefixSumsCount | app/metrics.py:926-933 | prefix sums of first-fit counts are the numbers of waits up to each bound |
| WaitHistogram.CountMonotone | app/metrics.py:926-933 | these numbers grow with the bound and never exceed the sample count |
| WaitHistogram.Render | app/metrics.py:926-936 | each rendered row counts exactly the waits up to its bound, and the last row counts all |
| CallGraph.WalkIffPath | app/pipeline/callchain_db.py:305-388 | walks of a length are the edge paths of that length |
| CallGraph.NothingBeyond | app/pipeline/callchain_db.py:360-362 | if no function is at a distance, none is farther |
| Closure.NextLayerAtDistance | app/pipeline/callchain_db.py:347-358 | the rows that a layer would insert are the pairs at exactly that distance |
| Closure.ConvergedExact | app/pipeline/callchain_db.py:360-362 | stopping at an empty layer loses no pair and no cycle, for any larger limit |
| Closure.SelfReachingIsCycle | app/pipeline/callchain_db.py:335-345 | the cycle query has rows if and only if a call closes a cycle within the layers built |
| Closure.CycleIffClosedPath | app/pipeline/callchain_db.py:335-369 | that condition is a closed call path through two functions, of bounded length |
| CallchainDB.Database.BuildClosure | app/pipeline/callchain_db.py:305-388 | a row exists if and only if the shortest path has its length within the limit; the cycle flag is exact up to the limit, despite early stopping and the 20-row queries; the recorded cycles name every function on a cycle unless there are 20 or more; stopping before the limit means that the closure is complete |
| CallchainDB.Database.ExtendLayers | app/pipeline/callchain_db.py:331-363 | the layer loop reaches the exact closure, the exact flag and the deepest layer, and a complete closure if it stops early |
| CallchainDB.Database.InsertLayer | app/pipeline/callchain_db.py:347-358 | one statement extends an exact closure by one layer and counts its rows |
| CallchainDB.Database.CheckCycles | app/pipeline/callchain_db.py:335-345 | the recorded cycles are sound, there are some exactly if a cycle closes within the layers built, and they are all unless there are 20 or more |
| CallchainDB.ReachableExactly | app/pipeline/callchain_db.py:563-574 | the reachability query answers bounded reachability in the call graph, both ways |
| CallchainDB.AncestorsExactly | app/pipeline/callchain_db.py:576-594 | the ancestor query returns exactly the functions at each distance up to both limits |
| CallchainDB.Database.GetAncestors | app/pipeline/callchain_db.py:576-594 | the rows of the query are that set, each once, nearest first and by name within a depth |
| CallchainDB.NameOrder | app/pipeline/callchain_db.py:576-594 | the order of names is decided at the first difference, and a prefix comes first |
| CallchainDB.Database.BuildEntryTrees | app/pipeline/callchain_db.py:390-478 | every root gets its shortest-path tree; node totals and truncated roots are those of the graph |
| EntryTrees.Frontier | app/pipeline/callchain_db.py:436-452 | while the queue is at least this deep, everything closer has been found |
| EntryTrees.BuildAdjacency | app/pipeline/callchain_db.py:420-424 | the adjacency lists hold exactly the calls of the graph |
| EntryTrees.GrowTree | app/pipeline/callchain_db.py:433-455 | each function within the limit appears once with a real path of its true distance; truncated if and only if some function lies at exactly the limit |
| EntryTrees.TruncatedIffDeep | app/pipeline/callchain_db.py:445-455 | a row at the limit exists if and only if some function lies exactly that far away |
| CallchainDB.TreesMatchClosure | app/pipeline/callchain_db.py:305-478 | the two independent algorithms agree: same pairs and same depths below every root |
| EntryCategories.ExternalByDistance | app/pipeline/callchain_db.py:667-749 | external entries are the active ones and those that no other kept function reaches within the limit |
| EntryCategories.Classify | app/pipeline/callchain_db.py:693-743 | both passes together give each kept function its category, whatever the iteration order |
| EntryCategories.CategoriesFollowRules | app/pipeline/callchain_db.py:693-743 | each category by the rules, from the closure alone: active or without another kept ancestor; else within the limit of an external ancestor, or with none at a limit of 999 or more; else internal |
| EntryCategories.FindExternals | app/pipeline/callchain_db.py:693-718 | the first pass finds exactly the active functions and those without a kept ancestor |
| EntryCategories.MinDepth | app/pipeline/callchain_db.py:727-735 | the least depth below an external entry, or 999 if there is none |
| EntryCategories.DepthDecides | app/pipeline/callchain_db.py:727-737 | comparing the least depth with the limit decides the category |
| EntryCategories.CountsPartition | app/pipeline/callchain_db.py:744-749 | the three counts sum to the kept set |
| EntryCategories.PromiseIffNoSentinel | app/pipeline/callchain_db.py:727-737 | the documented category comes out if and only if the limit is below 999 or an external ancestor exists |
| EntryCategories.ConvergedComplete | app/pipeline/callchain_db.py:360-362 | an exact closure with an empty next layer holds every pair that a call path connects |
| EntryCategories.SentinelExample | app/pipeline/callchain_db.py:727-737 | on the graph of two functions that call each other, with its exact closure, the documented category comes out if and only if the limit is below 999 |
| EntryCategories.EveryoneIsRooted | app/pipeline/callchain_db.py:667-749 | on an acyclic graph with a complete closure every kept function is external or below an external one |
| EntryCategories.AcyclicIffNoClosedPath | app/pipeline/callchain_db.py:335-345 | acyclic means that no call path leads back to its start |
| CallchainDB.Database.ClassifyEntryCategories | app/pipeline/callchain_db.py:667-749 | the result follows the rules and counts each category; the stored column gets it for known functions and keeps everything else |
| SchedulerInvariants.StepKeepsInv | app/pipeline/engine.py:536-642 | every step of every coroutine keeps counters, permits and gates in agreement |
| SchedulerInvariants.RunInv | app/pipeline/engine.py:500-805 | so does every run, cancelled or not |
| SchedulerInvariants.Barrier | app/pipeline/engine.py:536-562 | the event is set exactly when all files have settled and all functions are counted; call-chain analysis starts only then, and R4 only after it ends |
| SchedulerInvariants.BarrierFinal | app/pipeline/engine.py:536-551 | once set, the barrier stays correct: no more work is discovered |
| SchedulerInvariants.PermitsBounded | app/pipeline/engine.py:513-526 | with a limit of at least one, no more files and functions hold permits than the limit, and a permit not held is free; any smaller limit counts as one |
| Scheduler.CountIsCardinality | app/pipeline/engine.py:509-526 | the counts that these properties speak of are numbers of files and functions |
| SchedulerInvariants.StuckReturnsIffAllCounted | app/pipeline/engine.py:578-588 | a run that cannot move has returned if and only if nothing skipped its counter |
| SchedulerInvariants.UncountedIffSkipped | app/pipeline/engine.py:574-593 | in every run somebody left uncounted if and only if a file or function began, or R1 found functions, while cancelled |
| SchedulerInvariants.StuckReturnsIffNoneSkipped | app/pipeline/engine.py:758-800 | the exact condition on the steps under which a run that cannot move has returned |
| SchedulerInvariants.UncancelledNeverStuck | app/pipeline/engine.py:553-805 | no deadlock without cancellation, for any semaphore sizes |
| SchedulerInvariants.CancelHangExample | app/pipeline/engine.py:761-762 | a cancelled run that waits forever |
| SchedulerInvariants.RunBounded | app/pipeline/engine.py:500-805 | every run ends after a number of steps linear in files and functions |
| SchedulerInvariants.ReachableFacts | app/pipeline/engine.py:500-805 | in every reachable state the counters count files and functions, the barrier is open exactly when all work is done, and the permits are those not held |
| PipelineRun.PipelineRun.OnR1Done | app/pipeline/engine.py:540-551 | with one file and its functions not counted yet, the counters end up counting the settled files and all functions, and the event ends up set exactly if all work is done |
| PipelineRun.PipelineRun.constructor | app/pipeline/engine.py:504-530 | a new run is in a reachable state; its barrier is open exactly if there is no file, and each semaphore has the permits asked for, but at least one |
| PipelineRun.PipelineRun.Promises | app/pipeline/engine.py:500-805 | of the variables at any moment: the event is set exactly when all work is done, the permits missing are those held, a run that cannot move has returned exactly if nothing skipped its counter, and without cancellation it always has |
| PipelineRun.PipelineRun.MaybeSetAllR2Done | app/pipeline/engine.py:536-538 | with right counters, the event ends up set if and only if every file has settled and every function is counted |
| PipelineRun.PipelineRun.CountR2 | app/pipeline/engine.py:605-606 | with one function not counted yet, the counter ends up counting all that left R2, and the event ends up set exactly if all work is done |
| PipelineRun.PipelineRun.BeginFile | app/pipeline/engine.py:758-762 | the file goes on exactly if the run is not cancelled, and is skipped uncounted otherwise; the variables stay those of a reachable state |
| PipelineRun.PipelineRun.EnterR1 | app/pipeline/engine.py:767 | never more files hold a permit than the configured number, or one if that is less than one |
| PipelineRun.PipelineRun.BeginFunc | app/pipeline/engine.py:574-593 | the barrier was still closed; a cancelled function is dropped uncounted, an unknown one is counted, and then the barrier is open exactly if all work is done |
| PipelineRun.PipelineRun.EnterR2 | app/pipeline/engine.py:598 | never more functions hold a permit than the configured number, or one, and the barrier is closed while one does |
| PipelineRun.PipelineRun.LeaveR2 | app/pipeline/engine.py:594-609 | the barrier was still closed, and the last function to be counted opens it exactly when all work is done; the function goes on exactly if it passed and the run is not cancelled |
| PipelineRun.PipelineRun.LeaveR3 | app/pipeline/engine.py:634-640 | the function goes on to wait for the call-chain phase exactly if the run is not cancelled; the variables stay those of a reachable state |
| PipelineRun.PipelineRun.PassCC | app/pipeline/engine.py:642-645 | behind the call-chain event every file has settled, every function is counted and the analysis has ended |
| PipelineRun.PipelineRun.FinishR4 | app/pipeline/engine.py:647-756 | R4 and R5 end only behind the barrier and the call-chain event, with all work done |
| PipelineRun.PipelineRun.LeaveR1 | app/pipeline/engine.py:784-800 | work is discovered only while the barrier is closed; afterwards it is open exactly if all work is done, and the total is the number of functions that exist |
| PipelineRun.PipelineRun.StartCC | app/pipeline/engine.py:553-562 | the analysis starts with every file settled and every function counted; a cancelled run opens R4 at once |
| PipelineRun.PipelineRun.EndCC | app/pipeline/engine.py:556-562 | when the analysis ends, nothing has been discovered since it began, and R4 is open |
| StageLoops.ShouldContinue | app/pipeline/engine.py:187-202 | go on if and only if cancellation was not seen and the limit leaves an attempt |
| StageLoops.FunctionState.R2Judge | app/pipeline/engine.py:1218-1454 | every verdict but a plain failure ends the loop; SKIP and DISCARD mark the source incomplete |
| StageLoops.FunctionState.R2Worker | app/pipeline/engine.py:1165-1216 | one repair, which may mark the source incomplete; a crash leaves the worker failed, anything else passed |
| StageLoops.FunctionState.R2Round | app/pipeline/engine.py:927-948 | how one turn of judging and repairing can end, and what each end implies |
| StageLoops.FunctionState.R2Loop | app/pipeline/engine.py:925-969 | at most the quota of judge calls, stopping at the first acceptance; uncancelled it ends passed and every repair was judged again; cancelled after a rejection it ends passed exactly if a loop guard saw the cancellation first; the incomplete mark is set exactly by its causes |
| StageLoops.FunctionState.RunR2 | app/pipeline/engine.py:861-969 | the same from any earlier state, with the script's fast pass |
| StageLoops.FunctionState.R3Apply | app/pipeline/engine.py:1668-1733 | what an analysis, a parse failure, and a crash before or after either was taken over do to decision and input flag |
| StageLoops.FunctionState.R3Worker | app/pipeline/engine.py:1500-1738 | the worker repeats until one analysis comes back; decision and input flag are those of all analyses so far |
| StageLoops.FunctionState.R3Round | app/pipeline/engine.py:1016-1028 | how one turn of judging can end; a failed verdict calls the worker again |
| StageLoops.FunctionState.R3JudgeLoop | app/pipeline/engine.py:1015-1028 | both limits hold together; it ends with a passing verdict or with the judge limit spent |
| StageLoops.FunctionState.RunR3 | app/pipeline/engine.py:971-1036 | both round limits hold; uncancelled, one analysis comes back and one more for each rejection as far as the limit goes, the judge has the last word or no call left, and the decision is what all analyses made of it, or filter without external input |
| StageLoops.FunctionState.R4Worker | app/pipeline/engine.py:2194-2362 | one call with its own look at limit and cancellation; crash and missing result mean keep |
| StageLoops.FunctionState.R4Round | app/pipeline/engine.py:693-715 | how one turn of R4 can end, with the second look at the limit inside the worker |
| StageLoops.FunctionState.R4Loop | app/pipeline/engine.py:690-719 | leaves passed after at most the quota of worker calls, with the last worker's decision whatever the judge said: anything but keep if and only if that worker decided so; and says why it stopped |
| StageLoops.FunctionState.RejectedAnswerStands | app/pipeline/engine.py:706-719 | a decision that the judge rejected stands when the limit is spent |
| StageLoops.FunctionState.RunR4 | app/pipeline/engine.py:651-724 | a function decided keep leaves R4 passed, by the quick path or the loop, with the last worker's decision; the worker is called unless no attempt is left; others are left alone |
| StageLoops.FunctionState.FuncPipeline | app/pipeline/engine.py:574-756 | uncancelled, a function that was not given up goes through R2, R3 and R4, each calling its agents as often as their answers and limits demand; the decision is that of the analyses and then of the last R4 worker; a report exactly for the decision keep; and it ends within any horizon that covers finite limits |
| StageLoops.FunctionState.LineCheck | app/pipeline/engine.py:574-609 | the part up to R3: the line check is over, or was given up before |
| StageLoops.FunctionState.Analyse | app/pipeline/engine.py:610-724 | R3 and R4 in turn, and no R4 after a cancellation seen in between |
| StageLoops.RemovalSettles | app/pipeline/engine.py:693-737 | off the quick path, a first R4 answer that removes the function and is accepted means no report, whatever R3 said |
| StageLoops.FirstAnalysisDecides | app/pipeline/engine.py:971-1036 | a first analysis that comes back and is accepted decides: one call, one verdict at most, and R4 only for a function with external input that it keeps |
| Scanner.HasEndIff | app/pipeline/extractor.py:239-314 | a text has an end if and only if some prefix closes a body |
| Scanner.DepthSign | app/pipeline/extractor.py:303-310 | before the end, the depth is positive once a brace is open and zero until then |
| Scanner.LiteralIsSkipped | app/pipeline/extractor.py:267-287 | a whole string or character literal, escapes included, changes neither depth nor end |
| Scanner.LineCommentIsSkipped | app/pipeline/extractor.py:273-293 | nor does a line comment |
| Scanner.BlockCommentIsSkipped | app/pipeline/extractor.py:276-296 | nor does a block comment, over any number of lines |
| Scanner.BracesCount | app/pipeline/extractor.py:303-310 | code counts its braces, a closing one only after an opening one, and ends at the one that brings the depth to zero |
| Scanner.FirstEndIsUnique | app/pipeline/extractor.py:239-314 | the specification names one line |
| Scanner.Advance | app/pipeline/extractor.py:267-312 | one turn of the look-ahead lexer is one or two steps of the automaton that never looks ahead |
| Scanner.ScanLine | app/pipeline/extractor.py:261-312 | one line: the column of the first end, or the flags at its end |
| Scanner.ScanWindow | app/pipeline/extractor.py:261-314 | the nested loops find the line of the first end, or none if there is none |
| Scanner.FindFunctionEnd | app/pipeline/extractor.py:239-314 | the line on which the braces outside comments, strings and literals first balance, reading line ends as they stand, within 2000 lines; 0 exactly when there is none or the start is out of range; it is the end of C unless something is misread on the lines that decide it |
| Scanner.ModesAgreeIff | app/pipeline/extractor.py:261-302 | the scanner is in the mode of C after every prefix if and only if no backslash ends a line inside a literal, a line comment or half a comment mark |
| Scanner.ReadsAsC | app/pipeline/extractor.py:261-314 | without such a place both readings have the same depth and the same end |
| Scanner.EndIsEndInC | app/pipeline/extractor.py:239-314 | without such a place on the lines up to the end found, or in the window if none is found, the answer is that of C |
| Scanner.FirstEndInCIsUnique | app/pipeline/extractor.py:239-314 | the reading of C names one line |
| Scanner.ContinuedLiteral | app/pipeline/extractor.py:267-272 | a continued string after which no end is found, though C has one |
| Scanner.ContinuedComment | app/pipeline/extractor.py:261-265 | a continued line comment whose brace is taken for the end |
| Scopes.CountBraces | app/pipeline/extractor.py:335-357 | the braces outside strings and line comments |
| Scopes.OnlyCodeCounts | app/pipeline/extractor.py:335-357 | a brace in code counts once; a whole string and anything behind two slashes count for nothing |
| Scopes.Pop | app/pipeline/extractor.py:376-377 | popping from the top removes exactly the scopes that the depth closes |
| Scopes.TrackScopes | app/pipeline/extractor.py:360-377 | the stack after each line is the list of scopes whose depth has not been left since they were opened |
| Scopes.ActiveScopesAre | app/pipeline/extractor.py:360-377 | a scope is on that stack exactly if some line opened it, with a brace, under its name and at its depth, and the depth has stayed above since |
| PythonText.SplitJoin | app/pipeline/r2_script.py:44-48 | splitting joined lines gives them back, but for one empty last line |
| PythonText.SplitAtBreak | app/pipeline/r2_script.py:44-48 | every line break ends a line |
| PythonText.SplitAtCrLf | app/pipeline/r2_script.py:44-48 | a carriage return and its line feed are one break |
| PythonText.StripIs | app/pipeline/r2_script.py:44-48 | stripping takes the white space off both ends and nothing else |
| R2Script.NormOfJoin | app/pipeline/r2_script.py:46-48 | normalizing joined lines strips each line and then the whole |
| R2Script.PassesIffSameCore | app/pipeline/r2_script.py:37-56 | any stored text passes if and only if the line range is inside the file and both texts have the same lines, but for white space at line ends, outer blank lines and the indentation of the first line |
| R2Script.PaddingIgnored | app/pipeline/r2_script.py:37-56 | bodies that differ only in white space at line ends pass |
| Extractor.RecordIsUnique | app/pipeline/extractor.py:589-624 | an entry determines its record |
| Extractor.RecordSays | app/pipeline/extractor.py:589-624 | name, line, signature and end of a record, by what its entry gives |
| Extractor.KeptIff | app/pipeline/extractor.py:589-614 | an entry has a record if and only if it starts inside the file and its end is known or found, or one of its first ten lines opens a brace |
| Extractor.MergeMacros | app/pipeline/extractor.py:575-581 | the entries found are followed by the macro entries that no found entry and no earlier macro has the line of, in order |
| Extractor.NoLineTwice | app/pipeline/extractor.py:575-581 | these are macro entries on distinct free lines, and every free line with a macro has one |
| Extractor.ExtractOne | app/pipeline/extractor.py:589-624 | the record of an entry, or none exactly when the entry has none |
| Extractor.Assemble | app/pipeline/extractor.py:587-624 | the records of all entries that have one, in order |
| Extractor.SortByStartIs | app/pipeline/extractor.py:628 | sorting by start line keeps the order within each line |
| Extractor.Deduplicate | app/pipeline/extractor.py:626-632 | one record a line, the first, in strictly ascending order, and none missing |
| Extractor.PassesIffEndKnown | app/pipeline/r2_script.py:37-56 | an extracted record starts inside the file and passes the fast check if and only if its end is known and inside the file |
| Extractor.BodyIsLines | app/pipeline/extractor.py:600-624 | the body of a record is its lines as far as the file goes, 150 of them where no end is known |
| Extractor.ExtractFunctions | app/pipeline/extractor.py:583-634 | strictly ascending records, each from the first entry of its line that has one, and one for every such line |
| StableSort.SortIsStable | app/pipeline/extractor.py:628 | equal keys keep their order |
| StableSort.SortCounts | app/metrics.py:608-612 | sorting changes no count of elements with a property |
| StableSort.SortSorts | app/metrics_summary.py:267 | the result is in order |
| ByteLines.JoinSplit | app/runner.py:229-233 | joining the pieces of a text gives the text |
| ByteLines.SplitJoin | app/runner.py:229-233 | splitting joined pieces gives the pieces |
| ByteLines.SplitAppend | app/runner.py:1266-1268 | more bytes only change the last piece |
| AgentStream.AgentResult.ProcessLine | app/runner.py:1531-1571 | the effect of one line on messages, totals, error and stream, or the exception that an event of the wrong shape raises |
| AgentStream.AgentResult.Drain | app/runner.py:1267-1271 | all full lines of the buffer are taken in order and the rest stays, up to the first exception |
| AgentStream.AgentResult.Execute | app/runner.py:1250-1300 | any chunking gives the result of splitting the whole output once: exactly the messages that its events end are kept, in order, the text is that of the deltas, the totals grow by the usage of the assistant messages, and the first event that raises ends it with its error and exit code |
| AgentStream.AgentResult.ReadAll | app/runner.py:1250-1275 | the chunked reading equals one split of the whole output, including where it raises |
| AgentStream.TotalsMatchMessages | app/runner.py:1549-1571 | token totals and the error are always those of the messages kept, and messages are only added |
| AgentStream.TakenIs | app/runner.py:1531-1571 | what any lines make of a result: messages, text, totals and error by their events, up to the first that raises |
| SessionRepair.RepairKeepsGoodLines | app/runner.py:218-247 | the repaired file is a prefix with every parseable line in order, ends with one if any exists, and is unchanged if none does |
| SessionRepair.RepairIsIdempotent | app/runner.py:218-247 | repairing twice is repairing once |
| SessionRepair.GoodIs | app/runner.py:218-247 | a line counts if what is left between its white space parses, and never if nothing is left |
| SessionRepair.Truncate | app/runner.py:218-247 | the offset loop computes that file |
| Dispatcher.Dispatcher.StartupReset | app/dispatcher.py:48-103 | a task is publishable afterwards exactly if it was live; every live one that was running or queued starts over in all its fields, and no other changes |
| Dispatcher.Dispatcher.PumpOnce | app/dispatcher.py:114-149 | the first eligible tasks in creation order are published and saved, up to the first failure; the messages sent are exactly these, and one more if only saving failed |
| Dispatcher.Dispatcher.PublishOne | app/dispatcher.py:132-143 | a message is sent unless the queue refuses, and the row is saved only after that |
| Dispatcher.Dispatcher.SelectEligible | app/dispatcher.py:122-131 | the first live pending tasks without a queue id, in creation order, up to the batch size |
| Dispatcher.Dispatcher.StaleOnce | app/dispatcher.py:160-208 | every task is settled, publishable or with a live worker; a row is untouched if and only if it is not live or nothing about it is stale, and every other starts over in all its fields; the ids revoked are those of the running tasks reset |
| Dispatcher.RevokedAre | app/dispatcher.py:160-208 | the ids revoked are exactly those of the live running tasks that no worker attends |
| Dispatcher.Dispatcher.RecoverPending | app/dispatcher.py:209-245 | pending tasks whose queue id no worker reports start over in all their fields, and nothing else changes |
| Dispatcher.PumpsDrain | app/dispatcher.py:114-149 | successful pumps publish the eligible tasks in order, a batch at a time |
| Dispatcher.PumpsOnlyAssign | app/dispatcher.py:114-149 | pumps change nothing but missing queue ids of eligible tasks |
| Dispatcher.ScanThenPumps | app/dispatcher.py:114-245 | a scan and enough successful pumps leave no live task without a queue id |
| Dispatcher.NoAnswerRestartsAll | app/dispatcher.py:370-386 | without an answer from the workers every live task starts over |
| Dispatcher.QueuedTaskIsPublishedAgain | app/dispatcher.py:209-245 | a published task that no worker runs yet is made publishable again |
| Quantile.HistogramQuantile | app/metrics_summary.py:265-287 | the loop computes the quantile of the sorted rows, which the rows below pin down |
| Quantile.QuantileOnLine | app/metrics_summary.py:274-286 | for any rows: in the first bucket that reaches the target, the value lies on the straight line through the counts at its ends; it is the last finite bound before an infinite bucket, and the upper bound of one without a count of its own |
| Quantile.SortByUpperIs | app/metrics_summary.py:267 | the rows are put in order of their bounds and none is lost; rows already in order stay as they are |
| Quantile.QuantileBrackets | app/metrics_summary.py:265-287 | for the rows of one series, the value is at most each bound whose count reaches the target and at least each finite bound whose count does not |
| Quantile.QuantileRange | app/metrics_summary.py:265-287 | for any rows in any order, merged series included: a value exactly if the row with the largest bound counted something, and then between 0 and the largest finite bound |
| Quantile.QuantileMonotone | app/metrics_summary.py:265-287 | for any such rows, a larger quantile gives no smaller value |
| Quantile.WaitQuantileBrackets | app/metrics_summary.py:265-287 | from recorded waits to the estimate: it lies in the bucket of the true quantile |
| StageEvents.StageTables.AccumulateStageEvents | app/metrics.py:598-644 | the pass over the sorted log, table by table |
| StageEvents.StageTables.NoteDone | app/metrics.py:632-639 | a completion takes the oldest open start of its key |
| StageEvents.SessionsAreDistinct | app/metrics.py:621-624 | over a pass each stage gains the number of distinct sessions that its events name |
| StageEvents.StatusesAreCompletions | app/metrics.py:625-633 | over a pass each status of a stage, except running, gains its retries, or the completions that belong to it: passed from workers and positive verdicts, failed from negative ones, completed from judges without a verdict; and each role its starts |
| StageEvents.FreshTables | app/metrics.py:598-644 | over a pass into empty tables, statuses, roles and sessions hold the counts themselves |
| StageEvents.FreshDurations | app/metrics.py:598-644 | and the durations the number and sum of the gaps themselves |
| StageEvents.StageTables.ObserveEvent | app/metrics.py:612-639 | the effect of one event on all tables |
| StageEvents.StageTables.NoteRunning | app/metrics.py:641-644 | open events count as running |
| StageEvents.DurationsArePairs | app/metrics.py:607-639 | the same for a log that is already sorted |
| StageEvents.StartsAreMatchedOrRunning | app/metrics.py:598-644 | for every log and stage, starts are matched durations plus running events |
| StageEvents.PairingIsFifo | app/metrics.py:625-639 | the n-th completion of a key takes its n-th start, and the later starts stay open |
| StageEvents.GapNotNegative | app/metrics.py:607-639 | in time order no completion precedes its start |
| StageEvents.PassDurations | app/metrics.py:598-639 | the duration tables hold exactly the gaps of the pairs, without any clamp |

## Left out

- Futures and wake-up: an award wakes its waiter at once; the callback scheduled on another loop is not a step of its own.
- Tickets and leases are values in maps, named by sequence number, and the waiting list is a sequence; object identity and aliasing are not modelled.
- The exact sift order of CPython's heapq: the heap is a standard binary heap with the same contract.
- The session metrics, event callbacks, resident sizes, `snapshot` and the context manager of the slot manager.
- Semaphores and events of the scheduler may suspend at every `await`; runs that never suspend there are among those covered.
- Exceptions out of a stage, the fast mode and super-fast mode, and the R1 thread that goes on after its timeout.
- R5 and R6 beyond the decision to report, `_r4_quick_path` and the other prompts, parsers and files around the agents: their outcomes are inputs.
- Missing values of `has_external_input` count as false, as in every condition of the code.
- Row order and row limits of SQL results beyond what is stated, `insert_nodes`, `insert_edges`, the build status, logs, confidence and the caller context of the call-chain database.
- Graphs are built from plain edge lists; node attributes play no part.
- tree-sitter, the regular expressions and the macro scan of the extractor: their entries and matches are inputs, and files are lists of lines.
- Trigraphs, and the raw strings and digit separators of C++, which the scanner does not know.
- `\r\n` is the only two-character line break, as in Python; no other encoding is modelled.
- Cancellation, timeouts, stderr, the exit code of a process that ends by itself and retries of the agent process; decoding and JSON parsing are functions of the line, and callbacks do not raise.
- File input and output around the session repair.
- The two database sessions of a stale scan are one step, so a worker cannot claim a task between them; the counts that passes return for logging are left out.
- Environment overrides: the 600-second heartbeat limit and the other constants are the defaults.
- The debug-report twins of pump and scan, and claims and leases of workers.
- Selection and parsing of metric rows, the stage fallback for tasks without events, and the HTTP buckets, which the code cumulates twice.
- NaN and infinite metric values other than the `+Inf` bound.
