# A verified model of the reactive-component runtime

The runtime executes compositions of component instances. Actions and reactions of the instances
are run by several threads under per-instance reader/writer locks; memory comes from a
garbage-collected heap; activations of push ports defer the second half of a reaction until all
port calls have been made. This project models these parts in Dafny and proves what they promise.
`dafny verify dfyconfig.toml` checks all of it.

## Reading guide

**Locks and tasks.** `ReaderWriterLock` is the first-in first-out lock whose waiters are tasks.
`LockProtocol` is the state machine of any number of tasks, locks and executors, one step per
spin-lock or mutex section; `LockProtocolInvariant` shows that each step keeps its invariant,
`LockSafety` draws mutual exclusion and task conservation from it, and `LockProgress` deadlock
freedom and bounded draining, with the exact condition under which an executor that exits leaves
nothing behind. `TaskOrder` says in which order tasks get their turn. `LockExamples` holds short runs
that meet their premises.

**Executors.** `ExecutorStates` is the six-state loop with its skip counting, `ExecutorLoops` the loop
in place, `ExecutorRounds` what its iterations and messages amount to, `MessageRings` the messages that go around the ring. `RingRounds` says how resets and messages
overtake each other; from it `RingWaits` draws when the executors can all be left waiting, `RingEnds`
when the last message finds everybody at rest, and `RingFailures` exactly when it does not. `RingViews`
reduces rings of executors with one task each to what runs of them depend on; `StalledRings` and
`TerminateFailures` are runs that end where the design does not want them to end. `PollingFailures` has
such runs, too, and says when exactly polling can fail.

**Composition.** `InstanceSets`, `Graphs`, `AccessSets` and `Composition` (in `Composer.dfy`) are the
three-colour search and the cached access sets. `RaceFreedom` joins them with the locks: the sets
computed before a run are the lists of locks taken during it.

**Activations.** `Stacks` is the word stack; `ActivationOrders` says by paths which bodies are due and in
which order; `Activations` is the list of deferred frames that is threaded through saved base pointers.

**Heap.** `BlockTrees`, `FreeLists`, `HeapAccounts` and `HeapSpec` describe blocks, free chunks, sizes
and reachability on values; `HeapMarks`, `HeapSweep` and `HeapAllocation` hold what marking, sweeping
and allocating do to them; `Heaps` is the heap itself, a class whose methods update a search tree,
status bits and a free list that lives in memory. `HeapFamilies` is the tree that heaps form as parents
and children, `HeapCollections` which heaps are gone after a collection, `HeapTreatments` which of the
others it has collected, `HeapEffects` what each operation changes, and `HeapPrograms` a program that uses
such heaps in one memory.

**Instance scheduler.** `InstanceSchedules` is the intrusive schedule, `InstanceScheduler` its workers, and
`SchedulerProgress` how they come to an end.

**Layouts.** `FrameLayouts` and `FrameCalls` are the offsets of parameters and locals and the calls
that have to agree with them; `DataLayouts` is alignments, sizes and offsets, `TypePaths` says where paths
of fields and elements lead to, and `InstanceTables` which component instances there are, and where.

## What the model adds and fixes

- A step of the lock protocol is one spin-lock or mutex section; sequential consistency between
  sections is taken for granted. `place` in `LockProtocol` is not in the program: it names where a
  task is, and the invariant ties it to the lists.
- `trail` and `born` of a ring message, `resets` of an executor, `chunks` of a heap, and `above`, `collected`
  and `merged` of a program with heaps are recorded for the statements only, and so are the `worlds` that a
  run goes through and the `places` of instances; nothing that the program
  does depends on them. The rules of use that `Fits` states ask `above` whether a heap would become its
  own ancestor.
  `resets` counts, for each executor, how often that one has sent this one back to the normal state;
  `born` is what `resets` was at the sender when it made the message. An executor could tell a message
  of an earlier round by comparing the two, if messages carried them.
- Whether an action's precondition holds, whether a file descriptor is ready, and at which address
  the memory allocator puts a new block are parameters. The address of a new block is required to be
  word-aligned, and not to overlap blocks of heaps or heaps themselves.
- `HeapPrograms.Program.Collect` first takes all children that were not reached out of the list and then
  goes over the children in order; the code does both in one pass (`src/heap.cpp:595-612`).
- The status bits of a slot are sets of slots, and the four bits of two slots are not packed into a
  byte. A stack word is a value, and the stack is aligned to pointers, as `src/main.cpp:219` sets it.
- Access levels of receivers (`src/compute_receiver_access.cpp`) are inputs of the composition, and the
  instances that a precondition depends on are inputs of the instance scheduler.

## Where the code differs from what one might expect

- `InstanceSet::is_compatible` (`src/composition.cpp:72-73`) compares instance and access together, so
  that an instance read in one set and written in the other is no conflict. The theorems say "written
  in both". Races between actions are excluded all the same, because the locks of an action cover
  reads as well.
- `Block::mark` (`src/heap.cpp:192-205`) does not mark the head of an object when it is entered by a
  pointer into the middle. `HeapMarks.InteriorPointerLosesHead` is a heap where this leaves an object
  without a head, on which the next backward search would leave the block;
  `HeapMarks.CollectedIsHeaded` is the exact condition under which it does not happen.
- Messages of the ring carry no round. A START_WAITING1 or START_DOUBLE_CHECK message can end the first
  wait of an executor that has been in the normal state since the message was made, and the executors
  can then all wait for ever (`src/partitioned_scheduler.cpp:209-235`). `StalledRings.StallsIfSeveral`
  says for which rings, `RingWaits.InTimeNeverStalls` that nothing else leads there.
- In the same way an executor can exit by a START_WAITING2 message of its own that is out of date, and
  `assert (state == WAIT2)` on TERMINATE (`src/partitioned_scheduler.cpp:250-253`) then fails in
  another one: `TerminateFailures.TerminateCanFail`. `RingFailures.TerminatesExactlyIfSafe` says when.
- `NOT_REACHED` in the polling state (`src/partitioned_scheduler.cpp:190-192`) can be reached, as
  `PollingFailures.PollingCanFail` shows; `PollingFailures.PollingFailsExactlyIf` says from where.
- An executor can exit while one of its tasks is parked (`PollingFailures.ExitsWithParkedTask`); nobody
  reads the ready list that the task is later put on, and the locks that it then holds are never
  released (`LockExamples.ExitCanAbandon`, `LockProgress.AbandonedInRun`). `LockProgress.EverythingDrains` says
  exactly when everything drains all the same.
- `Heap::merge` leaves `parent_` of adopted children as it was, pointing to the heap that it deletes
  (`src/heap.cpp:645-655`), and a later `remove_from_parent` of such a child (lines 678-683) searches the
  list of a heap that is gone. `HeapFamilies.ParentsAfterMerge` says when exactly a merge does that, and
  `HeapPrograms.Program.Run` that nothing else does.
- `elaborate` already computes some instance sets, in `compute_dependent_instances`
  (`src/composition.cpp:646-677`, called at line 1224 and before `analyze` in `src/main.cpp:278-284`),
  before the graph is known to be acyclic. By `Graphs.RecursionEnds` this recursion ends if and only if
  no cycle can be reached from the nodes that preconditions call; only then can E72 be reported, for
  the other cycles.

## Model

| member | source | states |
|---|---|---|
| `ReaderWriterLock.Info.ReadLock` | src/partitioned_scheduler.hpp:51-78 | a read request is granted if the lock is free, or if readers hold it and nobody waits; else the task is linked in behind the last waiter: afterwards the links, the tail pointer and the flags in the tasks thread exactly the longer queue, and no other task has been touched |
| `ReaderWriterLock.Info.WriteLock` | src/partitioned_scheduler.hpp:80-101 | a write request is granted only if the lock is free; else the task is linked in at the end, in the same sense |
| `ReaderWriterLock.Info.ReadUnlock` | src/partitioned_scheduler.hpp:103-109 | the walk over the links serves the queue as the specification of the lock says; every task that is granted the lock is told, in order, and has its link free again, while the links of those who go on waiting still thread the rest of the queue |
| `ReaderWriterLock.Info.WriteUnlock` | src/partitioned_scheduler.hpp:111-117 | the same when a writer gives the lock back |
| `ReaderWriterLock.Info.ProcessQueue` | src/partitioned_scheduler.hpp:119-163 | the list is cut behind the readers at its front, or behind the one writer at its head: what is granted and what is left are two lists of their own, the tail pointer goes back to the head if nothing is left, and the count says who was granted |
| `ReaderWriterLock.Info.Signal` | src/partitioned_scheduler.hpp:155-162 | the loop over the batch visits each of its tasks once, in order, and clears its link before it lets go of it; no other link changes |
| `ReaderWriterLock.FifoKept` | src/partitioned_scheduler.hpp:51-163 | every request and release keeps: no waiter while the lock is free, a writer at the head of any queue behind readers, and grants followed by the queue are the requests in their order |
| `ReaderWriterLock.GrantsFollowArrival` | src/partitioned_scheduler.hpp:51-163 | over any run of requests and releases, grants followed by the queue equal the requests in arrival order: nobody is lost, repeated or overtaken |
| `ReaderWriterLock.ServiceIsMaximal` | src/partitioned_scheduler.hpp:57-74 | a request waits exactly when somebody holds the lock in a way that excludes it or somebody waits already; serving a free lock leaves it free only if nobody waits, and grants readers only together or one writer alone |
| `LockProtocolInvariant.StartKeepsInv` | src/partitioned_scheduler.cpp:322-336 | taking a task off the idle list keeps the invariant: lists agree with places, counts agree with holders, waiters wait for the lock they asked for last |
| `LockProtocolInvariant.ResumeKeepsInv` | src/partitioned_scheduler.cpp:138-150 | taking a task off the ready list keeps the invariant |
| `LockProtocolInvariant.AcquireKeepsInv` | src/partitioned_scheduler.cpp:440-464 | asking for the next lock keeps the invariant, whether it is granted or the task is left in the queue |
| `LockProtocolInvariant.StageKeepsInv` | src/partitioned_scheduler.cpp:466-505 | beginning and ending the execution keeps the invariant: all locks are held in between |
| `LockProtocolInvariant.UnlockKeepsInv` | src/partitioned_scheduler.cpp:503-519 | releasing the next lock keeps the invariant, with the waiters it grants in the hands of the releasing thread |
| `LockProtocolInvariant.DeliverKeepsInv` | src/partitioned_scheduler.hpp:155-162 | handing one granted task to the ready list of its own executor keeps the invariant |
| `LockProtocolInvariant.FinishKeepsInv` | src/partitioned_scheduler.cpp:521-524 | going back to the idle list keeps the invariant |
| `LockProtocolInvariant.ExitKeepsInv` | src/partitioned_scheduler.cpp:236-253 | an executor that returns from its loop between two tasks keeps the invariant, whatever its tasks are waiting for |
| `LockProtocolInvariant.GrantedWaiters` | src/partitioned_scheduler.hpp:103-163 | what an unlock grants are distinct tasks that wait for that lock, all of one kind, from the front of the queue; the count was what the assertion in the unlock demands |
| `LockSafety.RunKeepsInv` | src/partitioned_scheduler.cpp:94-105 | every state of every run, of any number of tasks, locks and executors, has the invariant |
| `LockSafety.MutualExclusion` | src/partitioned_scheduler.hpp:51-163 | in every reachable state two tasks hold the same lock only if both hold it to read |
| `LockSafety.UnlockAssertions` | src/partitioned_scheduler.hpp:103-117 | the assertions in read_unlock and write_unlock never fail |
| `LockSafety.SpotOf` | src/partitioned_scheduler.hpp:310-333 | a task is in a spot: an idle or ready list of its own executor, a place in the queue of one lock, a place in a batch of granted tasks, or being run by its own executor |
| `LockSafety.SpotIsUnique` | src/partitioned_scheduler.hpp:119-163 | a task is in at most one spot; so a task that asks for a lock is in no queue, as the requests above demand |
| `LockSafety.TasksAreConserved` | src/partitioned_scheduler.cpp:137-147 | in every reachable state every task is in exactly one spot: none is lost and none is run twice at once |
| `TaskOrder.JoinsAtEnd` | src/partitioned_scheduler.hpp:310-333 | a task that comes to the idle or ready list of its executor is the last one there |
| `TaskOrder.MovesUp` | src/partitioned_scheduler.cpp:137-147 | in any run, a task on one of these lists moves up by one whenever its executor takes a task from that list, and by nothing else |
| `TaskOrder.GetsItsTurn` | src/partitioned_scheduler.cpp:322-336 | the first time that the executor takes a task from the list after having taken all that were ahead, it takes this one |
| `LockProgress.BlockingHolder` | src/partitioned_scheduler.cpp:440-464 | the greatest lock that anyone waits for has a holder that neither waits nor is idle |
| `LockProgress.NoDeadlock` | src/partitioned_scheduler.cpp:440-525 | in every reachable state where a task waits, the greatest lock that anyone waits for has a holder that neither waits nor is idle: it is ready, being delivered, or running |
| `LockProgress.StepUsesWork` | src/partitioned_scheduler.cpp:440-525 | every step on a task that is in flight uses up part of a bounded amount of work |
| `LockProgress.StepUsesEffort` | src/partitioned_scheduler.cpp:236-253 | counting the executors that have not exited as well, so does every step but the start of an idle task |
| `LockProgress.AbandonedStays` | src/partitioned_scheduler.cpp:236-253 | a task that is parked, ready or in a batch while its executor has exited stays so under every step, starts included, and keeps the locks that it holds |
| `LockProgress.AbandonedInRun` | src/partitioned_scheduler.cpp:236-253 | so it is in every run; and a run in which nobody exits makes no other task such a one |
| `LockProgress.QuietMeansDone` | src/partitioned_scheduler.cpp:440-525 | where no task in flight can be moved any further, in any reachable state, every task is idle and every lock is free if and only if no executor that has exited owns a task that is parked, ready or in a batch |
| `LockProgress.DrainIsBounded` | src/partitioned_scheduler.cpp:440-525 | without new starts, a run is no longer than the work and the running executors of its first state |
| `LockProgress.EverythingDrains` | src/partitioned_scheduler.cpp:440-525 | from every reachable state, a run that starts no new task, whoever exits during it, is bounded; where it cannot go on everything is idle and free if and only if no executor that has exited owns such a task; one that is owned so at the beginning is at the end, and if nobody exits none is added |
| `LockProgress.DrainsUnlessAbandoned` | src/partitioned_scheduler.cpp:440-525 | from a reachable state, moving on the tasks in flight can bring every task to its idle list and free every lock if and only if no executor that has exited owns a task that is parked, ready or in a batch |
| `LockExamples.TasksCanWait` | src/partitioned_scheduler.cpp:440-464 | the premise of deadlock freedom is met: a run of two tasks in which one waits for the other |
| `LockExamples.ExitCanAbandon` | src/partitioned_scheduler.cpp:236-253 | there is such a task: a run in which an executor exits while its task is parked, so that the task is granted its lock and put on a list that nobody reads, which leaves it with the lock and nothing in flight that can be moved |
| `LockExamples.ReadersExecuteTogether` | src/partitioned_scheduler.cpp:440-472 | the premise of race freedom is met: a run in which two readers of an instance execute at once |
| `ExecutorStates.RanKeepsInv` | src/partitioned_scheduler.cpp:466-501 | running a task keeps the meaning of the points: skips of this generation while counting, the number of tasks otherwise |
| `ExecutorStates.ReceivedKeepsInv` | src/partitioned_scheduler.cpp:196-265 | so does every message, whatever its kind, its sender and the state it is received in |
| `ExecutorStates.AdvancedKeepsInv` | src/partitioned_scheduler.cpp:269-320 | so does what an executor does when every task has been skipped |
| `ExecutorStates.MoveKeepsInv` | src/partitioned_scheduler.cpp:119-384 | every move of the loop keeps it: no underflow of the points, no record from a later generation |
| `ExecutorStates.CountIsFull` | src/partitioned_scheduler.cpp:269 | the points reach the number of tasks exactly when every task was skipped in this generation |
| `ExecutorStates.IdleTasksWait` | src/partitioned_scheduler.cpp:371-375 | an executor that waits or polls never gets to its idle list, so this NOT_REACHED is not reached |
| `ExecutorStates.FailsOnlyIf` | src/partitioned_scheduler.cpp:190-192 | the loop fails exactly on a ready task while polling, or on a TERMINATE message outside of the second wait |
| `ExecutorStates.StragglersAreIgnored` | src/partitioned_scheduler.cpp:185-189 | what a task does while its executor waits changes neither state, points nor generation, and sends nothing |
| `ExecutorStates.HitGoesBack` | src/partitioned_scheduler.cpp:350-370 | while shooting down or checking again, a task that is run, whatever it did before, sends the executor back to normal, in the next generation, with no points and exactly one RESET, if and only if it was not skipped |
| `ExecutorStates.NormalGoesOn` | src/partitioned_scheduler.cpp:335-349 | in the normal state no task changes the state or the generation, or sends anything |
| `ExecutorStates.StateChanges` | src/partitioned_scheduler.cpp:119-384 | which state can follow which, and that leaving a counting state to wait or poll takes a skip of every task |
| `ExecutorStates.WaitsOnlyAfterTwoRounds` | src/partitioned_scheduler.cpp:269-299 | in every run, entering the second wait or starting to poll means that every task was skipped in each of two successive generations since the last normal state, with only shooting down, the first wait and the second check in between, and that no task was hit in either of them |
| `ExecutorLoops.Executor.Resume` | src/partitioned_scheduler.cpp:440-525 | the record of a task and the result of running it, for every earlier record, generation and outcome; it goes to the end of the idle list if it executed |
| `ExecutorLoops.Executor.Iterate` | src/partitioned_scheduler.cpp:135-383 | an iteration in place, task before message, equals the moves of the state machine one after the other, and keeps its invariant |
| `ExecutorRounds.IterationIsMoves` | src/partitioned_scheduler.cpp:135-383 | an iteration is one move of the state machine or two, so that what holds of runs of moves holds between iterations |
| `ExecutorRounds.IterationTakesBoth` | src/partitioned_scheduler.cpp:137-196 | an iteration takes the first ready task and the first message, if there are any, both if there are both |
| `ExecutorRounds.ListsAreQueues` | src/partitioned_scheduler.cpp:322-383 | in every move each of the message queue, the ready list and the idle list loses its first entry or none, as the move says, and gains at most one at its end |
| `ExecutorRounds.ChangesAreAnnounced` | src/partitioned_scheduler.cpp:142-320 | every change of state, generation or status, except to polling, is told by exactly one message of the kind of the new state: the received one, stamped, if it concerns the executor, else one of its own; otherwise nothing is sent, but a message that concerns the executor is always passed on |
| `ExecutorRounds.OtherMessages` | src/partitioned_scheduler.cpp:196-265 | a message that does not concern the executor changes nothing, except that its own one which comes back while it waits for it ends that wait, and that TERMINATE fails |
| `ExecutorRounds.RoundGoesOn` | src/partitioned_scheduler.cpp:322-348 | from the beginning of a generation, iterations in which nothing arrives and tasks are skipped run the tasks of the idle list in its order, each once, count each of them, and send nothing |
| `ExecutorRounds.RoundEnds` | src/partitioned_scheduler.cpp:269-299 | after as many of these as there are tasks, the next iteration leads from normal to shooting down, from there to the first wait, from the second check to the second wait or to polling, and announces it |
| `ExecutorRounds.PollGoesBack` | src/partitioned_scheduler.cpp:303-316 | a polling executor with nothing else to do goes back to normal, with one RESET, if the poll succeeds, and else does nothing |
| `ExecutorRounds.AloneExits` | src/partitioned_scheduler.cpp:119-384 | a single executor whose tasks are all skipped leaves its loop after exactly three times as many iterations as it has tasks, and seven more |
| `MessageRings.TurnKeepsInv` | src/partitioned_scheduler.hpp:489-508 | whatever executors do, a queued message was sent on by the executors between its sender and here, in ring order, each in the state the message stands for |
| `MessageRings.CircuitIsComplete` | src/partitioned_scheduler.cpp:196-265 | a message that is back at its sender was sent on by every other executor exactly once, in ring order |
| `MessageRings.AcceptedAfterAllWaited` | src/partitioned_scheduler.cpp:209-249 | an executor that goes on from a wait because its message came back does so after every other executor sent the message on while it was in that wait |
| `MessageRings.StalledStays` | src/partitioned_scheduler.cpp:283-302 | if all executors wait, with nothing ready, parked or under way, they do so for ever |
| `RingRounds.MoveSteps` | src/partitioned_scheduler.cpp:119-384 | between two resets the state of an executor only goes forward, and a move adds to the resets that the executor has been through exactly those that it sends |
| `RingRounds.TurnKeepsRounds` | src/partitioned_scheduler.hpp:489-508 | whatever executors do: every reset that one has been through its neighbor has been through or will find in its queue, a message is received after the resets that were sent before it, and whoever made or sent on a message has gone on since or is where it was |
| `RingWaits.SentOnInRound` | src/partitioned_scheduler.cpp:209-249 | a message that comes back to its sender in the round in which it was made was sent on by every other executor in that very round |
| `RingWaits.TurnKeepsFreshWaits` | src/partitioned_scheduler.cpp:209-235 | while waits end in time: who checks again knows that all have been waiting since the round began, and its neighbor, if it waits in that round, has the message that tells it so in its queue |
| `RingWaits.RunKeepsCalled` | src/partitioned_scheduler.cpp:279-292 | in every run, while all executors are in the same wait, a message that started there is under way |
| `RingWaits.OneNeverStalls` | src/partitioned_scheduler.cpp:209-249 | a ring of one executor never stalls |
| `RingWaits.InTimeNeverStalls` | src/partitioned_scheduler.cpp:209-235 | a ring of any size never stalls, in any run in which no executor ends its first wait by a message that was made before a reset which the executor has been through |
| `RingViews.ActSimulates` | src/partitioned_scheduler.cpp:119-384 | an act on the view of an executor with one task is a move of that executor |
| `StalledRings.TerminationCanStall` | src/partitioned_scheduler.cpp:226-235 | any number of executors from two on can come to wait for ever: a START_DOUBLE_CHECK message can arrive in the wait of a later round |
| `StalledRings.StallsIfSeveral` | src/partitioned_scheduler.cpp:209-235 | a ring can stall if and only if it has more than one executor |
| `RingEnds.ReturnedIsWhole` | src/partitioned_scheduler.cpp:236-248 | a START_WAITING2 message that is back in the round it was made in was sent on by everybody, in that round |
| `RingEnds.TurnKeepsFreshEnds` | src/partitioned_scheduler.cpp:236-253 | while executors exit in time: whoever has sent such a message on is still where it was, or the message will come to an executor that is not |
| `RingEnds.AllRestAtExit` | src/partitioned_scheduler.cpp:250-253 | in every run in which no executor exits by a message that it made before a reset it has been through: once one has exited all are in the second wait, in the same round, and the assertion on TERMINATE never fails |
| `RingFailures.TerminatesExactlyIfSafe` | src/partitioned_scheduler.cpp:250-253 | once an executor has exited, and none has failed: the assertion on TERMINATE can fail later on if and only if some executor that runs is not in its second wait, or has a RESET of another one in its queue with no message before it by which it exits |
| `TerminateFailures.TerminateCanFail` | src/partitioned_scheduler.cpp:236-253 | three executors can come to that: a run that ends with a TERMINATE message in front of an executor that is not in its second wait |
| `PollingFailures.PollingCanFail` | src/partitioned_scheduler.cpp:190-192 | an executor can be given a ready task while it polls: a run that ends in this NOT_REACHED |
| `PollingFailures.RunKeepsApart` | src/partitioned_scheduler.cpp:322-383 | in every run of every ring, no task is on the two lists of its executor more than once |
| `PollingFailures.PollingFailsExactlyIf` | src/partitioned_scheduler.cpp:190-192 | in every reachable ring, an executor that polls can come to this NOT_REACHED, or otherwise fail except on a message, before it stops polling, if and only if one of its tasks is not on its idle list |
| `PollingFailures.ExitsWithParkedTask` | src/partitioned_scheduler.cpp:236-253 | an executor can exit while one of its tasks is on neither of its lists: a run that skips a task, parks it on its next turn, and counts it all the same |
| `InstanceSets.InsertRaisesLevel` | src/composition.cpp:55-60 | inserting an entry raises the access of its instance to the stronger one and keeps the set sorted |
| `InstanceSets.AddUnion` | src/composition.cpp:96-105 | the union is the pointwise maximum |
| `InstanceSets.IsCompatible` | src/composition.cpp:62-94 | the merge loop over two sorted sets answers true if and only if no instance is written in both |
| `Composition.Composer.Tarjan` | src/composition.cpp:679-699 | a search from a node is rejected only if a cycle can be reached, and accepted only after the node and all below it are in a topological order; it ends because fewer nodes are unmarked |
| `Composition.Composer.CheckAcyclic` | src/composition.cpp:1174-1188 | the composition is accepted if and only if no cycle can be reached from an action |
| `Graphs.TopologicalMeansAcyclic` | src/composition.cpp:679-699 | below a node of a topological order there is no cycle |
| `Graphs.NestingIsBounded` | src/composition.cpp:1174-1188 | a path that starts in the order is no longer than the order, which bounds how deep reactions nest |
| `Graphs.RecursionEnds` | src/composition.cpp:646-677 | a recursion over all children without marks, as the computation of dependent instances makes from precondition nodes before the search for cycles, ends if and only if no cycle can be reached, and then within as many levels as there are nodes |
| `AccessSets.SetComputation.InstanceSet` | src/composition.cpp:134-157 | the cached recursion gives, for each node, the strongest access to each instance by the node or any node that it reaches, if and only if the check for conflicts succeeds everywhere below |
| `AccessSets.AddChild` | src/composition.cpp:330-344 | a child is merged if and only if its writes and the writes merged before it are disjoint |
| `AccessSets.SummaryIsUnique` | src/composition.cpp:134-157 | there is only one set that sums up a node, so the cache cannot matter |
| `AccessSets.CompatibleMeansNoConflict` | src/composition.cpp:62-94 | two summaries are compatible if and only if no instance is written below both |
| `Composition.ComputeInstanceSets` | src/composition.cpp:1191-1207 | sets are computed for all actions if and only if every activation and port below them is free of write conflicts |
| `Composition.Analyze` | src/composition.cpp:1227-1232 | a composition that passes the checks on bindings is accepted if and only if it is acyclic below its actions and free of write conflicts there; then the sets sum up all accesses |
| `RaceFreedom.ExecutingHoldsAll` | src/partitioned_scheduler.cpp:440-472 | an executing task holds the lock of every instance of its set, in the mode of its access |
| `RaceFreedom.ExecutingSetsAreDisjoint` | src/partitioned_scheduler.cpp:443-519 | of two executing tasks, neither touches what the other one writes |
| `RaceFreedom.NoRaces` | src/composition.cpp:134-157 | whenever two actions execute at once, in any reachable state, no instance that a node below one of them writes is accessed by any node below the other |
| `RaceFreedom.CollectorRunsAlone` | src/partitioned_scheduler.hpp:263-282 | while an instance is collected, no executing action can touch it |
| `Stacks.Stack.Load` | src/stack.cpp:86-94 | a copy of words on the stack is pushed; nothing below changes |
| `Stacks.Stack.Setup` | src/stack.cpp:128-135 | the base pointer is saved at its new place, and cleared locals follow |
| `Stacks.Stack.Teardown` | src/stack.cpp:137-142 | the frame is dropped and the saved base pointer is back |
| `Activations.Executor.Defer` | src/operation.cpp:845-857 | an activation links its live frame to the list and puts its body where the instruction pointer was, leaving arguments and locals alone |
| `Activations.Executor.Push` | src/operation.cpp:864-908 | a port call runs every bound reaction in order, each with its index, instance and a copy of the arguments, and the frames deferred before stay as they are |
| `Activations.Executor.React` | src/operation.cpp:883-901 | one reaction, in a frame in which the last deferred frame is saved as base pointer |
| `Activations.Executor.Call` | src/operation.cpp:845-862 | the immutable phase of a callable defers exactly the activations of the specification, in order |
| `Activations.Executor.UnwindLast` | src/runtime.cpp:662-672 | the last deferred body runs with its own arguments and locals, and its frame is taken down |
| `Activations.Executor.Unwind` | src/runtime.cpp:658-673 | all deferred bodies run, last first, and the list ends where it began |
| `ActivationOrders.ActivationsInOrder` | src/operation.cpp:845-908 | the activations of a callable are exactly one for each path of port calls and bindings to a callable that activates, with the index, instance and arguments that its last hop gives it; callers come before what they call, and earlier calls and bindings before later ones |
| `ActivationOrders.ReversedIsLog` | src/runtime.cpp:658-673 | run in reverse they are a log: exactly one run for each path, later paths first, a body after those of everything that its callable calls |
| `ActivationOrders.LogIsUnique` | src/runtime.cpp:658-673 | only one sequence of runs is a log of a callable |
| `Activations.Executor.ExecuteAction` | src/runtime.cpp:675-702 | running an action adds to the log exactly one run for each path through port calls and bindings to an activation, with the arguments and locals of that activation, later paths first and the own body of a callable after those of all that it calls; it leaves stack and base pointer as they were |
| `BlockTrees.FindAgrees` | src/heap.cpp:79-99 | searching the tree agrees with looking at every block |
| `BlockTrees.InsertOrdered` | src/heap.cpp:58-77 | inserting a block keeps the search tree and adds that block only |
| `BlockTrees.MergeOrdered` | src/heap.cpp:380-390 | merging two separate trees gives a search tree of all blocks |
| `BlockTrees.RemoveRightMostOrdered` | src/heap.cpp:223-240 | the right-most block is taken out and comes after all that are left |
| `BlockTrees.UnlinkOrdered` | src/heap.cpp:317-338 | removing a block in place keeps the search tree and all other blocks |
| `Heaps.Heap.Mark` | src/heap.cpp:160-205 | exactly the extent of the slot that is hit gets marked, its block is flagged and, if it was not, put on the work list |
| `Heaps.Heap.MarkSlotForAddress` | src/heap.cpp:532-552 | afterwards the address has been followed: the extent it hits is marked, or the child heap it names is reachable |
| `Heaps.Heap.Scan` | src/heap.cpp:554-568 | every aligned word of the range has been followed |
| `Heaps.Heap.ScanBlock` | src/heap.cpp:207-221 | no marked slot of the block is left unscanned unless its block is on the work list again |
| `Heaps.Heap.ScanWorkList` | src/heap.cpp:368-378 | it ends, because marks only grow and otherwise the list shrinks; then every marked slot has been followed |
| `Heaps.Heap.MarkAll` | src/heap.cpp:578-587 | the marks are the least set that neither the root nor its own words lead out of |
| `HeapSpec.SlotSurvives` | src/heap.cpp:160-221 | a slot is kept if and only if a word of the root or of a kept slot points into the object it belongs to, as marking sees it |
| `HeapMarks.MarksAreTraced` | src/heap.cpp:160-221 | the marks are exactly what can be traced from the root through the heap as it is, word by word and slot by slot |
| `HeapSpec.ChildSurvives` | src/heap.cpp:540-551 | a child heap is kept if and only if its address is such a word |
| `Heaps.Heap.ClearRun` | src/heap.cpp:301-306 | the loop clears exactly a maximal run of unmarked slots |
| `Heaps.Heap.SweepBlock` | src/heap.cpp:285-314 | a block is left with its marked slots; its maximal unmarked runs are on the free list, in memory, and the marked slots are counted and unchanged |
| `Heaps.Heap.Sweep` | src/heap.cpp:270-347 | over a tree: exactly the blocks without marks are removed, the tree stays a search tree, the free list holds exactly the maximal runs of the blocks that stay, the count is that of the marks |
| `Heaps.Heap.SweepAll` | src/heap.cpp:589-593 | the free list is rebuilt from nothing, what is allocated is what was marked, with contents unchanged, and the sizes follow from it |
| `Heaps.Heap.KeepReachableChildren` | src/heap.cpp:595-612 | exactly the reachable children stay, in their order, and none is flagged any more |
| `Heaps.Heap.CollectGarbage` | src/heap.cpp:570-593 | for the heap itself, without the walk over its children: it collects if forced or if more than the threshold is allocated; then the least closed set stays allocated with its contents, memory outside of the blocks is as it was, and the heap invariant holds again; else nothing changes |
| `HeapMarks.CollectedIsHeaded` | src/heap.cpp:192-205 | after a collection every object has its head if and only if, in the heap before it, whenever a traced word points into an object a traced word also points at its head or at slots in use that lead up to it; it is enough that traced words point to object starts |
| `HeapMarks.InteriorPointerLosesHead` | src/heap.cpp:192-205 | a word that points into the middle of an object keeps slots without their head: the least closed set, for a concrete heap |
| `FreeLists.FreeSlotHasRun` | src/heap.cpp:443-461 | every free slot is in exactly such a run as the free list holds |
| `FreeLists.RunsApart` | src/heap.cpp:287-312 | two different maximal runs do not overlap |
| `FreeLists.TakenIsExact` | src/heap.cpp:484-495 | taking the first slots of a chunk and putting the rest at the head leaves exactly the maximal free runs on the list |
| `FreeLists.WithBlockIsExact` | src/heap.cpp:465-482 | so does a new block at the end of the list |
| `FreeLists.JoinedIsExact` | src/heap.cpp:636-640 | so does one list after the other, for separate heaps |
| `FreeLists.LinkedRemove` | src/heap.cpp:484-486 | changing one link takes one chunk out of the list in memory |
| `FreeLists.LinkedPush` | src/heap.cpp:491-494 | writing one entry puts a chunk at the head |
| `FreeLists.LinkedAppend` | src/heap.cpp:637-640 | changing the last link joins two lists |
| `HeapAccounts.BytesAddUp` | src/heap.cpp:443-513 | bytes in use and the sizes of the free chunks add up to the sizes of the blocks |
| `Heaps.Heap.FindChunk` | src/heap.cpp:456-461 | the walk ends at the first chunk that is large enough, or at the end |
| `Heaps.Heap.AddBlock` | src/heap.cpp:465-482 | a new block of the larger of the two sizes is added, free, at the end of the list; the next size doubles |
| `Heaps.Heap.SetAllocated` | src/heap.cpp:146-158 | the first slot gets the object bit and exactly the slots of the object become allocated |
| `Heaps.Heap.TakeChunk` | src/heap.cpp:484-508 | the object is taken from the front of the chunk and the rest goes back to the head of the list |
| `Heaps.Heap.Allocate` | src/heap.cpp:443-513 | zero gives the null pointer and changes nothing; else first-fit: fresh slots of the rounded size, all zero, disjoint from everything allocated, whose contents are unchanged; memory outside of the blocks is as it was; the heap invariant and whole objects are kept |
| `Heaps.Heap.AllocateRoot` | src/heap.cpp:419-435 | a heap with an internal root has it as its first object |
| `HeapAllocation.AllocatedIsFresh` | src/heap.cpp:443-513 | the new object shares no address with any allocated slot |
| `HeapAllocation.AllocatedIsHeaded` | src/heap.cpp:443-513 | allocation keeps every object a head and a contiguous run |
| `Heaps.Heap.InsertChild` | src/heap.cpp:659-669 | the child goes to the head of the list, the next collection is forced, and the heap stays valid |
| `Heaps.Heap.RemoveChild` | src/heap.cpp:678-692 | the walk finds the child and takes out exactly that one, the next collection is forced, and the heap stays valid |
| `Heaps.Heap.Merge` | src/heap.cpp:628-657 | blocks, objects, free chunks, sizes and children are those of both heaps, contents and memory outside of the blocks are unchanged, and the invariant and whole objects are kept |
| `Heaps.Heap.SizesAddUp` | src/heap.cpp:443-657 | in every valid heap allocated_size_ plus the sum of the chunk sizes is the total size of the blocks |
| `Heaps.Heap.Undisturbed` | src/heap.cpp:443-657 | what is written in the blocks of other heaps, or outside of all blocks, changes neither the free list nor what is allocated |
| `Heaps.Heap.StoreKeepsValid` | src/stack.cpp:96-104 | the program may store to any word of an allocated slot |
| `HeapFamilies.ChildAdded` | src/heap.cpp:659-669 | a heap that is nobody's child may become the child of one that is not below it: the heaps stay a forest, and what is above each of them is known |
| `HeapFamilies.ChildRemoved` | src/heap.cpp:671-696 | so they do when a child leaves its parent, with all below it |
| `HeapFamilies.FamiliesMerged` | src/heap.cpp:645-651 | so they do when a heap takes over the children of another one |
| `HeapFamilies.PrunedAll` | src/heap.cpp:515-530 | when all children of a heap have gone, with all below them, exactly the heaps below it have gone |
| `HeapFamilies.ParentsAfterMerge` | src/heap.cpp:645-655 | if every heap points to its parent, then after a merge they still do if and only if the merged heap had no children |
| `HeapCollections.NamedIsKept` | src/heap.cpp:540-606 | the address of a child stays in the list if and only if a word holds it that can be traced from the root of the parent |
| `HeapCollections.AllDealtWith` | src/heap.cpp:595-622 | when each child has been collected or deleted in turn, a heap below is gone if and only if one of the collections lost it: it was, or was below, a child whose address no traced word held |
| `HeapPrograms.Program.AllocateIn` | src/heap.cpp:443-513 | with a forest of heaps in one memory, allocation in one of them returns the address of a new zeroed object in slots that were free, possibly in a new block of the size that is due, and adds its size to that heap; it keeps all other heaps, all contents, the forest, and all heaps valid |
| `HeapPrograms.Program.InsertChildOf` | src/heap.cpp:659-669 | a heap becomes the first child of another one, which is its parent then and due for collection; nothing else changes, all stay valid, and pointers to parents stay right |
| `HeapPrograms.Program.RemoveFromParentOf` | src/heap.cpp:671-696 | a heap leaves the list of its parent, if it has one that can be found, has none then, and the parent is due; nothing else changes, all stay valid, and if pointers to parents were right they still are and it is nobody's child |
| `HeapPrograms.Program.Delete` | src/heap.cpp:515-530 | exactly the heap and all heaps below it are gone; all others are untouched |
| `HeapTreatments.ChildTreated` | src/heap.cpp:595-622 | when the next child has been collected with all below it, that child and those below it are treated as well, and all others are as they were |
| `HeapTreatments.AllAreTreated` | src/heap.cpp:570-625 | when all children have been dealt with: of the heaps at or below the first one that are left, exactly those that are due have been collected, each once, the first one first; they look like it, with sizes that follow from what is left, and all others are unchanged |
| `HeapPrograms.Program.Collect` | src/heap.cpp:570-625 | the recursion over children: the heap, if forced or over its threshold, and exactly those below it that stay and are over theirs have been collected, each once, with their sizes reset; a child of a heap that is due stays if and only if a traced word of its parent holds its address; exactly the heaps that some collection loses are gone, all others are untouched, what stays allocated anywhere keeps its contents, and the result tells whether any heap was collected |
| `HeapPrograms.Program.MergeInto` | src/operation.cpp:1386-1410 | the merged heap is gone; its blocks, objects, slots, children and size are in the other one, and all contents and other heaps are kept; pointers to parents stay right if and only if it had no children |
| `HeapPrograms.Program.Do` | src/heap.cpp:419-696 | each operation has exactly its effect on all heaps: what appears, goes, is allocated at which address, is linked or collected, and that the rest is the same; it keeps all heaps valid and apart and a forest; a heap is gone only if it was merged away or lost by a collection |
| `HeapPrograms.Program.Run` | src/heap.cpp:419-696 | over any run of creations, allocations, stores, moves, collections and merges every operation has its effect on the heaps as the one before left them: a heap that was neither merged into another one nor, at some collection, at or below a child that no traced word of its parent named, is still there and valid with all its children, and sizes add up; if every heap met the condition on traced words when it was collected, and no merged heap had children, objects stay whole, pointers to parents stay right, and nothing but a broken rule of use can stop the run |
| `Alignments.MaskAlignsUp` | src/util.hpp:11-14 | for every power of two, adding and masking rounds up to the next multiple |
| `InstanceSchedules.Schedule.Push` | src/instance_scheduler.cpp:54-67 | an instance goes to the end of the intrusive list unless it is on it; links, head and tail thread exactly the list |
| `InstanceSchedules.Schedule.PushLinked` | src/instance_scheduler.hpp:66-80 | the changed instance and all linked ones are pushed, in order |
| `InstanceSchedules.Schedule.Pop` | src/instance_scheduler.cpp:104-112 | the first instance is taken off, and its link is free again |
| `InstanceSchedules.PushedIsThere` | src/instance_scheduler.hpp:66-80 | what is pushed is on the schedule once, and what was there keeps its place |
| `InstanceScheduler.NextKeepsInv` | src/instance_scheduler.cpp:83-139 | the schedule has no instance twice and pending counts the passes being made |
| `InstanceScheduler.QuietIsStable` | src/instance_scheduler.cpp:89-102 | once nothing is scheduled and nothing pending, workers can only exit and it stays so |
| `InstanceScheduler.AllTriedAtExit` | src/instance_scheduler.cpp:117-137 | when a worker exits, every instance that was on the schedule at any time has had a full pass over its actions that began after that and has finished |
| `InstanceScheduler.OwedIsPushed` | src/instance_scheduler.hpp:66-80 | what has to be pushed because of a change is pushed before any worker exits |
| `InstanceScheduler.ComputeDependentInstances` | src/composition.cpp:646-677 | the loops link to an instance exactly the instances with an action whose precondition depends on it |
| `InstanceScheduler.NothingMissed` | src/instance_scheduler.cpp:89-137 | when a worker exits, every action of every instance has been tried, and no instance that its precondition depends on has changed since: none has become enabled |
| `SchedulerProgress.NeverStuck` | src/instance_scheduler.cpp:83-139 | as long as a worker has not exited, some worker can do something, even if no action changes anything |
| `SchedulerProgress.StepUsesWork` | src/instance_scheduler.cpp:83-139 | every step uses up work; only a change adds to it, and just what the pushes it causes can cost |
| `SchedulerProgress.EverythingEnds` | src/instance_scheduler.cpp:89-139 | a run is bounded by the work at its beginning and its changes; nothing more can be done, but changes, if and only if all workers have exited with nothing scheduled or pending |
| `FrameLayouts.MemoryModel.AllocateParameters` | src/semantic.cpp:319-329 | going backwards, each parameter is placed below all that come after it |
| `FrameLayouts.MemoryModel.Allocate` | src/semantic.cpp:103-235 | at every point of a statement, the variables in scope have disjoint places above the saved base pointer and within the size that is reserved, which grows by exactly the rounded sizes of all declared variables; a block gives its places back |
| `FrameLayouts.MemoryModel.LocalsPop` | src/memory_model.cpp:34-37 | the offset goes back by the size that was pushed |
| `FrameCalls.LayOutFunction` | src/semantic.cpp:261-291 | parameters, then results, then the body: all offsets, the exact size of the frame, and no locals in use at the end |
| `FrameCalls.LayOutReaction` | src/semantic.cpp:293-302 | the index of a reaction comes after its parameters |
| `FrameCalls.EnterFunction` | src/operation.cpp:329-342 | the stack when the body of a callee starts |
| `FrameCalls.LeaveFunction` | src/operation.cpp:347-356 | after the call the results are on top of what was there before, and the base pointer is restored |
| `FrameCalls.EnterReaction` | src/operation.cpp:883-899 | the stack when the body of a reaction starts |
| `FrameCalls.ArgumentAgrees` | src/operation.cpp:336-342 | every argument is found at the offset that the layout gives to its parameter |
| `FrameCalls.ResultAgrees` | src/operation.cpp:332-333 | every result is found, cleared, at the offset that the layout gives it |
| `FrameCalls.LocalsAgree` | src/stack.cpp:128-135 | the locals are found, cleared, from the word after the saved base pointer on |
| `FrameCalls.ReactionAgrees` | src/operation.cpp:885-890 | the index is found at the offset that the layout gives it |
| `DataLayouts.ComputeAlignment` | src/arch.cpp:26-124 | the loop finds the greatest alignment of the fields |
| `DataLayouts.ComputeSize` | src/arch.cpp:136-236 | the loop gives the end of the last field; arrays take whole units |
| `DataLayouts.ComputeOffset` | src/arch.cpp:256-269 | the loop gives the first suitable place after the fields before |
| `DataLayouts.AlignIsGreatest` | src/arch.cpp:26-124 | the alignment of a structure is that of one of its fields, and none has a greater one |
| `TypePaths.PathFits` | src/arch.cpp:196-269 | what a path of fields and elements leads to lies within the size of the type |
| `TypePaths.ScalarsApart` | src/arch.cpp:196-269 | for every type, two different paths to scalar fields or elements lead to places that do not overlap |
| `TypePaths.OffsetIsFirst` | src/arch.cpp:256-269 | a field is at the first place after the field before it that suits its alignment |
| `TypePaths.FieldsFill` | src/arch.cpp:136-195 | the first field of a structure is at its beginning, and the last one ends where the structure does |
| `TypePaths.ElementsFill` | src/arch.cpp:196-236 | the size of an array is that of its elements, each rounded up to their alignment |
| `TypePaths.ScalarsAligned` | src/arch.cpp:86-104 | at a suitably aligned address every scalar is at a multiple of its own alignment |
| `InstanceTables.InstancesGrow` | src/composition.cpp:1318-1368 | contained instances have different, growing addresses within their container, and come after it |
| `InstanceTables.InstancesDescribed` | src/composition.cpp:1318-1368 | the instances of a type are exactly one for each path of fields and elements to a component, at the offset of that path, with the component that encloses it most closely as parent |
| `InstanceTables.InstanceTable.Instantiate` | src/composition.cpp:1318-1368 | the recursion over fields and elements adds the instances of the type at the end of the table |
| `InstanceTables.NextDeclaration` | src/composition.cpp:1288-1301 | with one more declaration the table has exactly the instances of that one more, from the end of the last one on |
| `InstanceTables.InstanceTable.Enumerate` | src/composition.cpp:1288-1301 | the table holds exactly one instance for each declaration and each path in its type to a component, at the sizes of the declarations before plus the offset of the path, with the enclosing instance as parent; all addresses differ and grow |
| `InstanceTables.TopIsContainer` | src/runtime.cpp:25-48 | the top-level instance of an instance belongs to the same declaration, is on the path to it, and is in no other instance |
| `InstanceTables.OffsetInMemory` | src/runtime.cpp:25-48 | in memory an instance is as far from its top-level instance as the offset of its path |
| `InstanceTables.InstanceTable.AllocateInstances` | src/runtime.cpp:25-48 | every contained instance is as far from its top-level instance in memory as its address is |

## Left out

- Global quiescence at termination of the ring: what stragglers find in the waiting states is
  discarded, so that "no action is enabled at exit" is not something the ring decides.
- RingWaits.InTimeNeverStalls: is not reversed for single runs, because a message out of date need not
  do harm: a later reset may repair it. The converse is a run for every size of the ring.
- RingFailures.TerminatesExactlyIfSafe: in the half that says the assertion can fail, the continuation uses
  moves that the loop cannot always make: `ExecutorStates.Allowed` lets a message be received while a task
  is ready, although the loop resumes the task first, and lets a ready task run with any outcome. The
  half that says it cannot fail holds for the loop as it is.
- LockExamples.ExitCanAbandon: `LockProtocol` lets an executor exit between any two of its tasks; that it
  does so only in its second wait is in `ExecutorStates`, and the two are not joined into one machine.
- ExecutorLoops.Executor.Resume: the loops that take and release the locks are an outcome here; they are
  the steps of `LockProtocol`.
- PollingFailures.PollingCanFail: is one executor; that a lock is granted and that the message comes
  back are moves of its surroundings, which are not the ring and the locks.
- PollingFailures.PollingFailsExactlyIf: is about rings, but a task that is on no list may be granted its
  lock at any time; that another task has to release it first is in `LockProtocol`.
- PollingFailures.ExitsWithParkedTask: is one executor as well.
- `run_i` in the lock protocol: `LockProtocol` lets an executor choose between its two lists; the
  order in which the loop looks at them is in `ExecutorStates`.
- Poll, eventfd, condition variables and sleeping: an executor that sleeps is one that makes no move.
- Heaps.Heap.CollectGarbage: is the part of the code that is about one heap (`src/heap.cpp:570-593`); the
  recursion over the children is `HeapPrograms.Program.Collect`.
- HeapPrograms.Program.Run: a heap that is deleted leaves the program with its blocks, but that the memory
  is given out again is up to the addresses of later blocks; the mutexes of heaps and the link objects
  of `src/operation.cpp:1308-1425` are not modelled.
- Heaps.Heap.Mark: requires that every allocated slot has a head, since the search for it has no
  other bound in the code; `CollectedIsHeaded` says when a collection keeps this.
- The four-bit packing of status bits, 64-bit wrap-around of sizes and addresses, and freed memory
  being reused by another heap.
- AccessSets.SetComputation.InstanceSet: which of the errors E120, E137 and E138 is reported is not
  modelled, only that one is.
- Composition.Analyze: the checks E71, E118 and E119 on bindings, and the enumeration of actions,
  reactions and getters that builds the graph.
- Graphs.RecursionEnds: sets that are cached only shorten the recursion; that a conflict of writes may
  end the program before the recursion gets to a cycle is not said.
- Soundness of the access levels that are computed for receivers.
- Activations.Executor.Call: expressions are their results; temporaries on the stack during the
  immutable phase are not modelled, and a deferred body is its effect on locals and on the space
  above the stack.
- The reader/writer locks that workers of the instance scheduler hold around actions; they are the
  operating system's.
- Empty structures: their alignment is zero and `align_up` then gives zero; every structure here has
  a field. Maps and interfaces have no layout in the program either.
- Slices, strings, numbers, code generation, parsing and type checking.
