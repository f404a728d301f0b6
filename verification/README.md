# CoRTOS in Dafny

A model of CoRTOS, a small SMP real-time kernel, and proofs of what its protocols promise.
Every module is self-contained in this directory; `dafny verify dfyconfig.toml` checks all of it.

Two forms are used, as the kernel itself has two kinds of code. Protocols between cores are step
machines: a step is one atomic access (or one critical-section action), a run is any sequence of
enabled steps, and the theorems hold in every state of every run, for any number of cores,
producers or threads. Structures updated in place are classes with a ghost sequence for their
contents, and their methods are proved against functions on values.

- **Messaging.** `Ring` is the lock-free ring as a step machine, `RingBuffer` its class form,
  `RingProgress` its lock- and wait-freedom, `Posting` why the kernel's posts find room, `Inbox` the
  poke, inter-processor interrupt and idle protocol on top of it.
- **Scheduling.** `ReadyMatrix` is the linked, bitmap-indexed ready structure, `PriorityFifo` what
  it is proved to be, `Schedulers` one core's scheduler. `KernelRuns` is the whole kernel as a step
  machine, `KernelPlacement` where every thread is, `KernelMoves` where each step puts it,
  `KernelSelection` who runs and when, `KernelUrgency` what the answers of `set_thread_ready` are
  worth, `KernelAssertions` when its assertions hold. `SchedulerRefines` shows that the scheduler object
  does to its core what the step machine says, operation by operation.
- **Waiting.** `Threads` has control blocks, node pools, wait groups and waiter queues; `Waiting`
  blocks, wakes and tears down over a heap in which one thread's nodes are on many queues;
  `WakeOrder` is the order of `signal_all`; `WinRace`, `Join` and `GroupLock` are concurrent protocols:
  one winner, no missed join, ordered locking. `Signals` is blocking and signalling between cores as
  one step machine, `SignalInvariant` what it keeps, `SignalWindow` and `SignalRuns` the window between
  a pick and its wake, `SignalCalls` what a call has done when it returns, `SignalSettles` what a
  signal leaves behind and how every run ends.
- **Time.** `TimerTables` has the slot table, event vector and handle counter, `TimerDrivers` the
  comparison of the three drivers with one abstract timer set, `TimerLedger`, `TimerRuns`,
  `SlotRuns` and `SimRuns` whole runs with callbacks that schedule and cancel, `SlotPasses` and
  `SimPasses` what a call of theirs has done when it returns, `TimeDriver` the drivers as classes.
- **The rest.** `Pinning` chooses cores, `StackLayout` carves stacks, `Bits` and `Numbers` do
  arithmetic on masks and remainders, `Config` has the kernel's limits.

Where a promise turned out to hold only under a condition, the condition is proved exact: ring
capacity (`Ring.DeliversExactlyFromTwo`), inbox size (`KernelAssertions.NoAssertionFailsExactly`),
the arm of `reschedule` marked unreachable (`KernelSelection.ReadyArmExactly`), threads of the idle
thread's priority (`KernelUrgency.IdleMissesExactly`), slot count
(`TimerDrivers.DriversAgreeExactly`), the window between picking and waking a waiter
(`SignalWindow.WakeExactly`), handle wrap-around (`TimerTables.HandlesCollideExactly`) and
stack buffers near the ends of the address space (`StackLayout.FitsExactlyWithoutWrap`).

A wake is called disciplined when its thread has already been switched away from on its own core.
`reschedule` documents that the current thread is never Ready on entry, and checks it before it
drains the inbox; the code then switches on the state after the drain. The model follows the code.

Before the cores run anyone may register a thread; after, a thread on some processor does. A wake may
come from a thread or from an interrupt handler, such as a timer callback, on any core that has
started.

Clocks, the current core, the moment a drain finds the inbox empty, and spurious
compare-and-swap failures are parameters. A callback with its argument is one number.

## Model

| member | source | states |
|---|---|---|
| `Ring.DeliversExactlyFromTwo` | src/kernel/mpsc_ring_buffer.hpp:171-258 | for every number of producers and every interleaving of their atomic steps with one consumer, the popped values are a prefix of the values in claim order, with nothing lost, repeated, read early or overwritten, exactly when the capacity is at least 2 |
| `Ring.Overwrite` | src/kernel/mpsc_ring_buffer.hpp:186-190 | the failing run at capacity 1: a second push claims the cell the first has just published |
| `Ring.Keep` | src/kernel/mpsc_ring_buffer.hpp:173-253 | the ring invariant (what each cell, producer, the consumer and each observer may see) is kept by every atomic step, stale positions and spurious compare-and-swap failures included |
| `Ring.ReachableInv` | src/kernel/mpsc_ring_buffer.hpp:99-258 | the invariant holds in every reachable state of a ring of capacity 2 or more |
| `Ring.SequenceSeen` | src/kernel/mpsc_ring_buffer.hpp:176-199 | what a loaded sequence number tells a producer: less than its position exactly when that position is the head and the ring is full; equal only if the cell is free; greater only if the position has been claimed since |
| `Ring.OccupancyExact` | src/kernel/mpsc_ring_buffer.hpp:140-253 | claimed minus freed positions lies in 0..N, `approx_size` never reports more than N although its loads are apart, and construction always finds raw storage |
| `Ring.FullExactly` | src/kernel/mpsc_ring_buffer.hpp:177-195 | `push` returns false exactly when its position is the head and N positions were occupied at the moment of the load |
| `Ring.EmptyExactly` | src/kernel/mpsc_ring_buffer.hpp:229-257 | in every reachable state `pop` returns false exactly when nothing is claimed or the oldest claim is still unpublished |
| `Ring.SizeExactly` | src/kernel/mpsc_ring_buffer.hpp:140-145 | `approx_size` reports the claims at its first load less the tail at its second, or 0 if that is negative, whatever happens in between; it is exact when nothing does |
| `RingProgress.PushLockFree` | src/kernel/mpsc_ring_buffer.hpp:171-201 | over every run a producer retries at most once for every claim of another producer and every spurious failure, so its steps are bounded by five for each push that returned, four for one in progress, and two for each such retry |
| `RingProgress.PopWaitFree` | src/kernel/mpsc_ring_buffer.hpp:227-258 | over every run the consumer takes at most five steps to a pop, whatever the producers do |
| `Posting.NeverRefused` | src/kernel/mpsc_ring_buffer.hpp:192-195 | over every run of a ring of N cells in which at most N values are outstanding, each at most once from its push until its pop has returned, `push` never returns false |
| `Bits.MaskIsRemainder` | src/kernel/mpsc_ring_buffer.hpp:176-176 | for a power-of-two capacity, masking a position is taking its remainder, which is the form the ring uses here |
| `RingBuffer.SoloPush` | src/kernel/mpsc_ring_buffer.hpp:171-201 | an uninterrupted push is a run of the machine and appends to the queue unless full |
| `RingBuffer.SoloPop` | src/kernel/mpsc_ring_buffer.hpp:227-258 | an uninterrupted pop is a run of the machine and takes the front of the queue |
| `RingBuffer.MpscRingBuffer.constructor` | src/kernel/mpsc_ring_buffer.hpp:305-305 | a new ring of any capacity is the initial state of the machine; from capacity 2 it is valid and empty |
| `RingBuffer.MpscRingBuffer.Push` | src/kernel/mpsc_ring_buffer.hpp:171-201 | with any number of spurious failures: false exactly when N are queued, else the value is appended; the new state is what the machine reaches |
| `RingBuffer.MpscRingBuffer.Pop` | src/kernel/mpsc_ring_buffer.hpp:227-258 | the oldest value is returned and removed, or None from an empty ring |
| `RingBuffer.MpscRingBuffer.ApproxSize` | src/kernel/mpsc_ring_buffer.hpp:140-145 | with nobody else at work, the exact number queued |
| `Inbox.NoLostWakeup` | src/kernel/scheduler.cpp:56-81 | in every reachable state in which nobody is inside `post_to_inbox`, a non-empty inbox means the core is not asleep or about to wait, and is draining, committed to drain, or has its pending flag set |
| `Inbox.CoreAloneDrains` | src/kernel/kernel.cpp:244-250 | from every such state the core by itself, in a bounded number of its own steps through idle and the drain, empties what is published; it is never stuck |
| `Inbox.Keep` | src/port/linux_boost/port_linux_boost.cpp:419-436 | the poke, pending-flag, mutex and leftover invariants are kept by every step of posters and core |
| `Inbox.ReachableInv` | src/port/linux_boost/port_linux_boost.cpp:545-563 | the invariants hold in every reachable state, with early-stopped drains and the idle race included |
| `Inbox.OneInterruptPerDrain` | src/kernel/scheduler.cpp:71-81 | posts are coalesced: over every run the core is interrupted at most once more often than it drains |
| `Inbox.EveryPostPokes` | src/kernel/scheduler.cpp:71-81 | over every run and for every poster, each push that has succeeded is followed by exactly one attempt to poke, and nothing else is |
| `Inbox.IdlesExactly` | src/port/linux_boost/port_linux_boost.cpp:545-563 | left alone in `cortos_port_idle`, the core goes to sleep if nothing is pending, and else consumes what is pending and goes on to drain |
| `ReadyMatrix.ThreadReadyQueue.PushBack` | src/kernel/threading_subsystem.cpp:118-126 | the thread is appended and the list stays well linked |
| `ReadyMatrix.ThreadReadyQueue.PopFront` | src/kernel/threading_subsystem.cpp:128-136 | the oldest thread is unlinked and returned, null from an empty queue |
| `ReadyMatrix.ThreadReadyQueue.Remove` | src/kernel/threading_subsystem.cpp:138-148 | exactly the given thread is unlinked, the others keep their order |
| `ReadyMatrix.ThreadReadyQueue.Size` | src/kernel/threading_subsystem.hpp:149-154 | the number of threads in the list |
| `ReadyMatrix.ThreadReadyQueue.EnqueuedExactly` | src/kernel/threading_subsystem.hpp:70-73 | `is_enqueued` holds of a queued thread exactly when the queue has two or more |
| `ReadyMatrix.IndexSet` | src/kernel/threading_subsystem.cpp:156-156 | setting bit p keeps the bitmap an exact index of the non-empty queues |
| `ReadyMatrix.IndexCleared` | src/kernel/threading_subsystem.cpp:164-164 | so does clearing it when, and only when, queue p has become empty |
| `ReadyMatrix.IndexBest` | src/kernel/threading_subsystem.hpp:174-182 | the bitmap is 0 exactly when all queues are empty, and its trailing zeros count is the most urgent non-empty priority |
| `ReadyMatrix.ThreadReadyMatrix.constructor` | src/kernel/threading_subsystem.hpp:163-172 | a new matrix indexes empty queues |
| `ReadyMatrix.ThreadReadyMatrix.BestPriority` | src/kernel/threading_subsystem.hpp:174-177 | the most urgent non-empty priority, or -1 |
| `ReadyMatrix.ThreadReadyMatrix.EnqueueThread` | src/kernel/threading_subsystem.cpp:151-157 | links and bitmap together behave as enqueueing in an abstract priority FIFO |
| `ReadyMatrix.ThreadReadyMatrix.PeekBestThread` | src/kernel/threading_subsystem.hpp:204-209 | the oldest thread of the most urgent priority |
| `ReadyMatrix.ThreadReadyMatrix.PopBestThread` | src/kernel/threading_subsystem.cpp:159-166 | that thread is removed and returned; structure and bitmap stay exact |
| `ReadyMatrix.ThreadReadyMatrix.RemoveThread` | src/kernel/threading_subsystem.cpp:168-173 | a thread anywhere in its queue is removed; structure and bitmap stay exact |
| `Schedulers.Scheduler.SetThreadReady` | src/kernel/scheduler.cpp:43-54 | the thread becomes Ready and joins the back of its queue, except idle, which is never queued |
| `Schedulers.Scheduler.DrainInbox` | src/kernel/scheduler.cpp:56-68 | the drained requests are readied in posting order, each in its own priority row; the rest of the inbox and its threads are unchanged; the poke flag is down |
| `Schedulers.Scheduler.PostToInbox` | src/kernel/scheduler.cpp:71-81 | refused exactly when 64 are queued; the first post since a drain, and only it, pokes |
| `Schedulers.Scheduler.Start` | src/kernel/scheduler.cpp:26-41 | the best ready thread, or idle, becomes current and Running; the assertion on its state fails exactly when nothing is queued and idle is not Ready |
| `Schedulers.Scheduler.Reschedule` | src/kernel/scheduler.cpp:96-125 | past the entry assertions it goes wrong exactly when the drain takes a wake for the current thread; otherwise the new current thread and queues are those of popping the best of drained and rotated queues, and the old thread is Ready if it was Running; what stays valid is said also for a Running thread with a request left in its inbox |
| `SchedulerRefines.RescheduleRefines` | src/kernel/scheduler.cpp:96-125 | with threads named by their ids, the scheduler object fails exactly when the step of the run-level kernel does, and else takes its core to what that step makes of it |
| `SchedulerRefines.StartRefines` | src/kernel/scheduler.cpp:26-41 | `start` of the scheduler object takes its core to what the run-level step makes of it, and fails only on an idle thread that is not Ready, a state the run-level kernel does not have |
| `SchedulerRefines.SetThreadReadyRefines` | src/kernel/scheduler.cpp:43-54 | `set_thread_ready` of the scheduler object is the run-level one, before the core has started and after |
| `SchedulerRefines.PostToInboxRefines` | src/kernel/scheduler.cpp:71-81 | and so is `post_to_inbox`, which is refused exactly when the run-level kernel fails its assertion on posting |
| `KernelPlacement.Keep` | src/kernel/kernel.cpp:142-201 | registration, start, blocking, termination, waking from any started core and rescheduling each keep every thread exactly where its state says, unless the step fails an assertion |
| `KernelPlacement.PlacementConserved` | src/kernel/scheduler.cpp:26-125 | in every state of every disciplined run, up to a failed assertion and for any number of threads and cores: a registered, unterminated thread is in exactly one of Running on its core, one slot of one ready queue, one slot of one inbox, or an unwon wait, always on its pinned core and in its own priority row; any other thread is in none; a core runs at most one thread |
| `KernelMoves.ReadyExactly` | src/kernel/kernel.cpp:174-201 | in every state of every disciplined run: a thread that is registered or woken is afterwards Ready and last in its own row of its core exactly when the cores are not running yet or the call is made on its core, and otherwise is last in the inbox of its core; no other thread changes its state or its place |
| `KernelMoves.StopExactly` | src/kernel/threading_subsystem.cpp:12-31 | a thread that blocks is waiting and one that terminates is in no place; no other thread changes its state or its place |
| `KernelMoves.TerminatedForGood` | src/kernel/kernel.cpp:225-242 | after a thread has terminated, in every later state of every disciplined run: it is in no place, nobody can wake or register it, and from the next reschedule of its core on it is on no processor |
| `KernelUrgency.UrgentIsAskedFor` | src/kernel/kernel.cpp:186-192 | in every state of every disciplined run: on a core for which `set_thread_ready` has asked for no reschedule since it last selected, nothing ready is more urgent than what is on the processor, with idle counting as its own priority |
| `KernelUrgency.IdleMissesExactly` | src/kernel/scheduler.cpp:12-23 | some disciplined run leaves a ready thread behind an idle core that nobody asks to reschedule, exactly when some thread has the last priority, which is that of the idle thread |
| `KernelUrgency.IdleMisses` | src/kernel/kernel.cpp:187-192 | that run, for any such thread: it blocks, its core idles, and an interrupt handler there wakes it |
| `KernelAssertions.FailsExactly` | src/kernel/kernel.cpp:174-201 | of the modelled assertions (posted, start, reschedule entry, pin, state) and the unreachable arm, a disciplined step can fail only the one on posting, and does exactly when it posts to an inbox of 64 |
| `KernelAssertions.NoAssertionFailsExactly` | src/kernel/kernel.cpp:174-201 | no disciplined run fails any of them, exactly when there is one core or no core has more than 64 pinned threads; wakes come from threads and from interrupt handlers, also on idle cores |
| `KernelAssertions.NoAssertionFailsByThreadsExactly` | src/kernel/kernel.cpp:174-201 | when only threads wake threads, the same holds exactly when no core has more than 64 pinned threads unless every thread is pinned to it |
| `KernelAssertions.EnrolThenPark` | src/kernel/kernel.cpp:193-198 | the failing run in the first case: every thread of the core blocks, and an interrupt handler on a second, started core wakes them all |
| `KernelAssertions.ThreadOverfills` | src/kernel/kernel.cpp:142-198 | the failing run in the second case: a thread on another core registers them all |
| `KernelAssertions.RoomForOne` | src/kernel/scheduler.hpp:40-41 | a thread has at most one request outstanding, and none when one is posted for it, so 64 slots are enough for 64 threads |
| `KernelSelection.DrainExact` | src/kernel/scheduler.cpp:56-68 | a drain of k requests readies exactly the first k, in posting order |
| `KernelSelection.SwitchExact` | src/kernel/scheduler.cpp:104-123 | the switch fails exactly on a Ready or unregistered current thread, and else runs the best of the rotated queues |
| `KernelSelection.ReadyArmExactly` | src/kernel/scheduler.cpp:98-117 | past the entry assertions, the arm marked unreachable is reached exactly when a drained request is for the current thread |
| `KernelSelection.EarlyWakeCrashes` | src/kernel/scheduler.cpp:100-116 | after every disciplined run, whatever thread runs on a core: a wake from any started core between its blocking and its switch makes the switch fail, so the wake-after-switch discipline is needed everywhere |
| `KernelSelection.RescheduleSelects` | src/kernel/scheduler.cpp:96-125 | after every reschedule of every disciplined run the running thread is the oldest of the most urgent contenders, nothing ready is more urgent, and idle runs only if nothing is ready |
| `KernelSelection.NextExact` | src/kernel/scheduler.cpp:96-125 | a reschedule that does not fail leaves the inbox, queues and current thread of popping the best of the drained and rotated queues |
| `KernelSelection.SelectedExactly` | src/kernel/threading_subsystem.cpp:118-166 | from every state of every disciplined run, while nothing more urgent is ready and no assertion fails: a thread with i threads ahead is still queued i-r places back after r reschedules of its core and runs at exactly the (i+1)-th, whatever else the kernel does in between |
| `Threads.WaitGroup.Begin` | src/kernel/wait_subsystem.hpp:216-222 | an undecided group |
| `Threads.WaitGroup.TryWin` | src/kernel/wait_subsystem.hpp:225-234 | only the first attempt wins, and only it leaves its index and flag |
| `WinRace.OneWinner` | src/kernel/wait_subsystem.hpp:216-234 | over every interleaving of any number of signals: at most one winner, exactly one when all have finished, and the result the waiter reads is the winner's |
| `Threads.Tcb.Alloc` | src/kernel/wait_subsystem.hpp:132-154 | the lowest free node, marked used in the mask and nowhere else; null exactly when all are in use |
| `Threads.Tcb.Free` | src/kernel/wait_subsystem.hpp:160-172 | the node is free again and no other changes |
| `Threads.Waitable.Add` | src/kernel/waitable.cpp:15-30 | the node is appended; links stay well formed |
| `Threads.Waitable.Remove` | src/kernel/waitable.cpp:32-48 | the node is unlinked wherever it stands; a node of another waitable is left alone |
| `Waiting.PrepareBlock` | src/kernel/threading_subsystem.cpp:12-31 | the thread is Blocked with an undecided group, and each waitable's queue is extended by exactly its nodes, with the right indices |
| `Waiting.Teardown` | src/kernel/threading_subsystem.cpp:55-87 | the thread's nodes leave every queue they are on, its pool is all free again, and every queue keeps the order of everyone else |
| `Waiting.PickBest` | src/kernel/waitable.cpp:50-70 | the first undecided waiter of the most urgent priority, null exactly when there is none |
| `Waiting.Wake` | src/kernel/kernel.cpp:252-269 | the winner's index and flag are stored and every node of the thread is gone |
| `Waiting.BlockOn` | src/kernel/kernel.cpp:358-374 | blocking on different waitables, as the group lock enforces: besides the above, every queue of the heap stays such that `signal_one` and `signal_all` may be called on it |
| `Waiting.WakeBest` | src/kernel/waitable.cpp:72-84 | one signal: the best waiter is woken with the signal's result, made ready in its row, and nobody else is touched; every queue stays such that it may be signalled |
| `Waiting.SignalAll` | src/kernel/waitable.cpp:86-105 | terminates with the queue empty; waiters are woken in stable priority order, each with its own index and the given flag; ready rows and every other queue change accordingly, and every queue stays such that it may be signalled |
| `WakeOrder.WokenStable` | src/kernel/waitable.cpp:86-105 | waking keeps arrival order within a priority |
| `WakeOrder.WokenSorted` | src/kernel/waitable.cpp:50-70 | waking goes from most to least urgent |
| `WakeOrder.WokenMembers` | src/kernel/waitable.cpp:86-105 | everyone waiting is woken, nobody else |
| `WakeOrder.SignalAllRows` | src/kernel/waitable.cpp:86-105 | each ready row p is extended by exactly the waiters of priority p in arrival order |
| `Join.Keep` | src/kernel/kernel.cpp:376-403 | the lock, queue and signaller invariants of `wait_until` against `terminate` are kept by every step |
| `Join.NoJoinMissed` | src/kernel/kernel.cpp:305-312 | in every run of any number of joiners, each on the one waitable `join` waits on, against one `terminate`: no assertion of `wake_thread` fails; `join` has returned only if termination was flagged; once `terminate` has finished no joiner is enqueued, blocked or about to be |
| `Join.ReturnsByCheck` | src/kernel/kernel.cpp:388-401 | being woken is not enough: every join that has returned has itself looked and found the flag set |
| `Join.NeverAgain` | src/kernel/threading_subsystem.hpp:30-36 | nor does any joiner become blocked later |
| `Join.JoinTerminates` | src/kernel/waitable.cpp:86-105 | once flagged, every interleaving ends within 14 steps a joiner plus 7, and exactly with `terminate` finished and every join returned |
| `SignalInvariant.Keep` | src/kernel/threading_subsystem.cpp:12-87 | any number of threads that block on several waitables, again and again with the same nodes, against any number of signallers, each in `signal_one` or `signal_all`: every step keeps each undecided wait linked on exactly its waitables, each decided one in the hands of exactly one signaller, and each lock with its holder |
| `SignalCalls.WaitStandsOnAll` | src/kernel/threading_subsystem.cpp:12-31 | over every run, from the beginning of a wait on a group of waitables: once blocked and while undecided, the thread stands on the queue of every one of them, with the node whose index is that of the waitable, and it gets up only after somebody has won the wait |
| `SignalCalls.SignalAllEndsAll` | src/kernel/waitable.cpp:86-105 | over every run, whatever the other cores do: when a `signal_all` has returned, every wait on its waitable that had begun before the call and was undecided then has been won or is over |
| `SignalCalls.SignalOneWakesOnce` | src/kernel/waitable.cpp:72-84 | over every run a `signal_one` wakes at most once; when it has returned it has woken exactly once, unless every such wait has been won or is over |
| `SignalCalls.TerminateEndsAll` | src/kernel/threading_subsystem.hpp:30-36 | over every run: from `terminate` on no `wait_until` on the flag begins, and when it has returned each has been won or is over |
| `SignalWindow.WakeExactly` | src/kernel/kernel.cpp:252-269 | whatever the other cores do between a pick and its wake: the wake acts on the picked wait, winning it and telling the thread the signalled waitable, or reporting it lost, exactly when the picked node was not freed in between; the assertions fail exactly when at the wake the node is free or its thread is not Blocked; otherwise a later wait is acted on |
| `SignalWindow.OneAtATimeNeverFails` | src/kernel/waitable.cpp:72-105 | if nobody starts to signal while somebody signals, every wake of every run finds the wait it picked and no assertion fails |
| `SignalRuns.WakeCanFail` | src/kernel/kernel.cpp:254-258 | the failing run: two signallers pick one waiter, and the slower one wakes after the node was freed |
| `SignalRuns.WakeCanWinAnotherWait` | src/kernel/wait_subsystem.hpp:132-154 | the run in which a later wait is won: the thread blocks again, on another waitable, and is handed the same node; the slower signaller then ends that wait, with the index of a waitable that was never signalled |
| `SignalSettles.LeftToTheWinner` | src/kernel/waitable.cpp:60-61 | once a flag has been set and its `signal_all` has returned, at that moment and ever after: no undecided `wait_until` on the flag is on any queue, and a node of one that is still linked belongs to a won wait with exactly one winner, which has yet to unlink it |
| `SignalSettles.StepsBounded` | src/kernel/waitable.cpp:86-105 | over every run, on all cores together, the steps of blocking and signalling are bounded by the waits and signals asked for, lost rounds included: no `signal_all` spins |
| `SignalSettles.RestsExactly` | src/kernel/waitable.cpp:72-105 | in every state the invariant allows, no step but a new request is possible exactly when an assertion has failed, or no signal is under way, no lock held, and whoever is blocked is undecided and linked on each waitable of its wait |
| `SignalSettles.WaitUntilEnds` | src/kernel/kernel.cpp:376-403 | so after a flag is set and signalled, every run that goes on while it can, and fails no assertion, leaves no `wait_until` on that flag blocked and none of its nodes on any queue |
| `GroupLock.NeighboursDiffer` | src/kernel/waitable_utilities.hpp:115-117 | the loop finds an equal pair of neighbours exactly when there is one |
| `GroupLock.UniqueExactly` | src/kernel/waitable_utilities.hpp:112-117 | on the sorted group that check passes exactly when the caller named no waitable twice, and locking is then strictly ascending |
| `GroupLock.Keep` | src/kernel/waitable_utilities.hpp:119-131 | ownership, flags and preemption depth stay consistent through every atomic step |
| `GroupLock.LocksExact` | src/kernel/kernel.cpp:315-328 | in every run: a flag is set exactly when one core holds the lock, a core's preemption depth is its held locks plus the one it spins for or has just cleared, and the depth assertion never fails |
| `GroupLock.InsideHoldsAll` | src/kernel/waitable_utilities.hpp:99-132 | in every run: whenever a core is inside a group lock it holds every lock of the group it asked for and no other core holds one; it does not get out without having been inside, nor with a lock |
| `GroupLock.DeadlockFree` | src/kernel/waitable_utilities.hpp:119-131 | in every state of every run: whenever a core spins, some core that holds a lock can get on |
| `GroupLock.StuckExactly` | src/kernel/waitable_utilities.hpp:99-132 | in every state of every run: no core can get on exactly when every core is outside |
| `GroupLock.AllFinish` | src/kernel/waitable_utilities.hpp:119-131 | from every state of every run, every interleaving completes the groups begun in the same number of productive steps |
| `GroupLock.UnorderedDeadlock` | src/kernel/waitable_utilities.hpp:113-113 | without the address order two cores can spin for each other's lock for ever |
| `TimerTables.HandleCycle` | src/time/tickless/time_driver_tickless.cpp:115-118 | the n-th handle is n modulo 2^32 - 1, plus 1: 0 is skipped and handles come round |
| `TimerTables.HandlesCollideExactly` | src/time/simulation/time_driver_simulation.cpp:143-146 | two schedules share a handle exactly when they are whole rounds apart |
| `TimerTables.FreeSlotExactly` | src/time/periodic/time_driver_periodic.cpp:115-133 | a free slot is found exactly while fewer timers are pending than slots |
| `TimerTables.FireFromExact` | src/time/periodic/time_driver_periodic.cpp:56-68 | a pass fires each live slot with a deadline of now or earlier once, frees it, and leaves the others |
| `TimerTables.FireFromInOrder` | src/time/periodic/time_driver_periodic.cpp:56-68 | the timers a pass fires are called in ascending order of their slots |
| `TimerTables.CollectedExact` | src/time/simulation/time_driver_simulation.cpp:54-65 | a simulation pass collects each uncancelled event with a deadline of now or earlier once |
| `TimerTables.CollectedInOrder` | src/time/simulation/time_driver_simulation.cpp:54-76 | in the order of the vector |
| `TimerTables.RemainingExact` | src/time/simulation/time_driver_simulation.cpp:66-69 | and keeps exactly the uncancelled events with a later deadline, and nothing cancelled |
| `TimerDrivers.DriversAgreeExactly` | src/time/simulation/time_driver_simulation.cpp:52-180 | short of handle wrap-around, for every history of schedules, cancels and passes the simulation driver gives the same handles, cancel results and fired timers as one abstract timer set, and the slot drivers do exactly when no schedule finds 16 already pending |
| `TimerDrivers.SlotStepAgrees` | src/time/tickless/time_driver_tickless.cpp:105-153 | one call of a slot driver against the abstract set, equal exactly if it fits |
| `TimerDrivers.ListStepAgrees` | src/time/simulation/time_driver_simulation.cpp:135-180 | one call of the simulation driver against the abstract set |
| `TimerLedger.AddKeeps` | src/time/tickless/time_driver_tickless.cpp:105-134 | a schedule under a fresh handle keeps the ledger faithful |
| `TimerLedger.EndKeeps` | src/time/tickless/time_driver_tickless.cpp:41-52 | so does firing a pending timer that is due, or cancelling a pending one |
| `SlotRuns.HandlesFaithful` | src/time/tickless/time_driver_tickless.cpp:41-153 | with callbacks that schedule and cancel at will: every handle fires at most once, never early, never after a successful cancel, and the slots hold exactly the timers still owed |
| `SlotPasses.PassFiresAllDue` | src/time/tickless/time_driver_tickless.cpp:41-52 | in every run, from the beginning of a pass at `now` to its end, with any schedules and cancels in between: no timer that waited at the beginning for `now` or earlier waits at the end, and each has fired in this pass, at `now`, or was cancelled during it |
| `SlotPasses.PassFiresInSlotOrder` | src/time/tickless/time_driver_tickless.cpp:44-51 | and of two such timers the one in the earlier slot has fired, or has been cancelled, before the other fires |
| `SlotPasses.ScheduleExactly` | src/time/tickless/time_driver_tickless.cpp:105-134 | a schedule adds its timer under a new handle exactly when it has a callback and fewer than 16 are pending, and else changes nothing |
| `SlotPasses.CancelExactly` | src/time/tickless/time_driver_tickless.cpp:136-153 | a cancel takes out the timer with the handle exactly when there is one, and else changes nothing |
| `SlotPasses.ArmsExactly` | src/time/tickless/time_driver_tickless.cpp:169-208 | the port is re-armed by exactly the schedules and cancels that took effect, by the end of a pass and by a start: for nothing if no live timer has a finite deadline, else for the earliest of what it was armed for and the live deadlines; a stop disarms it, and nothing else touches it |
| `SlotRuns.ArmedInTime` | src/time/tickless/time_driver_tickless.cpp:54-71 | while the driver is started, even inside a pass, the armed deadline is no later than any pending timer |
| `SlotRuns.Keep` | src/time/tickless/time_driver_tickless.cpp:169-208 | both invariants are kept by schedule, cancel, each slot visit, re-arming, start and stop |
| `SlotRuns.EarliestOf` | src/time/tickless/time_driver_tickless.cpp:56-62 | the loop computes the least live deadline below 2^64 - 1, else 2^64 - 1 |
| `SimRuns.HandlesFaithful` | src/time/simulation/time_driver_simulation.cpp:52-180 | the same promise for the simulation driver, whose due events are out of the vector while they are called |
| `SimPasses.AdvanceCallsAllDue` | src/time/simulation/time_driver_simulation.cpp:52-80 | in every run, once the calls of an advance are done, with callbacks that schedule and cancel: exactly the timers that were pending before it with a deadline at the new time or earlier have been called by it, at the new time and in the order they were scheduled in, and none of them is pending |
| `SimPasses.ScheduleExactly` | src/time/simulation/time_driver_simulation.cpp:135-160 | a schedule adds its timer under a new handle exactly when it has a callback, and else changes nothing |
| `SimPasses.CancelExactly` | src/time/simulation/time_driver_simulation.cpp:162-180 | a cancel takes out the timer with the handle exactly when there is one that has not been collected for calling, and else changes nothing |
| `SimRuns.AdvanceByExact` | src/time/simulation/time_driver_simulation.cpp:291-298 | an advance that would wrap leaves simulated time where it is, any other adds up |
| `SimRuns.TimeMonotone` | src/time/simulation/time_driver_simulation.cpp:276-298 | simulated time never goes backwards over any run |
| `TimeDriver.SlotDriver.ScheduleAt` | src/time/periodic/time_driver_periodic.cpp:103-134 | the slot loop does the step of the slot table, invalid handle for a null callback or no slot |
| `TimeDriver.SlotDriver.Cancel` | src/time/periodic/time_driver_periodic.cpp:136-153 | the search frees the slot with the handle, false for none and for handle 0 |
| `TimeDriver.SlotDriver.FireDue` | src/time/periodic/time_driver_periodic.cpp:56-68 | the firing loop does the pass of the slot table |
| `TimeDriver.TicklessDriver.Rearm` | src/port/linux_boost/port_linux_boost.cpp:504-518 | the armed deadline becomes the earlier of itself and the earliest slot, or none if there is none |
| `TimeDriver.TicklessDriver.ScheduleAt` | src/time/tickless/time_driver_tickless.cpp:105-134 | the step of the slot table, then armed in time |
| `TimeDriver.TicklessDriver.Cancel` | src/time/tickless/time_driver_tickless.cpp:136-153 | the step of the slot table, then armed in time |
| `TimeDriver.TicklessDriver.OnTimerIsr` | src/time/tickless/time_driver_tickless.cpp:200-208 | the pass of the slot table, then armed in time |
| `TimeDriver.SimulationDriver.ScheduleAt` | src/time/simulation/time_driver_simulation.cpp:135-160 | the step of the event vector |
| `TimeDriver.SimulationDriver.Cancel` | src/time/simulation/time_driver_simulation.cpp:162-180 | the first uncancelled event with the handle is marked, false if there is none |
| `TimeDriver.SimulationDriver.Collect` | src/time/simulation/time_driver_simulation.cpp:52-70 | the mark and erase loops take out the due events in order and leave the rest |
| `TimeDriver.SimulationDriver.AdvanceTo` | src/time/simulation/time_driver_simulation.cpp:276-289 | time is clamped to the present and the pass of the event vector is done |
| `TimeDriver.SimulationDriver.AdvanceBy` | src/time/simulation/time_driver_simulation.cpp:291-298 | 64-bit wrap-around leaves time where it is |
| `Pinning.Allows` | src/kernel/public_headers/thread.hpp:25-25 | the mask test is the core's bit |
| `Pinning.Kernel.PinThread` | src/kernel/kernel.cpp:121-140 | the first allowed core of least load gets the thread and the count; the assertion fails exactly when no core is allowed below the counter limit |
| `Pinning.CountersSum` | src/kernel/scheduler.cpp:6-10 | the counters add up to the registrations, whatever the affinities |
| `Pinning.EvenSpread` | src/kernel/kernel.cpp:142-154 | n threads that may run anywhere are dealt out in turn: n / k each and one more for the first n % k cores |
| `StackLayout.AlignDownRounds` | src/kernel/align.hpp:9-12 | on w-bit words the mask rounds down to a multiple, for every power of two |
| `StackLayout.AlignUpRounds` | src/kernel/align.hpp:14-17 | and up, short of wrap-around |
| `StackLayout.CarvesExactly` | src/kernel/threading_subsystem.cpp:90-115 | short of wrap-around the constructor carves exactly when more than 64 bytes are left below: the control block at the greatest multiple of its alignment that leaves it room, the thread-local storage at the greatest multiple that leaves it room below that |
| `StackLayout.FitsExactlyWithoutWrap` | src/kernel/threading_subsystem.cpp:90-115 | for every buffer, also one that ends at the very top of memory: a layout that passes the assertions is aligned, inside the buffer and tiled without overlap exactly when no address subtraction or alignment wrapped |
| `StackLayout.WrappedLayoutPasses` | src/kernel/threading_subsystem.cpp:96-112 | on every platform, a buffer that ends lower in memory than a control block is long passes the assertions with the control block outside it, whenever the address space has room for the rest |

## Left out

- Ring.DeliversExactlyFromTwo: atomics are sequentially consistent and counters unbounded, so acquire and release orderings and the wrap-around of `head`, `tail` and `sequence` are not modelled.
- Inbox.NoLostWakeup: sequentially consistent as well; in particular the store that lowers the poke flag is ordered before the pops that follow it.
- KernelPlacement.PlacementConserved: over disciplined runs only, since without the discipline the code can be driven into the arm marked unreachable (`KernelSelection.EarlyWakeCrashes`); a wake, its teardown and its posting are one step.
- KernelAssertions.NoAssertionFailsExactly: a post is one step on a queue of 64 requests; that the ring itself has room, with slots claimed but unpublished or being popped, is `Posting.NeverRefused`.
- KernelSelection.EarlyWakeCrashes: a post from another core is taken to find room; into a full inbox it fails the assertion on posting instead.
- KernelUrgency.UrgentIsAskedFor: that an asked reschedule follows is the port's part and is not modelled; nor is the reschedule that the idle loop asks for when `cortos_port_idle` returns.
- Schedulers.Scheduler.PostToInbox: push, poke flag and interrupt are one step here; their interleavings are the subject of `Inbox`.
- Waiting.SignalAll: `pick_best` and `wake_thread` of one round are one action, as in a cooperative run on one core, where the window between them cannot be entered; woken threads are all made ready in the given core's matrix.
- Waiting.WakeBest: as for `Waiting.SignalAll`.
- Waiting.Wake: making the woken thread ready is left to `Waiting.WakeBest`.
- Waiting.Teardown: the group lock around unlinking is not taken here, it is the subject of `GroupLock`; the removal hooks are left out.
- Join.NoJoinMissed: the order of the waiters' queue is left to `Waiting`; waits on several waitables are the subject of `Signals`.
- SignalWindow.WakeExactly: the assertions of `wake_thread` and its compare-and-swap are one step; the locks of a group are taken at once, while `GroupLock` takes them one by one; any undecided waiter may be picked, and which one is picked is left to `Waiting.PickBest`; a thread counts as awake as soon as its winner has made it ready.
- SignalSettles.WaitUntilEnds: for a predicate that is a flag set once, as `terminate` sets it.
- SlotRuns.HandlesFaithful: for runs short of handle wrap-around, and with no pass started from inside a callback.
- SlotPasses.PassFiresAllDue: as for `SlotRuns.HandlesFaithful`.
- SimRuns.HandlesFaithful: as for the slot drivers, in virtual time.
- TimeDriver.SlotDriver.FireDue: callbacks do not touch the table here; with callbacks that do, a pass is the steps of `SlotRuns`.
- TimeDriver.TicklessDriver.OnTimerIsr: as for `FireDue`.
- TimeDriver.SimulationDriver.AdvanceTo: the due timers are returned instead of called; calling them, with callbacks that schedule and cancel, is the steps of `SimRuns`.
- TimeDriver.SimulationDriver.AdvanceBy: as for `AdvanceTo`.
- Schedulers.Scheduler.Reschedule: the context switch itself is not modelled; the next thread simply is current.
- RealTime mode of the simulation driver: wall clock and operating-system thread.
- Kernel and driver lifecycle (`initialise`, `finalise`, `reset`): easy members only.
- `active_threads`: it does not count unterminated threads at every moment, and nothing here depends on it.
- Fiber switching, stack pointers, thread-local storage, panic output and other foreign calls of the port.
- The type-erased `Function`: callables are opaque.
- `on_thread_blocked` and `on_thread_removed`: user hooks, taken not to touch kernel state.
- `Spinlock::try_lock`, which is unused, and the mutex of `libcortos`.
- Duration conversions: single ceiling divisions.
- Priority changes: `effective_priority` stays as it is while a thread is queued.
