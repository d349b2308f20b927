# Verified models of the TC37x async runtime

This project models the stateful parts of the runtime for the AURIX TC37x and proves what they
promise over every run: the first-fit heap, the publish/subscribe channel, the executor with its
timers and alarms, the stack-resource-policy mutex, and the pipe, channel and zero-copy channel.
`dafny verify dfyconfig.toml` checks all of it.

| file | subject |
|---|---|
| `Alignment.dfy`, `Tiling.dfy`, `FirstFit.dfy`, `HoleList.dfy`, `HeapLaws.dfy` | the heap: rounding; memory as a row of tiles; what allocation and release do to the tiles; the linked list in memory; laws about histories |
| `PubSub.dfy`, `PubSubRuns.dfy`, `PubSubLaws.dfy`, `PubSubState.dfy` | publish/subscribe: each call as a function; the invariant over all runs; what users can rely on; the state updated in place |
| `Timers.dfy`, `Executor.dfy`, `ExecutorTurns.dfy`, `ExecutorLimits.dfy`, `ExecutorExamples.dfy`, `BaseExecutor.dfy` | timer and alarm queues; the executor as a step system; turns of its loop; where its guarantees end; runs that get there; the executor's fields updated in place |
| `Srp.dfy` | the ceiling mutex and nested preemption |
| `RingBuffer.dfy`, `Handoff.dfy`, `Pipe.dfy`, `Channel.dfy`, `ZeroCopy.dfy`, `Wakers.dfy` | index arithmetic; the sleeping protocol shared by pipe and channel; the three buffers; waker registrations |
| `Sequences.dfy`, `Wrappers.dfy` | shapes of sequences; Option and Result |

How the pieces are modelled:

- **Heap.** A map from addresses to headers, with the dummy first node at an address of its own.
  The ghost field `tiles` cuts the memory between `bottom` and `top` into holes and blocks in use.
  `align_up`, `align_up_size` and `align_down_size` are not defined in the repository; they are taken
  to round to a multiple of a power of two. The alignment `a` of a header is any power of two, its
  size `2 * a`. The central fact is `Tiling.Unique`: the row of tiles, hence the free list, is a
  function of the bounds and of the set of blocks in use. The contracts of `AllocateFirstFit`,
  `Deallocate` and `Extend` say what happens to that set, so they fix the whole free list.
- **Publish/subscribe.** The channel stores only counters. A `World` adds what it does not store: the
  live subscribers and what each received, the log of all messages, the sleeping tasks, and per
  message the number of readers that left while lagged ("orphans").
- **Executor.** One step per critical section of the loop. Wakers, timer interrupts and other
  executors may step between any two of them. The flag is the event flag of the thread executor or
  the request bit of the software interrupt of an interrupt executor. A run is a run of the program,
  pushes to full queues included; its `Care` says what its failing pushes do no harm to: nothing in
  particular, wakeups, or deadlines as well. A failing push of a task is harmless when the task is in
  the run queue (`TaskKept`), one of a timer or an alarm when it is not needed (`DeadlineKept`).
- **SRP mutex.** A stack of jobs; reading the ceiling, raising it, and writing it back are separate
  steps, so an interrupt may come between any two of them.

Six claims the code does not meet are stated with the condition under which it does, and runs that
break them:

- A subscriber dropped before it was told about its lag leaves its share of the counters behind
  (`src/sync/pubsub/mod.rs:347`). `CountersStayExactIff`: a step keeps every counter positive and equal
  to the number of live subscribers still to read the message, if and only if it is not such a drop.
  `LaggedDropWedges`: from then on, and until somebody calls `publish_immediate`, the front of the
  queue never moves, and the channel refuses everything once the room left at the drop is filled.
  `WedgedByExample` is a run of five calls after which a subscriber listens and every publish to it is
  refused.
- `renew_alarm` ignores a full alarm queue (`src/executor/base_executor.rs:142-150`), and alarms pile
  up because none is ever taken back (`AlarmsAddUp`, `AlarmsPileUp`). `RenewOnTimeIff`: as long as later
  failing pushes do no harm, no run from there misses a deadline, if and only if there was room, or an
  own alarm is due early enough, or the executor is pended or about to be. `NoDeadlineMissed` holds
  over all runs in which alarms are dropped only under that condition.
  `FullAlarmQueueMissesDeadline` is a run, for every capacity of the queues, that drops one alarm and
  sleeps past a deadline, and `UnguardedSleepsPast` shows that only a waker ends that sleep in time.
- A waker ignores a full run queue (`src/executor/base_executor.rs:160`). `CrowdedWakeServed`: no run
  forgets the task if it is in the run queue already. `CrowdedWakeStarves`: otherwise it is not polled
  in any run before it is woken or spawned again or a timer of its own is due. In `CrowdedOut` one
  task, woken often enough, crowds out another. `DroppedTimerMisses` says the same of a timer that
  finds the timer queue full.
- `spawn` pushes without a pend (`src/executor/base_executor.rs:56-65`). `ForeignSpawnNoticedIff`: from
  outside the executor's own tasks and after `start`, every later run notices it before going idle if
  and only if the executor was awake or pended anyway. `SpawnedTooLate` reaches a state where it is
  not, and `ForeignSpawnStarves` shows that the task then waits until something else pends the
  executor.
- A task polled again before its timer is due leaves the old timer behind. With more than `MAX_TASKS`
  timers due, and only then (`ExpiredFitIff`), the `unwrap` on `ready.push` panics
  (`src/executor/base_executor.rs:106-112`). In `StaleTimersOverflow` one of two tasks is woken often
  enough to get there.
- `Pipe::consume` frees space without waking a writer (`src/sync/pipe.rs:314-321`). `ConsumeSafeIff`: it
  is safe on a buffer, whoever may be asleep, if and only if it frees nothing, or the buffer was not
  full, or no writer is registered. `ConsumeForgetsWriter` is a run that loses a writer, and
  `ForgottenByReaders` shows that no reader ever wakes it.

The question in `src/executor/thread_executor.rs:34` ("possible lost wakeups????") is answered by
`Executor.IdleOwesNothing`: there are none, unless a task that is not in the run queue finds it full.

## Model

| member | source | states |
|---|---|---|
| Tiling.BytesConserved | src/memory/heap.rs:296-332 | sizes of holes plus sizes of blocks in use equal top minus bottom |
| Tiling.EveryByteOnce | src/memory/heap.rs:53-160 | every address between bottom and top lies in exactly one hole or block |
| Tiling.Unique | src/memory/heap.rs:346-453 | two canonical rows of tiles with the same bounds and the same blocks in use are equal |
| Tiling.AllFreed | src/memory/heap.rs:455-482 | with no block in use a single hole spans the heap |
| FirstFit.FitInLeast | src/memory/heap.rs:53-113 | `split_current` accepts a hole exactly when some aligned place leaves nothing or a full hole on either side, and then takes the lowest such place |
| FirstFit.FirstFitIsLowest | src/memory/heap.rs:261-275 | the first hole not refused holds the lowest place in the whole heap |
| FirstFit.AllRefused | src/memory/heap.rs:261-275 | when every hole is refused no place exists anywhere |
| FirstFit.RoomSuffices | src/memory/heap.rs:53-113 | an aligned hole that fits exactly or with a header to spare, and any hole with room for every alignment, holds a place |
| FirstFit.CarveKeeps | src/memory/heap.rs:115-160 | splitting keeps the row canonical, adds exactly the new block, and puts the paddings where the hole was |
| FirstFit.ReleaseKeeps | src/memory/heap.rs:455-482 | releasing keeps the row canonical and takes exactly that block out of use |
| FirstFit.MergeJoins | src/memory/heap.rs:404-452 | one merge step for a new first hole, two otherwise, do all the joining there is |
| HoleHeap.LinkPads | src/memory/heap.rs:115-157 | rewriting the node before a hole and headers inside it replaces the hole in the list |
| HoleHeap.ReleaseReady | src/memory/heap.rs:163-191 | a block in use leaves no sliver at either end, so the top and bottom repairs change nothing |
| HoleHeap.HoleList.constructor | src/memory/heap.rs:218-247 | a new heap has no block in use, is aligned, and accounts for the bytes cut off at the end |
| HoleHeap.HoleList.ReplaceHole | src/memory/heap.rs:115-157 | the paddings take the place of the hole in the linked list |
| HoleHeap.HoleList.SplitCurrent | src/memory/heap.rs:53-160 | the place found, or the memory left as it was |
| HoleHeap.AlignedSize | src/memory/heap.rs:250-257 | the least multiple of the header alignment that holds the request and a header |
| HoleHeap.HoleList.AllocateFirstFit | src/memory/heap.rs:261-275 | an aligned block of the least sufficient size, inside the heap, apart from all blocks in use and at the lowest possible place, becomes the only new block in use; None means no place existed and nothing changed |
| HoleHeap.HoleList.CheckMergeTop | src/memory/heap.rs:163-180 | grows the hole to the top exactly when no header fits after it |
| HoleHeap.HoleList.CheckMergeBottom | src/memory/heap.rs:182-191 | moves the hole down to the bottom exactly when no header fits before it |
| HoleHeap.HoleList.TryInsertBack | src/memory/heap.rs:347-373 | inserts before the first hole exactly when the address is lower |
| HoleHeap.HoleList.TryInsertAfter | src/memory/heap.rs:375-401 | inserts after the cursor exactly when the next hole is higher or there is none |
| HoleHeap.HoleList.TryMergeNextN | src/memory/heap.rs:404-452 | the list after at most `max` joins starting at the cursor |
| HoleHeap.HoleList.InsertInOrder | src/memory/heap.rs:471-478 | the search stops at the right hole and never reaches the `expect` |
| HoleHeap.HoleList.DeallocateRaw | src/memory/heap.rs:455-482 | the hole is in the list at its place, joined with the holes it touches |
| HoleHeap.HoleList.Deallocate | src/memory/heap.rs:277-281 | exactly the given block leaves the blocks in use and the list stays canonical |
| HoleHeap.HoleList.Extend | src/memory/heap.rs:296-332 | blocks in use stay, no byte handed over is lost, fewer than a header stay pending |
| HeapLaws.FreesCommute | src/memory/heap.rs:455-482 | blocks may be freed in either order |
| HeapLaws.FreeingAll | src/memory/heap.rs:455-482 | freeing every block in any order leaves the single hole from bottom to top |
| HeapLaws.FreeStretchInOneHole | src/memory/heap.rs:7-13 | any stretch without a block in use lies inside one hole: holes are maximal |
| HeapLaws.SameFreeList | src/memory/heap.rs:7-13 | heaps with the same blocks in use store the same free list, header by header |
| HeapLaws.Accounting | src/memory/heap.rs:21-25 | every byte is accounted for and no header lies in a block in use |
| HeapLaws.OwnerMayWrite | src/memory/heap.rs:7-13 | whatever is written inside a block in use, the free list stays intact |
| HeapLaws.AllocateThenFree | src/memory/heap.rs:261-281 | allocating and freeing restores the free list |
| FirstFit.NewBlock | src/memory/heap.rs:261-275 | a place for a block is aligned, inside the heap and disjoint from every block in use |
| Wakers.RegisterForgetsNobody | src/sync/waitqueue/multi_waker.rs:17-38 | a registered waker stays registered or is woken, also when the buffer overflows |
| Wakers.RegisterIsQuiet | src/sync/waitqueue/multi_waker.rs:17-38 | somebody is woken exactly when a newcomer finds the buffer full; otherwise the newcomer is added at the end |
| Wakers.MultiWakerRegistration.Register | src/sync/waitqueue/multi_waker.rs:17-38 | a known waker changes nothing; with room it is appended and nobody is woken; at a full buffer all are woken and it alone is left |
| Wakers.MultiWakerRegistration.Wake | src/sync/waitqueue/multi_waker.rs:41-57 | all registered wakers are woken in order and the buffer is empty |
| Wakers.WakerRegistration.Register | src/sync/waitqueue/waker_registration.rs:17-39 | the new waker is registered and a different old one is woken |
| Wakers.WakerRegistration.Wake | src/sync/waitqueue/waker_registration.rs:42-46 | the registered waker is woken and the slot empty |
| PubSubRuns.StepKeeps | src/sync/pubsub/mod.rs:280-368 | every call keeps: counter = live readers left + orphans, exact histories, nobody asleep on a message, sleeping publishers registered |
| PubSubRuns.CountedReader | src/sync/pubsub/mod.rs:328 | a live subscriber is counted by every message it has not read |
| PubSubRuns.NoZeroBehindFront | src/sync/pubsub/mod.rs:330 | without orphans counters do not decrease along the queue, so checking the front is enough |
| PubSubRuns.LeaveDropsOnlyRead | src/sync/pubsub/mod.rs:354-362 | messages a leaver takes with it were read by every other live subscriber |
| PubSubRuns.SomebodyListens | src/sync/pubsub/mod.rs:287-289 | the front of a clean queue has a live subscriber still to read it |
| PubSubLaws.NoUnderflow | src/sync/pubsub/mod.rs:342-352 | in every reachable state no counter decrement underflows |
| PubSubLaws.ReliableDelivery | src/sync/pubsub/mod.rs:30-33 | without publish_immediate a subscriber received exactly the log since its join and the rest is queued |
| PubSubLaws.ExactLag | src/sync/pubsub/mod.rs:170-200 | next id = join id + received + reported lag, never ahead of the channel; ids received increase strictly |
| PubSubLaws.OneLagThenOldest | src/sync/pubsub/mod.rs:312-316 | a lag report moves the subscriber exactly to the oldest queued message, which the next read delivers |
| PubSubLaws.OnlyImmediateEvicts | src/sync/pubsub/mod.rs:301-368 | no call but publish_immediate drops a message some live subscriber has not read |
| PubSubLaws.ImmediateDropsOldestIff | src/sync/pubsub/mod.rs:301-309 | publish_immediate drops a message if and only if the queue is full, and then exactly the oldest; the rest and the new message follow in order |
| PubSubLaws.CountersStayExactIff | src/sync/pubsub/mod.rs:342-347 | every counter stays positive and equal to the number of live subscribers still to read its message, if and only if no lagged subscriber is dropped |
| PubSubLaws.FullQueueHasSlowReader | src/sync/pubsub/mod.rs:287-289 | with exact counters a full queue has a live subscriber that holds it up; no subscriber, no message |
| PubSubLaws.SleepingPublisher | src/sync/pubsub/mod.rs:202-218 | a sleeping publisher is registered, the queue is full, and a live subscriber has its front to read |
| PubSubLaws.SleepingSubscriber | src/sync/pubsub/mod.rs:183-188 | a sleeping subscriber is registered and has nothing to read |
| PubSubLaws.WaitingIsQuiet | src/sync/pubsub/mod.rs:170-196 | a subscriber that waits wakes nobody as long as its waker has room or is registered already |
| PubSubLaws.StuckForever | src/sync/pubsub/mod.rs:327-340 | in every run without publish_immediate a front message that waits for a reader who has left never moves, and nothing leaves the queue |
| PubSubLaws.WedgedForever | src/sync/pubsub/mod.rs:280-289 | on such a channel every publish to a subscriber is refused for ever |
| PubSubLaws.LaggedDropWedges | src/sync/pubsub/mod.rs:342-347 | after a lagged subscriber is dropped, however full the queue, at most the room left then is ever filled without publish_immediate, and the channel is wedged exactly when it is |
| PubSubLaws.WedgedByExample | src/sync/pubsub/mod.rs:280-289 | five calls from the empty channel after which a subscriber listens and every publish is refused |
| PubSubLaws.NewcomerFindsItWedged | src/sync/pubsub/mod.rs:280-289 | on a wedged channel of any capacities a new subscriber can be reached by no publish |
| PubSubChannel.PubSubState.Subscriber | src/sync/pubsub/mod.rs:93-104 | a slot taken and the id of the next message, or the error when all are taken |
| PubSubChannel.PubSubState.TryPublish | src/sync/pubsub/mod.rs:280-299 | without subscribers nothing happens; a full queue refuses; otherwise the message is queued, counted once per live subscriber, and every waiting subscriber is woken |
| PubSubChannel.PubSubState.PublishImmediate | src/sync/pubsub/mod.rs:301-309 | only a full queue gives up its oldest message; then the message is queued and the waiting subscribers woken, if there is a subscriber; the `unwrap` cannot fail |
| PubSubChannel.PubSubState.PublishWithContext | src/sync/pubsub/mod.rs:202-218 | publishes, or registers the publisher's waker |
| PubSubChannel.PubSubState.GetMessage | src/sync/pubsub/mod.rs:311-340 | the lag up to the oldest message, or the message with its counter one less, or None; the last reader of the front takes it out and wakes the publishers |
| PubSubChannel.PubSubState.DecrementCounters | src/sync/pubsub/mod.rs:349-352 | exactly the counters from the given index on are one less |
| PubSubChannel.PubSubState.PopUnneeded | src/sync/pubsub/mod.rs:354-362 | exactly the leading messages with count zero are gone |
| PubSubChannel.PubSubState.UnregisterSubscriber | src/sync/pubsub/mod.rs:342-368 | the counters of the unread messages are one less, the leading messages nobody will read are gone and then publishers are woken; a lagged leaver changes no counter |
| PubSubChannel.PubSubState.Available | src/sync/pubsub/mod.rs:198-200 | the messages between the given id and the most recent one |
| PubSubChannel.PubSubState.Space | src/sync/pubsub/mod.rs:227-232 | the messages that still fit |
| PubSubChannel.Sub.GetMessageWithContext | src/sync/pubsub/mod.rs:170-196 | the id advances by one per message and to the oldest message per lag report; a waiting subscriber is registered |
| PubSubChannel.Sub.TryNextMessage | src/sync/pubsub/subscriber.rs:50-55 | the same without registering: what is delivered, the channel afterwards, the publishers woken and the id |
| PubSubChannel.Sub.TryNextMessagePure | src/sync/pubsub/subscriber.rs:60-68 | terminates after at most one lag report with the oldest unread queued message, the publishers woken by taking it |
| PubSubChannel.PublisherWaitFuture.Poll | src/sync/pubsub/publisher.rs:187-196 | published, subscribers woken and the message gone; or the message handed back, the channel unchanged but for the task registered, and whoever the registration wakes |
| Timers.ExpiryIsUnique | src/time/timer_queue.rs:55-77 | which items fire and which stay does not depend on how ties are broken |
| Timers.TimerQueue.Enqueue | src/time/timer_queue.rs:51-53 | the item is in the queue unless the queue was full |
| Timers.TimerQueue.DequeueExpired | src/time/timer_queue.rs:55-77 | exactly the items due are taken, earliest first, and counted |
| Timers.TimerQueue.NextExpiration | src/time/timer_queue.rs:79-84 | the earliest deadline, None for an empty queue |
| Timers.TimerQueue.DequeueThenNext | src/time/timer_queue.rs:55-84 | after the expired timers are gone the next deadline lies ahead |
| Timers.AlarmQueue.TryAllocateHandle | src/cpu/alarm.rs:37-43 | a new handle while there are any |
| Timers.AlarmQueue.SetAlarm | src/cpu/alarm.rs:65-69 | the alarm is in the queue unless the queue was full |
| Timers.AlarmQueue.GetOneExpiredItem | src/cpu/alarm.rs:71-80 | the earliest alarm when it is due; None means none is due |
| Timers.AlarmQueue.CallAllExpired | src/cpu/alarm.rs:82-95 | exactly the alarms due are taken, earliest first, and their callbacks called in that order |
| Timers.CalledInOrder | src/cpu/alarm.rs:82-95 | with all callbacks registered, each alarm that fires has its callback run once, in the order they fire |
| Timers.CalledConcat | src/cpu/alarm.rs:82-95 | what is called for one batch of alarms after another is what is called for both together |
| Executor.StepKeeps | src/executor/base_executor.rs:104-217 | every step of every party, failing pushes that do no harm included, keeps: no task left behind, deadlines watched, and a sleeping executor guarded by its alarms or about to be pended |
| Executor.IdleOwesNothing | src/executor/thread_executor.rs:30-46 | in no interleaving is the executor idle while a spawned or woken task has not been polled, whatever timers and alarms are dropped, if a wakeup that fails is one of a queued task |
| Executor.NoDeadlineMissed | src/cpu/cpu0.rs:66-74 | right after the interrupt for tick t an idle executor has every deadline after t, in its timer queue and in its tasks, in every run whose failing pushes do no harm |
| Executor.QueueAdvances | src/executor/base_executor.rs:153-184 | without spawns by tasks, the run queue loses at the front exactly what was popped and grows only at the back, in every interleaving |
| Executor.PolledInTurn | src/executor/base_executor.rs:178-184 | the task at position k of the run queue is the one polled by the pop after k others |
| Executor.SpawnedIsNext | src/executor/base_executor.rs:56-65 | a spawned task is polled by the next pop, in every run without another spawn |
| Executor.WokenIsLast | src/executor/base_executor.rs:153-164 | a woken task is polled after exactly the tasks queued before it |
| Executor.EarliestDeadlineFirst | src/executor/base_executor.rs:104-120 | tasks whose timers have expired are polled after those queued already, the earliest deadline first |
| ExecutorLimits.ForeignSpawnNoticedIff | src/executor/base_executor.rs:56-65 | in every later run a spawn without pend is noticed before the executor goes idle, if and only if the executor was awake, pended or about to be |
| ExecutorLimits.ForeignSpawnStarves | src/executor/base_executor.rs:56-65 | on a sleeping executor the task stays unpolled in every run in which nothing else pends the executor |
| ExecutorExamples.SpawnedTooLate | src/executor/thread_executor.rs:30-46 | for every configuration, a run from the start to a state in which a spawn is forgotten |
| ExecutorLimits.RenewOnTimeIff | src/executor/base_executor.rs:142-150 | no run from there, whose further failing pushes do no harm, misses a deadline, if and only if the alarm queue had room, or an own alarm is due by the deadline or now, or the executor is pended or about to be |
| ExecutorLimits.CrowdedWakeServed | src/executor/base_executor.rs:153-164 | a wakeup that finds the run queue full is never forgotten if its task is in the run queue |
| ExecutorLimits.CrowdedWakeStarves | src/executor/base_executor.rs:153-164 | otherwise the task stays unpolled in every run, until it is woken or spawned again or a timer of its own is due |
| ExecutorExamples.CrowdedOut | src/executor/base_executor.rs:153-164 | for every configuration, a run in which one task woken again and again crowds out another, and the executor idles |
| ExecutorLimits.DroppedTimerMisses | src/time/timer_queue.rs:51-53 | a needed timer dropped at a full timer queue makes every executor that idles when its deadline is over late, unless the task is woken or spawned again |
| ExecutorLimits.UnguardedSleepsPast | src/executor/base_executor.rs:142-150 | an executor asleep with no alarm up to tick m sleeps past m in every run without a waker |
| ExecutorLimits.AlarmsAddUp | src/executor/base_executor.rs:236-251 | in every run an alarm not yet due is there once for every time it got into the queue: setting it again replaces nothing and nothing takes it back |
| ExecutorExamples.AlarmsPileUp | src/executor/base_executor.rs:236-251 | a single timer comes to fill the whole alarm queue with copies of its alarm |
| ExecutorExamples.FullAlarmQueueMissesDeadline | src/executor/base_executor.rs:249-250 | for every capacity of the queues, a run of the program that drops one alarm, at whose end the executor idles past a deadline whose timer is still queued |
| ExecutorLimits.ExpiredFitIff | src/executor/base_executor.rs:104-114 | the expired timers can be taken without a panic, in some order and in every order, if and only if at most as many are due as the vector holds |
| ExecutorExamples.StaleTimersOverflow | src/executor/base_executor.rs:104-112 | for capacities like the program's, a run in which one of two tasks is woken often enough, to a state in which every order of taking the due timers overflows the vector |
| BaseExecutors.CalledIffRings | src/cpu/alarm.rs:82-95 | the callback of an executor runs if and only if one of its alarms is due |
| BaseExecutors.BaseExecutor.Spawn | src/executor/base_executor.rs:56-65 | the task is at the front of the run queue and nobody is pended; the queue must have room |
| BaseExecutors.BaseExecutor.ReadClock | src/executor/base_executor.rs:105 | the tick read is the current one |
| BaseExecutors.BaseExecutor.FetchEvent | src/executor/thread_executor.rs:33-38 | the flag is read and cleared |
| BaseExecutors.BaseExecutor.DequeueReady | src/executor/base_executor.rs:104-114 | exactly the expired timers leave the timer queue, earliest deadline first; it must not be more of them than the vector holds |
| BaseExecutors.BaseExecutor.PushReady | src/executor/base_executor.rs:116-120 | their tasks enter the run queue in order |
| BaseExecutors.BaseExecutor.PopTask | src/executor/base_executor.rs:180-184 | the next runnable task, its expiration cleared |
| BaseExecutors.BaseExecutor.PollTimer | src/time/timer_fut.rs:23-43 | ready exactly when the deadline has come, else the deadline is left with the task |
| BaseExecutors.BaseExecutor.UpdateTimerQueue | src/executor/base_executor.rs:125-140 | a deadline set during the poll enters the timer queue |
| BaseExecutors.BaseExecutor.RenewAlarm | src/executor/base_executor.rs:142-150 | an alarm for the earliest deadline |
| BaseExecutors.BaseExecutor.EnqueueAndPend | src/executor/base_executor.rs:153-164 | the task is queued unless the queue is full, and the executor is pended in any case |
| BaseExecutors.BaseExecutor.OnTimerInterrupt | src/cpu/cpu0.rs:66-74 | the tick advances, the alarms due are gone, and one of them pends its executor |
| BaseExecutors.Kernel.EventFetchAndClearLocal | src/cpu/cpu0.rs:54-60 | the old flag, and the flag down |
| Srp.ConfiguredMeans | src/srp_mutex.rs:27-47 | contended means two different priorities registered; the priority kept is the highest |
| Srp.OrderIrrelevant | src/srp_mutex.rs:27-47 | the order of registration does not matter |
| Srp.SrpMutex.Register | src/srp_mutex.rs:27-47 | the state after one more registration |
| Srp.SrpMutex.Enter | src/srp_mutex.rs:53-68 | CCPN and the value read are those of the two steps of the running job, read and raise |
| Srp.SrpMutex.Exit | src/srp_mutex.rs:73-80 | CCPN is that of the two steps of the running job, finish and restore |
| Srp.ExitUndoesEnter | src/srp_mutex.rs:53-82 | leaving the mutex restores the stack and CCPN exactly as they were before entering it |
| Srp.StepKeeps | src/srp_mutex.rs:53-82 | CCPN is always the level of the running job and jobs on the stack rise in priority above it |
| Srp.MutualExclusion | src/srp_mutex.rs:84-96 | under any nesting two different jobs are never inside the same mutex |
| Srp.CeilingRespected | src/srp_mutex.rs:58-68 | CCPN stays at or above the ceiling of every contended mutex held on the stack |
| Srp.CcpnIsReached | src/srp_mutex.rs:58-68 | and no higher: CCPN is the running job's priority or the ceiling of a contended mutex it holds |
| Srp.PreemptionRestores | src/srp_mutex.rs:73-76 | after any preemption the preempted job finds its locks and CCPN as it left them |
| Rings.UnwrapAppend | src/sync/ring_buffer.rs:34-42 | writing behind the last element appends, also across the wrap |
| Rings.UnwrapDrop | src/sync/ring_buffer.rs:60-68 | reading at the start takes the oldest elements, also across the wrap |
| Rings.RingBuffer.PushBuf | src/sync/ring_buffer.rs:18-32 | the longest range after the last element that does not wrap; empty exactly when the ring is full |
| Rings.RingBuffer.Push | src/sync/ring_buffer.rs:34-42 | the count grows by n and the start stays |
| Rings.RingBuffer.PopBuf | src/sync/ring_buffer.rs:44-58 | the longest range at the start that does not wrap; empty exactly when the ring is empty |
| Rings.RingBuffer.Pop | src/sync/ring_buffer.rs:60-68 | the count shrinks by n and the start moves by n |
| Rings.RingBuffer.Len | src/sync/ring_buffer.rs:79-87 | the count |
| Handoff.SucceedsIff | src/sync/channel.rs:413-468 | a read fails only on an empty buffer and a write only on a full one, with or without a context; the other side is woken exactly when that is what it waits for |
| Handoff.ContextOnlyRegisters | src/sync/channel.rs:413-468 | a context changes nothing but to register the task of a call that did not succeed |
| Handoff.RunIsSound | src/sync/channel.rs:413-478 | over all runs, with any tasks competing: a sleeping sender means full, a sleeping receiver means empty, and the sleeper is the one registered |
| Handoff.RunIsFifo | src/sync/pipe.rs:269-344 | what was put in is what was taken out followed by what is there |
| Handoff.ConsumeSoundIff | src/sync/pipe.rs:314-321 | consume keeps the protocol if and only if it frees nothing or no writer sleeps |
| Handoff.ConsumeSafeIff | src/sync/pipe.rs:314-321 | whoever may be asleep, consume keeps the protocol if and only if it frees nothing, or the buffer was not full, or no writer is registered |
| Handoff.ForgottenByReaders | src/sync/pipe.rs:273-275 | a writer forgotten so is never woken by a reader |
| Handoff.ConsumeForgetsWriter | src/sync/pipe.rs:292-321 | four calls after which the pipe is empty and a writer sleeps |
| Handoff.WriteAllAppendsInput | src/sync/pipe.rs:378-383 | a completed write_all has put exactly its input, whatever is read meanwhile |
| Handoff.TurnKeepsInput | src/sync/pipe.rs:378-383 | every write that is not told to wait makes the remainder shorter |
| Pipes.Pipe.TryReadWithContext | src/sync/pipe.rs:269-290 | the bytes read are the oldest ones and leave the pipe; a waiting reader is registered |
| Pipes.Pipe.TryWriteWithContext | src/sync/pipe.rs:323-344 | the bytes written follow the ones there; a waiting writer is registered |
| Pipes.Pipe.TryFillBufWithContext | src/sync/pipe.rs:294-312 | the oldest bytes, left in place |
| Pipes.Pipe.Consume | src/sync/pipe.rs:314-321 | the oldest bytes leave the pipe and nobody is woken |
| Pipes.Pipe.Clear | src/sync/pipe.rs:422-429 | the pipe is empty and a writer is woken |
| Pipes.Pipe.Len | src/sync/pipe.rs:449-451 | the number of bytes in the pipe |
| Pipes.Pipe.FreeCapacity | src/sync/pipe.rs:456-458 | the bytes that still fit |
| Channels.ChannelState.TryReceiveWithContext | src/sync/channel.rs:413-439 | the oldest message exactly when there is one, or the receiver registered; a sender is woken exactly when the queue was full |
| Channels.ChannelState.PollReadyToReceive | src/sync/channel.rs:441-449 | registers in any case; ready exactly when there is a message |
| Channels.ChannelState.TrySendWithContext | src/sync/channel.rs:455-468 | the message queued at the end and the receiver woken exactly when there is room, or the sender registered |
| Channels.ChannelState.PollReadyToSend | src/sync/channel.rs:470-478 | registers in any case; ready exactly when there is room |
| Channels.SendFuture.Poll | src/sync/channel.rs:315-326 | the message is in the future or in the channel, never in both and never in neither |
| ZeroCopy.StepKeeps | src/sync/zerocopy_channel.rs:211-256 | the slots lent, the items waiting and the sleepers stay as they should under every step |
| ZeroCopy.LentSlotsAreDisjoint | src/sync/zerocopy_channel.rs:228-249 | the sender's slot is neither the receiver's nor one that waits to be received |
| ZeroCopy.ReceivedInOrder | src/sync/zerocopy_channel.rs:235-256 | items are received in the order sent and found as they were sent, though the receiver may write to its slot; at most `len` apart; sleepers cannot go on |
| ZeroCopy.State.PollSend | src/sync/zerocopy_channel.rs:98-109 | the slot at the back exactly when not full, or the sender registered |
| ZeroCopy.State.PushDone | src/sync/zerocopy_channel.rs:235-242 | the slot is queued and the receiver woken |
| ZeroCopy.State.PollReceive | src/sync/zerocopy_channel.rs:158-169 | the slot at the front exactly when not empty, or the receiver registered |
| ZeroCopy.State.PopDone | src/sync/zerocopy_channel.rs:251-256 | the slot is free again and the sender woken |

## Left out

- Addresses and sizes are unbounded: a request so large that address arithmetic would wrap is not modelled, nor is `HoleList::empty`.
- The bytes in blocks in use: memory is a map of headers, and `HeapLaws.OwnerMayWrite` says that no write inside a block in use reaches one of the free list.
- Message ids, ticks and counters are natural numbers; the 64-bit ids and the 32-bit tick counter do not overflow in the model.
- The executor's loop as running code: its critical sections are methods, the order they run in and what interrupts them is the step system.
- The bounded queues of `heapless`: a binary heap is the multiset of its items, and ties between equal deadlines are broken in any way.
- Executor.IdleOwesNothing: holds for runs in which a wakeup that finds the run queue full is one of a queued task; `CrowdedWakeStarves` says what becomes of the others.
- Executor.NoDeadlineMissed: holds for runs in which no failing push does harm; `RenewOnTimeIff` and `DroppedTimerMisses` say when one does.
- Runs end where the program panics: a spawn on a full run queue, and more expired timers than fit.
- Two timers of one task at a time: the second overwrites the deadline of the first, and the claims are about the deadline the poll leaves behind.
- Handoff.RunIsSound: excludes `consume`, for which `ConsumeSoundIff` and `ConsumeSafeIff` give the exact condition.
- Publish/subscribe channels of capacity zero, on which `publish_immediate` to a subscriber panics.
- `PriorityChannel`, `Signal`, `OnceLock`, `select`, the async mutex, the bump allocator and the `Dyn` forwarding types: easy members or the same protocol again.
- Raw wakers, pinning, register access, the critical-section instructions, UART and start-up code.
