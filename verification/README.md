# Verified model of the kernel's allocator, scheduler and synchronization core

This project models the parts of the kernel in which most branching and linked state live, in Dafny 4.11, and proves
what they are for.

* **TLSF allocator** (`kernel/tlsf.c`). A 16 MB region is tiled by headers with boundary tags, and its free blocks are
  threaded onto 576 doubly linked lists under a two-level bitmap. `Arena`, `Allocator` and `AllocatorLaws` describe the
  allocator on values; `Tlsf` is the same allocator as a class that rewrites headers, list heads and bitmaps in place,
  and every method of it is proved to compute exactly the value-level operation.
* **Scheduler** (`kernel/sched.c` over `kernel/min_heap.c`, `kernel/thread_fifo.c`, `kernel/aux.h`, `kernel/cpu.c`).
  Hybrid EDF and round robin per core. The `Sched*` modules other than `SchedCore`, with `RoundRobin` and
  `RoundRobinTicks`, are the state machine on values with its laws; `SchedCore.Core` is the imperative core, with heaps, rings and loops, and refines
  that machine step by step.
* **Mutex** (`kernel/mutex.s`). Both acquire forms and the release as interleaved instructions of any number of cores,
  with exclusive monitors and event registers after section A3.4 of the ARM Architecture Reference Manual, ARMv7-A.
* **Secondary algorithms.** The FreeRTOS ordered list and queue ring, and the DM/DQS window search of the SDRAM
  calibration with the hardware test as an oracle.

`dafny verify dfyconfig.toml` checks everything.

## How the parts fit

| area | values and laws | imperative form |
|---|---|---|
| 32-bit words, wrapped order, multiples modulo 2^32 | `Words.dfy`, `Wrapped.dfy`, `Residues.dfy` | |
| allocator | `SizeClass.dfy`, `Arena.dfy`, `Allocator.dfy`, `AllocatorLaws.dfy`, `FreeIndex.dfy` | `Tlsf.dfy` |
| heap and ring | `HeapOps.dfy`, `HeapKeys.dfy` | `MinHeap.dfy`, `ThreadFifo.dfy` |
| scheduler | `SchedState.dfy`, `SchedMoves.dfy`, `Sched.dfy`, `SchedLaws.dfy`, `SchedChoice.dfy`, `SchedSteps.dfy`, `SchedSuspend.dfy`, `SchedRuns.dfy`, `SchedSleep.dfy`, `SchedKeys.dfy`, `SchedStale.dfy`, `SchedWake.dfy`, `SchedEarliest.dfy`, `SchedJobs.dfy`, `SchedMisses.dfy`, `SchedPrime.dfy`, `SchedWindows.dfy`, `SchedStarts.dfy`, `SchedInputs.dfy`, `SchedLateRun.dfy`, `RoundRobin.dfy`, `RoundRobinTicks.dfy` | `Threads.dfy`, `Rearm.dfy`, `SchedCore.dfy` |
| lock | `Mutex.dfy` | |
| list, queue, window search | | `KernelList.dfy`, `QueueRing.dfy`, `WindowSearch.dfy` |

Two hypotheses recur. `Room` says that all live times lie in one window of 2^31 ticks that does not cross 2^32: the
heap's direction choice and the re-arm loops compare counters with plain operators, so the scheduling laws do not hold
across the wrap.
`Partitioned` says that at most `MAX_THREADS` threads are live besides the main one: results of `fifo_push` and
`insert_node` are ignored by the scheduler. Where a law fails without its hypothesis, a lemma names the input or gives
the exact condition.

## What the code does that its names or comments do not say

* A thread killed while it is still in the incoming FIFO is set pending again by admission: `SchedSteps.KillFinalIff`,
  with an input in `SchedInputs.KillUndone`.
* `suspend_thread` reports success for a persistent thread, which goes on running: `SchedSuspend.SuspendStopsIff`, with
  an input in `SchedInputs.SuspendedYetRunnable`.
* `balance_node` on a heap of one node reports success without storing the new order. A thread re-armed or re-suspended
  alone in its heap keeps a node with a stale, lower order until it leaves the heap; these are the only stale nodes and
  there is at most one in each heap (`SchedStale.EveryRunKeys`). Behind it
  * a thread with an earlier deadline can be passed over: `SchedLateRun.ChoosesLaterDeadline` is a run from
    initialization, and `SchedEarliest.EarliestIff` says from the state a decision starts from when it happens;
  * a thread whose release is due can be left asleep: `SchedInputs.OverlooksDueThread`, exactly when
    `SchedWake.NoDueLeftIff` says so of the state the decision starts from.
* A thread that suspends itself is switched away to a thread that may never have been primed:
  `SchedPrime.SelfSuspendRunsIff`, with an input in `SchedInputs.SwitchesUnprimed`.
* A suspension moves a thread's deadline but does not make its next missed deadline count again:
  `SchedMisses.EveryRunMisses` counts by admissions and re-arms alone.
* The wrapped comparison orders a set of counters exactly when some half-range window holds them all:
  `Wrapped.OrderedIffWindow`, with two sets it does not order in `Wrapped.NoWindowNoOrder`.
* `remove_node` leaves a heap out of order once keys have crossed 2^32: `HeapOps.RemoveNodeAcrossWrap`, with the exact
  condition in `HeapOps.RemoveNodeOrdersIff`.
* For the last index `remove_node` percolates the slot just past the end. In a heap already out of order this can keep
  the removed entry and drop its parent: `HeapOps.RemoveNodePermIff`, with an input in `HeapOps.RemoveNodeLosesParent`
  that the heap's own operations reach (`HeapOps.LosingHeapReached`).
* The re-arm loops on 32-bit counters need not end: `Rearm.LoopExitsIff` is the exact condition, and
  `Rearm.DeadlineLoopExits` gives inputs on both sides of it.
* Overwriting an item of size 0 raises the message count above the queue length: `QueueRing.Queue.Send`, with an input in
  `QueueRing.OverwriteSemaphoreTwice`.
* The DM calibration fails although a window was found when that window lies entirely right of position 0:
  `WindowSearch.MarginIff`, with an input in `WindowSearch.WindowRightOfZero`.

## Model

| member | source | states |
|---|---|---|
| SizeClass.MapDownIsFloor | kernel/tlsf.c:185-212 | the class a block is filed under is the one whose size range contains the block |
| SizeClass.MapDownGalois | kernel/tlsf.c:185-212 | a block's class is at or above c exactly when the block is at least as large as class c's lower bound |
| SizeClass.MapUpIsCeiling | kernel/tlsf.c:87-144 | the class searched for a request is the least one all of whose blocks can hold it; failure exactly when the request exceeds the last class's bound |
| SizeClass.MapUpWithinThirtySecond | kernel/tlsf.c:87-144 | that class starts at most size/32 above the request |
| Words.ShrZero | kernel/tlsf.c:155-178 | a shifted bitmap word is zero exactly when no bit is left above the shift, which is what ends the scans |
| Allocator.PickFits | kernel/tlsf.c:147-182 | the block found is free, heads its list and can hold the request |
| AllocatorLaws.MallocLeastSlot | kernel/tlsf.c:147-182 | a successful kMalloc is served from the start of the free block that heads the lowest list with a block of at least the rounded-up size |
| AllocatorLaws.AlignUpLeast | kernel/tlsf.c:39 | the aligned request is the least multiple of 8 not below the request, or 0 when that is 2^32 |
| AllocatorLaws.MallocFreeRestores | kernel/tlsf.c:215-415 | a successful kMalloc followed by kFree of its result restores tiling, boundary tags and the order of every list, also when the remainder was filed in the original block's class |
| AllocatorLaws.MallocFailsIff | kernel/tlsf.c:147-221 | kMalloc returns NULL exactly when the aligned request is zero, exceeds every class, or every free block is smaller than the class bound the request is rounded up to |
| AllocatorLaws.MallocSucceedsWithinThirtySecond | kernel/tlsf.c:87-221 | a free block of at least s + s/32 bytes guarantees success for a request of s bytes |
| AllocatorLaws.MallocLive | kernel/tlsf.c:215-292 | a successful kMalloc adds exactly one live payload, 8-aligned, of the aligned request's size or 8 bytes more and never smaller than the request, and leaves every other live payload alone |
| AllocatorLaws.LivePayloadsDisjoint | kernel/tlsf.c:223-288 | live payloads with their headers never overlap and lie inside the heap |
| AllocatorLaws.FreeLive | kernel/tlsf.c:295-415 | kFree of a live payload removes exactly that one; NULL and free blocks are refused without effect |
| AllocatorLaws.InitInv | kernel/tlsf.c:418-450 | the initial state has exact tiling and exact index |
| AllocatorLaws.NothingLiveIsPristine | kernel/tlsf.c:295-450 | a sound state without live payloads is the initial state |
| AllocatorLaws.RunReturnsToPristine | kernel/tlsf.c:215-450 | after any sequence of kMalloc and kFree from heap_init, in any order of frees, the state is the initial one as soon as nothing is live |
| AllocatorLaws.HeapIsTiled | kernel/tlsf.c:223-258 | walking the headers from the heap's start meets every block once, without gap or overlap, and payloads plus headers sum to the heap size |
| FreeIndex.LinkedRemove | kernel/tlsf.c:261-279 | unlinking a block by its own links removes it from its list and leaves every other list's links and head alone |
| FreeIndex.LinkedPush | kernel/tlsf.c:251-257 | writing a block as the new head puts it in front of its list and leaves the other lists alone |
| FreeIndex.MappedClear | kernel/tlsf.c:281-285 | after a list lost its last entry, clearing its bit, and the octave's bit when its word became zero, makes both bitmaps exact again |
| FreeIndex.MappedPush | kernel/tlsf.c:247-248 | setting both bits makes both bitmaps exact after a push |
| Tlsf.StateDeterminesMemory | kernel/tlsf.c:74-76 | two memories that represent the same blocks and lists agree on both bitmaps, every list head and every header field in use |
| Tlsf.Tlsf.HeapInit | kernel/tlsf.c:418-450 | heap_init builds a memory that represents the initial state, once; a second call is refused |
| Tlsf.Tlsf.GetFree | kernel/tlsf.c:147-182 | the two nested bitmap scans return the head of the first non-empty list at or above the request's class |
| Tlsf.Tlsf.KMalloc | kernel/tlsf.c:215-292 | in-place allocation: headers, lists and bitmaps stay exact and represent the result of the value-level allocation, whose address is returned |
| Tlsf.Tlsf.KFree | kernel/tlsf.c:295-415 | in-place release: both coalescing loops, the rewritten boundary tag and the re-filing represent the result of the value-level release |
| Wrapped.WindowStrictTotalOrder | kernel/aux.h:10-25 | inside a half-range window the wrapped comparisons are a strict total order and each other's complements |
| Wrapped.OrderedIffWindow | kernel/aux.h:10-25 | on any non-empty set of words the wrapped comparison is a strict total order exactly when some half-range window holds the set; the window can start at its least element |
| Wrapped.NoWindowNoOrder | kernel/aux.h:22-25 | two sets outside every window: three values that form a cycle and two that are each below the other |
| HeapOps.InsertOrders | kernel/min_heap.c:101-118 | insertion keeps heap order for keys in a half-range window |
| HeapOps.InsertRootIff | kernel/min_heap.c:30-47 | insertion displaces the root exactly when the new key is below it; an equal key waits |
| HeapOps.RekeyRootIff | kernel/min_heap.c:50-98 | re-keying the root leaves it there exactly when no other key is below the new one |
| HeapOps.LeftFirst | kernel/min_heap.c:50-98 | of two children below their parent the left one moves up unless the right one is below it |
| HeapOps.RemoveHeadOrders | kernel/min_heap.c:121-139 | removing the head keeps heap order for keys in a half-range window |
| HeapOps.RemoveNodeOrdersIff | kernel/min_heap.c:142-164 | removing an inner node keeps heap order exactly when the plain comparison of the moved key with its parent agrees with the wrapped one, or the direction does not matter |
| HeapOps.RemoveNodeAcrossWrap | kernel/min_heap.c:158 | a concrete heap whose keys crossed 2^32 is left out of order |
| HeapOps.BalanceOrdersIff | kernel/min_heap.c:167-181 | re-keying a node restores heap order under the same exact condition |
| HeapOps.RemoveNodePermIff | kernel/min_heap.c:142-164 | removal by index takes out exactly that entry, except exactly when it is the last of several and both plainly and wrapped below its parent |
| HeapOps.RemoveNodeLosesParent | kernel/min_heap.c:153-160 | a heap out of order in which removing the last entry keeps it and drops its parent |
| HeapOps.LosingHeapReached | kernel/min_heap.c:101-164 | one insertion and three removals, the last of which drops the parent, lead there from an ordered heap whose keys crossed 2^32 |
| HeapOps.InsertPerm | kernel/min_heap.c:101-118 | insertion adds exactly that entry |
| HeapOps.DrainSorts | kernel/min_heap.c:184-200 | popping until the heap is empty yields a sorted permutation of its entries |
| MinHeap.MinHeap.PercolateUp | kernel/min_heap.c:30-47 | the in-place loop realizes the value-level percolation and every thread's heap_index points back at its node |
| MinHeap.MinHeap.PercolateDown | kernel/min_heap.c:50-98 | likewise downwards, also on the slot just past the end |
| MinHeap.MinHeap.InsertNode | kernel/min_heap.c:101-118 | in-place insertion with back-pointers; refused exactly when the array is full |
| MinHeap.MinHeap.RemoveHead | kernel/min_heap.c:121-139 | in-place removal of the head with back-pointers |
| MinHeap.MinHeap.RemoveNode | kernel/min_heap.c:142-164 | in-place removal by index with back-pointers, on any heap and including the percolation of the slot past the end; refused exactly for an index out of range |
| MinHeap.MinHeap.BalanceNode | kernel/min_heap.c:167-181 | in-place re-keying with back-pointers; a single node keeps its stored order |
| MinHeap.MinHeap.PopHeap | kernel/min_heap.c:184-200 | returns the head's thread and removes it |
| ThreadFifo.ThreadFifo.Push | kernel/thread_fifo.c:36-47 | appends to the queue, or reports failure and changes nothing exactly when it is full |
| ThreadFifo.ThreadFifo.Pop | kernel/thread_fifo.c:50-62 | takes the oldest element, or returns NULL from an empty queue |
| ThreadFifo.ThreadFifo.Initialize | kernel/thread_fifo.c:11-17 | an empty queue, whatever the ring held before; its slots are not cleared |
| ThreadFifo.ThreadFifo.DestroyThreads | kernel/thread_fifo.c:20-33 | frees exactly the threads in non-NULL slots, which are the queued ones if the ring was initialized, and leaves an empty ring |
| Rearm.RearmDeadline | kernel/sched.c:165-168 | the 32-bit loop ends whenever some addition exceeds the tick counter, at the first such value; without wrap this is the re-armed deadline |
| Rearm.RearmRelease | kernel/sched.c:170-173 | likewise against one period before the new deadline; without wrap this is the re-armed release time |
| Rearm.LeastDeadline | kernel/sched.c:165-168 | the new deadline is the least deadline + k * period, k at least 1, above the tick counter |
| Rearm.LeastRelease | kernel/sched.c:170-173 | the new release is the least release + k * period, k at least 1, not below one period before the new deadline |
| SchedMoves.AdmitOneTimes | kernel/sched.c:97-136 | what admission leaves of a thread: released now, due one period from now, pending, no miss noted, in its level or in the deadline heap, and nothing else of it changed |
| SchedMoves.RearmOneTimes | kernel/sched.c:161-184 | what re-arming leaves of the finished head: those two times, pending, no miss noted, asleep exactly if its release lies ahead |
| Rearm.WindowShape | kernel/sched.c:165-173 | one re-arm leaves a window that is not empty and at most one period long, and exactly one period long if it was so |
| Rearm.LoopExitsIff | kernel/sched.c:165-173 | on 32-bit counters a re-arm loop has an exit exactly when 2^32 - g + start % g exceeds its bound, g being the greatest common divisor of the period and 2^32 |
| Rearm.DeadlineLoopExits | kernel/sched.c:165-168 | hence always when ticks + period does not wrap and never at the last tick value; in between two inputs with different outcomes |
| SchedMoves.AdmitOneKeeps | kernel/sched.c:97-136 | admitting a thread keeps the container partition, the tags and both heap orders |
| SchedMoves.RearmOneKeeps | kernel/sched.c:161-184 | re-arming the finished head, in place or into the release heap, keeps them too |
| Sched.Admit | kernel/sched.c:97-136 | the admission loop ends with an empty incoming FIFO and disturbs no doomed or sleeping thread |
| Sched.ReleaseDue | kernel/sched.c:140-146 | the release loop ends when the head of the release heap is not due |
| Sched.SelectDead | kernel/sched.c:148-217 | the deadline-heap loop terminates, by the set of finished threads in the heap, and keeps the invariant |
| Sched.SelectLevel | kernel/sched.c:223-331 | a level's loop terminates, by the set of its finished or due threads, and keeps the invariant |
| SchedLaws.NextUpPicks | kernel/sched.c:93-347 | the choice is the unfinished head of least stored order in the deadline heap, else the unfinished head of the highest level left non-empty; false exactly when heap and levels are left empty |
| SchedKeys.RearmOneKeys | kernel/sched.c:161-184 | re-arming the head leaves every stored order equal to its thread's time, except the head's own when it is alone in the deadline heap and stays there |
| SchedStale.EveryRunKeys | kernel/sched.c:405-792 | over every run the stored orders are the threads' deadlines and release times, except for nodes a single-node balance left stale: at most one in each heap, and stored lower |
| SchedEarliest.ChoosesLeastKey | kernel/sched.c:97-217 | from the state a decision starts from: it runs a thread of the deadline heap exactly when one contends (a newcomer, a waking sleeper, or one in the heap that is unfinished or whose next job is released), and then one of least key, the key being the stored order of an unfinished thread and the re-armed deadline of a finished one |
| SchedEarliest.EarliestIff | kernel/sched.c:97-217 | that thread has the earliest deadline of all that contend exactly when no unfinished thread is stored stale below all their deadlines while its own is not the earliest; one-way only when it is stored at exactly another deadline |
| SchedEarliest.FreshEarliest | kernel/sched.c:148-217 | it always has if the stale thread of the deadline heap, if any, is finished |
| SchedEarliest.RootEarliestIff | kernel/sched.c:203-214 | an unfinished root before the selection loop is chosen, and has the earliest deadline of the whole heap exactly when neither child is stored below it |
| SchedEarliest.SelectsEarliest | kernel/sched.c:148-217 | from a deadline heap of at most one node, or whose stale thread is finished, the selection loop chooses the earliest deadline of all in the heap |
| SchedEarliest.FreshRunsEarliest | kernel/sched.c:93-347 | so does a whole decision if the stale thread of the deadline heap, if any, is finished when it starts |
| SchedWake.NoDueLeftIff | kernel/sched.c:97-146 | admission and release leave no due thread asleep exactly when, in the order in which the release heap as the decision finds it gives up its threads, due ones come first |
| SchedWake.FreshDueFirst | kernel/sched.c:140-146 | they do if the stale sleeper, if any, is due |
| SchedWake.DueFirstByOrders | kernel/sched.c:140-146 | they do not if a sleeper that is not due is stored before one that is; and whenever they do not, a stale sleeper that is not due is stored at or before a due one |
| SchedLateRun.ChoosesLaterDeadline | kernel/min_heap.c:169 | a run from initialization, in which a periodic thread exits late and is re-armed alone in the heap, after which it runs with deadline 7 while a thread due at 6 waits |
| SchedInputs.SleeperGoesStale | kernel/sched.c:667-671 | suspending again the only thread of the release heap leaves its stored order at the old release time |
| SchedInputs.OverlooksDueThread | kernel/sched.c:140-146 | a state in which a thread due now stays asleep behind such a node and next_up finds nobody |
| SchedChoice.FoundIffRunnable | kernel/sched.c:93-347 | a thread is found exactly when, after admission and release, some thread is runnable: unfinished in a level, or in the deadline heap and not put to sleep by its re-arm; the one chosen is such a thread |
| SchedWake.FoundIffCanRun | kernel/sched.c:93-347 | from the state a decision starts from: a thread is found exactly when a newcomer, an unfinished thread of a level, a thread of the deadline heap that can run or a waking sleeper that can run exists, and the one chosen is such a thread |
| SchedWake.FoundIffReady | kernel/sched.c:93-347 | finding a thread whenever one is ready fails exactly when overlooked due sleepers are the only ready threads; a due sleeper is left asleep exactly when due threads do not come first |
| SchedLaws.FreedOnce | kernel/sched.c:334-344 | each reaped thread was finished, is freed once, and afterwards no container nor the running-thread pointer names it; nothing else is freed; with the allocator's lock taken no retired thread is left, without it nothing is freed |
| SchedLaws.DoomedNeverRuns | kernel/sched.c:188-194 | a thread finished for good is never chosen and stays finished until it is freed |
| SchedLaws.AsleepNeverRuns | kernel/sched.c:140-146 | a thread in the release heap whose release lies ahead is never chosen and stays there |
| SchedLaws.LiveOnce | kernel/sched.c:97-145 | a thread is in some container exactly when it is live and not the main one, and never twice |
| SchedChoice.DispatchAccount | kernel/sched.c:336-341 | a decision with reaping keeps utilization equal to the sum of the contributions modulo 2^32 |
| SchedSteps.EnqueueExactIff | kernel/sched.c:520-546 | enqueueing keeps the exact partition exactly when the incoming FIFO has a free slot |
| SchedSteps.EnqueueStores | kernel/sched.c:520-546 | the new thread is last in the incoming FIFO with the period and periodicity asked for; NULL and no effect exactly for a zero period or without memory |
| SchedSteps.EnqueuePersistentStores | kernel/sched.c:574-600 | likewise with the fixed slice, no ticks charged and the priority asked for |
| SchedSteps.KillKeeps | kernel/sched.c:615-627 | kill keeps partition, tags and heap orders; the thread is then finished for good exactly when it had left the incoming FIFO |
| SchedSteps.KillMarks | kernel/sched.c:615-627 | kill marks the thread as finished for good where it is, and changes no other thread and no container |
| SchedSteps.KillAccount | kernel/sched.c:619-623 | kill and repeated kill keep the utilization account, and the killed thread's share goes at once |
| SchedSteps.KillFinalIff | kernel/sched.c:97-104 | the next decision leaves a killed thread finished or freed exactly when it was not in the incoming FIFO |
| SchedInputs.KillUndone | kernel/sched.c:97-104 | a thread killed in the incoming FIFO and unfinished after the next decision |
| SchedSuspend.SuspendDeadKeeps | kernel/sched.c:661-666 | suspending a thread of the deadline heap removes exactly that thread by its index and adds it to the release heap |
| SchedSuspend.SuspendTimes | kernel/sched.c:639-659 | suspend_thread refuses exactly threads that will not run again, threads waiting for admission and releases not later than the one they have; otherwise the release is delay ticks ahead and the deadline keeps the time left behind it, or a whole period once it has come |
| SchedSuspend.SuspendStopsIff | kernel/sched.c:641-671 | a suspended thread stops being runnable exactly when it was heap-owned; any other is as runnable as before |
| SchedInputs.SuspendedYetRunnable | kernel/sched.c:641-671 | a persistent thread whose suspension succeeds and that can run as before |
| SchedSuspend.SuspendOthers | kernel/sched.c:641-671 | suspending changes no other thread's tags, times or place |
| SchedSleep.SuspensionSafety | kernel/sched.c:630-671 | over every later run of events below tick T + delay, a heap-owned thread suspended at tick T is never chosen |
| SchedRuns.Apply | kernel/sched.c:350-792 | every enabled event keeps partition, tags, heap orders, utilization account and a live running thread |
| SchedRuns.EveryRun | kernel/sched.c:405-792 | the same over every run from initialization, with heap-tagged threads in their heap and utilization equal to the sum of contributions |
| SchedWindows.EveryRunWindows | kernel/sched.c:97-792 | over every run a thread that was admitted and not successfully suspended since is due exactly one period after its release |
| SchedStarts.EveryRunStarts | kernel/sched.c:97-217 | over every run a thread of the deadline heap has reached its release, so none of them runs early |
| SchedPrime.TickRuns | kernel/sched.c:722-792 | after a tick the running thread's status is RUNNING |
| SchedPrime.ExitRuns | kernel/sched.c:350-396 | likewise after a thread's exit |
| SchedPrime.ExitEnds | kernel/sched.c:350-396 | after its exit a thread that is not periodic is not running, and stays finished until it is freed |
| SchedJobs.ChooseJobs | kernel/sched.c:97-331 | through a whole decision: newcomers become pending, finished periodic threads may be re-armed to pending, nobody else's status changes; the missed-deadline count grows by one exactly when the thread chosen from the heap is past its deadline and that was not noted since its job began, and it is noted |
| SchedPrime.SelfSuspendRunsIff | kernel/sched.c:688-706 | after a thread suspended itself the running thread's status is RUNNING exactly when it is the main thread or, before the switch, had that status and was not waiting for admission |
| SchedPrime.SelfSuspendYields | kernel/sched.c:674-706 | a thread of a heap that suspends itself for at least one tick gives up its core at once and sleeps |
| SchedPrime.SwitchToContender | kernel/sched.c:688-706 | the switch goes to the contender of strictly least key, and leaves it RUNNING exactly under that condition |
| SchedPrime.SwitchToRoot | kernel/sched.c:688-706 | likewise to the root of the deadline heap if it is unfinished after admission and release |
| SchedPrime.SwitchToLevelHead | kernel/sched.c:688-706 | likewise to the unfinished head with time left of the highest non-empty level if nobody in the heap can run |
| SchedMisses.RunMisses | kernel/sched.c:203-212 | over every run a thread's counted misses are at most the admissions and re-arms it gets, and one more for the job it starts with |
| SchedMisses.EveryRunMisses | kernel/sched.c:203-212 | over every run from initialization no job's missed deadline is counted twice, and the core's counter is the number counted, modulo 2^32 |
| SchedInputs.SwitchesUnprimed | kernel/sched.c:688-706 | a state in which a self-suspension switches to a pending thread |
| RoundRobin.HeadRotatesAt | kernel/sched.c:228-259 | the head of a level keeps its place for a number of visits that is fixed when it becomes head and then goes behind all waiting threads |
| RoundRobin.VisitsLeftBounds | kernel/sched.c:235-248 | that number is below 2 * period, and the rotation never comes before the period-th visit since the last one |
| RoundRobin.HeadWithin | kernel/sched.c:228-259 | the thread at position k is head within 2 * period * k visits at consecutive ticks |
| RoundRobin.LoneHead | kernel/sched.c:228-259 | a thread alone in its level is picked at every visit, charged one tick, and given a new window exactly when the old one has ended |
| RoundRobinTicks.HeadWithinTicks | kernel/sched.c:93-792 | the same over runs of the whole core: as long as no thread outranks the level at a tick, its thread at position k is head within 2 * period * k ticks, while others sleep, arrive, join the level behind it, are killed or are suspended |
| RoundRobinTicks.AdmissionIsFair | kernel/sched.c:97-146 | any two or more newcomers of equal slice that admission puts into an empty level, in their order, meet the hypotheses of the bounded wait |
| SchedCore.Core.constructor | kernel/sched.c:405-461 | an initialized core represents the initial state of the machine, whatever its containers held before |
| SchedCore.Core.AdmitAll | kernel/sched.c:97-136 | the loop over the rings and the heap in place computes the admission of the machine |
| SchedCore.Core.ReleaseAll | kernel/sched.c:140-146 | likewise the release loop |
| SchedCore.Core.SelectFromDead | kernel/sched.c:148-217 | likewise the deadline-heap loop, with what it reports |
| SchedCore.Core.SelectFromLevel | kernel/sched.c:223-331 | likewise the loop over one level, with what it reports |
| SchedCore.Core.ReapRetired | kernel/sched.c:334-344 | likewise the reaping loop |
| SchedCore.Core.NextUp | kernel/sched.c:93-347 | the imperative next_up computes the machine's decision and keeps every container and back-pointer in order |
| SchedCore.Core.NextThread | kernel/sched.c:722-792 | a timer tick is the machine's tick event |
| SchedCore.Core.ThreadExit | kernel/sched.c:350-396 | a thread's exit is the machine's exit event |
| SchedCore.Core.KillThread | kernel/sched.c:615-627 | kill_thread is the machine's kill |
| SchedCore.Core.SuspendThread | kernel/sched.c:630-671 | suspend_thread by stored heap_index is the machine's suspension of that thread |
| SchedCore.Core.SuspendAndSwitch | kernel/sched.c:630-719 | with the forced switch for a thread that suspends itself, and the same result |
| SchedPrime.TickShare | kernel/sched.c:736-738 | a tick counts itself and renews the share of the thread that was running, if periodic and measured, and of nobody else |
| SchedRuns.UtilizationShare | kernel/cpu.c:28-39 | a periodic thread's share is its run time over its period in units of 2^-16, rounded down, unless cut to 32 bits, and replaces its old share; anyone else changes nothing |
| SchedCore.Core.UpdateUtilization | kernel/cpu.c:28-39 | the accounting update is the machine's |
| SchedCore.Core.EnqueueNewThread | kernel/sched.c:520-546 | enqueueing is the machine's, a full FIFO losing the thread |
| SchedCore.Core.EnqueueNewPersistentThread | kernel/sched.c:574-600 | likewise for persistent threads |
| SchedCore.Core.BackPointers | kernel/sched.c:661-671 | a thread tagged with a heap is in that heap, at the position its heap_index holds |
| Mutex.StepKeepsInv | kernel/mutex.s:5-53 | every instruction, call, lost monitor or stray event keeps one holder, sound monitors and pending wakeups |
| Mutex.MutualExclusion | kernel/mutex.s:5-53 | over every interleaving of both acquire forms on any number of cores at most one core is inside, and then the word says locked |
| Mutex.NoLostWakeup | kernel/mutex.s:9-13 | whenever the lock is free, a core waiting at wfe has its event set or the unlocker is between its store and its sev |
| Mutex.NoDeadlock | kernel/mutex.s:5-53 | if every core is outside or blocked at wfe, then none is blocked |
| Mutex.RunRefines | kernel/mutex.s:5-53 | every interleaving is a history of an atomic lock, whose owner is the core that holds |
| Mutex.OnceResult | kernel/mutex.s:23-44 | the best-effort form returns 0 exactly to a core that holds the lock |
| Mutex.AcquiresAlone | kernel/mutex.s:5-20 | an undisturbed persistent caller that finds the lock free is inside after five instructions |
| Mutex.WaitsAlone | kernel/mutex.s:9-13 | one that finds it locked is at wfe after two, and loads again exactly once its event is set |
| Mutex.RetriesAlone | kernel/mutex.s:15-17 | a failed strex sends it back to its load |
| Mutex.OnceAcquiresAlone | kernel/mutex.s:23-44 | an undisturbed best-effort caller that finds the lock free is inside with result 0 after five instructions |
| Mutex.OnceRefusedAlone | kernel/mutex.s:23-44 | one that finds it locked is outside with another result after four, its monitor open and the lock as it was |
| Mutex.OnceLosesAlone | kernel/mutex.s:29-44 | one whose monitor was lost before its store is outside after two more, with another result and the lock as it was |
| Mutex.OnceNeverWaits | kernel/mutex.s:23-44 | whatever other cores do, the best-effort form can go on and each of its instructions leaves fewer, at most five in all |
| Mutex.UnlocksAlone | kernel/mutex.s:47-53 | an undisturbed unlock frees the word, opens every other monitor and sets every event |
| KernelList.InsertKeepsSorted | freertos_port/FreeRTOS-Kernel/list.c:139-213 | the insertion position keeps a sorted list sorted and is behind every equal value; the largest value goes to the end |
| KernelList.LinkedIn | freertos_port/FreeRTOS-Kernel/list.c:200-203 | four link writes put a node behind any node of a ring, in both directions |
| KernelList.LinkedOut | freertos_port/FreeRTOS-Kernel/list.c:225-226 | two link writes take any item out of the ring, in both directions |
| KernelList.List.constructor | freertos_port/FreeRTOS-Kernel/list.c:49-87 | an initialized list is a ring of the end marker alone |
| KernelList.List.InsertEnd | freertos_port/FreeRTOS-Kernel/list.c:105-136 | a walk from the index meets the old nodes in the old order and the new item last |
| KernelList.List.ScanFor | freertos_port/FreeRTOS-Kernel/list.c:165-198 | the scan terminates at the node in front of the first greater value |
| KernelList.List.Insert | freertos_port/FreeRTOS-Kernel/list.c:139-213 | the item goes before the first greater value; a sorted list stays sorted; count, links and index stay valid |
| KernelList.List.Remove | freertos_port/FreeRTOS-Kernel/list.c:217-247 | exactly that item goes, an index that pointed at it moves back by one node, and the remaining count is returned |
| QueueRing.BackAppends | freertos_port/FreeRTOS-Kernel/queue.c:2421-2434 | filling the write slot appends to the sequence the ring stands for |
| QueueRing.FrontPrepends | freertos_port/FreeRTOS-Kernel/queue.c:2435-2447 | filling the read slot and stepping back prepends |
| QueueRing.SlotWritten | freertos_port/FreeRTOS-Kernel/queue.c:2423 | copying an item's bytes into a slot changes that slot and no other |
| QueueRing.WrapIsModulo | freertos_port/FreeRTOS-Kernel/queue.c:2426-2429 | slot numbers wrap as the remainder by the length |
| QueueRing.Queue.Reset | freertos_port/FreeRTOS-Kernel/queue.c:303-371 | an empty queue, or failure exactly for length 0 or a size that overflows |
| QueueRing.Queue.CopyTo | freertos_port/FreeRTOS-Kernel/queue.c:2395-2475 | back, front and overwrite on the bytes; the queue stays sound exactly when the count stays within the length |
| QueueRing.Queue.Send | freertos_port/FreeRTOS-Kernel/queue.c:977-985 | accepted exactly when there is room or the item overwrites; then appended, prepended or replacing; refused without effect |
| QueueRing.OverwriteSemaphoreTwice | freertos_port/FreeRTOS-Kernel/queue.c:2395-2475 | two overwrites of a binary semaphore leave it counting two messages |
| QueueRing.Queue.Receive | freertos_port/FreeRTOS-Kernel/queue.c:1536-1547 | takes the first item, or reports an empty queue without effect |
| QueueRing.Queue.Peek | freertos_port/FreeRTOS-Kernel/queue.c:1910-1925 | returns the first item and leaves cursors and contents as they were |
| WindowSearch.ObserveTracks | bsp/sequencer.c:3332-3358 | one more test keeps the open run and the best run right for everything tested so far |
| WindowSearch.EarlyExit | bsp/sequencer.c:3360-3371 | when the early exit fires, no test left could change the best run |
| WindowSearch.SearchWindow | bsp/sequencer.c:3303-3373 | one call leaves the longest passing run of all tests so far and of the whole sweep, early exit or not |
| WindowSearch.CentreWrites | bsp/sequencer.c:3465-3487 | both calls find a longest passing run of the joined axis, its leftmost one, and width 0 exactly when every test fails |
| WindowSearch.MarginIff | bsp/sequencer.c:3489-3507 | the DM margin is non-negative exactly when a window was found that begins at or left of 0; the delay chosen then lies inside it |
| WindowSearch.DmCentred | bsp/sequencer.c:3495-3507 | the DM delay is the centre of the window found, its distances to both edges equal or the left one greater by one, or 0 when the centre lies right of 0; the margin is the distance to the left edge |
| WindowSearch.AxisCovers | bsp/sequencer.c:3312-3323 | the searched axis holds one test per DM delay from the largest to 0 and one per DQS delay up to the last, each with the hardware's answer |
| WindowSearch.WindowRightOfZero | bsp/sequencer.c:3489-3507 | only one delay right of 0 passes: it is found, and the DM margin is negative |

## Left out

- Context switching: stack frames, saved stack pointers, stack-range checks and the `raise_error` branches for corrupted
  tags in `kernel/sched.c` are machine state; only the choice of the running thread and its status changes are modelled.
  A priority is one of the three levels by type.
- The core lock and interrupt masking: each entry point of the scheduler is one step. A tick whose best-effort attempt
  on the core's lock fails does nothing and is not an event. The allocator lock's outcome in the reaping step is a
  parameter.
- SchedCore.Core.UpdateUtilization: the averaged run time and period are arbitrary inputs; cycle counters, EWMA averages
  and overhead telemetry are not modelled.
- SchedCore.Core.constructor: the static per-core storage and the main thread's memory are parameters, so the failing
  allocation of the main thread is not modelled.
- SchedCore.Core.NextUp: `kFree` of a thread removes it from the thread table; the link to the TLSF model is by the
  addresses passed in, and which core a thread is put on (`least_loaded_core`) is not modelled.
- SchedCore.Core.Shape, like all laws of `SchedRuns`, speaks of one core; cores share only the allocator and its lock.
- RoundRobin.HeadWithin: needs at least two waiting threads of equal slice length in the level, none of them killed,
  suspended or exiting meanwhile, and a visit at every tick; `RoundRobinTicks.HeadWithinTicks` shows when a run's ticks
  are such visits.
- SchedEarliest.EarliestIff: if an unfinished stale thread is stored at exactly the deadline of another contender, which
  of the two is chosen depends on their places in the heap; the two halves of the law are then one-way.
- SchedStale.EveryRunKeys, SchedWindows.EveryRunWindows, SchedMisses.EveryRunMisses, SchedStarts.EveryRunStarts:
  over the runs of `SchedRuns.EveryRun`.
- SchedRuns.EveryRun: runs that reach the end of the tick counter's window are not enabled.
- Tlsf.Tlsf.KMalloc: payload bytes are not modelled, and a free block's list links are fields of its header, not of the
  first payload bytes they share memory with. Callers hold the allocator mutex.
- Tlsf.Tlsf.KFree: the target must be NULL or a payload address that a block has; a wild pointer is outside the model.
- `heap_destroy`, `heap_reset`, `kernel/lock.c` and `utils/deque.c`: thin wrappers and easy members.
- Mutex.MutualExclusion: steps interleave sequentially; barriers are steps without effect, so the reordering they
  prevent is not modelled. Only the holder calls unlock.
- Mutex.NoDeadlock: fairness among waiting cores is not claimed; the lock has none.
- Teardown in `next_thread` and `psched_core_deinit`: it skips the three persistent FIFOs, so no law about all threads
  being freed fits it.
- KernelList.List.Insert: the 32-bit wrap of the item counter, integrity check bytes and trace hooks are not modelled;
  an item passed in must not be in the list already.
- QueueRing.Queue.Send: blocking, task wakeups, mutex-type queues, queue sets and lock counts are not modelled.
- WindowSearch.CentreWrites: the DQ part of the calibration and the register writes between tests are not modelled; the
  hardware test is any function of the call and the delay.
- Interrupt controller, timers, SD card, boot and the rest of the SDRAM sequencer: hardware bring-up.
- Test hooks, benches and scripts: drivers and telemetry.
