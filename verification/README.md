# A verified model of the TOPPERS/FMP3 kernel

TOPPERS/FMP3 is a real-time kernel for multiprocessors. Nearly all of its state changes under one
giant lock, so a section between `acquire_glock` and `release_glock` is one atomic step, and
concurrency is what happens between the steps. This project models nine of its mechanisms in Dafny,
in the form the C (and, for the S-record image, Python) code has: tables that the code updates in
place are fields that methods reassign, arrays stay arrays, loops stay loops with invariants. Each
method is tied to a specification by its contract, and the lemmas say what the specifications mean.

Run `dafny verify dfyconfig.toml` in this directory to check everything.

## What is proved

**Time events** (`TimeEventHeap`, `TimeWindow`, `TimeEventHeaps`, `TimeManager`). The binary heaps
of the processors share their time event blocks. Every operation keeps heap order and the
back-pointers of all heaps at once, changes exactly one event, and disturbs a root only if it must.
Event times are 32-bit and wrap around. Next to each the model keeps an unbounded time, and proves
that all comparisons the code makes agree with it as long as no event is overdue by more than the
margin of 200 seconds. That condition is exact: `DueExactly` is an if-and-only-if, and
`OverdueByMore` is the counterexample beyond it. On top of this, timers are always set no later than
the first event and, for the time master in any case, no later than `HRTCNT_BOUND` from now, so that
the counter never runs through a cycle unnoticed; callbacks run only for due events, and
`signal_time` ends only with nothing due.

**Clock** (`Clock`, `ClockRuns`). The 64-bit system time made from a 32-bit counter is exact across
wraps, also for a counter with a shorter cycle. Over any run of updates, accepted adjustments and
settings it never goes back between settings, its lag is bounded, and no event fires early.

**Dynamic ISRs** (`IsrProtocol`, `IsrRuns`, `IsrManager`). `call_isr` drops the lock around every
ISR body while other processors scan, create and delete. The state machine has one step per section
under the lock, and any number of processors. Its invariant gives, for every run: a scan calls no
registration twice, misses none that stays queued, and calls those created at its priority or later;
a deleted ISR never runs again; the waiting of `del_isr` only gets shorter; every block is exactly
one of queued, quiescing or free. The class `IsrManager` has the code's loops and is proved to take
exactly the machine's steps.

**Memory pool** (`Bytes`, `Memory`, `MemPool`). Memory is a map of bytes; headers and free-list
links are words of several bytes in it, and a link may be longer than the small block that holds it.
Blocks with headers and overlong links stay disjoint and inside the pool, so no write of the
allocator reaches a byte of a live block, another header or another link, and no write of a user
within its block reaches anything of the allocator. The guarded unsigned sums never wrap and never
refuse what fits.

**Barrier** (`Barrier`). `barrier_sync` is a machine with one step per access to the shared
variables. `SafeExactly` says when it is a barrier: for any number of processors from two on and any
master, no processor leaves before all have entered, in every reachable state, if and only if
adjacent phases differ and the first is not 0. For any other phases `Overtakes` leads a run to a
state in which a processor has left a barrier the master has not entered. The kernel's own phases
meet the condition.

**Kernel tables** (`KernelTables` and the modules that import it). One invariant, `Kernel.Inv`,
covers ready queues, wait queues, priority bit maps, `p_schedtsk`, mutex lists, current priorities
and the timers of waiting tasks. Scheduler, wait-state machine, priority-ceiling mutexes, `chg_pri`,
`chg_spr`, suspension, termination and migration of tasks are methods that keep it and state
their whole effect, including where in a queue a task goes. `KernelLaws` says what the invariant
means, in terms a caller can read: a task is linked exactly as `tstat` says, a time event is
registered exactly for a timed wait, `p_schedtsk` is the highest task, a priority is the minimum over everything held. `TaskState` relates
the bits of `tstat` to the states used here. `QueueRings` ties the queues to the rings of
`include/queue.h`, and `TimedWaits` ties the timers of waiting tasks to the time event heaps, clock
and hardware timers, from their initialisation on: the heap itself holds a task's event exactly
during a timed wait, also after a termination, `unl_mtx` or the reinitialisation of an object, which
may end many waits at once, and the wait never ends with a timeout before its time.

**Buffers with waiting tasks** (`Rings`, `Waiters`, `DataQueues`, `IndexList`, `PriDataQueues`,
`MemPfixes`, `Objects`).
A data queue - ring contents followed by the data of the waiting senders - refines one unbounded
FIFO; a priority data queue is a stable sorted list over an index-linked node array; a fixed-size
pool never hands out an allocated block and accepts exactly the addresses of allocated ones.
Receivers wait only at an empty queue, senders only at a full one, tasks only at a pool without free
blocks; `Objects.System` holds all objects at once and shows that terminations, timeouts, forced
releases, changes of priority, mutex calls and calls on other objects keep it so, have their outcome
and effect, and leave what the other objects hold.

**Serial driver** (`Serial`, `FlowControl`). For each direction the semaphore's count, the token of a task, a
signal to come and the full (or empty) buffer add up to one, however tasks and interrupt callbacks
interleave. So the buffers never overflow or underflow, no signal is lost, and characters go out
and come in in order. `FlowControl` says when START and STOP reach the other side in the order of
the decisions. They can overtake each other: `StopAfterStart` is a run in which STOP is refused,
START is taken at once and STOP follows, so that the other side stops although the driver believes
it running. `AgreesThroughout` and `AgreesExactly` give the exact conditions, for every run.

**S-record image** (`SRecords`). The dictionary of blocks is a byte map: writing is override for any
overlap and any order of the dictionary, reading succeeds exactly if every byte is defined, copying
is a move of the defined bytes, and a value is the number whose bytes are stored.

## How to read the contracts

Tasks, processors, objects and blocks are numbers; `NULL` is -1. `Q(queue, q)` is the task list of a
queue; `Queue` and `QueueRings` prove that the intrusive rings of `include/queue.h` implement such
lists.
Where a contract names the state after an operation by a function such as `OutOfWait`, the operation
also states it field by field; `KernelLaws` does the same for the places of tasks in queues.
`Linked(cb, queue, t0, place)` says that every task is in the queue its control block says, except
`t0`, which is in transit at `place`; a method that has taken a task out of one queue and not yet put
it into the next has such a task. `Wakes`, `Joins`, `Repositioned` and `Follows` say where a task has
gone. Ghost parameters and ghost fields record history and witnesses; no decision depends on them.

Where the documentation and the code could be read differently, the code is followed. Two places
deserve a note. `check_adjtim` looks only at the caller's own heap, so `AdjTim` asks that no event of
another processor becomes overdue by more than the margin. A second `free_mempool` of the same block
is outside its contract, as the comment in the source says.

## Model

| member | source | states |
|---|---|---|
| Queue.Initialize | include/queue.h:77-81 | The header describes the empty ring |
| Queue.InsertPrev | include/queue.h:90-96 | Inserting before the header or before any entry of a ring of any length makes the ring describe the sequence with the entry at exactly that place; only three nodes are written |
| Queue.InsertNext | include/queue.h:105-111 | The same for insertion behind a node |
| Queue.Delete | include/queue.h:119-123 | Deleting an entry makes the ring describe the sequence without it, and leaves the entry's own links as they were |
| Queue.DeleteNext | include/queue.h:134-143 | The first entry is returned and the ring describes the rest |
| Queue.Empty | include/queue.h:151-155 | True exactly for the empty ring |
| QueueRings.QueueRings.constructor | include/queue.h:77-81 | With every header initialised all rings describe the empty queues the kernel begins with |
| QueueRings.QueueRings.Unlink | include/queue.h:119-123 | With one ring per queue of the kernel, unlinking the task_queue of a task takes it out of the sequence its ring describes and disturbs no other ring |
| QueueRings.QueueRings.Link | include/queue.h:90-96 | Linking the task_queue of an unqueued task in before an entry, or before the header, puts it at that place of the sequence and disturbs no other ring |
| QueueRings.QueueRings.Unqueue | kernel/wait.c:80-88 | A task that leaves a wait queue of the kernel tables leaves its ring: the rings describe the queues again |
| QueueRings.QueueRings.InsertReady | kernel/task.c:282-287 | A task that joins its ready queue joins the ring of that queue at the same place |
| Queue.InsertSorted | kernel/wait.h:62-74 | The search loop of the priority-ordered queues keeps a sorted ring sorted and puts the new entry behind all of its own key |
| TimeEventHeap.RootIsLeast | kernel/time_event.c:104 | In heap order no node comes before the root |
| TimeEventHeap.HoleUp | kernel/time_event.c:184-210 | One step of the upward search keeps heap order around the hole and the bound on what is below it |
| TimeEventHeap.HoleDown | kernel/time_event.c:224-260 | One step of the downward search keeps heap order around the hole and the bound on what is above it |
| TimeEventHeap.HoleFilled | kernel/time_event.c:279-285 | Storing an event that fits both bounds restores heap order everywhere |
| TimeEventHeap.View.RootFirst | kernel/time_event.c:104 | The event at the root is registered and no registered event is earlier by EVTTIM_LE |
| TimeEventHeap.View.Punch | kernel/time_event.c:292-302 | Taking out any event and the last node leaves a heap with one hole; the last event is not earlier than the root |
| TimeEventHeap.View.Fill | kernel/time_event.c:279-285 | Storing an event that fits at the hole gives a heap of the old events and that one, all with right positions |
| TimeEventHeap.TmevtHeap.TmevtUp | kernel/time_event.c:184-210 | The upward search ends with a hole in a heap of the same events where the event fits; the root is not disturbed if it was not later |
| TimeEventHeap.TmevtHeap.EarlierChildOf | kernel/time_event.c:236-246 | The chosen child bounds everything below the hole, with one child or two |
| TimeEventHeap.TmevtHeap.TmevtDown | kernel/time_event.c:224-260 | The downward search ends with a hole where the event fits, and touches no node above where it began |
| TimeEventHeap.TmevtHeap.Insert | kernel/time_event.c:271-286 | The heap gains exactly the event, in heap order and with right positions; the root stays unless the event became the root |
| TimeEventHeap.TmevtHeap.Settle | kernel/time_event.c:314-341 | The former last event finds its place from any hole, up or down, and never displaces a root it did not replace |
| TimeEventHeap.TmevtHeap.Delete | kernel/time_event.c:292-342 | Deleting any event, also the last node, removes exactly it; the root is unchanged unless it was the root |
| TimeEventHeap.TmevtHeap.DeleteTop | kernel/time_event.c:348-376 | The returned event was the root, not later than any registered event, and exactly it is removed |
| TimeWindow.AdvanceIsDistance | kernel/time_event.c:106-113 | Within one cycle from the boundary the wrapped distance is the true one |
| TimeWindow.CompareAgrees | kernel/time_event.c:114-115 | For all events not overdue by the margin and not beyond the horizon (TMAX_RELTIM + TMAX_TSTEP + the lag) EVTTIM_LT and EVTTIM_LE agree with the order of unbounded times |
| TimeWindow.DueExactly | kernel/time_event.c:432-434 | The due test recognises a past event if and only if it is overdue by at most BOUNDARY_MARGIN |
| TimeWindow.OverdueByMore | kernel/time_event.c:432-434 | Concrete event overdue by one unit more than the margin that the test takes for a future one |
| TimeEventHeaps.Rebase | kernel/time_event.c:398-400 | Moving boundary_evttim with the current time never breaks heap order |
| TimeEventHeaps.OtherBlocks | kernel/time_event.c:183-376 | A heap is not disturbed by changes to time event blocks it does not hold |
| TimeEventHeaps.Heaps.Rebased | kernel/time_event.c:398-400 | The same for the heaps of all processors at once |
| TimeEventHeaps.Heaps.constructor | kernel/time_event.c:148-170 | The heaps begin empty and in order at any boundary, with room for every time event in each |
| TimeEventHeaps.Heaps.Insert | kernel/time_event.c:515-526 | Registering in one processor's heap keeps every heap in order and no event in two heaps |
| TimeEventHeaps.Heaps.Delete | kernel/time_event.c:617-631 | The same for unregistering |
| TimeEventHeaps.Heaps.DeleteTop | kernel/time_event.c:743 | The same for taking the root |
| ClockRuns.LagBounded | kernel/time_event.c:655-666 | In every run of updates, accepted adjustments and settings, 0 <= monotonic - current < 2,000,000 in unbounded time |
| ClockRuns.MonoIsGreatest | kernel/time_event.c:403-410 | monotonic_evttim is the greatest value the current time has had |
| ClockRuns.SystimExact | kernel/time_event.c:384-410 | Between settings the system time advances by exactly what the monotonic time does, and never goes back |
| ClockRuns.NowExact | kernel/time_event.c:384-398 | The current time follows the timer exactly, up to the sum of the accepted adjustments |
| ClockRuns.SystimFollowsTimer | kernel/time_manage.c:126-144 | With neither adjustment nor setting the system time is never ahead of the true advance and behind it by at most the lag at the start |
| ClockRuns.NeverEarly | kernel/time_event.c:574-607 | An event due after a relative time has waited at least that time on the timer, less what the clock was put forward |
| Clock.AdvanceIsTrue | kernel/time_event.c:389-395 | The advance computed from two readings is the true one, for a counter of any cycle up to 2^32 and any true advance below it |
| Clock.Carry | kernel/time_event.c:403-410 | Adding 2^32 to systim_offset exactly when the 32-bit monotonic time wraps keeps the 64-bit sum exact |
| Clock.Overtakes | kernel/time_event.c:402-403 | The 32-bit test for a new monotonic maximum decides as the unbounded times do |
| Clock.Clock.constructor | kernel/time_event.c:148-170 | All clock variables begin in agreement with the unbounded times |
| Clock.Clock.UpdateCurrentEvttim | kernel/time_event.c:384-410 | Event time advances by exactly the true advance, monotonic time becomes the maximum, system time advances by what monotonic time does |
| Clock.Clock.EvttimAfter | kernel/time_event.c:591-592 | The event time is the wrapped image of now + TSTEP + time |
| Clock.Clock.Lag | kernel/time_event.c:662 | The 32-bit difference is the unbounded lag |
| Clock.Clock.Adjust | kernel/time_manage.c:174-188 | An accepted adjustment moves event time by exactly it, possibly back, and the system time never back |
| Clock.Clock.SetTim | kernel/time_manage.c:98-116 | The system time is the given value from now on, whatever the monotonic time |
| Clock.Clock.GetTim | kernel/time_manage.c:126-144 | The result is the 64-bit image of the exact system time |
| TimeManager.FirstIsEarliest | kernel/time_event.c:104 | The first event by wrapped comparison is the earliest in unbounded time |
| TimeManager.TestsDecide | kernel/time_event.c:432-437 | For every event in the window the due test, the time left and the one-second test of check_adjtim agree with unbounded time |
| TimeManager.TimeManager.constructor | kernel/startup.c:228-247 | Nothing is registered, and every timer is set as the kernel starts, that of the time master to HRTCNT_BOUND |
| TimeManager.TimeManager.UpdateCurrentEvttim | kernel/time_event.c:384-410 | A clock update keeps all heaps in order and all set timers no later than their root events |
| TimeManager.TimeManager.RootIsEarliest | kernel/time_event.c:104 | In the manager's invariant the root is the earliest event in unbounded time |
| TimeManager.TimeManager.SetHrtEvent | kernel/time_event.c:421-481 | The timer is told the time left to the root, zero if it is due, HRTCNT_BOUND at most; with no event the master's timer gets HRTCNT_BOUND and others none |
| TimeManager.TimeManager.TimerRings | kernel/time_event.c:442-478 | Outside the handler the timer of the time master, and of any processor with a pending event, rings within HRTCNT_BOUND and no later than the root event; so an update soon after it is within one cycle of the counter |
| TimeManager.TimeManager.Register | kernel/time_event.c:515-526 | After registering, a timer may need setting only if the event became the root outside the handler |
| TimeManager.TimeManager.EnqueueReltim | kernel/time_event.c:574-607 | The event gets the time now + TSTEP + time and exactly it is registered; exactly the timer of its processor is set, and only if the event became the root outside the handler; the master's timer rings within HRTCNT_BOUND |
| TimeManager.TimeManager.Dequeue | kernel/time_event.c:617-646 | Cancelling any event removes exactly it; the clock moves and the processor's timer is set exactly if it was the root outside the handler, and no other timer changes; the master's timer rings within HRTCNT_BOUND |
| TimeManager.TimeManager.CheckAdjtim | kernel/time_event.c:656-666 | Refuses exactly if a forward adjustment finds an event of the heap overdue by a second, or a backward one a lag of a second |
| TimeManager.TimeManager.AdjTim | kernel/time_manage.c:154-202 | E_PAR exactly outside the limits, and then neither clock nor timers change; E_OBJ if and only if check_adjtim forbids it at the updated time; else the event time moves by exactly adjtim, the most advanced time never back, and exactly the timers outside the handler are set anew |
| TimeManager.TimeManager.SetAllHrtEvents | kernel/time_event.c:492-504 | Every timer outside its handler is set by the rule of set_hrt_event, and no other changes |
| TimeManager.TimeManager.FireRoot | kernel/time_event.c:741-744 | The event to call back is due, was the earliest, and exactly it is removed |
| TimeManager.TimeManager.Finish | kernel/time_event.c:750-767 | The handler ends only with nothing due, and with its timer, and no other, set by the rule of set_hrt_event: also with no event left, when the time master needs HRTCNT_BOUND |
| TimeManager.TimeManager.RunPass | kernel/time_event.c:725-767 | A pass either calls back a due event and sets no timer, or finds, at a freshly sampled time, that nothing is due and ends with the timer set |
| TimeManager.TimeManager.SignalEnter | kernel/time_event.c:709-735 | signal_time begins with a pass |
| TimeManager.TimeManager.SignalResume | kernel/time_event.c:741-750 | After a callback, during which anything may have happened, the next due event is called back at the same current time if there is one; else a new pass begins |
| IsrManager.SearchIsrQueue | kernel/interrupt.c:236-261 | The binary search finds the queue of an interrupt number if and only if the list has one |
| IsrProtocol.State.AvailableIsIdle | kernel/interrupt.c:579-583 | A block taken from the free list is in no queue and runs on no processor |
| IsrProtocol.State.EnqueuedKeeps | kernel/interrupt.c:203-219 | Queueing an available block anywhere in a run keeps the protocol invariant: queues ascending in (isrpri, isrseq), every block queued, quiescing or free, every scan's debts intact |
| IsrProtocol.State.AddedKeeps | kernel/interrupt.c:322-337 | Making one more block free keeps the invariant |
| IsrProtocol.State.NothingQueued | kernel/interrupt.c:291-296 | The state before the first static ISR is queued satisfies the invariant |
| IsrProtocol.State.NextContinues | kernel/interrupt.c:161-163 | The first entry after the (isrpri, isrseq) key continues the ascending list of what the scan has called, and nothing the scan owes is skipped |
| IsrProtocol.State.CallKeeps | kernel/interrupt.c:411-500 | Every section of call_isr, from body to body with the lock dropped between, keeps the invariant |
| IsrProtocol.State.ScanComplete | kernel/interrupt.c:411-500 | When no next ISR is found, everything owed and still queued has been called, each registration once |
| IsrProtocol.State.UnlinkedKeeps | kernel/interrupt.c:641-674 | Unlinking and marking TA_NOEXS keeps the invariant, and the block is in no queue afterwards |
| IsrProtocol.State.ReleasedKeeps | kernel/interrupt.c:713-723 | Freeing a quiescing block whose running mask is 0 keeps the invariant |
| IsrRuns.RunKeeps | kernel/interrupt.c:411-731 | The invariant holds in every state of every interleaving of scans on any number of processors with creation and deletion |
| IsrRuns.ExactlyOne | kernel/interrupt.c:613-731 | A dynamic block is exactly one of queued, quiescing or free, in no second queue, and free blocks have an empty running mask |
| IsrRuns.QuiesceShrinks | kernel/interrupt.c:676-719 | While del_isr waits, no step of any processor adds a bit to the running mask |
| IsrRuns.QuiesceShrinksAlong | kernel/interrupt.c:676-719 | The same over any stretch of a run: the wait only gets shorter |
| IsrRuns.DeletedNeverRuns | kernel/interrupt.c:679-683 | Once del_isr has returned E_OK the registration is in no queue and no body, then and for ever, even when its block is reused |
| IsrRuns.CallsAllQueued | kernel/interrupt.c:411-500 | One activation never calls a registration twice, even when slots are reused; it calls in the order of isrpri, and within one isrpri in that of registration; and it calls every one that is queued at its start and at its end |
| IsrRuns.CallsAllCreated | kernel/interrupt.c:161-163 | It also calls every ISR created during the scan at the current or a later isrpri that is still queued at its end |
| IsrManager.IsrManager.constructor | kernel/interrupt.c:277-339 | Initialisation establishes the invariant, queues the static ISRs stably by isrpri and frees the dynamic blocks in order |
| IsrManager.IsrManager.ScanNext | kernel/interrupt.c:443-462 | The loop finds the first entry after the key in queue order, or the first of all at the start |
| IsrManager.IsrManager.CallIsr | kernel/interrupt.c:411-500 | A section of call_isr takes exactly the step of the state machine and keeps its invariant |
| IsrManager.IsrManager.FirstAbove | kernel/interrupt.c:211-217 | The insertion loop stops before the first entry of a greater isrpri |
| IsrManager.IsrManager.EnqueueIsr | kernel/interrupt.c:203-219 | The block is queued behind everything of its isrpri under the next number; the state is exactly the machine's |
| IsrManager.IsrManager.AcreIsr | kernel/interrupt.c:562-588 | E_NOID exactly with an empty free list and then nothing changes; else the first free block is queued |
| IsrManager.IsrManager.DelIsr | kernel/interrupt.c:633-724 | E_NOEXS for a block already deleted, so a racing second call never unlinks twice; E_OBJ for a static one; else the block is unlinked and freed or waited for |
| IsrManager.IsrManager.Quiesce | kernel/interrupt.c:713-723 | The block is freed exactly when its running mask is found 0, else nothing changes |
| MemPool.MaskDown | kernel/startup.c:553-594 | The result is the greatest multiple of the alignment not above the address |
| MemPool.State.BlocksApart | kernel/startup.c:480-552 | All blocks, live or freed, with header, user area and the possibly longer free-list link, lie in the pool and are pairwise disjoint |
| Memory.LoadStored | kernel/startup.c:540-552 | A word stored as w bytes is loaded again as the same word |
| Memory.LoadElsewhere | kernel/startup.c:540-552 | A stored word changes no word with which it shares no byte |
| MemPool.State.LinkWritten | kernel/startup.c:757-758 | The w bytes of a link, even where it is longer than the block that holds it, change no header, no byte of a live block and nothing outside the pool |
| MemPool.State.LinkContents | kernel/startup.c:757-758 | Hence every byte of every live block survives the writing of any link |
| MemPool.State.TakenKeeps | kernel/startup.c:653-670 | Reusing any free block, whose link is taken out of the byte memory by rewriting the w bytes of the previous link, keeps the pool sound and every byte of every live block |
| MemPool.State.CutKeeps | kernel/startup.c:672-710 | Cutting a new block that ends within the limit, whose header is written as w bytes, keeps the pool sound and every byte of every live block, also where the link of the new block would run past it |
| MemPool.State.NextFits | kernel/startup.c:672-694 | The next block's address has the requested alignment and the word's; where the guarded sum would wrap, the block fits in no pool |
| MemPool.State.FreedKeeps | kernel/startup.c:726-767 | Freeing keeps the pool sound although the w bytes of the link are written over user data and, for a block shorter than a word, over the bytes behind it: no header, no other link and no byte of another live block changes, and nothing outside the pool |
| MemPool.State.WriteKeeps | kernel/startup.c:480-552 | A byte written within a live block is no byte of a header, of a link or of another block |
| MemPool.MemPool.Initialize | kernel/startup.c:554-594 | It succeeds exactly if the control block fits below the rounded-down end |
| MemPool.MemPool.SearchFree | kernel/startup.c:653-670 | The walk stops at the first free block of exactly the size with the alignment, or finds that there is none |
| MemPool.MemPool.Align | kernel/startup.c:672-694 | The guarded additions give the rounded address exactly if it is within the limit, and no sum exceeds the greatest uintptr_t |
| MemPool.MemPool.CutBlock | kernel/startup.c:672-710 | A block is cut exactly if its unbounded end is within the limit, no sum exceeds the greatest uintptr_t, and every byte of every live block stays |
| MemPool.MemPool.AllocMempool | kernel/startup.c:639-711 | All outcomes: first fit of the free list, else a cut block, else NULL exactly if it does not fit; the address is aligned, was not live, every byte of every live block stays, and no byte outside the pool is written |
| MemPool.MemPool.Reuse | kernel/startup.c:661-671 | The block found is unlinked in the bytes of memory, at the head of the list or within it |
| MemPool.MemPool.Release | kernel/startup.c:757-758 | The freed block is linked in at the head of the list, in the bytes of memory |
| MemPool.MemPool.FreeMempool | kernel/startup.c:725-767 | The block leaves the live set; with the last one the pool starts afresh; every byte of every other live block stays, and no byte outside the pool is written |
| MemPool.MemPool.UserWrite | kernel/startup.c:480-552 | A byte written by a user keeps the whole pool sound |
| Barrier.KernelPhasesDiffer | kernel/startup.c:171-358 | The phases with which the kernel calls barrier_sync, starting and ending, differ from their neighbours |
| Barrier.State.MovesKeep | kernel/startup.c:84-113 | Every access of any processor to the shared variables keeps the barrier invariant |
| Barrier.State.Synchronised | kernel/startup.c:84-113 | Whoever has left barrier k: all have entered it; none is more than one barrier ahead |
| Barrier.State.CountsAll | kernel/startup.c:96-105 | Once all have entered, a counting scan that begins ends with the release, never with a retry |
| Barrier.State.CountedIsInside | kernel/startup.c:99-104 | The non-atomic scan counts a processor only if it is in the master's own barrier, not a past or later one |
| Barrier.Barriers | kernel/startup.c:84-113 | For any number of processors, any phase sequence with adjacent phases distinct and any interleaving, nobody leaves a barrier before all have entered it, and nobody is two barriers ahead |
| Barrier.InStep | kernel/startup.c:84-113 | Whatever the phases, all processors can pass any number of barriers in step, one reachable run for each number |
| Barrier.Overtakes | kernel/startup.c:84-113 | For every phase sequence, every number of processors, every master and every other processor: at a phase equal to the one before it, or to the initial 0, that processor can leave a barrier which the master has not entered |
| Barrier.SafeExactly | kernel/startup.c:84-113 | The condition is exact: the barriers hold in every reachable state if and only if there is one processor or adjacent phases differ and the first is not 0 |
| Barrier.BarrierSync.constructor | kernel/startup.c:80-113 | Before the first barrier the invariant of the machine holds |
| Barrier.BarrierSync.EnterBarrier | kernel/startup.c:91-92 | Entering takes the step of the state machine |
| Barrier.BarrierSync.CountOne | kernel/startup.c:94-106 | A pass of the master's loops takes the machine's step; when it is done all processors had entered |
| Barrier.BarrierSync.Poll | kernel/startup.c:107-112 | A processor leaves exactly when the master has released its barrier |
| Bitmap.PrimapSet | kernel/task.c:178-181 | The bit is set and no other changes |
| Bitmap.PrimapClear | kernel/task.c:187-190 | The bit is cleared and no other changes |
| Bitmap.BitmapSearch | kernel/task.c:143-156 | The two halvings and the nibble table find the lowest bit set, for every 16-bit map that is not 0 |
| Bitmap.EmptyMap | kernel/task.h:339-343 | The map is 0 exactly if no bit is set |
| TaskState.MacrosAgree | kernel/task.h:114-135 | Every TSTAT macro, applied to the bits of a legal state, reads that state |
| TaskState.AssignmentsAgree | kernel/wait.h:84-135 | Every assignment to tstat in the kernel writes the bits of the state meant |
| TaskState.EncodeInjective | kernel/task.h:84-110 | The bits determine runnable, suspended and the wait factor |
| TaskQueues.DeletedLinked | include/queue.h:119-123 | Taking the task in transit out of its queue leaves all others exactly where they belong |
| TaskQueues.InsertedLinked | include/queue.h:90-96 | Putting it into the queue it belongs to makes every task linked exactly as its state says |
| TaskQueues.InsertedOrdered | kernel/task.c:229-263 | Insertion at a place that suits its key keeps every queue sorted |
| TaskQueues.SameKeyOrdered | kernel/task.h:176-263 | Rewriting a control block without changing its key disorders no queue |
| TaskQueues.WaitersShrink | kernel/wait.c:80-160 | If the place of every task is the old one or not at an object, the wait queues of that object only shrink |
| Scheduler.SubprioPlace | kernel/task.c:229-263 | The insertion loops find the place behind, or before, all tasks whose sub-priority, 0 for one with a ceiling mutex, is not above, or is below, that of the task |
| Scheduler.InsertReady | kernel/task.c:282-287 | The task goes into the ready queue of its processor and priority, at the place for its sub-priority |
| Scheduler.RunnableSettled | kernel/task.c:288-295 | After an insertion the one comparison made decides correctly which task is to run |
| Scheduler.MakeRunnable | kernel/task.c:276-296 | All queues, bit maps and p_schedtsk agree with their definition from scratch afterwards |
| Scheduler.HighestTask | kernel/task.c:198-205 | The searched task heads the highest-priority nonempty ready queue; NULL exactly if there is none |
| Scheduler.RemovedSettled | kernel/task.c:311-330 | After a removal p_schedtsk may stay, becomes the new head of the queue, or must be searched anew, as the code decides |
| Scheduler.MakeNonRunnable | kernel/task.c:310-330 | The task is out of its ready queue, and everything else agrees with its definition |
| Scheduler.LeaveLevel | kernel/task.c:392-402 | The first step of change_priority takes the task out of the queue of its old priority |
| Scheduler.SelfRises | kernel/task.c:421-425 | The scheduled task that rises stays the highest |
| Scheduler.ChangeRunnable | kernel/task.c:386-431 | The task stands in the queue of its new priority, before its equals in mutex mode and behind them otherwise; p_schedtsk and the bit map are right on every processor |
| Scheduler.TpriPlace | kernel/wait.h:62-74 | The loop of queue_insert_tpri finds the place behind all tasks of the same or a higher priority |
| Scheduler.WobjChangePriority | kernel/wait.h:235-241 | A task in a priority-ordered wait queue moves to the place its new priority says |
| Scheduler.ChangePriority | kernel/task.c:386-441 | All cases: runnable, waiting in a TA_TPRI queue, or neither; only the priority changes in the task, and every invariant of the queues is kept |
| Scheduler.ChangeSubprio | kernel/task.c:457-472 | The queue is sorted by current sub-priority again, the task behind its equals, and p_schedtsk is right |
| Scheduler.ReorderedSettled | kernel/task.c:458-497 | After a reordering within one queue, updating p_schedtsk only if that queue is the scheduled one is right |
| Scheduler.RotateReadyQueue | kernel/task.c:484-497 | The first of at least two tasks becomes the last; nothing else moves, and p_schedtsk is right |
| Scheduler.SetDspflg | kernel/task.h:398-414 | Enabling dispatching finds the highest task from scratch |
| Scheduler.ClearDspflg | kernel/sys_manage.c:600-609 | Disabling it keeps all invariants and leaves a task scheduled |
| KernelTables.Kernel.constructor | kernel/task.c:63-110 | Every task is dormant with its initial priority and processor, every mutex free and every queue empty, and every invariant holds |
| KernelLaws.LinkedAsStateSays | kernel/wait.h:83-159 | In every state between calls a task is in a queue exactly as tstat says, and in none twice |
| KernelLaws.TimedAsStateSays | kernel/wait.c:56-132 | Its time event is in the heap of its processor, and no other, exactly if it waits with a timeout; winfo.wercd never lies over a registered event |
| KernelLaws.ScheduledIsHighest | kernel/task.c:215-263 | While dispatching is enabled p_schedtsk is runnable on its processor and no runnable task there is before it in priority or, where that counts, in sub-priority, 0 for a task with a ceiling mutex |
| KernelLaws.ReadyInOrder | kernel/task.c:215-263 | A ready queue of a level with sub-priorities is in their order in every state, a task with a ceiling mutex counting as 0 |
| KernelLaws.NoneScheduled | kernel/task.c:276-330 | While dispatching is enabled p_schedtsk is NULL exactly if no task is runnable on the processor |
| KernelLaws.BitMapAgrees | kernel/task.c:178-190 | Bit r is set exactly if some task of the processor is runnable at priority r |
| KernelLaws.PriorityIsMinimum | kernel/mutex.c:178-380 | A task's priority is the minimum of its base priority and all ceilings held; boosted exactly with a ceiling held; no ceiling held or awaited is below the base priority |
| KernelLaws.ListsAgree | kernel/mutex.c:243-262 | The lists of locked mutexes are sound, disjoint and agree with p_loctsk; an awaited mutex is locked by another task; a dormant task holds none |
| KernelLaws.WaitersInOrder | kernel/wait.h:62-74 | TA_TPRI wait queues are in priority order in every state |
| KernelLaws.JoinsBehind | kernel/task.c:282-287 | A task that becomes runnable stands last in its ready queue or, with sub-priorities, behind exactly those not above its own; no other queue changes |
| KernelLaws.MovesAmongEquals | kernel/task.c:386-431 | A runnable task whose priority changes stands first in its new queue in mutex mode and last otherwise or, with sub-priorities, before or behind its equals |
| KernelLaws.FollowsFirst | kernel/mutex.c:271-309 | When its priority rises or falls with a mutex it stands before its new equals |
| KernelLaws.QueuedBehind | kernel/wait.h:62-74 | A task that begins to wait stands behind exactly those not of a lower priority with TA_TPRI, and last without |
| MutexProtocol.LowestIs | kernel/mutex.c:219-240 | The loop's result is a lower bound that is attained |
| MutexProtocol.LowestUnique | kernel/mutex.c:219-240 | Only the minimum has these properties |
| MutexProtocol.Locked | kernel/mutex.c:317-362 | Giving a free or floating mutex to a task keeps all lists and priorities right |
| MutexProtocol.ChainCut | kernel/mutex.c:248-262 | Cutting any mutex out of a list leaves a sound list of the others in order |
| Mutexes.MutexCheckCeilpri | kernel/mutex.c:178-209 | True exactly if no ceiling held or awaited is below the new base priority |
| Mutexes.MutexCalcPriority | kernel/mutex.c:220-240 | The minimum over everything held; boosted is set exactly if a ceiling is held |
| Mutexes.RemoveMutex | kernel/mutex.c:249-262 | Finds the mutex exactly if the task holds it, wherever it is in the list; one link is written, that of the task or of the mutex behind it, and the list leads around it |
| Mutexes.MutexRaisePriority | kernel/mutex.c:271-288 | The task gets the priority and is boosted; it moves, before its equals, exactly if its priority or the sub-priority it is scheduled by changes; every queue stays sorted |
| Mutexes.MutexAcquire | kernel/mutex.c:317-325 | The mutex heads the task's list, the priority follows the minimum rule, and the task's place follows its priority |
| Mutexes.MutexDropPriority | kernel/mutex.c:297-309 | The priority is the minimum over what is left, also when it did not need recomputing; the task moves, before its equals, exactly if its key changes |
| Mutexes.Recalculate | kernel/mutex.c:301-307 | The recalculation gives the minimum over what is left; the task moves, before its equals, exactly if its key changes |
| Mutexes.MutexRelease | kernel/mutex.c:335-362 | The first waiting task gets the mutex, its list and the priority it implies, and becomes runnable behind its equals, or stays suspended; without one the mutex is free and nothing else changes |
| Mutexes.Grant | kernel/mutex.c:340-356 | The handover: out of the wait queue and the heap, wait over with E_OK, still suspended if it was, mutex at the head of the new holder's list, priority by the minimum rule, ready queue joined unless suspended |
| Mutexes.MutexReleaseAll | kernel/mutex.c:372-380 | Every mutex the task held goes to the first task that waited for it, or is free; each of these tasks changes exactly by what it got and alone leaves its wait queue; no other task changes, and no other wait queue |
| MutexServices.LocMtx | kernel/mutex.c:541-714 | All outcomes of loc_mtx, ploc_mtx and tloc_mtx, which tests for a termination request even with TMO_POL: ceiling violation, own mutex, acquisition, polling failure, waiting behind all of its priority or last; no other mutex and no other wait queue changes, and the caller goes on running after an acquisition; a caller blocks only without a timeout or with a relative one |
| MutexServices.UnlMtx | kernel/mutex.c:724-767 | Only the mutex locked last can be unlocked; the caller's priority and place follow the rule for what is left, the mutex goes to the head of its wait queue, and no third task, no other mutex and no third list changes |
| MutexServices.IniMtx | kernel/mutex.c:777-822 | All waiting tasks are released with E_DLT; the holder loses the mutex and the priority it had from it, wherever it is, and moves, before its equals, exactly if its key changes; its list leads around the mutex, and no other list, mutex or task changes |
| MutexServices.TakeAway | kernel/mutex.c:798-801 | The mutex leaves the middle of its holder's list and is free |
| WaitState.MakeWait | kernel/wait.h:84-95 | The running or suspended caller leaves its ready queue; nothing else changes |
| WaitState.MakeWaitTmout | kernel/wait.c:57-70 | With a timeout its time event is registered at its processor, and only then |
| WaitState.WobjMakeWait | kernel/wait.c:186-206 | It is in the object's queue, at the end or behind all of its priority |
| WaitState.WaitDequeueWobj | kernel/wait.c:80-85 | A waiting task leaves exactly the queue it is in |
| WaitState.WaitDequeueTmevtb | kernel/wait.h:152-159 | Its time event leaves the heap if it is there |
| WaitState.SetWercd | kernel/wait.c:95-132 | Writing winfo.wercd requires, and so never overwrites, a time event out of the heap |
| WaitState.MakeNonWait | kernel/wait.h:116-135 | A waiting task becomes runnable, behind its equals in its ready queue, exactly if it is not suspended; else it stays suspended and moves nowhere |
| WaitState.WaitComplete | kernel/wait.c:95-100 | The wait ends with E_OK, its timer cancelled; other wait queues stay |
| WaitState.WaitTmout | kernel/wait.c:110-132 | The wait ends with E_TMOUT: the object's queue is left and the ready queue joined |
| WaitState.WaitTmoutOk | kernel/wait.c:139-160 | A delay ends with E_OK |
| WaitState.Expire | kernel/time_event.c:741-746 | The callback finds a task that waits with a timeout and ends exactly that wait, with E_OK for a delay and E_TMOUT else; it leaves its queue and joins its ready queue unless suspended |
| WaitState.InitWaitQueue | kernel/wait.c:216-226 | The drain loop releases every task waiting there with E_DLT, runnable or still suspended, and no other |
| TaskServices.SlpTsk | kernel/task_sync.c:125-209 | A queued wakeup is consumed; TMO_POL gives E_TMOUT at once; else, and only without a timeout or with a relative one, the caller sleeps, with its timer if any |
| TaskServices.DlyTsk | kernel/task_sync.c:525-559 | The caller is delayed, unless its termination is requested |
| TaskServices.WupTsk | kernel/task_sync.c:219-275 | Dormant: E_OBJ; asleep: woken with E_OK, into its ready queue exactly if not suspended; else the request is queued once, then E_QOVR |
| TaskServices.RelWai | kernel/task_sync.c:329-376 | E_OBJ unless waiting; else the wait ends with E_RLWAI: the task leaves whatever queue it is in and joins its ready queue exactly if not suspended |
| TaskServices.SusTsk | kernel/task_sync.c:391-456 | A runnable task leaves its ready queue, a waiting one stays linked; the four error cases change nothing |
| TaskServices.RsmTsk | kernel/task_sync.c:466-515 | A suspended task joins its ready queue behind its equals or goes on waiting |
| TaskServices.ChgPri | kernel/task_manage.c:671-730 | Refused exactly if a ceiling held or awaited is below the new base priority; a boosted task keeps its priority and place; any other goes behind its new equals, or to its new place in a TA_TPRI wait queue |
| TaskServices.SetBase | kernel/task_manage.c:709-714 | The accepted case: base priority, current priority and place |
| TaskServices.ChgSpr | kernel/task_manage.c:784-832 | The sub-priority is recorded and a runnable, unboosted task of such a level is re-sorted |
| TaskServices.ActTsk | kernel/task_manage.c:317-370 | A dormant task becomes runnable behind its equals; with TA_NOACTQUE or a queued request E_QOVR; else the request is queued |
| TaskServices.MactTsk | kernel/task_manage.c:380-445 | The same for a given processor: a dormant task starts there, and a queued request remembers it |
| TaskServices.MakeActive | kernel/task.c:360-366 | A dormant task becomes runnable |
| TaskServices.GiveUp | kernel/task.c:511-513 | Every mutex the task had goes to the first task waiting for it, which alone leaves its wait queue, or is free |
| TaskServices.Withdraw | kernel/task.c:511-520 | The terminating task gives up its mutexes and leaves every queue and heap; the wait queues lose it and the tasks that got a mutex, and keep their order |
| TaskServices.MakeDormant | kernel/task.c:340-350 | Base and current priority are the initial one again, and no wakeup, termination request or boost is left, which restores the rule for priorities |
| TaskServices.TaskTerminate | kernel/task.c:507-539 | Field by field: initial priorities, no mutex, no request left, dormant, or active anew on the processor of the queued request, except when the caller must migrate itself; its mutexes go to the first tasks waiting, no other task changes, and the wait queues lose only it and those |
| TaskServices.TerTsk | kernel/task_term.c:349-392 | E_OBJ for a task of another processor or a dormant one, and then nothing changes; else all tables are those after task_terminate: the control block of the task, those that got a mutex, all mutexes and all wait queues |
| TaskServices.RasTer | kernel/task_term.c:180-243 | A task that may be terminated is, with all that ter_tsk says; another is marked and roused from any wait and suspension, and nothing else changes: no mutex, no other task, no other queue |
| TaskServices.Rouse | kernel/task_term.c:217-226 | Whatever it waited for, the task leaves its queue and joins its ready queue, with E_RASTER in place of its time event |
| TaskServices.MigTsk | kernel/task_manage.c:497-599 | A runnable task leaves the ready queue of one processor and joins that of the other; the time event of a waiting one moves between their heaps |
| TaskServices.CarryOver | kernel/task_manage.c:565-592 | The time event of a waiting task goes to the heap of the new processor, and of no other task |
| MutexServices.UnlockSelf | kernel/mutex.c:746-750 | The first half of unl_mtx: the mutex leaves the caller's list, and priority and place follow |
| MutexServices.Restore | kernel/mutex.c:747-750 | After any mutex has left a task's list, from its head or its middle, the priority follows the rule, recomputed only where the code does so |
| Mutexes.ReleaseLast | kernel/mutex.c:376-379 | One round of the loop: the last mutex goes to the first task waiting for it |
| Mutexes.PopMutex | kernel/mutex.c:376-377 | The last mutex leaves the list, which stays sound |
| Mutexes.HandOver | kernel/mutex.c:351-359 | List and priority of the new holder, while it is in no queue |
| MutexServices.AcquireRunning | kernel/mutex.c:565-572 | The task that was to run still is after locking a free mutex, whatever its ceiling: no dispatching is needed, as the comment there claims |
| MutexServices.StaysFirst | kernel/mutex.c:565-572 | A task that rises in mutex mode from the head of the first nonempty ready queue is at the head of the first nonempty one again |
| Rings.RingEnqueued | kernel/dataqueue.c:196-204 | Writing at the tail, around the end of the array, appends to the ring's sequence; the tail stays head + count modulo the capacity |
| Rings.RingDequeued | kernel/dataqueue.c:237-245 | Advancing the head, around the end, removes the first item |
| Rings.RingForced | kernel/dataqueue.c:214-227 | Overwriting the head of a full ring drops exactly the oldest item |
| DataQueues.DataQueue.constructor | kernel/dataqueue.c:150-186 | A data queue begins empty |
| DataQueues.DataQueue.EnqueueData | kernel/dataqueue.c:196-204 | The ring gains the datum at its end |
| DataQueues.DataQueue.ForceEnqueueData | kernel/dataqueue.c:214-227 | The same, and a full ring loses exactly its oldest item |
| DataQueues.DataQueue.DequeueData | kernel/dataqueue.c:237-245 | The datum taken is the first of the ring, the rest stays in order |
| DataQueues.DataQueue.HandToReceiver | kernel/dataqueue.c:259-263 | The longest-waiting receiver gets the datum and its wait ends with E_OK |
| DataQueues.DataQueue.SendData | kernel/dataqueue.c:255-272 | The datum goes to the first receiver, or to the end of the FIFO, or nowhere exactly if the buffer is full with none waiting |
| DataQueues.DataQueue.ReleaseSender | kernel/dataqueue.c:319-323 | The longest-waiting sender's wait ends with E_OK and its datum is returned |
| DataQueues.DataQueue.AdmitSender | kernel/dataqueue.c:311-316 | Its datum goes to the end of the ring, which has room again |
| DataQueues.DataQueue.ReceiveData | kernel/dataqueue.c:304-328 | It succeeds exactly if the FIFO of ring contents and waiting senders' data is not empty, takes its first item, and lets the first sender's datum into the ring; also with capacity 0 |
| DataQueues.DataQueue.SndDtq | kernel/dataqueue.c:520-680 | All outcomes of snd_dtq, psnd_dtq, also outside a task, and tsnd_dtq, which tests for a termination request even with TMO_POL; waiting appends the datum to the unbounded FIFO, or puts the caller behind all of its priority; no other wait queue changes; a caller blocks only without a timeout or with a relative one |
| DataQueues.DataQueue.WaitToSend | kernel/dataqueue.c:551-554 | The caller leaves its datum and waits: last, or at the place of its priority |
| DataQueues.DataQueue.FsndDtq | kernel/dataqueue.c:690-740 | E_ILUSE exactly without capacity; else the datum is handed over or appended, dropping exactly the oldest item from a full ring |
| DataQueues.DataQueue.RcvDtq | kernel/dataqueue.c:750-911 | All outcomes of rcv_dtq, prcv_dtq and trcv_dtq, also with TMO_POL; receivers wait only at an empty FIFO; no other wait queue changes; a caller blocks only without a timeout or with a relative one |
| DataQueues.DataQueue.WaitToReceive | kernel/dataqueue.c:781-783 | The caller waits at the empty queue, behind all others |
| DataQueues.DataQueue.IniDtq | kernel/dataqueue.c:921-960 | Buffer and both wait queues are emptied, the tasks released with E_DLT |
| DataQueues.PendingFirst | kernel/dataqueue.c:311-313 | Taking the first waiting sender takes the first pending datum |
| IndexList.PathInserted | kernel/pridataq.c:206-216 | Linking a node in before any position of an index list gives the list with it at that position |
| PriDataQueues.StableInsertion | kernel/pridataq.c:206-216 | Stable insertion keeps the list ordered by data priority, gains exactly the item, and is a FIFO for every single priority |
| PriDataQueues.InsertedInOrder | kernel/pridataq.c:206-216 | An ordered list stays ordered |
| PriDataQueues.InsertedLast | kernel/pridataq.c:206-216 | Among its priority the new item is last, and no other priority is affected |
| PriDataQueues.InsertStableAt | kernel/pridataq.c:206-212 | The position the loop stops at is the stable one |
| PriDataQueues.PriDataQueue.constructor | kernel/pridataq.c:143-180 | A queue begins empty, with no node used |
| PriDataQueues.PriDataQueue.TakeNode | kernel/pridataq.c:193-205 | The node is in the array, in neither list, whether from the free list or never used |
| PriDataQueues.PriDataQueue.LinkIn | kernel/pridataq.c:213-216 | Writing through the pointer to the previous link puts the node at its place, at the head or later |
| PriDataQueues.PriDataQueue.PridataPlace | kernel/pridataq.c:206-212 | The search stops at the first node of a lower priority, which is the stable place, and knows the node before it |
| PriDataQueues.PriDataQueue.EnqueuePridata | kernel/pridataq.c:190-217 | The contents become the stable insertion of the item; used nodes, free nodes and the never-used tail still partition the array |
| PriDataQueues.PriDataQueue.DequeuePridata | kernel/pridataq.c:227-240 | The first item is taken and its node freed |
| PriDataQueues.PriDataQueue.CountIsSize | kernel/pridataq.c:186-240 | The count is the number of items, at most the capacity |
| PriDataQueues.PdqObject.SendPridata | kernel/pridataq.c:250-268 | The item goes to the first receiver or to its stable place; refused exactly if full with none waiting |
| PriDataQueues.PdqObject.ReceivePridata | kernel/pridataq.c:278-305 | The first item in priority order; then the first sender's item takes its stable place; without capacity the sender hands over |
| PriDataQueues.PdqObject.SndPdq | kernel/pridataq.c:493-681 | All outcomes of snd_pdq, psnd_pdq, also outside a task, and tsnd_pdq in the order of the tests: E_PAR above maxdpri, E_RASTER, handed over, stored at its stable place, E_TMOUT, or waiting with the item left behind; a caller blocks only without a timeout or with a relative one |
| PriDataQueues.PdqObject.WaitToSend | kernel/pridataq.c:533-537 | The caller leaves its item and waits: last, or at the place of its priority |
| PriDataQueues.PdqObject.RcvPdq | kernel/pridataq.c:689-853 | All outcomes of rcv_pdq, prcv_pdq and trcv_pdq; receivers wait only at an empty queue with no sender, in the order of their calls; a caller blocks only without a timeout or with a relative one |
| PriDataQueues.PdqObject.WaitToReceive | kernel/pridataq.c:720-722 | The caller waits at the empty queue, behind all others |
| PriDataQueues.PdqObject.IniPdq | kernel/pridataq.c:862-901 | Queue and both wait queues are emptied; exactly the tasks waiting here are released with E_DLT |
| MemPfixes.OffsetExact | kernel/mempfix.c:602-607 | The wrapping, truncated tests of an address pass exactly for the start of a block below `unused` |
| MemPfixes.MemPfix.constructor | kernel/mempfix.c:127-162 | A pool begins with all blocks free, of the given size and place |
| MemPfixes.MemPfix.BlocksApart | kernel/mempfix.c:172-188 | Different blocks do not overlap and lie within the pool |
| MemPfixes.MemPfix.GetMpfBlock | kernel/mempfix.c:172-188 | The block handed out was not allocated and is within the pool; no other changes, and the count of free blocks stays the free list's length plus the blocks never used |
| MemPfixes.MemPfix.GetMpf | kernel/mempfix.c:421-558 | All outcomes of get_mpf, pget_mpf and tget_mpf, also with TMO_POL; a task waits only if no block is free; no other wait queue changes; a caller blocks only without a timeout or with a relative one |
| MemPfixes.MemPfix.RelMpf | kernel/mempfix.c:568-636 | It accepts exactly the start addresses of allocated blocks; the block goes to the first waiting task, still allocated, or is free |
| MemPfixes.MemPfix.PutBack | kernel/mempfix.c:622-627 | The block alone becomes free |
| MemPfixes.MemPfix.IniMpf | kernel/mempfix.c:646-684 | All blocks are free and exactly the tasks waiting here are released with E_DLT |
| Waiters.FewerRest | kernel/wait.c:80-160 | An object at which receivers wait only if it is empty and senders only if it is full stays so when only tasks that waited there before still do |
| Objects.AllShrink | kernel/wait.c:80-160 | A call that makes no task wait at an object can only shorten the wait queues of all objects |
| Objects.System.StaySound | kernel/wait.c:80-160 | Then every data queue, priority data queue and memory pool of the system stays sound |
| Objects.System.TerTsk | kernel/task_term.c:349-392 | The outcome and the whole effect of ter_tsk, and every object of the system stays sound: the wait queues lose exactly the terminated task, in their order |
| Objects.System.RasTer | kernel/task_term.c:180-243 | The same for ras_ter, for a task that ends at once or is roused to end itself |
| Objects.System.Expire | kernel/wait.c:110-132 | A timeout ends exactly the wait of its task; the object waited at is sound without the task, and no other is touched |
| Objects.System.RelWai | kernel/task_sync.c:329-376 | The outcome and effect of rel_wai; the object waited at is sound without the task |
| Objects.System.ChgPri | kernel/task_manage.c:671-730 | The outcome of chg_pri and the new priorities of the task; every object stays sound when a waiting sender changes its place |
| Objects.System.LocMtx | kernel/mutex.c:541-714 | The outcome and effect of loc_mtx on the task, the mutex and its wait queue; every object stays sound |
| Objects.System.UnlMtx | kernel/mutex.c:724-768 | The outcome and whole effect of unl_mtx; every object stays sound |
| Objects.System.IniMtx | kernel/mutex.c:777-822 | The whole effect of ini_mtx; every object stays sound |
| Objects.System.SndDtq | kernel/dataqueue.c:520-680 | The outcome of a send and what it does to the FIFO, the waiting tasks and the task released or blocked; all objects stay sound, no wait queue of another object changes, and no other data queue gains or loses a datum |
| Objects.System.FsndDtq | kernel/dataqueue.c:690-740 | The same for a forced send |
| Objects.System.RcvDtq | kernel/dataqueue.c:750-911 | The same for receiving |
| Objects.System.IniDtq | kernel/dataqueue.c:921-960 | The same for reinitialising a data queue |
| Objects.System.SndPdq | kernel/pridataq.c:493-681 | The outcome of a send and what it does to the sorted contents, the waiting tasks and the task released or blocked; all objects stay sound, and no other queue gains or loses an item |
| Objects.System.RcvPdq | kernel/pridataq.c:689-853 | The same for receiving from one |
| Objects.System.IniPdq | kernel/pridataq.c:862-901 | The same for reinitialising one |
| Objects.System.GetMpf | kernel/mempfix.c:421-558 | The outcome and which block is allocated, or that the caller waits at its place; all objects stay sound and no wait queue of another object changes |
| Objects.System.RelMpf | kernel/mempfix.c:568-636 | The outcome, and that exactly the block returned is free or goes to the first waiting task; the same of all other objects |
| Objects.System.IniMpf | kernel/mempfix.c:646-684 | All blocks of the pool are free and exactly its waiting tasks released; the same of all other objects |
| TimedWaits.Initialize | kernel/startup.c:201-202 | Clock, heaps, timers and kernel tables as they are initialised agree, so every property of the joined system has a beginning |
| TimedWaits.TimedKernel.HeapIsTimer | kernel/wait.c:56-72 | The heap that serves a processor holds the time event of a task exactly if the kernel has it registered there |
| TimedWaits.TimedKernel.Register | kernel/time_event.c:574-607 | The time event of a task that has begun to wait gets the time now + TSTEP + time and goes into the heap that serves its processor; heaps, timers and kernel tables agree again |
| TimedWaits.TimedKernel.Cancel | kernel/time_event.c:617-646 | That of a task whose wait has ended leaves the heap; heaps, timers and kernel tables agree again |
| TimedWaits.TimedKernel.TslpTsk | kernel/task_sync.c:165-209 | All outcomes of a sleep; the control block and the ready queue of the caller; its time event is in the heap of its server, and in no other, exactly if it waits with a timeout, due at now + TSTEP + time; otherwise neither clock nor heaps change |
| TimedWaits.TimedKernel.DlyTsk | kernel/task_sync.c:525-559 | The same for a delay |
| TimedWaits.TimedKernel.TlocMtx | kernel/mutex.c:657-714 | The same for waiting for a mutex, in the wait queue behind all of its priority or last |
| TimedWaits.TimedKernel.RelWai | kernel/task_sync.c:329-376 | The outcome and effect of rel_wai; the task has no event in any heap afterwards, and every timer is still set no later than its root |
| TimedWaits.TimedKernel.WupTsk | kernel/task_sync.c:219-275 | The outcome and effect of wup_tsk; a task woken from a sleep has no event in any heap afterwards |
| TimedWaits.TimedKernel.CancelAll | kernel/wait.c:216-226 | After a call that has ended any number of waits, cancelling the events of the tasks concerned one by one, at samples of the timer that do not go back, makes heaps, timers and tables agree again |
| TimedWaits.TimedKernel.TerTsk | kernel/task_term.c:349-392 | The whole effect of ter_tsk; the events of the task and of those that get a mutex from it leave the heaps |
| TimedWaits.TimedKernel.RasTer | kernel/task_term.c:180-243 | The same for ras_ter |
| TimedWaits.TimedKernel.UnlMtx | kernel/mutex.c:724-768 | The whole effect of unl_mtx; the event of the task that gets the mutex leaves its heap |
| TimedWaits.TimedKernel.IniMtx | kernel/mutex.c:777-822 | The whole effect of ini_mtx; the events of all tasks that waited for the mutex leave the heaps |
| TimedWaits.TimedKernel.IniDtq | kernel/dataqueue.c:921-960 | The same for a data queue, for senders and receivers |
| TimedWaits.TimedKernel.IniPdq | kernel/pridataq.c:862-901 | The same for a priority data queue |
| TimedWaits.TimedKernel.IniMpf | kernel/mempfix.c:646-684 | The same for a memory pool |
| TimedWaits.TimedKernel.Fire | kernel/time_event.c:741-751 | The event taken out of the heap is due; if it is that of a task, exactly its wait ends, with E_TMOUT or, for a delay, E_OK, and never before its time |
| FlowControl.AgreesExactly | syssvc/serial.c:419-425 | After any run of decisions and callbacks the last START or STOP given or kept agrees with rcv_stopped if and only if the decisions that overtook the one before, since the last that did not, are even in number |
| FlowControl.AgreesThroughout | syssvc/serial.c:680-687 | It agrees in every state of a run if and only if the device never takes the character of a decision while one is kept |
| FlowControl.LastGiven | syssvc/serial.c:560-568 | With none kept, the last character the device took is STOP exactly while rcv_stopped, if and only if that number is even |
| FlowControl.StopAfterStart | syssvc/serial.c:560-568 | The run in which it fails: STOP refused, START taken at once, STOP given by the callback |
| Serial.SerialPort.FlowLaw | syssvc/serial.c:560-568 | In every state of a port, however its tasks and callbacks interleave, the flow control agrees with the driver's decision if and only if that number is even |
| Serial.SerialPort.SendFlowControl | syssvc/serial.c:419-425 | START or STOP is a step of the flow control: given at once, or kept in place of what was kept |
| Serial.StopAfterStart | syssvc/serial.c:402-433 | That run on a port with a buffer of four: the other side has got START and then STOP, and the driver believes it running |
| Serial.SerialPort.TokenLaws | syssvc/serial.c:306-493 | In every state at most one task per direction has a token; for it the buffer has room, or data; signals find the semaphore at 0; and if nobody can send the buffer is full and the device will call back |
| Serial.SerialPort.constructor | syssvc/serial.c:173-226 | The invariant holds for empty buffers and semaphores at 1 and 0 |
| Serial.SerialPort.WriChr | syssvc/serial.c:307-351 | With a token there is room; exactly the character is accepted, in order, to the device or the buffer; the token is given up exactly if the buffer becomes full |
| Serial.SerialPort.RemoveSnd | syssvc/serial.c:590-597 | Characters given to the device followed by the buffer are the same before and after |
| Serial.SerialPort.SioIrdySnd | syssvc/serial.c:554-612 | The callback sends the flow-control character kept, or else the first buffered one; a signal is due exactly if the buffer was full; it is disabled exactly if nothing is to be sent |
| Serial.SerialPort.SignalSnd | syssvc/serial.c:607-611 | sig_sem from the callback never finds the semaphore at its maximum |
| Serial.SerialPort.SignalRcv | syssvc/serial.c:696-700 | The same on the receive side |
| Serial.SerialPort.Resume | syssvc/serial.c:635-654 | On START characters are sent in order until the device refuses one, and as many as the device is willing to take; a signal is due exactly if the buffer was full and no longer is |
| Serial.SerialPort.SioIrdyRcv | syssvc/serial.c:618-701 | STOP, START, a stored character or one dropped at a full buffer; data to be sent are untouched; the other side is stopped exactly by a character stored at three quarters |
| Serial.SerialPort.Receive | syssvc/serial.c:665-687 | A stored character is signalled exactly if the buffer was empty; at three quarters, and only then, the flow control decides to stop the other side |
| Serial.SerialPort.ReaChr | syssvc/serial.c:402-433 | With a token there is data; the first stored character is delivered, the token is given up exactly if the buffer becomes empty, and the flow control decides to restart a stopped other side exactly at half |
| Serial.SerialPort.TakeRcv | syssvc/serial.c:409-415 | What is delivered followed by the buffer is what was stored |
| Serial.SerialPort.AcquireSnd | syssvc/serial.c:381-384 | One of the semaphore's count becomes the writer's token |
| Serial.ExpandAdds | syssvc/serial.c:312-326 | What is written is the data with exactly one CR added before each LF, and without IOCTL_CRLF just the data |
| Serial.SerialPort.WriteOne | syssvc/serial.c:312-326 | The next character of the caller's data, a CR before each LF, is accepted |
| Serial.SerialPort.WriDatStep | syssvc/serial.c:379-388 | A step without a token takes it from the semaphore and nothing else; one with a token writes the next character and loses the token exactly if the buffer becomes full; when the loop ends exactly the expanded data have been put |
| Serial.SerialPort.FinishWriting | syssvc/serial.c:389-392 | A token left goes back to the semaphore |
| Serial.SerialPort.ReadOne | syssvc/serial.c:468-471 | The character delivered is appended to what the task has read |
| Serial.SerialPort.ReaDatStep | syssvc/serial.c:462-485 | A step without a token takes it from the semaphore and nothing else; one with a token reads the next character and loses the token exactly if the buffer becomes empty; the loop ends exactly with the requested length read |
| Serial.SerialPort.FinishReading | syssvc/serial.c:486-489 | A token left goes back to the semaphore |
| SRecords.ReadIn | cfg_py/srecord.py:138-145 | An address is in at most one block, so the image is a byte map |
| SRecords.PassedOver | cfg_py/srecord.py:151-157 | The loop's test, made against the growing run, passes over exactly the blocks that do not touch the new data |
| SRecords.MergedBehind | cfg_py/srecord.py:158-163 | Merging a block that begins inside the run keeps what the run stands for |
| SRecords.MergedBefore | cfg_py/srecord.py:164-170 | Merging a block that begins before it does too |
| SRecords.MergedAll | cfg_py/srecord.py:171-173 | After the loop the replacement is the override, and all blocks are maximal again |
| SRecords.OneBlock | cfg_py/srecord.py:138-145 | A nonempty range whose every byte is defined lies within one block |
| SRecords.PiecesAll | cfg_py/srecord.py:176-188 | The pieces collected are exactly the defined bytes of the source range, moved |
| SRecords.BigFirst | cfg_py/srecord.py:198-208 | The first byte of the hexadecimal digits is the most significant one |
| SRecords.StoredBig | cfg_py/srecord.py:198-208 | Laying out the value of some bytes gives back the bytes |
| SRecords.StoredWraps | cfg_py/srecord.py:209-211 | Subtracting 256^n for a negative number does not change its n bytes |
| SRecords.StoredInjective | cfg_py/srecord.py:194-212 | Within the range of the type the bytes determine the number |
| SRecords.SignBit | cfg_py/srecord.py:210 | The test of bit 8n-1 is the test for the upper half of the range |
| SRecords.SwapOrder | cfg_py/srecord.py:198-206 | Taking pairs of digits from the end reverses the bytes |
| SRecords.SRecord.constructor | cfg_py/srecord.py:58-86 | With adjacent lines gathered before writing, every address holds what the last line covering it says |
| SRecords.SRecord.GetData | cfg_py/srecord.py:138-145 | A nonempty range is found if and only if its every byte is defined, and the result is those bytes |
| SRecords.SRecord.SetData | cfg_py/srecord.py:148-173 | For any overlap with any blocks and any dictionary order, writing is override of the byte map, and blocks stay disjoint, nonadjacent and nonempty |
| SRecords.SRecord.CopyData | cfg_py/srecord.py:176-191 | The defined source bytes move to the target as they were before the call, also when the ranges overlap; everything else stays |
| SRecords.SRecord.CollectPieces | cfg_py/srecord.py:176-188 | The copy list is an image of the defined source bytes at their new places |
| SRecords.SRecord.GetValue | cfg_py/srecord.py:194-212 | A value exactly if every byte is defined; its two's-complement bytes are those stored, in the order the endianness says, and it is in the signed or unsigned range |

## Left out

- `IsrManager.IsrManager.EnqueueIsr`: does not model the wrap of `isrseq` after 2^32 registrations of one interrupt number; its precondition excludes it, since the (isrpri, isrseq) order is lost there.
- `TimeManager.TimeManager.UpdateCurrentEvttim`: assumes that no event is overdue by more than BOUNDARY_MARGIN, and that the counter advances by less than a cycle between two updates, which HRTCNT_BOUND is for.
- `TimeManager.TimeManager.SetHrtEvent`: the timers of other processors are set directly; the request interrupt for targets that cannot do so, and the 64-bit counter, are not modelled.
- `TaskServices.MigTsk`: a task that migrates itself is not modelled, because it is briefly runnable but in no queue in architecture code; the time event of another task moves as membership of the two heaps.
- `TaskServices.TaskTerminate`: the case in which the caller restarts on another processor ends before the other processor activates it.
- `Serial.SerialPort.WriDatStep`: does not model a change of IOCTL_CRLF during a write, nor the error returns of the semaphore calls; kernel waits are not released by force.
- `Serial.SerialPort.ReaDatStep`: the echo of a character is an ordinary write by one more writer.
- `Serial.SerialPort.constructor`: the start values of the semaphores, 1 and 0, and their maximum 1 are assumptions, since they are in configuration files.
- `MemPool.MemPool.AllocMempool`: masking with a power of two is written as a remainder; the width of `count` is not modelled.
- `MemPool.MemPool.FreeMempool`: a block that is not in use is excluded, as its contract in the source does.
- `KernelTables.Kernel.constructor`: activation of the tasks with TA_ACT follows as calls of `MakeActive`.
- `SRecords.SRecord.constructor`: the lines are given as parsed records; the textual formats, files and odd numbers of hexadecimal digits are not modelled.
- `SRecords.SRecord.GetValue`: sizes are at least 1; for size 0 the program fails on an empty number.
- Serial ports: closing and reopening, `serial_get_chr`, which takes characters without the token, and error flags.
- `QueueRings.QueueRings.InsertReady`: the two ways a queue changes, `Unlink` and `Link`, are tied to the rings for a task that leaves a wait queue or joins a ready queue; the other places in the kernel are the same two steps on sequences and are not repeated with rings.
- `TimedWaits.TimedKernel.CancelAll`: the events are cancelled in the order of task numbers after the tables have changed, where the source cancels each at its turn within one section under the lock; which processor's timer is read for each is the caller's choice.
- `TimedWaits.TimedKernel.Register`: sleeping, delaying and waiting for a mutex are joined with the heaps; waiting at a data queue, a priority data queue or a pool with a timeout is the same two halves and is not repeated. Node arrays have room for every time event, as the configurator sizes them.
- `Objects.System.LocMtx`: of the calls on tasks, those that can neither wait at an object nor leave or reorder its queues - sleeping, delaying, waking from sleep, suspending, resuming, activating, migrating, `chg_spr` - are not repeated for the `System`; `CallKeeps` is the step for them too.
- Dispatch requests to other processors.
- The lists of ISRs are sequences, not rings. Running processors of an ISR are a set, not a bit mask.
- Plain `tmevtb_enqueue`, which arms the timer without updating the current time first.
- Service-call entry checks (E_CTX of the caller, E_ID, TA_NOEXS of the object), creation and deletion of objects, reference calls, logging.
- Semaphores, event flags, alarms, cyclic handlers and notification: simpler users of the same wait queues and time events.
- Dispatcher, context switching, interrupt entry, inter-processor interrupts, memory barriers and timer registers.
- The configurator's parsing and text generation, and the Ruby originals of the Python programs.
