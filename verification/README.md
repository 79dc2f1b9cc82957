# RT-Thread kernel and build tools: a verified model

This Dafny project models five parts of an RT-Thread 4.0.2 kernel and its build tools, and proves
what they keep over whole runs: the uniprocessor scheduler and the blocking objects (mailbox,
message queue, event, mutex), the hard timers, the three heap allocators, the Kconfig value engine,
and the ROM file system writer.

`dafny verify dfyconfig.toml` checks everything.

## How the model is built

- **State machines.** Each interrupt-disabled region of the C code is one step. Between the steps
  other threads and interrupts run: a state records which calls are between two regions, and the
  theorems quantify over every sequence of enabled steps. Regions that the code leaves unlocked are
  apart: the copies of the message queue, the re-tests after `rt_schedule`, the parts of
  `rt_timer_start` and `rt_timer_stop` (`TimerQueue`), and those of `rt_thread_resume` and
  `rt_thread_suspend` (`ResumeGap`).
- **Two layers.** A specification module holds the state as values, with a function for each
  operation. A class holds the fields of the source (ring buffers, `next` pointers, header chains,
  bitmap words, skip-list rows, caches) and its methods run the source's steps. Their `ensures`
  say that the abstract state after the call is the specification function of the one before. What
  the source promises is proved about the specification, and so holds of the class.
- **Bytes.** The three heaps also hold their memory as bytes. Headers, links and tables are written
  there as well, and the methods prove which bytes of live blocks stay.
- **Arithmetic.** 32-bit wrap-around is written out wherever it matters: ticks, `RT_ALIGN`, memheap's
  room test, slab's page count. The mutex counter wraps at 256.

| modules | source |
|---|---|
| `Scheduler`, `RoundRobin`, `TimeSlices`, `ResumeGap`, `ReadyTable`, `FirstBit`, `Words` | src/scheduler.c, src/thread.c, src/clock.c, src/kservice.c |
| `IpcList`, `Mailbox`, `MailboxCalls`, `MailboxRing`, `MessageQueue`, `MessageCalls`, `MessagePool`, `EventFlags`, `EventCalls`, `MutexModel` | src/ipc.c |
| `TimerQueue`, `TimerFlags`, `TimerSettings`, `TimerRows` | src/timer.c, src/clock.c |
| `MemModel`, `MemProperties`, `MemPlacement`, `MemHeap` | src/mem.c |
| `MemheapModel`, `MemheapProperties`, `MemheapPlacement`, `MemheapRings`, `MemheapBytes`, `MemheapObject` | src/memheap.c |
| `PageModel`, `PageLinks`, `PageHeap`, `Slab*` | src/slab.c |
| `Kconfig*`, `Loop*`, `ExprText` | tools/kconfiglib.py |
| `Romfs` | tools/mkromfs.py |
| `Options`, `Lists`, `Bytes`, `Blocks`, `BlockLinks`, `MapSum` | shared |

## Model

| member | source | states |
|---|---|---|
| IpcList.EnqueueStable | src/ipc.c:79-122 | the priority list stays sorted, the newcomer goes behind its equals and the others keep their order |
| IpcList.ListSuspend | src/ipc.c:79-122 | the loop over the list inserts at the place the specification gives, first-in-first-out or by priority |
| IpcList.EnqueueInTurn | src/ipc.c:79-122 | a suspend list in which everybody stands in turn, by the time of going to sleep and in a priority list by urgency first, stays so when a thread joins it |
| Mailbox.EventSafe | src/ipc.c:1441-1560 | every atomic region of send, receive, timeout and reset keeps the invariant: capacity, waiting lists that agree with thread states, as many woken threads as there is mail or room nobody sleeps for |
| Mailbox.RunSafe | src/ipc.c:1441-1713 | in every interleaving the mails that have left, each marked as delivered or as thrown away by a reset, followed by those queued are exactly the accepted ones, in order, and nothing exceeds the capacity |
| Mailbox.NoWakeupIsLost | src/ipc.c:1589-1713 | if receivers sleep, no more mail is queued than receivers have been woken for; if senders sleep, no more room is free than senders have been woken for; without a reset every mail that has left was delivered |
| MailboxRing.Box.PutMail | src/ipc.c:1534-1541 | storing at in_offset and wrapping it appends to the queue and keeps in_offset == (out_offset + entry) % size |
| MailboxRing.Box.TakeMail | src/ipc.c:1682-1690 | reading at out_offset and wrapping it removes the oldest mail and keeps the same relation of the offsets |
| MailboxRing.Box.SendWait | src/ipc.c:1441-1560 | the ring buffer refines the bounded queue up to the first return or suspension of a send, with its error codes |
| MailboxRing.Box.ResumeSend | src/ipc.c:1497-1545 | a sender that runs again re-tests and refines the queue step |
| MailboxRing.Box.Receive | src/ipc.c:1589-1713 | the same for a receive, which takes the oldest mail |
| MailboxRing.Box.ResumeRecv | src/ipc.c:1615-1713 | a receiver that runs again re-tests and refines the queue step |
| MailboxRing.Box.ResetBox | src/ipc.c:1725-1754 | a reset empties the ring and fails every waiting thread |
| MailboxCalls.AcceptedIsSent | src/ipc.c:1441-1560 | in every run the mails that have left and those queued are the mails that the calls of rt_mb_send_wait passed, in the order in which the calls found room, slept through or not; every thread in a call still has the mail and timeout it was called with |
| MailboxCalls.ServedInTurn | src/ipc.c:1441-1754 | in every run exactly those sleep who found no room or no mail and were neither served nor failed since; each mail wakes one receiver, each piece of room one sender, the one whose turn it is |
| MailboxCalls.InCall | src/ipc.c:1441-1713 | a thread is in a call from going to sleep until it has run again and returns |
| MessageQueue.EventSafe | src/ipc.c:1963-2266 | send, urgent and receive, split at their unlocked copies: every step keeps free, queued and in-flight nodes a partition of the pool |
| MessageQueue.EventLinearizes | src/ipc.c:1994-2122 | each step acts on the queue of messages as one append, one prepend, one removal of the front, or not at all |
| MessageQueue.DeliversTheFront | src/ipc.c:2220-2265 | what a receiver copies out without a lock begins with the message that was in front when it claimed its node; it is that message exactly if the bytes copied are as many as were sent |
| MessageQueue.LeftoverReceived | src/ipc.c:2252-2253 | a run in which a receiver gets a short message followed by the rest of an earlier one |
| MessageQueue.RunSafe | src/ipc.c:1963-2318 | the partition, the payloads and the waiting list hold in every reachable state |
| MessageQueue.NoNodeNoWakeupLost | src/ipc.c:2138-2266 | free, queued and claimed nodes add up to max_msgs, and no receiver sleeps while more messages wait than receivers have been woken |
| MessagePool.Pool.constructor | src/ipc.c:1780-1829 | the loop of rt_mq_init links all nodes into the free list |
| MessagePool.Pool.BeginSend | src/ipc.c:1963-1992 | a message longer than a slot is refused, a full queue too; otherwise the first free node is claimed |
| MessagePool.Pool.CopyIn | src/ipc.c:1994-2004 | the unlocked copy of a sender overwrites the first bytes of its own node only |
| MessagePool.Pool.EndSend | src/ipc.c:2005-2039 | linking at head or tail through next pointers refines the queue step; tail is the last node |
| MessagePool.Pool.BeginRecv | src/ipc.c:2138-2266 | claiming the head node, suspending or failing refines the queue step |
| MessagePool.Pool.EndRecv | src/ipc.c:2245-2265 | the claimed node goes back to the free list, and the receiver has the bytes it copied, which begin with the message claimed |
| MessagePool.Pool.ResetQueue | src/ipc.c:2279-2318 | a reset returns every queued node to the free list, in reverse order, and fails the receivers |
| MessageCalls.QueueIsCalls | src/ipc.c:1963-2318 | in every interleaving the queue holds what the calls say: each send puts its message at the end, each urgent one in front, when it is linked, each receive takes the front when it claims its node; every caller still has the message, urgency, buffer size and timeout it was called with |
| MessageCalls.SendRefused | src/ipc.c:1963-1992 | a send is refused exactly if its message is too long or queued messages and copies under way use up the nodes, and then changes nothing |
| MessageCalls.ServedInTurn | src/ipc.c:2005-2318 | in every run exactly those receivers sleep who found no message and were neither served nor failed since; each message queued wakes the one whose turn it is |
| MessageCalls.InCall | src/ipc.c:1963-2266 | a caller is in a call until it has linked its message, returned its node or failed |
| EventFlags.SendIsRetry | src/ipc.c:1028-1110 | the search loop of rt_event_send wakes exactly the waiters, with exactly the bits, that one immediate receive after the other would serve |
| EventFlags.EventSafe | src/ipc.c:1028-1236 | no step leaves a waiter whose condition the flags meet, although waiters that clear consume bits midway |
| EventFlags.NobodyOverlooked | src/ipc.c:1028-1236 | in every reachable state no suspended waiter could be served, and each woken one holds what a receive at its turn would have returned |
| EventFlags.EventObject.SendBits | src/ipc.c:1028-1110 | the loop over the suspend list, with event_set updated in the threads, refines the send |
| EventFlags.EventObject.RecvBits | src/ipc.c:1126-1236 | the immediate receive, its errors and its suspension |
| EventFlags.EventObject.ResetEvent | src/ipc.c:1248-1280 | a reset fails every waiter and clears the flags |
| EventCalls.ReceivesBits | src/ipc.c:1157-1183 | a receive is served exactly if all of its bits, or one of them, are set, returns exactly those both asked for and set, and clears exactly these if it is to |
| EventCalls.AskedAndMissing | src/ipc.c:1028-1236 | in every run a sleeping thread asked for bits in its last call that are still not set; a woken one has those of its bits that were set when a send reached it, which is enough; sends look at sleepers in turn |
| EventCalls.EventStops | src/ipc.c:1028-1280 | a sleeper is woken in a send only and fails in a reset or at its own time-out only |
| EventCalls.InCall | src/ipc.c:1126-1236 | a receiver is in a call from going to sleep until it has run again |
| MutexModel.EventSafe | src/ipc.c:653-880 | blocking, timeouts, recursive takes and hand-overs keep value, owner, hold and waiting list in step, whichever way the list goes |
| MutexModel.NoInversion | src/ipc.c:653-880 | in every reachable state waiters imply an owner that does not wait, and with RT_IPC_FLAG_PRIO that no waiter outranks; value is 1 exactly without an owner |
| MutexModel.InversionExact | src/ipc.c:653-880 | with either flag: a waiter comes to outrank the owner exactly if a release hands the mutex to a first waiter whom another one outranks |
| MutexModel.FifoInverts | src/ipc.c:841-856 | a run of four calls on a mutex with RT_IPC_FLAG_FIFO after which a waiter outranks the owner |
| MutexModel.RunKeepsBase | src/ipc.c:830-868 | after any run every thread but the owner has the priority it started with |
| MutexModel.BlockedTake | src/ipc.c:706-745 | a take that blocks leaves the owner the more urgent of its own priority and the caller's, and every other thread the one it has |
| MutexModel.InheritedExact | src/ipc.c:653-880 | in every run the owner's priority is exactly the most urgent of its own first one and the first ones of those who have blocked since it got the mutex |
| MutexModel.LentExact | src/ipc.c:653-880 | with RT_IPC_FLAG_PRIO the owner is as urgent as the most urgent of itself and its waiters exactly if for everybody who gave up since it got the mutex one of these is at least as urgent |
| MutexModel.LentKept | src/ipc.c:753-760 | a waiter gives up and the owner stays as urgent as it |
| MutexModel.HandedInTurn | src/ipc.c:789-880 | in every run those wait who blocked and were neither handed the mutex nor timed out since; it goes to the one that has waited longest, by RT_IPC_FLAG_PRIO among the most urgent, and to nobody exactly if nobody waits |
| MutexModel.ReleaseIsFinal | src/ipc.c:828-868 | a release gives the mutex away exactly if the nesting is 1 modulo 256; it is the outermost release exactly if the nesting is not above 256 with that remainder |
| MutexModel.HoldTellsOwner | src/ipc.c:683-699 | hold is 0 exactly without an owner if and only if the nesting is not a positive multiple of 256 |
| MutexModel.TakeThenRelease | src/ipc.c:653-880 | a release undoes a take |
| MutexModel.WrapReached | src/ipc.c:683-699 | 257 takes by one thread and one release: the mutex is no longer its own |
| MutexModel.Mutex.TakeMutex | src/ipc.c:653-778 | the fields after a take, with priority inheritance in the suspend list, are those of the model |
| MutexModel.Mutex.ReleaseMutex | src/ipc.c:789-880 | the fields after a release, with the hand-over to the first waiter, are those of the model |
| FirstBit.FfsFindsLowest | src/kservice.c:1286-1330 | the byte-wise table lookup returns the position of the lowest set bit plus one, and 0 for 0 |
| Words.SetBit | src/scheduler.c:713-717 | or-ing a shifted one sets that bit and no other |
| Words.ClearBit | src/scheduler.c:801-811 | and-ing the complement clears that bit and no other |
| Scheduler.EventSafe | src/thread.c:562-770 | every call keeps each ready thread in exactly the queue of its priority and the processor's thread in none |
| Scheduler.ScheduleSafe | src/scheduler.c:411-523 | after rt_schedule with the scheduler unlocked no ready thread outranks the running one, and a thread that can run does |
| Scheduler.RunSafe | src/scheduler.c:411-523 | both over every run, whenever an unlocked call has just rescheduled |
| Scheduler.SuspendThenResume | src/scheduler.c:695-702 | a thread that suspends itself and is resumed before it switches out is running as if nothing had happened |
| Scheduler.StartSafe | src/scheduler.c:246-272 | the first thread that runs is the most urgent one |
| ResumeGap.StepExact | src/thread.c:657-738 | with rt_thread_resume and rt_thread_suspend taken apart, a step keeps the queues sound if and only if it is not the second part of a resume whose thread has become ready in between |
| ResumeGap.ExclusiveSafe | src/thread.c:657-738 | if nobody resumes a thread while a resume of it is under way, every interleaving keeps the queues sound |
| ResumeGap.SecondResumeBreaks | src/thread.c:716-733 | a second resume in the gap puts the thread into its queue twice |
| ResumeGap.TogetherIsResume | src/thread.c:706-738 | with interrupts disabled by the caller the two parts are the one step of the scheduler model |
| ResumeGap.TogetherIsSuspend | src/thread.c:668-692 | so are the two parts of a suspend |
| ResumeGap.ExitIsFinal | src/thread.c:80-115 | a thread that has exited stays so in every step, the second parts of a suspend and of a resume of it excepted |
| ResumeGap.SuspendRevives | src/thread.c:668-685 | a suspend begun by another thread brings back the thread that exits before its second part |
| ResumeGap.TogetherIsStartup | src/thread.c:288-328 | rt_thread_startup is its first part, the second part of the resume and a reschedule |
| RoundRobin.EventTurn | src/clock.c:72-98 | each call brings a ready thread of the top priority closer to the processor: a tick by a tick, a switch by a place, and no call moves it back |
| RoundRobin.GetsItsTurn | src/clock.c:72-98 | it runs within as many ticks as the running thread and those ahead have left, and within one switch more than there are threads ahead, whoever blocks, exits, yields, is suspended or arrives |
| TimeSlices.EventDoes | src/thread.c:562-770 | what every call does to each thread: whose state, priority and slice it changes, a priority change of a thread that is not ready included, and that it changes no other |
| TimeSlices.InTwoParts | src/scheduler.c:411-523 | a call is its own effect followed by rt_schedule, exactly if it reschedules |
| TimeSlices.SliceExact | src/clock.c:72-98 | in every run what is left of a thread's slice is what the ticks that found it running have left, modulo its init_tick: nothing else shortens or refills it |
| TimeSlices.KeepsExact | src/scheduler.c:411-523 | the running thread loses the processor exactly if a call reschedules unlocked while a thread is ready that is no less urgent, or any if the running one can no longer run |
| TimeSlices.SliceKept | src/clock.c:84-94 | a run in which no call but ticks reschedules against a rival leaves the processor with the running thread for all that is left of its slice: for init_tick ticks after a refill |
| TimeSlices.SliceEnds | src/clock.c:84-94 | the last tick of a slice refills it with init_tick and hands the processor over, exactly if somebody no less urgent is ready and the scheduler not locked |
| TimeSlices.LockedKeeps | src/scheduler.c:855-939 | in every run the scheduler is locked as deep as it was entered and not left, and until it is left the running thread stays |
| TimeSlices.SliceCut | src/thread.c:749-771 | the time-out of a less urgent thread hands the processor of a thread with its whole slice left to another of its priority |
| ReadyTable.Cpu.HighestPriority | src/scheduler.c:162-184 | __rt_ffs on the 32-bit group word, or on the group word and a table byte, is the least priority with a non-empty queue |
| ReadyTable.Cpu.GroupTellsReady | src/scheduler.c:425-426 | the group word is non-zero exactly if a thread is ready |
| ReadyTable.Cpu.InsertThread | src/scheduler.c:688-722 | the queue gains the thread and both bitmap levels still say which queues are non-empty |
| ReadyTable.Cpu.RemoveThread | src/scheduler.c:785-815 | the queue loses the thread and so for the bitmaps |
| ReadyTable.Cpu.DoSchedule | src/scheduler.c:411-523 | the steps of rt_schedule on the real words refine the model |
| ReadyTable.Cpu.ChangePriority | src/thread.c:572-613 | a priority change moves a ready thread between queues and recalculates its masks |
| ReadyTable.Cpu.ExitThread | src/thread.c:80-115 | an exiting thread leaves and the most urgent ready one runs |
| ReadyTable.Cpu.TickIncrease | src/clock.c:72-98 | the slice is charged, and an expired one is refilled and yields |
| TimerQueue.RunSafe | src/timer.c:296-553 | every timeout function runs in the first check that finds its timer listed and due; they run in the order of checks, deadlines and insertion; the list stays ordered and within half the tick range |
| TimerQueue.FiresOnTime | src/timer.c:494-553 | a one-shot timer inserted at tick e with deadline D and left alone has run exactly from tick max(D, e + 1) on; that is D if and only if e < D |
| TimerQueue.StartedFires | src/timer.c:307-390 | the same for a whole rt_timer_start, with any events between its two locked regions |
| TimerQueue.InterruptedStartIsLate | src/timer.c:315-327 | a timer of one tick whose start is interrupted by that tick is due one tick earlier than it can run |
| TimerQueue.InDeadlineOrder | src/timer.c:346-364 | timers inserted before their deadlines run in deadline order, equal deadlines in the order of insertion |
| TimerQueue.PeriodicOnTime | src/timer.c:532-538 | a periodic timer left alone fires at exactly first, first + period, first + 2 * period and so on |
| TimerQueue.FireFirstSafe | src/timer.c:506-545 | serving one timer keeps the invariant and shrinks the set of overdue timers, so the expiry loop ends |
| TimerSettings.SettingsAreLast | src/timer.c:459-485 | in every run each timer has the time and the mode set last, by a caller or by a timeout function, and the clock has counted the ticks |
| TimerFlags.RunAgrees | src/timer.c:422-448 | with rt_timer_start and rt_timer_stop taken apart, in every state of a run a timer is pending exactly if it is marked active, stops under way aside, if and only if no timeout function leaves its own timer started and not periodic, and no timer is pending when a stop clears its flag |
| TimerFlags.FireAgrees | src/timer.c:515-545 | serving a timer keeps the two in agreement if and only if its timeout function does not do that |
| TimerFlags.RearmAgrees | src/timer.c:532-544 | a timer just served is pending exactly if it is marked active, except in that case |
| TimerFlags.StaysOut | src/timer.c:435-444 | a timer that a stop has removed is not pending when the flag is cleared, in any run in which nothing starts it |
| TimerFlags.StartedWhileStopped | src/timer.c:441-444 | a start between the removal and the clearing of the flag leaves a pending timer that no stop stops |
| TimerFlags.NotRearmed | src/timer.c:532-544 | such a timer fires once more and is not re-armed, periodic or not |
| TimerFlags.SelfRestartCannotBeStopped | src/timer.c:430-431 | a one-shot timer that its own timeout function restarts is pending and rt_timer_stop refuses to stop it |
| TimerRows.DiffOrders | src/timer.c:354-363 | comparing wrapped ticks orders the exact times while these are less than half the range apart |
| TimerRows.FarApart | src/timer.c:354-363 | beyond that a later deadline is taken for an earlier one |
| TimerRows.RowsAreSublists | src/timer.c:339-369 | each row is a sublist of every row below it |
| TimerRows.TimerTable.StartBeginT | src/timer.c:307-324 | the timer leaves all rows, is inactive and has its wrapped deadline |
| TimerRows.TimerTable.StartEndT | src/timer.c:327-397 | the search down the rows and the insertion put it behind all timers due no later, in the rows the counter selects |
| TimerRows.TimerTable.StopTestT | src/timer.c:430-431 | the unlocked test of the flag, an error for an inactive timer |
| TimerRows.TimerTable.StopBeginT | src/timer.c:435-441 | the timer leaves all rows; its flag stays |
| TimerRows.TimerTable.StopEndT | src/timer.c:443-446 | the flag is cleared whatever has happened to the rows in between |
| TimerRows.TimerTable.StopT | src/timer.c:422-448 | the three together, where nothing comes between them: an active timer leaves all rows; an inactive one is an error and nothing changes |
| TimerRows.TimerTable.TimerCheck | src/timer.c:494-553 | the loop serves exactly the due timers and re-arms the periodic ones |
| TimerRows.TimerTable.TickIncrease | src/clock.c:72-98 | tick, then check, refines the tick event |
| TimerRows.TimerTable.NextTimeout | src/timer.c:108-119 | the earliest deadline, or the largest tick for an empty list |
| MemProperties.RunSafe | src/mem.c:272-609 | after any run the blocks tile the heap, prev inverts next, no two neighbours are free, used_mem is the sum of the used blocks; lfree is the lowest free block if nothing was reallocated |
| MemProperties.MallocFails | src/mem.c:272-410 | rt_malloc returns NULL exactly if no free block from lfree on serves the request, an exact fit at the very end not counting |
| MemProperties.NullMeansFull | src/mem.c:272-410 | under rt_malloc and rt_free alone NULL means that no free block at all serves |
| MemProperties.MallocServes | src/mem.c:286-403 | the block returned was free, is large enough and is the only change to the live blocks; it covers the size asked exactly if RT_ALIGN does not wrap |
| MemProperties.MallocThenFree | src/mem.c:546-609 | freeing what was just allocated restores the heap |
| MemProperties.ResizeMoves | src/mem.c:462-509 | a successful rt_realloc puts one large enough block in place of the old one and all others stay |
| MemProperties.ReallocNull | src/mem.c:427-442 | with NULL the block is live and the heap unchanged exactly if the size is neither zero nor within 3 bytes of 2^32 |
| MemProperties.ShrinkLowest | src/mem.c:471-498 | after a split by rt_realloc lfree is the lowest free block exactly if it lies below the new one |
| MemProperties.ShrinkHides | src/mem.c:471-498 | a reachable heap where rt_malloc returns NULL although a free block serves |
| MemProperties.RunAligned | src/mem.c:396-403 | in every run of a new heap, reallocations included, all blocks handed out lie at multiples of 4 |
| MemPlacement.WantLeast | src/mem.c:288-300 | the room rt_malloc looks for is the least multiple of 4 that holds the size and a minimal block |
| MemPlacement.MallocPlaces | src/mem.c:301-403 | the block is cut from the lowest free block from lfree on that serves, at its start, and takes no more of it than it needs unless the rest is too small for a block |
| MemPlacement.ResizePlaces | src/mem.c:462-509 | rt_realloc keeps a block of the right size, cuts a larger one to exactly the size if the rest is worth a block, and moves it otherwise, to a place rt_malloc finds |
| MemHeap.Heap.Alloc | src/mem.c:272-410 | search, split and lfree update on the stored headers refine the model; the other blocks keep their bytes |
| MemHeap.Heap.FreeMem | src/mem.c:546-609 | rt_free with plug_holes on the stored headers refines the model; the other blocks keep their bytes |
| MemHeap.Heap.ReallocMem | src/mem.c:421-510 | a result keeps the first min(old, new) bytes, every other live block its address and bytes; with NULL all keep theirs |
| MemheapProperties.RunSafe | src/memheap.c:138-595 | after any run of served requests the blocks tile the pool, no two neighbours are free, the free ring is exactly the free blocks, available_size their payload, and max_used_size at least what is in use |
| MemheapProperties.Conservation | src/memheap.c:228-235 | used spans, free spans and the end header add up to the pool |
| MemheapModel.AllocFails | src/memheap.c:138-281 | NULL exactly if the size is not below available_size or no free block is large enough |
| MemheapModel.AllocServes | src/memheap.c:138-281 | the block returned is one more live block, large enough for the aligned size, and for the size asked exactly if RT_ALIGN does not wrap |
| MemheapModel.FreeSafe | src/memheap.c:495-595 | rt_memheap_free merges with free neighbours on both sides and keeps the invariant |
| MemheapModel.FreeUsed | src/memheap.c:495-595 | it takes away that block and no other |
| MemheapProperties.ResizeMoves | src/memheap.c:284-492 | growing in place, shrinking with a split and moving put one large enough block in place of the old one and leave all others |
| MemheapProperties.ResizeExact | src/memheap.c:331-353 | the heap is in order after a reallocation if and only if the size does not wrap the room test or no free block follows |
| MemheapProperties.ReallocExact | src/memheap.c:284-492 | the same for every call of rt_memheap_realloc |
| MemheapProperties.TwoCallsBreak | src/memheap.c:331-353 | two calls on a new heap after which it is out of order, with a result that is not NULL |
| MemheapPlacement.WantLeast | src/memheap.c:147-150 | the room looked for is the least multiple of 4 that holds the size and a minimal block |
| MemheapPlacement.AllocPlaces | src/memheap.c:155-255 | the block is cut from the first of the free ring that has room, and takes no more of it than it needs unless the rest is too small for a block |
| MemheapPlacement.AllocYoungest | src/memheap.c:182-225 | a rest that is cut off comes first in the ring, and the others keep their order |
| MemheapPlacement.FreeYoungest | src/memheap.c:495-597 | a block freed comes first in the ring, unless it goes into the free block on its left, which keeps its place; the others keep their order |
| MemheapPlacement.RecutYoungest | src/memheap.c:302-480 | what a resize in place leaves over comes first in the ring |
| MemheapPlacement.ResizePlaces | src/memheap.c:284-480 | which resizes stay, which grow into the free neighbour, which are cut, which move, and exactly how large the block is then |
| MemheapPlacement.RunPeak | src/memheap.c:230-242 | in every run max_used_size is the most that was in use at any time, both blocks of a move included |
| MemheapObject.Memheap.AllocMem | src/memheap.c:138-281 | block ring, free ring and counters after the call are those of the model; all live blocks keep their bytes |
| MemheapObject.Memheap.FreeMem | src/memheap.c:495-595 | the same for a free |
| MemheapObject.Memheap.ReallocMem | src/memheap.c:284-492 | in place, split or moved: a result keeps the first min(old, new) bytes, every other live block its address and bytes; with NULL all keep theirs |
| PageModel.AllocExact | src/slab.c:236-270 | NULL exactly if no n free pages lie in a row; otherwise the lowest such row is taken and nothing else |
| PageModel.FreeExact | src/slab.c:272-322 | exactly the n pages are added and the list stays ordered and coalesced |
| PageModel.SamePages | src/slab.c:272-322 | the list is determined by the set of free pages |
| PageModel.AllocThenFree | src/slab.c:236-322 | freeing what was just allocated restores the list |
| PageLinks.PageList.PageAlloc | src/slab.c:236-270 | the linked page headers after the call are those of the model, and only free pages are written to |
| PageLinks.PageList.PageFree | src/slab.c:272-322 | the same for a free |
| PageHeap.GrabSafe | src/slab.c:236-270 | every page stays either free or owned by one caller |
| PageHeap.ReturnSafe | src/slab.c:272-322 | the same when pages are returned |
| PageHeap.GrabThenReturn | src/slab.c:236-322 | pages taken and returned leave owners and free list as they were |
| SlabSizes.TightestClass | src/slab.c:401-459 | zoneindex picks the least chunk size that is large enough |
| SlabSizes.SmallWaste | src/slab.c:401-459 | rounding up wastes less than an eighth, or less than 8 bytes for the smallest sizes |
| SlabSizes.ZoneSizesOk | src/slab.c:344-392 | the zone size is a power of two between 32 and 128 KiB and the limit a quarter of it at most |
| SlabSizes.ZoneExact | src/slab.c:375-377 | a zone is the smallest of 32, 64 and 128 kilobytes that is at least half a thousandth (1/1024) of the heap, and 128 if none is |
| SlabZone.WholeIsFree | src/slab.c:842-856 | when the counter says a zone is wholly free, no chunk of it is live |
| SlabBlocks.Recovers | src/slab.c:795-836 | the memusage entry of a live pointer's page leads to its zone or tells its number of pages |
| SlabSafety.MallocSafe | src/slab.c:478-667 | rt_malloc adds one live block, or changes nothing and returns NULL exactly if no chunk, no spare zone and no row of pages serves |
| SlabSafety.FreeSafe | src/slab.c:771-904 | rt_free of a live block takes away that block and no other and keeps the invariant |
| SlabProperties.BlocksApart | src/slab.c:478-667 | two live blocks have no byte in common |
| SlabProperties.OneLength | src/slab.c:701-722 | a live pointer has one length |
| SlabProperties.BlocksClear | src/slab.c:478-667 | nor has one with a zone header, the page table or a free page |
| SlabProperties.ReallocSafe | src/slab.c:678-735 | NULL leaves the heap as it was; otherwise the result is large enough and every other block stays |
| SlabRuns.LiveCount | src/slab.c:641-646 | the live chunks of a zone number z_nmax - z_nfree |
| SlabRuns.RunSafe | src/slab.c:478-904 | in every run: zone lists, spare zones, page table and page list are sound, and used_mem is the total of the live blocks |
| SlabRuns.MallocThenFree | src/slab.c:478-904 | freeing what was just allocated restores the live blocks and used_mem |
| SlabPlacement.PagesLeast | src/slab.c:493-504 | a large block has the least number of pages that is enough |
| SlabPlacement.MallocThrifty | src/slab.c:534-664 | a small block takes pages exactly if its class has no free chunk and no zone is spare, and a spare zone only if its class has none |
| SlabPlacement.FreeThrifty | src/slab.c:771-904 | a zone is given up exactly if it has become wholly free and its class has another; it is kept as a spare one, or goes back to the pages exactly if there are two already |
| SlabPlacement.FreeThenMalloc | src/slab.c:525-904 | exactly when the next request of the class gets the chunk freed last |
| SlabPlacement.ReallocStays | src/slab.c:678-737 | rt_realloc leaves a block in place exactly if it is a chunk of the class of the new size |
| SlabAlignment.PowerAligned | src/slab.c:580-643 | a chunk of a power-of-two size is aligned to it exactly if its zone is, and always up to the page size |
| SlabAlignment.RequestAligned | src/slab.c:401-459 | a request for a power of two below 16384 comes back aligned to its size wherever heap and zone lie, if and only if it is for at most 4096 bytes |
| SlabAlignment.FirstBigChunk | src/slab.c:152-153 | a run after which a chunk of 8192 bytes lies at no multiple of 8192 |
| SlabAllocator.Slab.constructor | src/slab.c:344-392 | rt_system_heap_init establishes the invariant |
| SlabAllocator.Slab.Malloc | src/slab.c:478-667 | the steps on headers, zone lists, page table and pages refine the model; all live blocks keep their bytes |
| SlabAllocator.Slab.Free | src/slab.c:771-904 | the same, with the free-chunk link written into the freed block; all other live blocks keep their bytes |
| SlabAllocator.Slab.Realloc | src/slab.c:678-735 | same chunk size, zone or pages: a result keeps the first min(old, new) bytes, every other live block its address and bytes; with NULL all keep theirs |
| KconfigModel.StepCong | tools/kconfiglib.py:4153-4428 | evaluating a property depends on nothing but the properties it is reported to read, skipped operands excluded |
| KconfigValues.FreshSolves | tools/kconfiglib.py:4153-4428 | the recomputed values, which are those the readers return, satisfy all of the laws that follow |
| KconfigValues.LogicLaws | tools/kconfiglib.py:5849-5864 | the conjunction is the lesser and the disjunction the greater of both operands' values, the negation an involution that turns the order round and swaps the two |
| KconfigValues.LeafLaws | tools/kconfiglib.py:5849-5850 | a symbol in an expression stands for its value, a choice for its mode |
| KconfigValues.CompareLaws | tools/kconfiglib.py:5866-5892 | the six relations are those of one order, of numbers if both operands are numbers and not both strings, else of texts; results are n or y |
| KconfigValues.StrCmpIs | tools/kconfiglib.py:6220-6223 | texts are compared in the lexicographic order |
| KconfigValues.VisibilityLaw | tools/kconfiglib.py:6145-6172 | a symbol is as visible as the most visible of its prompts, unless its choice hides it, with m raised to y where there is no m |
| KconfigValues.ChoiceVisibilityLaw | tools/kconfiglib.py:6145-6172 | the same for a choice |
| KconfigValues.PlainLaw | tools/kconfiglib.py:4332-4371 | the value of a symbol outside choices: what the user set as far as it is visible, else the first default that holds or what implies it; on top of that what selects it; m raised to y where there is no m or y is implied |
| KconfigValues.PlainLaws | tools/kconfiglib.py:4332-4371 | so a selected symbol is never below its selectors, a set one not selected is what the user set as far as it is visible, and one with nothing is n |
| KconfigValues.ModeLaw | tools/kconfiglib.py:5048-5065 | the mode of a choice: what the user set, at least m if it is not optional, at most its visibility, with m raised |
| KconfigValues.SelectionLaw | tools/kconfiglib.py:5274-5307 | the selection: none but in mode y; then the visible symbol the user picked, else the first default that holds and is visible, else the first visible symbol |
| KconfigValues.MemberLaw | tools/kconfiglib.py:4373-4381 | in a choice of mode y exactly the selection is y and all others n; in any other mode none is y, and those are m that are visible as m and set |
| KconfigValues.NoM | tools/kconfiglib.py:4153-4164 | where there is no m, nothing is m |
| KconfigValues.TextLaw | tools/kconfiglib.py:4166-4305 | the text of a symbol that is no number: n, m or y, its name without a type, what the user gave if it is visible, else its default |
| KconfigValues.NumberLaw | tools/kconfiglib.py:4192-4281 | the text of an int or hex: the user's if it is in the active range, else the default, or the bound that it misses |
| KconfigValues.NumberInRange | tools/kconfiglib.py:4259-4272 | so it is in the active range, unless that is empty |
| KconfigAssign.AssignableExact | tools/kconfiglib.py:4685-4730 | the assignable values of a visible symbol outside choices are exactly those it takes on when they are given to it, if and only if it is not visible as m, selected as m and implied as y at once |
| KconfigAssign.TornReached | tools/kconfiglib.py:4726-4730 | a configuration with such a symbol: m is what is assignable, and it is y whatever it is given |
| KconfigAssign.ChoiceAssignableExact | tools/kconfiglib.py:5255-5272 | the assignable modes of a visible choice are exactly those it takes on |
| KconfigAssign.PickTaken | tools/kconfiglib.py:4430-4517 | setting a visible symbol of a choice of mode y makes it the selection, y, and all others n |
| KconfigCoherence.StepTracked | tools/kconfiglib.py:3354-3427 | the dependents found by _build_dep and _add_choice_deps cover every property read, MODULES and default symbols of choices excepted |
| KconfigCoherence.InvalidationSound | tools/kconfiglib.py:4737-4766 | after user input changes, what early-stopping invalidation leaves cached is what recomputation gives |
| KconfigCoherence.InvalidationExact | tools/kconfiglib.py:4737-4766 | any invalidation leaves a coherent cache if and only if every cached selection is reached from the default symbols it looked at |
| KconfigCoherence.TrackedLinked | tools/kconfiglib.py:3738-3743 | that holds of every cache if choices mention their default symbols |
| KconfigCoherence.SymbolChangeSound | tools/kconfiglib.py:4430-4526 | setting or unsetting a symbol keeps the cache coherent |
| KconfigCoherence.ChoiceChangeSound | tools/kconfiglib.py:5094-5150 | changing the mode or selection of a choice keeps the cache coherent |
| KconfigCache.Kconfig.BuildDep | tools/kconfiglib.py:3354-3427 | the loops register exactly the items that mention each other |
| KconfigCache.Kconfig.RecInvalidate | tools/kconfiglib.py:4737-4766 | the early-stopping recursion ends, clears the item and everything it reaches through cached visibilities, and nothing else |
| KconfigCache.Kconfig.ExprValue | tools/kconfiglib.py:5838-5892 | the cached, short-circuiting evaluation gives the recomputed value and leaves all it read cached |
| KconfigCache.Kconfig.SymVisibility | tools/kconfiglib.py:4396-4405 | a cached visibility is the recomputed one |
| KconfigCache.Kconfig.SymTriValue | tools/kconfiglib.py:4307-4384 | a cached tristate value is the recomputed one |
| KconfigCache.Kconfig.SymStrValue | tools/kconfiglib.py:4166-4305 | a cached string value is the recomputed one |
| KconfigCache.Kconfig.ChoiceSelection | tools/kconfiglib.py:5274-5307 | a cached selection is the recomputed one |
| KconfigCache.Kconfig.AssignableOf | tools/kconfiglib.py:4685-4730 | the branches over visibility, selectors and implications return the assignable values of the recomputed state and leave what they read cached |
| KconfigCache.Kconfig.ModesOf | tools/kconfiglib.py:5255-5272 | the same for the modes of a choice |
| KconfigCache.Kconfig.SetSymValue | tools/kconfiglib.py:4430-4517 | accepted values, the user state afterwards, and a coherent cache |
| KconfigCache.Kconfig.SetChoiceValue | tools/kconfiglib.py:5094-5133 | the same for the mode of a choice |
| KconfigCache.Kconfig.UnsetChoiceValue | tools/kconfiglib.py:5135-5150 | the same for unsetting mode and selection |
| KconfigCache.Kconfig.UnsetSymValue | tools/kconfiglib.py:4519-4526 | the same for unsetting a symbol |
| KconfigCache.Kconfig.AlwaysReady | tools/kconfiglib.py:3738-3743 | if choices mention their default symbols, the cache is always ready for the next change |
| KconfigStale.GoesStale | tools/kconfiglib.py:3738-3743 | a run of three calls after which the cached selection is not the recomputed one |
| LoopCheck.DepCheck.CheckSym | tools/kconfiglib.py:6422-6494 | the recursion over the _visited fields, with its flag to leave the choice alone, returns and paints what the specified search does |
| LoopCheck.DepCheck.CheckChoice | tools/kconfiglib.py:6497-6528 | so does the recursion into the symbols of a choice, the one it came by left out |
| LoopCheck.DepCheck.CheckAll | tools/kconfiglib.py:1062-1065 | so does the loop over the defined symbols |
| LoopReports.SymIsSound | tools/kconfiglib.py:6422-6552 | a path reported on the way back leads from symbol to symbol or choice, and what is raised is a loop; going to a choice and straight back is none |
| LoopOrder.SymOrders | tools/kconfiglib.py:6422-6528 | unless a symbol of a choice leads to one listed before it, whatever depends on an item is finished before it, together with its whole choice |
| LoopOrder.OrderedIsAcyclic | tools/kconfiglib.py:6422-6528 | such an order excludes every loop |
| LoopOrder.CheckExact | tools/kconfiglib.py:6422-6528 | what is raised is a loop; if nothing is raised, there is no loop if and only if no symbol of a choice leads to one listed before it |
| LoopMissed.LoopIsMissed | tools/kconfiglib.py:6506-6517 | a choice of three symbols and one outside with a loop through the choice, of which the check says nothing |
| KconfigReads.WrittenLower | tools/kconfiglib.py:3354-3413 | what is written in a property of an item stands before it in the order of the check |
| KconfigLoops.StepReadsLower | tools/kconfiglib.py:4153-4428 | every read of an evaluation goes down in that order, except for four kinds the check does not see: MODULES for a type, the mode of a choice from outside it or in its own prompt, a default symbol of another place |
| KconfigOrder.RankedExact | tools/kconfiglib.py:4153-4428 | for every configuration: a measure that makes evaluation end exists if and only if no property may be read while it is computed |
| KconfigLoops.EvaluationOrder | tools/kconfiglib.py:1062-1065 | after a check without a report: such a measure exists if and only if no read the check does not see may lead back to its reader |
| KconfigLoops.EvaluationEnds | tools/kconfiglib.py:1062-1065 | after such a check, where only MODULES is read unseen: under given user values every evaluation ends if and only if computing MODULES in that order does not ask for MODULES |
| KconfigLoops.RankedEnds | tools/kconfiglib.py:4153-4428 | where such a measure exists the plain recursion ends, with the recomputed values |
| KconfigLoops.ApartIsRanked | tools/kconfiglib.py:4153-4164 | it exists if nothing tristate is below MODULES |
| KconfigLoops.CheckLoops | tools/kconfiglib.py:1062-1065 | the check of a configuration, and both equivalences for what it lets through |
| KconfigSamples.SampleEnds | tools/kconfiglib.py:4153-4164 | MODULES defaulting to a tristate symbol that defaults to t passes the check, and can be computed if and only if t is not m |
| KconfigSamples.SampleUnranked | tools/kconfiglib.py:4153-4164 | yet no single measure serves every value that might be read |
| KconfigSamples.MenuPasses | tools/kconfiglib.py:3525-3575 | a choice whose prompt asks for a symbol in a menu of the choice passes the check |
| KconfigSamples.MenuNeverEnds | tools/kconfiglib.py:3525-3575 | ... and whatever the user has set, its visibility is never computed |
| KconfigSamples.MissedGraph | tools/kconfiglib.py:3354-3413 | a configuration whose dependents are the graph of the missed loop |
| KconfigSamples.MissedNeverEnds | tools/kconfiglib.py:5274-5307 | behind the missed loop, neither the selection nor the visibility of a symbol is ever computed, unless the user has picked a symbol |
| ExprText.PrintThenParse | tools/kconfiglib.py:3264-3348 | parsing what expr_str prints yields the right-nested form, which has the same value in every assignment; right-nested expressions come back identical |
| ExprText.ParsesGrammar | tools/kconfiglib.py:3273-3348 | the descent reads a whole text as an expression exactly if the grammar of the comment derives it, so no text has two readings |
| ExprText.NormValue | tools/kconfiglib.py:5838-5892 | right-nesting does not change a value |
| ExprText.TransformExpr | tools/kconfiglib.py:3264-3348 | parsing with the rewrite of m is the rewrite of parsing without |
| ExprText.Parser.Expression | tools/kconfiglib.py:3264-3303 | the recursive descent over the token index returns what the grammar function gives |
| ExprText.Parser.Factor | tools/kconfiglib.py:3314-3348 | the same for factors |
| KconfigStrings.EscapeThenUnescape | tools/kconfiglib.py:6026-6042 | unescape inverts escape for every string |
| KconfigStrings.UnescapeLaws | tools/kconfiglib.py:6036-6042 | in any text a backslash gives way to the character behind it, unless that is a line end or there is none |
| KconfigStrings.QuotedRoundTrip | tools/kconfiglib.py:2599-2630 | the scanner of quoted strings returns an escaped text as it was, exactly if it has no macro call in it |
| KconfigStrings.ScanLaws | tools/kconfiglib.py:2599-2630 | in any text the scanner ends at the first quote of its kind that no backslash protects, takes what one protects as it is, stops at a macro call and reports a missing end |
| KconfigStrings.ExpandStr | tools/kconfiglib.py:2599-2630 | the scanning loop returns the unescaped text, the rewritten line and the position behind the closing quote |
| Romfs.RoundTrip | tools/mkromfs.py:162-241 | following the absolute fields of the image from its base rebuilds the tree, for every tree and base within 32 bits |
| Romfs.ImageTiled | tools/mkromfs.py:162-211 | names, payloads and entry tables tile the image: in bounds, disjoint and 4-byte aligned if the base is |
| Romfs.ImageExists | tools/mkromfs.py:230-241 | packing succeeds whenever the image ends within 32 bits |
| Romfs.FolderUnpadded | tools/mkromfs.py:162-211 | a folder needs no padding of its own |
| Romfs.FolderData | tools/mkromfs.py:162-211 | the accumulating loop of Folder.bin_data produces the specified bytes, or fails to pack |
| Romfs.BinImage | tools/mkromfs.py:230-241 | the image that get_bin_data returns |

## Findings

Properties that the code does not meet as its comments or its shape suggest, each with the input and
the exact condition.

| property | where | input | holds exactly if |
|---|---|---|---|
| the cached choice selection is the recomputed one | tools/kconfiglib.py:3738-3743, where the parser only warns | `KconfigStale.GoesStale`: a choice whose default is a symbol outside it, in no condition of the choice | `KconfigCoherence.InvalidationExact`: every cached selection is reached, through cached visibilities, from the default symbols it looked at |
| the loop check reports every loop | tools/kconfiglib.py:6506-6517 | `LoopMissed.LoopIsMissed`: a choice entered through its first symbol, with a way from its third to its second; `KconfigSamples.MissedNeverEnds`: its evaluation | `LoopOrder.CheckExact`: no symbol of a choice leads to one listed before it without going through the choice |
| a configuration that passes the loop check can be evaluated | tools/kconfiglib.py:6422-6528 | `KconfigSamples.SampleEnds`: MODULES takes the value of a tristate symbol that is m; `KconfigSamples.MenuNeverEnds`: a choice that asks for a symbol in a menu of its own | `KconfigLoops.EvaluationOrder`, in one order for every user: no read the check does not see may lead back. `KconfigLoops.EvaluationEnds`, for given user values: MODULES does not ask for itself |
| a message received is the message sent | src/ipc.c:2252-2253 | `MessageQueue.LeftoverReceived`: [5] is received as [5, 2, 3, 4] | `MessageQueue.DeliversTheFront`: as many bytes are copied as were sent |
| releasing the last hold, and only it, frees a mutex | src/ipc.c:828-868, eight-bit `hold` | `MutexModel.WrapReached`: 257 takes, one release | `MutexModel.ReleaseIsFinal`: the nesting is 1, or not 1 modulo 256 |
| no waiter outranks the owner of a mutex | src/ipc.c:841-856, with RT_IPC_FLAG_FIFO as the network components use it | `MutexModel.FifoInverts`: the mutex is handed to the first waiter, and the priority of the others is not inherited | `MutexModel.InversionExact`: no release hands it to a first waiter whom another outranks; with RT_IPC_FLAG_PRIO none does |
| an inherited priority is that of a waiter | src/ipc.c:753-760 | `MutexModel.LentKept`: the waiter's time-out does not take it back | `MutexModel.LentExact`: somebody at least as urgent waits, or the owner is itself |
| NULL from `rt_malloc` of mem.c means that no block fits | src/mem.c:471-498 | `MemProperties.ShrinkHides`: a reallocation shrinks a block below the lowest-free pointer | `MemProperties.MallocFails` and `ShrinkLowest`: the free block lies at or above the pointer |
| `rt_malloc` returns at least what was asked | src/mem.c:289, src/memheap.c:148 | sizes within 3 bytes of 2^32, which `RT_ALIGN` wraps to 0 | `MemProperties.MallocServes`, `MemheapModel.AllocServes`: the size is at most 2^32 - 4 |
| `rt_realloc` with NULL leaves the block live | src/mem.c:427-442 | the same sizes count as zero and free it | `MemProperties.ReallocNull` |
| `rt_memheap_realloc` keeps the heap in order | src/memheap.c:350 | `MemheapProperties.TwoCallsBreak`: 12 bytes resized to 2^32 - 8 in front of a free block | `MemheapProperties.ReallocExact`: the aligned size plus the least block stays below 2^32, or no free block follows |
| power-of-two sizes come back aligned to their size | src/slab.c:152-153 | `SlabAlignment.FirstBigChunk`: the first chunk for 8000 bytes, at offset 12288 | `SlabAlignment.RequestAligned`: in every heap, the size is at most 4096; `PowerAligned`: in one heap, the zone is so aligned |
| a pending timer can be stopped | src/timer.c:430-446 | `TimerFlags.SelfRestartCannotBeStopped`: a one-shot timer that its own timeout function restarts; `TimerFlags.StartedWhileStopped`: a timer started between the removal and the clearing of its flag | `TimerFlags.RunAgrees`: no timeout function leaves its own timer started and not periodic, and no timer is pending when a stop clears its flag; by `StaysOut` none is that was not started in between |
| a timer of d ticks started at tick s fires at s + d | src/timer.c:315-327 | `TimerQueue.InterruptedStartIsLate`: the tick interrupt between the computation of the deadline and the insertion | `TimerQueue.StartedFires`: it is inserted before tick s + d |
| a thread keeps the processor for its slice unless a more urgent one is ready | src/thread.c:749-771, src/scheduler.c:411-523 | `TimeSlices.SliceCut`: the time-out of a less urgent thread calls rt_schedule, which puts the running thread behind another of its priority | `TimeSlices.KeepsExact`: no unlocked call reschedules while a thread of its priority is ready |
| the assignable values of a visible symbol are those it takes on | tools/kconfiglib.py:4726-4730 | `KconfigAssign.TornReached`: a tristate symbol visible as m, selected as m and implied as y; m is assignable, and it is y | `KconfigAssign.AssignableExact`: not all three at once |
| a ready thread is in one queue once | src/thread.c:716-733 | `ResumeGap.SecondResumeBreaks`: a second resume between the test of the state and the insertion | `ResumeGap.StepExact`: the thread has not become ready in between |
| a thread that has exited does not come back | src/thread.c:668-685 | `ResumeGap.SuspendRevives`: it exits while another thread is between the test of its state and the locked part of rt_thread_suspend | `ResumeGap.ExitIsFinal`: no second part of a suspend or resume of it is still to come |

One comment of the source disagrees with its code, and the model follows the code: src/slab.c:154 says
that `malloc(0)` returns a pointer, and src/slab.c:485-487 returns NULL.

## Left out

- SMP (`RT_USING_SMP`), signals and the EINTR retry of `rt_mutex_take`, soft timers and the timer thread, `src/mempool.c`, semaphores, deletion and detach of objects with waiting threads.
- MutexModel.InheritedExact: one mutex; several nested mutexes per thread and priority changes from outside are left out.
- Callers without a thread (interrupt handlers) use the IPC objects without waiting, as the source requires; the arithmetic on the remaining timeout is the choice whether it has expired.
- MessageQueue.DeliversTheFront: a message is copied in one step, into or out of a node that no one else has in hand.
- The intrusive suspend lists and ready queues are sequences; a thread linked into a list twice therefore shows as two entries, and not as the shortened list that its overwritten links give. Event sets are sets of bit positions.
- ResumeGap.ExclusiveSafe: that no one resumes a thread while a resume of it is under way is a condition on the callers, with no locking modelled that would enforce it.
- TimerQueue.RunSafe: a timer is started by one party at a time, a start takes at most `gap` ticks, and times plus `gap` stay below half the tick range; `TimerRows.FarApart` says why. Times are positive when a check runs, and timeout functions start, stop and set timers only; what they do may depend on how many have run before.
- TimerFlags.RunAgrees: setting and clearing the flag are single steps; the read-modify-write of a flag word that an interrupt splits is not followed.
- TimerQueue.StartedFires: a tick between the removal and the computation of the deadline is a stop followed by a later start.
- Kconfig: reading and printing numbers are parameters, and `NumberInRange` assumes that they are inverses; constants and undefined symbols are literals; the `_cached_*` attributes are one map; `_cached_assignable`, warnings, `_write_to_conf` and file input and output are not modelled.
- KconfigAssign.AssignableExact: is about symbols outside choices; of those in a choice of mode y `PickTaken` says that the assignable y is taken, and in mode m the values are in `KconfigValues.MemberLaw`.
- LoopCheck.DepCheck.CheckAll: a symbol that two choices list is not admitted. The text of the error message is not modelled.
- KconfigLoops.EvaluationEnds: with unseen reads other than of MODULES the condition is not stated for single users; `EvaluationOrder` covers them for all users together.
- KconfigCoherence.InvalidationExact: the condition is on the cache at hand; for a configuration `TrackedLinked` gives a sufficient one, and which configurations reach a wrong selection is not characterised.
- ExprText.PrintThenParse: starts from tokens, not characters, and the printed expression names symbols the tokenizer reads back. KconfigStrings models the scanner of quoted strings; a macro call in one ends the scan, its expansion is not modelled, nor is the replacement of `$UNAME_RELEASE` and of environment variables in the scanned text (tools/kconfiglib.py:2338-2340).
- Heap calls run one after the other: the semaphores of mem.c and memheap.c exclude others for the whole call, and what others could do in the unlocked stretches of slab's `rt_malloc` is not modelled.
- MemProperties.RunSafe: heaps of at least one minimal block; `max_mem` and the magic numbers appear in the header bytes only. The bytes of the three heaps are a sequence in a field or in a shared object.
- MemheapProperties.TwoCallsBreak: says that the block list is broken; what a header written over its own block does to later calls is not followed. Magic numbers, and the NULL links of blocks that are not free, are not modelled.
- SlabAllocator.Slab.Malloc: the initial contents of the page table are a parameter of the initial heap; `max_mem` is not modelled.
- Romfs: walking and sorting directories and the C output are not modelled; a name holds no zero byte, and `struct` packs 32-bit little-endian words.
