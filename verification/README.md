# A verified model of an RT-Thread 5.1.0 kernel

This project models the kernel's mutexes with priority inheritance, its message queues, events and
semaphores, its three memory allocators, its timers and its two schedulers, and two of the tools that are
kept with the kernel, and proves what they promise. `dafny verify dfyconfig.toml` checks all of it.

## What is modelled

Code that updates objects in place is a class whose methods do the same updates; each method is tied to a
function of the old state, and the properties are proved about those functions. Intrusive lists are sequences
of thread or timer numbers where only their order matters, and maps of links where the linking is the point
(memheap, message queue). A region under a spinlock, or with interrupts disabled, is one step.

* `WaitGraph`, `PriorityInheritance`, `InheritanceRuns` (`src/ipc.c`): a blocked taker pushes its priority through
  the owners it waits for, and the walk stops at the first owner that needs no change. The invariant is the local
  fixpoint this restores. It needs no assumption on the wait graph. A thread on no cycle of that graph has its exact
  inherited priority in every state, whatever deadlocks others are in. A deadlock by itself keeps exactness too; a
  thread on a cycle loses it exactly when a waiter gives up and nobody still blocked on the thread has the initial
  priority the thread runs at.
* `MessageProtocol`, `MessageDelivery`, `MessageQueue` (`src/ipc.c`): the first is a transition system over the
  critical sections of all calls, the second what callers get from it, the third the linked nodes. Both
  configurations of RT_USING_MESSAGEQUEUE_PRIORITY are covered.
* `EventFlags`, `Semaphore` (`src/ipc.c`, `src/thread.c`, `src/scheduler_comm.c`).
* `BlockChain`, `SmallMemory` (`src/mem.c`): because free blocks are always merged, what callers hold determines
  the chain, so the contracts speak of what is held. In `plug_holes` the redirection of `lfree` is never taken
  under the invariant.
* `Rings`, `HeapBlocks`, `MemHeap` (`src/memheap.c`).
* `SlabPages`, `SlabZones`, `SlabHeap`, `Slab` (`src/slab.c`).
* `SkipRows`, `TimerAgenda`, `TimerCommands`, `TimerSkipList` (`src/timer.c`): the agenda is what the timers promise,
  a list in the order of unbounded deadlines; the commands on a timer determine when it fires; the skip list with
  its 32-bit comparisons is proved to implement it.
* `Bits`, `ReadyTable`, `Placement`, `UpScheduler`, `UpOrder`, `SmpScheduler`, `SmpOrder` (`src/kservice.c`,
  `src/scheduler_up.c`, `src/scheduler_mp.c`, `src/scheduler_comm.c`).
* `WorstCaseStack` (`tools/WCS.py`) and `Utf8`, `RomImage` (`tools/mkromfs.py`).
* `Sequences`, `Arithmetic`, `Bytes` and `Wrappers` are shared.

## Where the code and its descriptions part

* The comment on `rt_mq_recv` says that a positive result is a length. When the queue is reset, detached or deleted
  a waiting receiver returns the positive `RT_ERROR` (1, or 255 with a C library), which is also a length. Among the
  calls modelled, a positive result is the length of a message the receive took if and only if none of these three
  ended its wait.
* A mutex owner is to run at the most urgent priority among those blocked on it. Threads that wait for each other in
  a cycle go on lending each other a priority after the only thread that had it has given up.
* `rt_sched_thread_bind_cpu` is to move a ready thread between queues. It takes the thread out of its queue, and
  the insertion returns early because the status still says ready: the thread is in no queue afterwards.
* `rt_memheap_alloc` refuses a request for all of `available_size` even when one free block has exactly that.
* The ROM image pads a name by its number of characters, so a name outside ASCII may leave later addresses
  unaligned: it does unless its encoding has a multiple of four continuation bytes. A reader that ends
  names at the first NUL loses the rest of a name that contains one.

## Model

Lines are those of the repository at the modelled commit.

| member | source | states |
|---|---|---|
| WaitGraph.NewEdgeClosesCycleIff | src/ipc.c:1394-1420 | a new wait of a taker for an owner deadlocks exactly when the owner already waits, directly or not, for the taker |
| WaitGraph.NewEdgesIntoSinksKeepAcyclic | src/ipc.c:1581-1697 | dropping waits, and letting waiters wait for a thread that itself waits for nobody (the new owner after a hand-off), never closes a cycle |
| WaitGraph.AncestorsGrow | src/ipc.c:868-920 | the set of threads waiting for one grows strictly along a wait of any thread that is on no cycle, which is what a walk up the owners rests on |
| WaitGraph.WaiterOffCycle | src/ipc.c:868-920 | who waits for a thread that is on no cycle of waits is on none either |
| PriorityInheritance.InheritanceIsExact | src/ipc.c:827-920 | whenever the local fixpoint holds and the wait graph has no cycle, every thread runs at exactly the most urgent initial priority among itself and all threads transitively blocked on mutexes it owns |
| PriorityInheritance.OwnerNoLessUrgent | src/ipc.c:868-920 | in any graph, urgency never drops along a chain of owners |
| PriorityInheritance.PriorityHasSource | src/ipc.c:845-865 | the priority a thread on no cycle runs at is the initial priority of some thread that waits for it, or its own, whatever deadlocks there are elsewhere |
| PriorityInheritance.ExactAt | src/ipc.c:827-920 | in any graph, a thread on no cycle runs at exactly the most urgent initial priority among itself and all threads transitively blocked on mutexes it owns |
| PriorityInheritance.ExactIff | src/ipc.c:827-920 | any thread, one in a deadlock included, has its exact priority if and only if somebody blocked on it has that initial priority: it is never too little urgent |
| PriorityInheritance.FixpointIsEven | src/ipc.c:845-920 | the threads of a cycle of waits all run at one priority |
| PriorityInheritance.OffOnCycle | src/ipc.c:1444-1497 | a thread on such a cycle is never due less urgency, so a walk that lowers priorities stops there |
| PriorityInheritance.RequeuedHandsOn | src/ipc.c:868-920 | a walk that raises priorities gives each owner exactly the priority it started with |
| PriorityInheritance.WaitersKeepOrder | src/ipc.c:241-285 | after a walk, equals in a wait list are first those it did not touch, in their old order, then those that re-entered |
| PriorityInheritance.SlackShrinks | src/ipc.c:868-920 | each turn of the owner walk shrinks a measure on any wait graph, cyclic ones included, so the walk terminates |
| PriorityInheritance.RequeuedOff | src/ipc.c:868-920 | after one turn of the walk, only the owner of the mutex just re-sorted can still run at a priority that its mutexes do not give it |
| PriorityInheritance.ChangeStartsWalk | src/ipc.c:868-920 | changing one thread to its due priority leaves exactly the wait list it is in to be repaired: stopping early loses nothing |
| PriorityInheritance.InsertKeepsSorted | src/ipc.c:241-285 | a waiter put behind all that are no less urgent keeps the list in order of priority, and of re-entry among equals |
| PriorityInheritance.SuspendStep | src/ipc.c:1394-1420 | after a taker has suspended, either the invariant holds or precisely the owner is too little urgent and the update that follows is due |
| PriorityInheritance.DropStep | src/ipc.c:1444-1497 | after a waiter has left by timeout, either the invariant holds or precisely the owner that ran at its priority may be too urgent |
| PriorityInheritance.ReleaseStep | src/ipc.c:1616-1697 | a hand-off that leaves the releasing thread at its due priority keeps the invariant |
| PriorityInheritance.ReleasedIsHandedOn | src/ipc.c:1581-1697 | after a hand-off the head waiter owns the mutex with hold 1, has it on its list, waits for nothing and runs, the others wait on in their order; without a waiter the mutex is free; of all other threads and mutexes nothing changes |
| PriorityInheritance.AcquiredIsTaken | src/ipc.c:1324-1420 | who takes a free mutex owns it with hold 1 and nothing else changes |
| PriorityInheritance.TakeThenRelease | src/ipc.c:1324-1697 | taking a free mutex and releasing it once changes nothing |
| PriorityInheritance.SuspendedHasBlocked | src/ipc.c:1394-1420 | after a blocking take the taker is suspended and on the wait list; no owner, no hold and no other wait changes |
| PriorityInheritance.DroppedHasLeft | src/ipc.c:1444-1497 | a waiter that gives up runs again and is off the wait list; no owner, no hold and no other wait changes |
| PriorityInheritance.ReleasedAcyclic | src/ipc.c:1616-1697 | a release keeps the wait graph without cycles |
| PriorityInheritance.MutexSystem.constructor | src/ipc.c:1005-1030 | free mutexes and threads at their initial priorities satisfy the invariant |
| PriorityInheritance.MutexSystem.GetMutexPriority | src/ipc.c:845-865 | the loop over the mutexes taken computes the most urgent of their priorities and the initial one |
| PriorityInheritance.MutexSystem.FindPosition | src/ipc.c:241-285 | the search of a wait list ends behind all that are no less urgent |
| PriorityInheritance.MutexSystem.UpdatePriority | src/ipc.c:868-920 | the whole walk up the owners restores the invariant from the state where one thread is off its due priority; it changes priorities in one direction only, of owners up the chain, up to the given priority if it raises them; only threads with a new priority re-enter their wait lists, and a lowering walk leaves even cycles alone |
| PriorityInheritance.MutexSystem.Requeue | src/ipc.c:868-920 | a thread leaves its wait list and enters it again at the place of its new priority; the priority of the mutex follows |
| PriorityInheritance.MutexSystem.WalkStep | src/ipc.c:868-920 | one turn of the walk: the whole new state, and it stops exactly when the owner already runs at its due priority |
| PriorityInheritance.MutexSystem.Take | src/ipc.c:1324-1517 | every branch of a take with its state afterwards: nested, overflowing, free, refused, blocked; the invariant is kept, and a blocking take closes a cycle exactly when the owner already waits for the taker |
| PriorityInheritance.MutexSystem.BlockOn | src/ipc.c:1394-1420 | the blocking take keeps the invariant, adds exactly one wait, and only makes owners up the chain as urgent as the taker |
| PriorityInheritance.MutexSystem.DropWaiter | src/ipc.c:1444-1497 | a timed-out waiter runs again and disappears from the wait list and from the wait graph; only owners up the chain become less urgent, and all other waiters keep their places |
| PriorityInheritance.MutexSystem.CheckAndUpdatePriority | src/ipc.c:922-943 | giving up a mutex lets the priority of its owner fall to what its other mutexes give it |
| PriorityInheritance.MutexSystem.Release | src/ipc.c:1581-1697 | a release by the owner lowers the nesting or hands the mutex to its head waiter, who runs again as its owner; by anybody else it fails and changes nothing; the invariant and acyclicity are kept |
| PriorityInheritance.MutexSystem.Sleep | src/thread.c:883-955 | suspending and resuming a thread that waits for no mutex touches no priority and no wait |
| InheritanceRuns.DeadlockStep | src/ipc.c:1324-1697 | one call deadlocks exactly when it makes a thread wait for one that already waits for it |
| InheritanceRuns.DropExactIff | src/ipc.c:1444-1497 | after a waiter has given up, a thread has its exact priority if and only if it is on no cycle or somebody still blocked on it has the initial priority it ran at before |
| InheritanceRuns.BlockKeepsExact | src/ipc.c:1394-1420 | a blocking take keeps every exact priority, even if it deadlocks |
| InheritanceRuns.ReleaseKeepsExact | src/ipc.c:1616-1697 | a release keeps every exact priority, also in deadlocks of others |
| InheritanceRuns.ExactStep | src/ipc.c:1324-1697 | an exact priority is lost in one call if and only if that call is a waiter giving up that takes the last source of a cycle away |
| InheritanceRuns.DeadlockOutlivesItsSource | src/ipc.c:1394-1517 | a concrete deadlock, in which all priorities are exact until the waiter they come from times out |
| InheritanceRuns.DeadlockIff | src/ipc.c:1324-1697 | a run deadlocks if and only if one of its takes closes a cycle of waits |
| InheritanceRuns.ExactIffNoneLoses | src/ipc.c:1324-1697 | all priorities are exact at every moment of a run, deadlocks included, if and only if no waiter that gives up takes the last source of a cycle away |
| InheritanceRuns.Step | src/ipc.c:1324-1697 | each call does what the relation the runs are made of says |
| InheritanceRuns.Run | src/ipc.c:868-920 | over every sequence of takes, releases, time-outs and sleeps from a good state: the invariant holds, threads on no cycle have their exact priority at every moment, the run deadlocks if and only if a take closes a cycle, and exactness is lost if and only if the last source of a cycle gives up |
| Arithmetic.RoundUpIsLeast | src/mem.c:271-283 | RT_ALIGN gives the least multiple that is not below its argument |
| BlockChain.LiveDeterminesBlocks | src/mem.c:119-157 | because free neighbours are always merged, the blocks held by callers determine the whole chain of blocks |
| BlockChain.LiveBlocksDisjoint | src/mem.c:271-389 | the payloads of held blocks lie in the pool, aligned, and overlap neither each other nor any header |
| BlockChain.FreeApart | src/mem.c:284-310 | a free block that fits a request overlaps no held block |
| BlockChain.CutChained | src/mem.c:311-345 | splitting a block keeps the tiling of the pool and the links |
| BlockChain.AbsorbChained | src/mem.c:119-157 | merging a block with its successor keeps the tiling of the pool and the links |
| BlockChain.CutSum | src/mem.c:311-345 | splitting a used block lowers the bytes in use by exactly what was cut off |
| BlockChain.TakenLive | src/mem.c:284-366 | an allocation adds exactly one block to what is held |
| BlockChain.EndAfterIs | src/mem.c:305-340 | an allocation takes all of its block unless what is behind the request has room for a header and a smallest block |
| BlockChain.TakenLowest | src/mem.c:346-366 | the cached lowest free block is right again after an allocation |
| BlockChain.PlugForward | src/mem.c:129-141 | merging forward keeps the chain, the held blocks and the lowest free block |
| BlockChain.PlugBackward | src/mem.c:143-156 | merging backward keeps the chain, the held blocks and the lowest free block |
| SmallMemory.InitialHeapFits | src/mem.c:170-213 | the heap that initialisation lays out is aligned and lies in the memory given, and initialisation refuses exactly when the ends leave no room |
| SmallMemory.Pool.constructor | src/mem.c:214-234 | the initial pool is one free block and the sentinel |
| SmallMemory.Pool.NeedIsLeast | src/mem.c:285-290 | the size looked for is the least aligned one that holds the request and a smallest block |
| SmallMemory.Pool.NoFitIff | src/mem.c:292-306 | nothing fits exactly if every free block is too small |
| SmallMemory.Pool.Alloc | src/mem.c:271-389 | null exactly if the size is zero or no free block anywhere fits the rounded size, although the search starts at the cached block and stops early; else the lowest-address fit, and nothing else held changes |
| SmallMemory.Pool.AllocAligned | src/mem.c:285-385 | starting at the lowest free block and stopping before offset `mem_size_aligned - size` misses no block that fits |
| SmallMemory.Pool.AdvanceLowestFree | src/mem.c:346-366 | the loop finds the next free block or the end |
| SmallMemory.Pool.PlugHoles | src/mem.c:119-157 | after it no two neighbouring blocks are free, and what callers hold is unchanged |
| SmallMemory.Pool.Free | src/mem.c:497-539 | exactly the given block is released; used bytes drop by its extent |
| SmallMemory.Pool.Shrink | src/mem.c:445-472 | the rest of a shrunk block becomes free and is merged; the holder keeps the front |
| SmallMemory.Pool.Move | src/mem.c:474-487 | a block that must move keeps its first bytes, up to the smaller size, and the old one is released |
| SmallMemory.Pool.Realloc | src/mem.c:403-488 | every branch of a reallocation: what is held afterwards, which address is returned, when it fails, and which payload bytes are carried over |
| Rings.RingInsert | src/memheap.c:264-269 | linking a node into a circular list through both neighbours inserts it in the sequence the links stand for |
| Rings.RingRemove | src/memheap.c:46-54 | unlinking a node through its neighbours removes it from that sequence |
| HeapBlocks.StepKeeps | src/memheap.c:187-719 | replacing a stretch of neighbouring blocks by one with the same ends keeps tiling, merging, free list, and changes the free bytes by the stretch alone |
| HeapBlocks.TakeWhole | src/memheap.c:290-310 | an unsplit allocation keeps the invariant and takes the free bytes of its block |
| HeapBlocks.CutKeeps | src/memheap.c:239-289 | splitting a block keeps the invariant and the sum of free payloads |
| HeapBlocks.MoveKeeps | src/memheap.c:414-485 | moving the boundary between a held block and the free one behind it, either way, keeps the invariant |
| HeapBlocks.FreeKeeps | src/memheap.c:643-684 | a free with merging on neither, either or both sides keeps the invariant and returns the headers between as free bytes |
| HeapBlocks.FreeIsPart | src/memheap.c:204-206 | one free block never has more than all free bytes |
| HeapBlocks.CutHeld | src/memheap.c:239-289 | after a split the caller holds the front, and no other caller notices |
| HeapBlocks.FreeHeld | src/memheap.c:643-684 | a free takes exactly one block from what is held, whatever it merges |
| HeapBlocks.MoveHeld | src/memheap.c:414-485 | growing or shrinking in place changes exactly the end of one held block |
| MemHeap.NoFitIff | src/memheap.c:221-235 | the search of the free list fails exactly if no free block has room |
| MemHeap.NeedIsLeast | src/memheap.c:195-203 | a request stands for the least aligned number of bytes that holds it and a smallest block |
| MemHeap.GuardRefuses | src/memheap.c:204-206 | the test `size < available_size` turns away a request that a block has room for exactly when the request wants the whole of the only bytes there are |
| MemHeap.FreshHeapRefusesAll | src/memheap.c:204-206 | in a fresh heap an allocation for the payload of its single free block, which has the room, returns nothing |
| MemHeap.BlocksDisjoint | src/memheap.c:187-341 | blocks do not overlap and lie in the pool |
| MemHeap.Heap.constructor | src/memheap.c:79-154 | one free block before a used, empty tail, and both counters |
| MemHeap.Heap.Search | src/memheap.c:221-232 | the loop over the free list finds its first block with room |
| MemHeap.Heap.Alloc | src/memheap.c:187-347 | succeeds exactly if the rounded size is less than `available_size` and some free block has room; takes the first such block of the free list, whole or split; `available_size` falls by the bytes taken and `max_used_size` is the high-water mark; a failure changes nothing |
| MemHeap.Heap.FreePlace | src/memheap.c:686-706 | where a freed block goes: in front, or in best mode before the first that is not smaller |
| MemHeap.Heap.Merge | src/memheap.c:647-706 | the merging of a free, link by link: the blocks, the free list and the counter that come out |
| MemHeap.Heap.FreeBlock | src/memheap.c:594-719 | a free takes exactly the block from what is held, merges with free neighbours, counts payload and headers, and puts the block in front of the free list or at its place in best mode |
| MemHeap.Heap.Grow | src/memheap.c:414-485 | growth in place into the free block behind, with both lists and counters |
| MemHeap.Heap.Shrink | src/memheap.c:520-577 | the cut-off rest becomes free, merged with a free block behind it |
| MemHeap.NeighboursAfter | src/memheap.c:237-300 | an allocation changes the neighbours of a held block only by taking one of them whole, or by splitting the one in front |
| MemHeap.Heap.Move | src/memheap.c:493-502 | another block is allocated, the payload copied, the old block freed and merged with its free neighbours |
| MemHeap.Heap.Resize | src/memheap.c:362-582 | which of staying, shrinking, growing or moving happens, and what is held afterwards; a move fails exactly when the allocation does, and then leaves everything as it was; which block it takes, and that it carries the bytes over; `available_size` and the high-water mark in each case |
| MemHeap.Heap.Realloc | src/memheap.c:362-585 | the same with the null pointer, which allocates, and size zero, which frees |
| SlabPages.RunsUnique | src/slab.c:216-299 | the free pages determine the list of runs: it is their only sorted, disjoint, fully coalesced description |
| SlabPages.Pages.constructor | src/slab.c:304-311 | at first all pages are one run |
| SlabPages.Pages.Alloc | src/slab.c:216-246 | succeeds exactly if some run is long enough, takes the pages from the lowest such run, and nothing else changes |
| SlabPages.Pages.Give | src/slab.c:257-299 | the span becomes free and is merged with the runs it touches on either side |
| SlabZones.ChunkSizesGrow | src/slab.c:411-469 | classes 0 to 71 have strictly growing chunk sizes, hence correspond one to one |
| SlabZones.SmallestClass | src/slab.c:411-469 | a request goes to the class with the smallest chunks that hold it, and is rounded to their size |
| SlabZones.ZoneSize | src/slab.c:361-363 | the loop picks the largest of the three zone sizes that the heap justifies |
| SlabZones.NewZoneOk | src/slab.c:624-652 | a new zone has room for two chunks at least, one of them handed out |
| SlabZones.NewZonePacked | src/slab.c:625-638 | the chunks of a new zone start at the first aligned place behind its header, to the chunk size if that is a power of two and else to eight bytes, and there are as many as fit |
| Bits.PowerTest | src/slab.c:630 | the test by bits is passed exactly by the powers of two |
| SlabZones.ChunksAligned | src/slab.c:618-641 | every chunk is at a multiple of eight, and of its size if that is a power of two, as far as pages are |
| SlabZones.NeverUsedFirst | src/slab.c:556-574 | while a zone has chunks never used the next of them is handed out |
| SlabZones.LastGivenIsNext | src/slab.c:565-574 | after that the chunk given back last is |
| SlabZones.LiveCount | src/slab.c:543-571 | `z_nfree` is the number of chunks not in use: the free list and the part never used |
| SlabZones.TakeChunkKeeps | src/slab.c:543-571 | the chunk handed out was not in use, and no other chunk is affected |
| SlabZones.GiveChunkKeeps | src/slab.c:786-801 | a chunk given back is out of use, and no other chunk is affected |
| SlabZones.ChunkInZone | src/slab.c:610-618 | a chunk lies in the pages of its zone, behind the header |
| SlabZones.ChunksApart | src/slab.c:558-566 | chunks do not overlap |
| SlabHeap.TakeStep | src/slab.c:543-571 | taking a chunk keeps the class lists: exactly the zones that are not full |
| SlabHeap.ReuseStep | src/slab.c:592-597 | a spare zone becomes a zone of any class |
| SlabHeap.HoldZone | src/slab.c:599-652 | fresh pages become a zone, all of whose pages point back to it |
| SlabHeap.GiveStep | src/slab.c:786-801 | giving a chunk back keeps the class lists, with at most one wholly free zone in each |
| SlabHeap.RetireStep | src/slab.c:808-829 | a wholly free zone that is not alone in its class becomes spare |
| SlabHeap.ReleaseZone | src/slab.c:831-850 | the third spare zone goes back to the page allocator, and its pages point nowhere |
| SlabHeap.TableFinds | src/slab.c:782-783 | from the address of any chunk in use the table of pages leads to its own zone |
| Slab.Heap.constructor | src/slab.c:324-383 | in the initial heap all pages are free apart from those of the table, and the zone size is the one the heap is worth |
| Slab.Heap.Alloc | src/slab.c:490-655 | null exactly for nothing, or if no list, spare zone or run of pages can meet the request; what is granted was not held, is large enough and aligned, and is all that changes; a listed zone is used before a spare one, and that before fresh pages |
| Slab.Heap.AllocLarge | src/slab.c:506-530 | a large request takes whole pages and records their number |
| Slab.Heap.AllocChunk | src/slab.c:543-578 | a chunk of the first zone of the class, aligned; the zone leaves its list when full |
| Slab.Heap.AllocZone | src/slab.c:590-652 | a new zone exactly if one is spare or pages suffice, and a spare one first; its chunks are aligned and as many as fit |
| Slab.Heap.Release | src/slab.c:738-853 | exactly the given chunk or pages are released; a zone goes exactly if it is wholly free and not alone in its class, and at most two are kept spare |
| Slab.Heap.Retire | src/slab.c:806-851 | of wholly free zones at most two are kept spare |
| SkipRows.RowsAreSubsequences | src/timer.c:422-473 | each row of the skip list is a subsequence of every lower one |
| SkipRows.DescendBelow | src/timer.c:441-443 | going down a row never overshoots |
| SkipRows.PositionIsLinear | src/timer.c:413-440 | the place found in a row is where a scan of it would stop |
| SkipRows.InsertedRowsOk | src/timer.c:445-470 | inserting the timer into the lowest rows at the places found keeps the rows nested, and is a linear insertion in the last row |
| SkipRows.RemovedRowsOk | src/timer.c:180-188 | unlinking a timer from every row keeps the rows nested |
| SkipRows.InsertSorted | src/timer.c:425-435 | a timer put behind all with deadlines up to its own keeps the list in order of deadline, and of start among equals |
| TimerAgenda.NextKeeps | src/timer.c:548-750 | every command keeps the list in order of deadline and start, and after every tick all running timers are in the future |
| TimerAgenda.FiresExactlyOnSchedule | src/timer.c:670-750 | over every run that does not name a running timer, it fires exactly at its deadline and, if periodic, exactly at every period after it, each time once |
| TimerAgenda.NeverFires | src/timer.c:670-750 | a timer that is not running never fires by itself |
| TimerAgenda.LogIsOnSchedule | src/timer.c:670-750 | the log of any run has a timer that is left alone exactly on its schedule |
| TimerAgenda.LeftAlone | src/timer.c:670-750 | one command, seen by a timer it does not name |
| TimerAgenda.FiredInStartOrder | src/timer.c:425-435 | timers due at the same tick fire in the order of their starts |
| TimerAgenda.RestartedInOrder | src/timer.c:670-750 | periodic timers that fire at the same tick start again in the same order |
| TimerCommands.NamedSeen | src/timer.c:395-640 | a start lists the timer for its time from now, running or not; a stop, a detach and a new time take it off; a change of kind leaves it where it is |
| TimerCommands.OthersSame | src/timer.c:395-640 | between ticks a command does nothing to the timers it does not name |
| TimerCommands.RunSetup | src/timer.c:577-640 | the setup of a timer is what the commands on it last said |
| TimerCommands.LogIsAsCommanded | src/timer.c:395-750 | over every run, by its log and its commands alone: after the last command on a timer, if that is a start the timer fires exactly on the schedule from then, with the time last set, and if it is a stop, a detach, a new time or a creation, never |
| TimerCommands.KindCountsLater | src/timer.c:605-625 | a change of kind changes only what follows the next firing |
| TimerSkipList.WrappedCompare | src/timer.c:425-437 | comparing 32-bit tick differences is comparing unbounded deadlines as long as they are less than half the range apart |
| TimerSkipList.EveryPowerEnters | src/timer.c:445-470 | exactly every `(MASK+1)`-to-the-`h`th start enters the row `h` above the last |
| TimerSkipList.TimerList.constructor | src/timer.c:124-149 | no timer runs at first |
| TimerSkipList.TimerList.Search | src/timer.c:420-443 | the search through all rows finds in each the place a scan would find |
| TimerSkipList.TimerList.InsertRows | src/timer.c:448-468 | how many rows a timer enters, from the start counter |
| TimerSkipList.TimerList.TimerStart | src/timer.c:398-473 | a start from any state inserts as the linear insertion does; a timer whose function is running is refused |
| TimerSkipList.TimerList.Start | src/timer.c:482-538 | the public start: the timer is in the last row, due its time from now, whether it was running or not, and no other timer changes |
| TimerSkipList.TimerList.Stop | src/timer.c:548-575 | fails exactly if the timer is not running; afterwards it is in no row, and no other timer changes |
| TimerSkipList.TimerList.Create | src/timer.c:124-149 | a new timer does not run |
| TimerSkipList.TimerList.Detach | src/timer.c:282-303 | a detached timer is gone from every row |
| TimerSkipList.TimerList.SetTime | src/timer.c:605-613 | setting the time stops a running timer, which is in no row then, and changes nothing else |
| TimerSkipList.TimerList.SetPeriodic | src/timer.c:615-621 | the kind of a timer can change while it runs |
| TimerSkipList.TimerList.NextTimeout | src/timer.c:757-767 | the deadline reported is that of the timer no other precedes |
| TimerSkipList.TimerList.Fire | src/timer.c:697-743 | one timer of the check: off the list, called, and back if it is periodic |
| TimerSkipList.TimerList.Check | src/timer.c:670-750 | the check terminates, calls exactly the due timers once each in order, and leaves only future ones |
| TimerSkipList.TimerList.Tick | src/clock.c:86-110 | one tick and the check after it |
| TimerSkipList.TimerList.Run | src/timer.c:398-750 | over every run of commands, across any number of wrap-arounds, the timers fired at each command are those of the agenda; so a running timer that is left alone fires exactly on schedule, and after the last command on a timer it fires as that command says |
| Bits.FfsIsLowest | src/kservice.c:1084-1107 | the table version of `__rt_ffs` returns the place of the lowest bit of every 32-bit value |
| Bits.FfsAgree | src/kservice.c:1047-1050 | the modulo-37 version returns the same |
| Bits.TableIsLowest | src/kservice.c:1052-1070 | every entry of the byte table but the first is the place of the lowest bit of its index |
| Bits.IsolatesLowest | src/kservice.c:1047-1050 | `value & (value - 1) ^ value` is the lowest bit |
| ReadyTable.InsertAgrees | src/scheduler_up.c:370-413 | setting the bits of a priority keeps the bitmap, of one level or two, in agreement with the lists |
| ReadyTable.RemoveAgrees | src/scheduler_up.c:422-452 | clearing them when a list becomes empty does too |
| ReadyTable.HighestIsFirst | src/scheduler_up.c:89-109 | one lookup in the bitmap finds the first non-empty list, in both forms and with both versions of `__rt_ffs` |
| ReadyTable.GroupIsZeroIff | src/scheduler_up.c:209-215 | the group word is zero exactly if no thread is ready |
| Placement.QueueInsert | src/scheduler_up.c:370-413 | an insertion puts exactly one thread into the queue |
| Placement.QueueRemove | src/scheduler_up.c:422-452 | a removal takes exactly one thread out |
| UpScheduler.NoInversion | src/scheduler_up.c:201-324 | after every scheduling that is not locked, no ready thread is more urgent than the running one, as long as anybody can run |
| UpScheduler.RoundRobin | src/scheduler_up.c:219-237 | a thread that yields among equals goes behind all of them |
| UpOrder.StaysAmongEquals | src/scheduler_up.c:196-330 | a running thread that does not yield stays unless somebody is strictly more urgent |
| UpOrder.PreemptedIsFirst | src/scheduler_up.c:212-260 | a preempted thread goes in front of its equals, and the first of the most urgent runs |
| UpOrder.YieldingIsLast | src/scheduler_up.c:212-260 | a yielding thread goes behind its equals |
| UpOrder.SuspendedLeaves | src/scheduler_up.c:212-260 | a thread that does not run any more enters no list |
| UpOrder.SwitchThreads | src/scheduler_up.c:240-260 | a switch changes the two threads it is between, and consumes the yield flag |
| UpOrder.RoundOfEquals | src/scheduler_up.c:212-260 | threads of equal urgency that yield in turn run in the order of their list, each once in a round |
| UpScheduler.Scheduler.constructor | src/scheduler_up.c:145-165 | no thread is ready at first |
| UpScheduler.Scheduler.Schedule | src/scheduler_up.c:201-324 | the scheduling does what a look at every list would decide, and keeps each ready thread in exactly one list and the running thread in none |
| UpScheduler.Scheduler.InsertThread | src/scheduler_up.c:370-413 | the running thread stays running; any other becomes ready at the front of its list, or at the end if it has yielded |
| UpScheduler.Scheduler.RemoveThread | src/scheduler_up.c:422-452 | the thread is in no list any more, all other threads stay where they are, and the bitmap agrees with the lists |
| UpScheduler.Scheduler.Start | src/scheduler_up.c:171-188 | the first of the most urgent threads runs, with no yield flag |
| UpScheduler.Scheduler.Create | src/scheduler_up.c:341-360 | a new thread is in no list |
| UpScheduler.Scheduler.Startup | src/scheduler_up.c:327-339 | the bits of a thread are those of its priority from its start-up on |
| UpScheduler.Scheduler.MakeReady | src/scheduler_comm.c:103-145 | succeeds exactly for suspended threads |
| UpScheduler.Scheduler.Suspend | src/thread.c:883-955 | only a running thread can suspend itself |
| UpScheduler.Scheduler.Yield | src/scheduler_comm.c:93-101 | a new time slice and the mark for the next scheduling |
| UpScheduler.Scheduler.TickIncrease | src/scheduler_comm.c:147-170 | at the end of its time slice the running thread yields, and the scheduling follows |
| UpScheduler.Scheduler.ChangePriority | src/scheduler_comm.c:175-217 | a ready thread moves to the front of the list of its new priority and loses its yield flag, and the bitmap follows |
| UpScheduler.Scheduler.EnterCritical | src/scheduler_up.c:498-517 | the lock counts |
| UpScheduler.Scheduler.ExitCritical | src/scheduler_up.c:523-548 | the last exit makes up for the switches put off |
| UpScheduler.Scheduler.Close | src/thread.c:435-487 | a closed thread is in no list |
| SmpScheduler.BestRuns | src/scheduler_mp.c:561-649 | after a switch a core runs, of all threads it may run, one of the most urgent |
| SmpScheduler.SwitchKeeps | src/scheduler_mp.c:561-649 | a switch keeps every ready thread in exactly the list of its home and priority, and every running one in none |
| SmpOrder.BestIs | src/scheduler_mp.c:213-245 | of the two queues a core looks at the more urgent is served, of equals its own |
| SmpOrder.StaysAmongEquals | src/scheduler_mp.c:561-640 | a running thread that does not yield and may stay, stays unless somebody is strictly more urgent |
| SmpOrder.YieldingIsLast | src/scheduler_mp.c:290-330 | a yielding thread goes behind its equals in the queue of its home, the first of the chosen list runs, and all other lists stay |
| SmpOrder.PreemptedIsFirst | src/scheduler_mp.c:290-330 | a thread that is preempted, or may not stay, goes in front of its equals in the queue of its home |
| SmpOrder.SuspendedLeaves | src/scheduler_mp.c:561-640 | a thread that is suspended enters no queue |
| SmpOrder.SwitchThreads | src/scheduler_mp.c:561-640 | a switch changes the two threads it is between, and consumes the yield flag |
| SmpOrder.RoundOfEquals | src/scheduler_mp.c:561-640 | threads of equal urgency in one queue that yield in turn run in the order of their list, each once in a round |
| SmpScheduler.Scheduler.constructor | src/scheduler_mp.c:390-434 | no thread is ready and no core taken at first |
| SmpScheduler.Scheduler.InsertThread | src/scheduler_mp.c:259-341 | already ready, still on a core, or into the queue of its home |
| SmpScheduler.Scheduler.RemoveThread | src/scheduler_mp.c:344-385 | the thread is in no list of its queue any more, all other threads and queues stay as they are, and the bitmap agrees with the lists |
| SmpScheduler.Scheduler.HighestThread | src/scheduler_mp.c:218-252 | the unsigned comparison, with -1 for an empty queue, finds the more urgent of the two queues, of equals the core's own |
| SmpScheduler.Scheduler.Switch | src/scheduler_mp.c:561-649 | the switch on one core does what a look at every list it may take from would decide |
| SmpScheduler.Scheduler.Start | src/scheduler_mp.c:440-482 | a core without a thread takes the most urgent one it may run, off its list |
| SmpScheduler.Scheduler.Create | src/scheduler_mp.c:992-1018 | a new thread is in no list and on no core |
| SmpScheduler.Scheduler.Startup | src/scheduler_mp.c:1021-1033 | the bits of a thread are those of its priority |
| SmpScheduler.Scheduler.MakeReady | src/scheduler_comm.c:103-145 | a thread still on a core goes on running there; any other enters its queue |
| SmpScheduler.Scheduler.Suspend | src/thread.c:883-955 | a suspending thread keeps its core until the next switch |
| SmpScheduler.Scheduler.Yield | src/scheduler_comm.c:93-101 | a new time slice and the mark for the next scheduling |
| SmpScheduler.Scheduler.ChangePriority | src/scheduler_comm.c:175-217 | a ready thread moves to the front of the list of its new priority in the queue of its home and loses its yield flag |
| SmpScheduler.Scheduler.Bind | src/scheduler_mp.c:1207-1240 | placement survives a change of core exactly if the thread is not ready; a ready thread is lost from every queue |
| SmpScheduler.BindLosesThread | src/scheduler_mp.c:1207-1240 | a run, from the start, that loses a thread: created, started, made ready and bound |
| MessageProtocol.NextKeeps | src/ipc.c:3368-4010 | every critical section of every call keeps the nodes in exactly one place, the data of nodes in flight, messages between one byte and the message size, and a woken thread for every message or free node anybody waits for |
| MessageProtocol.RunKeeps | src/ipc.c:3368-4010 | over every interleaving |
| MessageProtocol.PoolConserved | src/ipc.c:3127-3136 | queued, free and in-flight nodes together are always the pool |
| MessageProtocol.NeverOverflows | src/ipc.c:3533-3542 | the branch for an overflowing counter is never reached |
| MessageProtocol.RefinesDeque | src/ipc.c:3477-3542 | a send appends, or in priority mode goes behind all that are not less urgent; an urgent send prepends; a receive takes the first; nothing else changes the queue |
| MessageProtocol.ReceivesWhatItTook | src/ipc.c:3857-3880 | a receive returns the bytes of the message it took, cut to the buffer, whatever runs between its critical sections |
| MessageProtocol.StartInOrder | src/ipc.c:3084-3142 | a queue as it is initialized meets what the run theorems below assume |
| MessageProtocol.RunInOrder | src/ipc.c:3477-3542 | in FIFO mode, without urgent sends and resets, what is received is a prefix of what was accepted, in order, over every interleaving |
| MessageProtocol.RunBalanced | src/ipc.c:3368-4010 | over every interleaving, in either mode, each accepted message is received, dropped by a reset or still queued, once |
| MessageProtocol.RunByPriority | src/ipc.c:3492-3517 | in priority mode, without urgent sends and resets, over every interleaving the queue stays sorted, and of each priority what is received is a prefix of what was accepted, in order |
| MessageProtocol.InsertOfPriority | src/ipc.c:3492-3517 | a message goes behind all others of its priority, and the order within the other priorities stays |
| MessageProtocol.ReceiveStep | src/ipc.c:3751-3902 | in each step a receive goes on, or ends with the positive length of the message it took, or, having taken none, negative or by a reset, detach or delete |
| MessageProtocol.PositiveIsLengthIff | src/ipc.c:3747-3902 | a receive that ends positive ends with the length of the message it took if and only if the step that ends it is no reset, detach or delete of the queue |
| MessageProtocol.PositiveIffTaken | src/ipc.c:3747-3902 | over every run: a receive that took a message returns its length, cut to the buffer; one that took none returns a negative code, or `RT_ERROR` by a reset, detach or delete; in a run without these three it is positive exactly if it took a message |
| MessageProtocol.ErrorLooksLikeAMessage | src/ipc.c:3165-4020 | runs from the start, receive, wait, and reset or detach or delete, in which a receive returns the positive `RT_ERROR` although no message was ever accepted |
| MessageDelivery.SendStep | src/ipc.c:3368-3553 | in each step a send goes on with its message unchanged and nothing delivered, or ends with 0 and the message delivered once, or ends with an error |
| MessageDelivery.SendDelivers | src/ipc.c:3368-3553 | over every run from the call of a send: it ends with 0 if and only if it has put its message into the queue, once, with the bytes it was given and in priority mode its priority; else it ends negative, or with `RT_ERROR` by a reset, detach or delete, and has put nothing there |
| MessageDelivery.RunFrom | src/ipc.c:3368-3902 | over every interleaving all bytes in calls, in the queue and in what was received are those some send was given |
| MessageDelivery.ReceivedWasSent | src/ipc.c:3857-3880 | over every run from the start the bytes a receive returns are the front of those some send was given |
| MessageDelivery.UrgentIsNext | src/ipc.c:3626-3720 | an urgent message is the next to be received |
| MessageDelivery.FirstIsWoken | src/ipc.c:3544-3553 | a message wakes the first waiting receiver, a free node the first waiting sender, and nobody else |
| MessageQueue.Mailbox.constructor | src/ipc.c:3084-3143 | the free list of a new queue |
| MessageQueue.Mailbox.CallSend | src/ipc.c:3392-3394 | a message that is too long is refused |
| MessageQueue.Mailbox.Reserve | src/ipc.c:3408-3478 | the first critical section of a send; the thread then has the node and its message, or waits with it, or ends with -RT_EFULL |
| MessageQueue.Mailbox.Fill | src/ipc.c:3480-3489 | the copying between the critical sections disturbs no list |
| MessageQueue.Mailbox.InsertByPriority | src/ipc.c:3492-3517 | the loop over the links inserts behind all that are not less urgent, with its shortcut for the empty queue |
| MessageQueue.Mailbox.Append | src/ipc.c:3519-3530 | the new node becomes the last |
| MessageQueue.Mailbox.Prepend | src/ipc.c:3683-3690 | the new node becomes the first |
| MessageQueue.Mailbox.Link | src/ipc.c:3491-3556 | the second critical section of a send |
| MessageQueue.Mailbox.LinkUrgent | src/ipc.c:3679-3716 | the second critical section of an urgent send |
| MessageQueue.Mailbox.Take | src/ipc.c:3775-3872 | the first critical section of a receive, with head, tail and counter |
| MessageQueue.Mailbox.Read | src/ipc.c:3874-3885 | the copying out |
| MessageQueue.Mailbox.GiveBack | src/ipc.c:3889-3909 | the second critical section of a receive |
| MessageQueue.Mailbox.Expire | src/thread.c:117-145 | a waiting thread gives up with a negative code |
| MessageQueue.Mailbox.Clear | src/ipc.c:3984-4017 | the loop of a reset moves the queue to the free list and everybody leaves |
| MessageQueue.Mailbox.Detach | src/ipc.c:3165-3187 | every waiter of both lists leaves with the error, the queue is left as it is, and no call may begin on it any more |
| EventFlags.SendKeeps | src/ipc.c:1977-2042 | after a send no suspended receiver could go on with the flags that are set |
| EventFlags.SatisfiedIff | src/ipc.c:1985-2000 | a receiver is satisfied by all of its flags, or by any of them |
| EventFlags.SelectInOrder | src/ipc.c:1977-2042 | receivers are woken, and go on waiting, in the order in which they wait |
| EventFlags.LoneReceiver | src/ipc.c:1956-2212 | of two events in the same state, one is received from and then sent to, the other sent to and then received from: a receiver that has to wait, and waits alone, gets the same flags or none from both, and both are left with the same flags |
| EventFlags.ClearedBits | src/ipc.c:2010-2042 | a send clears exactly the flags that some woken receiver with the clear option took |
| EventFlags.Event.Send | src/ipc.c:1956-2052 | wakes exactly the receivers satisfied by the old and new flags together, tells each what it received, and clears what they took |
| EventFlags.Event.Receive | src/ipc.c:2088-2212 | at once, not at all, or suspended; the flags taken and cleared |
| EventFlags.Event.Expire | src/thread.c:117-145 | a receiver gives up |
| EventFlags.Event.Clear | src/ipc.c:2257-2285 | a reset clears all flags and wakes everybody |
| Semaphore.Sem.constructor | src/ipc.c:376-391 | the initial value |
| Semaphore.Sem.MakeReady | src/scheduler_comm.c:103-145 | readying a suspended thread never fails: a set timer flag means a running timer |
| Semaphore.Sem.Dequeue | src/ipc.c:105-146 | the first waiter is woken, awake and without a timer |
| Semaphore.Sem.Take | src/ipc.c:558-642 | immediate, refused or suspended; a positive value means that nobody waits |
| Semaphore.Sem.Release | src/ipc.c:695-741 | wakes exactly the first waiter or counts up; initial value and releases always equal value and takes |
| Semaphore.Sem.Expire | src/thread.c:117-145 | the expiring thread is always suspended, as the assertion in the timeout function expects, and leaves with a time-out |
| Semaphore.Sem.Resume | src/thread.c:994-1021 | a thread resumed from outside leaves interrupted, with -RT_EINTR |
| Semaphore.Sem.Reset | src/ipc.c:759-785 | every waiter leaves with -RT_ERROR, and counting starts anew |
| WorstCaseStack.ResolveAllCalls | tools/WCS.py:223-243 | every call is resolved or recorded as missing |
| WorstCaseStack.FindFxnIs | tools/WCS.py:84-99 | a call is to the global function of its name, else to the local one of its own translation unit, else unresolved |
| WorstCaseStack.WeightAdds | tools/WCS.py:270-289 | the weight of a chain of calls is the sum of the stacks of its functions |
| WorstCaseStack.MemoIsCorrect | tools/WCS.py:245-299 | whatever order it was filled in, a memo of all functions holds for each the right answer |
| WorstCaseStack.StackAnalysis.CalcWcs | tools/WCS.py:246-295 | the memoised recursion terminates and keeps every finished entry final |
| WorstCaseStack.StackAnalysis.CalcAllWcs | tools/WCS.py:245-299 | in any order of visits: unbounded exactly for the functions that reach a call cycle or a call through a pointer; for the others the maximum over all call paths and exactly the unresolved calls they can reach |
| WorstCaseStack.RecursionIsHopeless | tools/WCS.py:261-264 | a function met again on the stack reaches a call cycle |
| WorstCaseStack.BoundedIsNotHopeless | tools/WCS.py:266-295 | a function given a bound reaches neither a cycle nor a pointer call |
| Utf8.EncodeInjective | tools/mkromfs.py:31-36 | different names have different encodings |
| Utf8.EncodingShape | tools/mkromfs.py:194 | the first byte of an encoding tells its length, the others are continuation bytes, and the bits carried are the code point |
| RomImage.BinData | tools/mkromfs.py:165-214 | a folder or file is packed exactly if every word fits 32 bits, and then to the specified bytes |
| RomImage.FolderData | tools/mkromfs.py:165-214 | the loop over the children: entries, then payloads, at running addresses |
| RomImage.GetBinData | tools/mkromfs.py:233-244 | the whole image with its root entry |
| RomImage.WordValue | tools/mkromfs.py:62 | words are little-endian |
| RomImage.DirentLayout | tools/mkromfs.py:62-63 | an entry is type, address of the name, address of the data behind it, and size |
| RomImage.NameLayout | tools/mkromfs.py:31-36 | a name is its bytes and then NULs, at least one, up to a multiple of four characters |
| RomImage.PaddedLayout | tools/mkromfs.py:200-204 | contents are their bytes and as few NULs as make a multiple of four |
| RomImage.FolderLayout | tools/mkromfs.py:165-214 | a folder is its entries and then the names and contents they tell of |
| RomImage.EntryIsAt | tools/mkromfs.py:176-211 | the entry of each child is at sixteen bytes for each before it, and tells where its name is |
| RomImage.PayloadIsAt | tools/mkromfs.py:176-212 | the name of each child is where its entry says, and its contents are behind the name |
| RomImage.RootLayout | tools/mkromfs.py:233-244 | the root entry comes first, then its name, then the tree |
| RomImage.ReadersFindTheTree | tools/mkromfs.py:165-244 | following the absolute addresses and sizes of an image at any base finds exactly the tree, with names up to their first NUL |
| RomImage.RoundTripIffNulFree | tools/mkromfs.py:31-36 | the image reconstructs the tree exactly if no name contains NUL |
| RomImage.ImageDeterminesTree | tools/mkromfs.py:165-244 | two trees with NUL-free names and the same image are the same |
| RomImage.AddressesAlignedIff | tools/mkromfs.py:165-214 | all addresses are 4-aligned exactly if every encoded name is padded to a multiple of four |
| RomImage.NameAlignedIff | tools/mkromfs.py:31-36 | an encoded name is padded to a multiple of four exactly if it has a multiple of four continuation bytes: the padding counts characters, not bytes |
| RomImage.AsciiNamesAreAligned | tools/mkromfs.py:31-36 | the encoding of a name in ASCII is padded to a multiple of four |
| RomImage.NonAsciiNamesMayMisalign | tools/mkromfs.py:31-36 | a tree with one file whose name is one two-byte letter has an unaligned address, one whose name is four such letters has none |

## Left out

* Priority ceilings (`rt_mutex_setprioceiling`): a hand-off does not raise the new owner to the ceiling.
* Deleting and detaching mutexes, `_thread_detach_from_mutex`, and RT_THREAD_CTRL_CHANGE_PRIORITY on threads that
  wait for or own mutexes: these do not go through the re-sorting that inheritance rests on.
* A mutex time-out and the waiter's own clean-up, and a timer's expiry and its timeout function, are one step each.
* Delete and detach of events and semaphores, RT_IPC_CMD_SET_VLIMIT, and the mailbox. `rt_mq_delete` also frees the
  nodes: what a call does that is still in flight then is outside the model.
* `MessageQueue.Mailbox.Reserve` and `Take` leave the place of a suspending thread in its wait list to the caller of
  the model, as thread priorities belong to another module; the same holds for events and semaphores.
* The time left of a wait after a wake-up in the message queue: a woken thread may wait again or give up.
- MessageProtocol.RunByPriority: excludes urgent sends, which leave the priority of their node unset, and resets, which
  drop messages; RunBalanced covers them.
- MessageProtocol.RunInOrder: excludes urgent sends and resets, which change the order by design; RunBalanced covers them.
* Memory is a set of header fields apart from the payload bytes: a caller that overwrites a header is outside the
  model. Request sizes for which RT_ALIGN wraps, and pools of 2^31 bytes or more in memheap, are too.
* The retry of `_memheap_alloc` over several heaps, and `rt_slab_realloc`, which only combines the other operations.
* The counters `used` and `max` of the slab allocator. Its addresses are relative to the start of the first page, and
  alignment beyond the page size depends on where that is.
- EventFlags.Event.Send: models a word of 32 flags as the set of its bit numbers.
* Timers: callbacks that touch timers, zero periods, `rt_tick_set`, soft timers and their thread, and the
  multi-core race between expiry and start.
- TimerSkipList.TimerList.Tick: one check follows every tick, as in the tick interrupt; several ticks before a check
  are not modelled.
* The timer that a thread waits with is part of `Semaphore` only; the scheduler models leave it out.
* Inter-processor interrupts, pending-switch flags, interrupt nesting and the nested critical section of
  the multi-core scheduler; signals; stack checks; the switch of the processor context.
- WorstCaseStack.StackAnalysis.CalcWcs: functions are compared by identity, and Python's recursion limit is not modelled.
* Reading of object, RTL and stack-usage files in `tools/WCS.py`, and the walk of directories in `tools/mkromfs.py`.
- RomImage.BinData: words are little-endian, as on the hosts the images are made on; names are sequences of code points
  without surrogate escapes.
* Hooks, logging, MEMTRACE naming, RT_USING_SMART branches, object bookkeeping, and all other tools.
