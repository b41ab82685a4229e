# The RTOS kernel core in Dafny

This project models the core of the kernel and proves what its parts promise, first one by one and
then together:

* the **slot-table allocator** of `os/src/memory.c`: 64 packed words `offset[31..16] | size[15..1] |
  occupied[0]`, read through bit-fields in `allocate` and through masks in `deallocate` and `defrag`;
* the **in-place quicksort** of `os/src/data/quicksort.c` that `defrag` calls with a comparator;
* the **circular doubly linked task queues** of `os/src/data/queue.c`;
* the **scheduler** of `os/include/process/scheduler.h` and `os/src/process/scheduler.c`, with
  `create_task` of `os/src/process/task.c` and the boot and idle code of `os/src/core/runtime.c`.

## How it is organised

| file | module | content |
|---|---|---|
| `Sets.dfy` | `Sets` | sizes of finite sets |
| `Words.dfy` | `Words` | bit operations on words; the mask view and the bit-field view of a slot |
| `Chunks.dfy` | `Chunks` | a table as a sequence of chunks that tile memory; first fit, freeing |
| `Coalesce.dfy` | `Coalescing` | merging every run of adjacent free chunks |
| `Quicksort.dfy` | `Sorting` | quicksort on an array, for any comparator |
| `Defrag.dfy` | `Defragmenting` | the scan of `defrag` on words, and exactly when it is right |
| `Allocator.dfy` | `Allocation` | the allocator as a class over its array of words |
| `History.dfy` | `History` | any sequence of allocator calls |
| `Scheduler.dfy` | `Scheduling` | the operations of the scheduler on values |
| `Machine.dfy` | `Machines` | scheduler and processor as a state machine; its invariant |
| `Runs.dfy` | `Runs` | runs from boot; context-switch integrity; dead tasks |
| `Fairness.dfy` | `Fairness` | bounded bypass |
| `Laws.dfy` | `Laws` | what every event does, by membership, order and states alone |
| `Arrivals.dfy` | `Arrivals` | who comes into the running ring queues up behind those already there |
| `Deaths.dfy` | `Deaths` | INVALID by a fault, FINISHED by finishing |
| `Reaper.dfy` | `Reaping` | what one pass of the reaper misses, and how many passes are enough |
| `Interrupts.dfy` | `Interrupts` | the reaper with wake-ups between its rounds |
| `Pids.dfy` | `Pids` | process ids |
| `PidClash.dfy` | `PidClash` | a run on which two tasks get the same pid |
| `TaskMemory.dfy` | `TaskMemory` | what a task takes from the heap and gives back |
| `System.dfy` | `Systems` | scheduler, processor and heap as one state machine |
| `Creation.dfy` | `Creations` | when creation succeeds, what it asks of the heap and what it adds |
| `Projection.dfy` | `Projections` | runs of the system are runs of the scheduler; the run properties from boot |
| `Rings.dfy` | `Rings` | the queues as classes, nodes linked by pointers |
| `Kernel.dfy` | `Kernels` | the scheduler as a class on two rings |
| `Lifecycle.dfy` | `Lifecycles` | creation, clean-up, the reaper and boot, on rings and heap together |
| `Simulation.dfy` | `Simulation` | every operation in memory is one step of the state machine |

Each part exists twice. The imperative form (arrays, classes, nodes, TCBs) follows the C code step
by step; the form on values is what the properties of whole runs are about. The imperative methods
are proved equal to the functions on values, and `Simulation` puts them together: the kernel that
`setup_kernel_runtime` builds is the boot state of `Systems`, and from there on every operation
on the rings, the TCBs and the slot table is one step of that state machine. So its invariants hold
of the linked and packed data. The run properties are proved about the scheduler alone; `Projections`
proves that every run of `Systems` is one of its runs (`RunIsProjected`), and states bounded bypass,
context-switch integrity, dead tasks and pids again for every state that the system reaches from boot.

`Laws` states every event a second time without those functions: which tasks change ring, that nobody
else does, that both rings keep their order and a task that comes is last, and how each TCB changes.
Members and order determine a ring (`OrderDetermines`), so these laws leave no freedom in the rings.
`Creations` does the same for creation, with the sizes of its requests as a plain list.

A run is any sequence of events: wake-ups from interrupts at any time, also between the moment
`block_current_task` enables interrupts again and the PendSV that switches away; creations, blocks,
yields, finishes, faults, reaper passes, allocator calls of anyone else.

## Where the code does less than it looks

* `defrag` is right exactly for some tables. `Defragmenting.DefragFits` is the condition: offsets
  below 32768 (they are compared as signed 16-bit values), merged sizes below 32768, and no free run
  at the very end after something was merged (the bound `highest_used_entry` is never lowered). If no
  shift reads past the table, `DefragExact` proves it necessary and sufficient, whatever lies behind
  the table. `Defragmenting.Overread` counts the words that the shifts read behind the table: if they
  are virgin they do no harm, and if the first other one is `Lasting` the table is broken. A word is
  lasting if it is occupied, or has an offset, or has a size that does not add up, with the sizes of
  words behind it, to exactly 32767. In the running kernel it is the number of running tasks.
* A fresh chunk for more than 32760 bytes gets size 0, because rounding up wraps the 15-bit field
  (`Chunks.FreshSizeWraps`). Offsets are 16 bits wide and nothing checks the end of memory. What the
  table looks like afterwards is part of the contract of `Allocation.Allocator.Allocate`.
* On a table without any chunk, `deallocate` of the first usable address returns 1.
* One pass of the reaper can miss dead tasks. `Reaping.OnePassSuffices` says exactly when it does not.
* `dequeue_element` on the last node leaves `head` and `tail` pointing at it.
* After a reaping a new task may share its pid with another one. `Pids.PidIsFresh` says exactly when,
  `PidClash` is such a run from boot, and `wakeup_pid` then reaches a waiting task if and only if it
  is the first one in the ring with this pid (`Pids.WakeReachesTheFirst`).
* If interrupts wake tasks while the reaper walks, it may visit a node twice and miss new ones:
  exactly if, once it has come around, more tasks were woken behind its cursor than it removed
  (`Interrupts.NoNodeTwiceExactly`). `Interrupts.IdleVisitedTwice` is such a pass. It still removes
  only dead tasks, and at least half of them.
* `hardfault_handler` does not look who executes. A fault of idle breaks the invariant, and the next
  switch may undo it without the counter noticing (`Machines.IdleFaultBreaks`).
* The 4-bit `clean_up_requests` would wrap at 16 dead tasks. It never does, because 64 slots hold
  the two queues and at most 15 tasks (`Systems.GateIsExact`).

## Model

| member | source | states |
|---|---|---|
| Words.ViewsAgree | os/include/memory.h:22-32 | the bit-field view and the mask/shift view read the same three fields of a word, and the fields determine the word |
| Words.PackFields | os/include/memory.h:22-32 | a word written with given fields reads back as these fields, in both views |
| Words.ClearOccupiedFields | os/src/memory.c:174 | `& ~1` frees a slot and keeps its offset and size |
| Words.RewriteFields | os/src/memory.c:101-102 | the masked rewrite stores size modulo 2^15 and ORs the excess into the offset, which stays if the size fits |
| Chunks.RepresentsUnique | os/src/memory.c:256-323 | a table of words stands for at most one sequence of chunks |
| Chunks.LiveDisjoint | os/src/memory.c:256-323 | live blocks of a tiled table do not overlap, are 8-byte aligned and inside the carved bytes |
| Chunks.OffsetInjective | os/src/memory.c:301-309 | offsets strictly increase, so one offset names at most one slot |
| Chunks.DecideIsFirstFit | os/src/memory.c:251-331 | for 1..32760 bytes: NULL exactly if every slot is carved and no free chunk fits, else the lowest suitable slot |
| Chunks.DecideOutside | os/src/memory.c:248-331 | 0 and more than 32764 bytes are refused on every table; 32761 to 32764 are never served from a free chunk, and carved exactly if a slot is free |
| Chunks.FreshSizeWraps | os/src/memory.c:302-307 | a fresh chunk is large enough if and only if the request is at most 32760, and then has the least multiple of 8 that is; above, its size is 0 |
| Chunks.AllocationIsClean | os/src/memory.c:279-323 | the new block is live, large enough and was not live before; every other live block is unchanged |
| Chunks.AllocationKeepsSlots | os/src/memory.c:279-323 | no slot is split, merged or resized; exactly the slot at the granted offset becomes live |
| Chunks.FreeClearsOne | os/src/memory.c:160-182 | freeing an offset removes exactly the live block there, and nothing if no slot has that offset |
| Chunks.FreeKeepsSlots | os/src/memory.c:160-182 | freeing merges nothing: every slot keeps its size, and only the one at the offset its state |
| Coalescing.CoalesceKeepsBlocks | os/src/memory.c:59-110 | coalescing keeps the live blocks with their offsets and sizes in order, and the carved bytes |
| Coalescing.CoalesceLeavesNoFreePair | os/src/memory.c:59-110 | no two adjacent chunks are free afterwards |
| Coalescing.RunIsUsable | os/src/memory.c:95-102 | a request that fits the sum of a run of adjacent free chunks is then served without a virgin slot |
| Coalescing.CoalesceKeepsSatisfiable | os/src/memory.c:59-110 | a request that could be served before can be served afterwards |
| Sorting.Swap | os/src/data/quicksort.c:9-14 | exchanges two elements and nothing else |
| Sorting.MakePartition | os/src/data/quicksort.c:36-51 | permutes the slice and returns a position with nothing above it before and nothing below it behind |
| Sorting.QuicksortR | os/src/data/quicksort.c:25-34 | sorts A[lo..hi] for every comparator that is a total preorder, permutes it, leaves the rest alone; out-of-range bounds change nothing |
| Sorting.Quicksort | os/src/data/quicksort.c:4-7 | the same for the entry point |
| Sorting.StrictlySortedUnique | os/src/data/quicksort.c:25-34 | on a strictly increasing slice sorting is the identity |
| Defragmenting.ComparatorsQualify | os/src/memory.c:112-140 | the comparators by offset, by size and of integers meet the contract of quicksort |
| Defragmenting.SortIsIdentity | os/src/memory.c:66 | on a tiled table whose offsets are below 32768 the sort changes nothing |
| Defragmenting.LargeOffsetFirst | os/src/memory.c:112-125 | an offset of 32768 or more compares as negative and is sorted to the front |
| Defragmenting.ScanHolds | os/src/memory.c:68-108 | over a safe table the scan with its stale bound computes the coalesced table |
| Defragmenting.OverreadBreaks | os/src/memory.c:105-106 | a shift that reads any occupied word behind the table leaves one occupied slot too many: the scan never gets rid of it |
| Defragmenting.CopyStays | os/src/memory.c:68-107 | a free-looking word from behind the table that is lasting never disappears either: absorbed by a merge it is read again |
| Defragmenting.StaleBoundBreaks | os/src/memory.c:76-106 | a free run at the end of the table, scanned with a stale bound, swallows virgin slots |
| Defragmenting.DefragCorrect | os/src/memory.c:59-110 | on a table that fits, with virgin words wherever a shift reads behind it: the memory afterwards represents the coalesced table, and memory behind the table is untouched |
| Defragmenting.DefragExact | os/src/memory.c:59-110 | if no shift reads past the table, for any memory: the outcome is the coalesced table if and only if the table fits. Otherwise if and only if it fits and the words read are virgin, unless the first one that is not could turn into a virgin slot |
| Defragmenting.LastingBehindBreaks | os/src/memory.c:105-106 | any read past the table breaks it if the first word there, in the kernel the number of running tasks, is lasting |
| Defragmenting.SimplySafe | os/src/memory.c:59-110 | less than 32768 bytes carved, last used slot live and room for the longest free run make a table safe |
| Defragmenting.StaleBoundExample | os/src/memory.c:68-105 | a table of four chunks that defrag breaks, whatever lies behind it, although its first three chunks are safe |
| Allocation.Allocator.constructor | os/src/memory.c:142-158 | the table is 8-byte aligned, all virgin, and the memory behind it is untouched |
| Allocation.Allocator.Allocate | os/src/memory.c:240-332 | address and whole new table for every input: refusal, reuse, carving, and the wrapped cases, in which the table tiles memory no more |
| Allocation.Allocator.Deallocate | os/src/memory.c:160-182 | the table with exactly the named chunk freed, and when the result is 1 |
| Allocation.Allocator.UpdateMemoryStatistic | os/src/memory.c:189-212 | total_byte_alloced in 32 bits: stack, what lies below the table, the table and all live bytes; freeing NULL changes nothing |
| Allocation.Allocator.FindGapEnd | os/src/memory.c:75-89 | the first slot that is occupied or behind the bound |
| Allocation.Allocator.Merge | os/src/memory.c:95-106 | the words after merging one gap and shifting the rest |
| Allocation.Allocator.HighestUsedEntry | os/src/memory.c:63-66 | the last used slot; on a full table the loop leaves the table and stops at the first virgin word behind it |
| Allocation.Allocator.Defrag | os/src/memory.c:66-110 | every outcome on a table with a virgin slot as sort then scan; on a safe table the coalesced table |
| Allocation.CarveBreaks | os/src/memory.c:299-313 | a wrapped size or offset leaves a table that represents no tiling at all |
| History.ApplyKeepsConsistent | os/src/memory.c:59-332 | each call keeps: what is held is live and large enough, and nothing else is live |
| History.HeldBlocksAreDisjoint | os/src/memory.c:59-332 | after any history held blocks do not overlap, are aligned, and lie inside the carved bytes |
| Rings.Queue.IsolateNode | os/src/data/queue.c:52-73 | exactly this node leaves the ring; links, ends and size fit the remaining sequence |
| Rings.Queue.MoveNode | os/src/data/queue.c:75-94 | the node becomes the tail of the ring |
| Rings.Migrate | os/src/data/queue.c:52-94 | isolate then move: removed from one ring, appended to the other, both well-formed and disjoint |
| Rings.Queue.EnqueueElement | os/src/data/queue.c:106-126 | a new node with this data is the tail of the ring; the allocation before it is in Lifecycles.CreateTask |
| Rings.Queue.DequeueElement | os/src/data/queue.c:21-45 | the node leaves; the queue is well-formed afterwards if and only if it had at least two nodes |
| Rings.LinkedWithout | os/src/data/queue.c:70-71 | joining the two neighbours of a node links the ring without it |
| Kernels.Kernel.WakeupPid | os/include/process/scheduler.h:103-124 | on the rings: the first waiting task with this pid becomes READY at the tail of the running ring |
| Kernels.Kernel.BlockCurrentTask | os/include/process/scheduler.h:78-98 | on the rings: the current task waits, is the one to preserve, and currently_running rewinds to its predecessor or NULL; order and distances are in Laws.BlockEffect |
| Kernels.Kernel.WalkToReady | os/include/process/scheduler.h:144-153 | the walk ends at the first READY task behind the current one, or has come around |
| Kernels.Kernel.SwitchTask | os/include/process/scheduler.h:126-165 | on the rings: round robin, else idle woken, else idle forced; whom it wakes and dispatches is in Laws.PendSvEffect |
| Kernels.Kernel.ForcePid0IntoRunning | os/src/process/scheduler.c:237-252 | on the rings: the first running task with pid 0 becomes READY and current |
| Kernels.Kernel.FinishTask | os/src/process/scheduler.c:373-388 | on the rings: FINISHED, the parent woken if its join_pid is this task, one more request |
| Kernels.Kernel.CheckTasksAvailability | os/src/process/scheduler.c:112-129 | whether a READY task with this pid waits, which is never so while the queues are well-formed |
| Kernels.Kernel.JoinTask | os/src/process/scheduler.c:131-139 | so join_task changes nothing |
| Kernels.Kernel.InvalidateCurrentTask | os/src/process/scheduler.c:100-110 | on the rings: INVALID, one more request; Laws.InvalidateEffect has the rest |
| Kernels.Kernel.InsertScheduledTask | os/src/process/scheduler.c:60-77 | READY to the running ring, WAITING to the waiting ring; any other state and a node that could not be allocated are refused and change nothing |
| Kernels.Kernel.PendsvIsr | os/src/process/scheduler.c:254-267 | the stack pointer is saved to the preserved task, and the loaded one is that of the state machine |
| Kernels.Kernel.RunScheduler | os/src/process/scheduler.c:197-234 | idle is woken if nothing runs; the head of the running ring becomes current, else -1 |
| Kernels.RotationLinked | os/src/data/queue.c:52-94 | a ring read from any of its nodes is a ring |
| Machines.WakeupSound | os/include/process/scheduler.h:103-124 | waking keeps the queue invariant and every task that runs |
| Machines.BlockSound | os/include/process/scheduler.h:78-98 | blocking keeps the queue invariant |
| Machines.FinishSound | os/src/process/scheduler.c:373-388 | finishing keeps it, with the counter of dead tasks modulo 16 |
| Machines.ReapFromSound | os/src/process/scheduler.c:358-371 | reaping keeps it; only dead tasks leave, everything else is unchanged |
| Machines.CreateSound | os/src/process/task.c:71-72 | creation keeps it; the new task is READY with the number of tasks as pid |
| Machines.IdleIsDispatched | os/include/process/scheduler.h:155-164 | the fallback always ends on idle, READY in the running ring |
| Machines.SwitchTaskDispatches | os/include/process/scheduler.h:126-165 | switch_task from any sound state, also with NULL: current is non-NULL, in the running ring, READY and the one to preserve |
| Machines.IdleFaultBreaks | os/src/core/runtime.c:208-213 | a fault of idle breaks the invariant; if and only if no other task is READY the next switch revives idle, with one clean-up request that no pass will answer |
| Machines.StepKeepsInv | os/include/process/scheduler.h:78-165 | every event keeps the invariant: each task in exactly one ring, waiting ones WAITING, running ones not, idle alive and alone with pid 0, task_to_preserve the task that executes |
| Machines.TaskCount | os/src/process/scheduler.c:60-77 | tasks are conserved: their number is the size of both rings |
| Runs.BootInv | os/src/core/runtime.c:189-205 | the boot state satisfies the invariant |
| Runs.BootIsRunScheduler | os/src/core/runtime.c:189-205 | the boot state is what run_scheduler makes of idle alone |
| Runs.TaskResumesWhereItLeft | os/src/process/scheduler.c:254-267 | over all runs a task that is switched away from resumes with exactly the stack pointer it left with |
| Runs.TaskStartsAtItsFrame | os/src/process/task.c:89 | over all runs a new task starts with the frame that create_task prepared |
| Runs.DispatchLoadsSavedPsp | os/src/process/scheduler.c:254-267 | a task that does not execute finds the stack pointer of its TCB |
| Runs.DeadStaysDead | os/src/process/scheduler.c:100-110 | FINISHED and INVALID are final, and no PendSV dispatches such a task |
| Runs.DeadNeverDispatched | os/src/process/scheduler.c:358-388 | over all runs a dead task is never dispatched again |
| Fairness.BlockKeepsOrder | os/include/process/scheduler.h:83-96 | the rewind on block leaves the ring behind the current node as it was |
| Fairness.StepProgress | os/include/process/scheduler.h:78-165 | no event but an arrival lengthens the distance of a waiting task, and a context switch shortens it |
| Fairness.BoundedBypass | os/include/process/scheduler.h:126-165 | a READY task at distance d is dispatched within d context switches plus one for each wake-up or creation in between |
| Laws.OrderDetermines | os/src/data/queue.c:52-127 | order and members determine a ring to which at most one task was added |
| Laws.WakeEffect | os/include/process/scheduler.h:103-124 | the first waiting task with the pid, if any, becomes READY at the tail of the running ring; no other task changes or moves |
| Laws.FinishEffect | os/src/process/scheduler.c:373-388 | exactly the executing task becomes FINISHED; if its parent joins it, the first waiting task with the pid of the parent is woken as by wakeup_pid, else no ring changes |
| Laws.InvalidateEffect | os/src/process/scheduler.c:100-110 | exactly the executing task becomes INVALID; no ring changes |
| Laws.BlockEffect | os/include/process/scheduler.h:78-98 | the executing task is last in the waiting ring; everybody else keeps the order from the head in both rings, and the distance to the current node |
| Laws.PendSvEffect | os/include/process/scheduler.h:126-165 | a context switch moves idle, and nobody else, exactly if idle waits and no task is current, the flag of a transferred task is set, or no running task is READY; it dispatches idle from NULL and else the first READY task behind the current one, with the stack pointer it left with |
| Laws.TransferWakesIdle | os/include/process/scheduler.h:139-142 | with the flag and a current task, idle is READY in the running ring afterwards; the others keep ring and order |
| Laws.TransferIsServed | os/src/core/runtime.c:160-164 | over all runs: once a switch has found the flag, idle is dispatched within as many switches as there are running tasks plus one for each arrival |
| Laws.NoTransferLeavesRings | os/include/process/scheduler.h:144-153 | without the flag both rings stay as they are while some running task is READY |
| Laws.ReapOrder | os/src/process/scheduler.c:358-371 | after a pass the running ring is the old one with nodes left out, in order |
| Laws.StepKeepsOrder | os/src/data/queue.c:52-127 | no event reorders a ring: who stays keeps the order from head to tail, who comes is behind them |
| Laws.ProcessorEffect | os/include/process/scheduler.h:78-124 | only a context switch changes who executes, only block_current_task moves the current node, and exactly block, yield, finish and fault request a switch |
| Arrivals.ArrivalsQueueUp | os/include/process/scheduler.h:78-165 | over all runs: a task that comes into the running ring is not dispatched before a READY task that lay between the current node and the tail |
| Deaths.DiesInStep | os/src/process/scheduler.c:100-110 | a fault leaves the executing task INVALID, and a task that is INVALID after an event was so before unless the event is its fault; the same for FINISHED and finishing |
| Deaths.DeathsFromBoot | os/src/process/scheduler.c:373-388 | over all runs from boot an unreaped task is INVALID if and only if a fault killed it, FINISHED if and only if it finished |
| Reaping.PassLeavesUnvisited | os/src/process/scheduler.c:358-371 | exactly which dead tasks a pass leaves: those it does not visit |
| Reaping.PassReapsHalf | os/src/process/scheduler.c:358-371 | a pass removes only dead tasks, and at least half of them |
| Reaping.RepeatedPassesReapAll | os/src/core/runtime.c:153-158 | k passes leave at most dead / 2^k, so repeated passes reap all |
| Reaping.OnePassSuffices | os/src/process/scheduler.c:358-371 | one pass reaps all if and only if position of the last dead task plus number of dead tasks is within the ring |
| Reaping.OnePassExample | os/src/process/scheduler.c:361 | of three dead tasks behind idle one pass misses the last |
| Interrupts.RoundsAreThePass | os/src/process/scheduler.c:358-371 | rounds without interrupts are the pass |
| Interrupts.InterruptedPassReapsHalf | os/src/process/scheduler.c:358-371 | with any wake-ups between the rounds every live task stays, with pid and stack pointer, and by its end the pass has removed at least half of the dead ones |
| Interrupts.InterruptedPassEnds | os/src/process/scheduler.c:361 | it ends after one round for each node, one for each interrupt, and the last comparison |
| Interrupts.NoNodeTwiceExactly | os/src/process/scheduler.c:360-370 | with any wake-ups: no node is visited twice if and only if, at no round after the walk came around, more tasks were woken behind the cursor than were removed |
| Interrupts.NoNodeTwice | os/src/process/scheduler.c:360-370 | so without interrupts no node is visited twice |
| Interrupts.IdleVisitedTwice | os/src/process/scheduler.c:360-370 | with one clean-up request: two wake-ups after the dead task was removed make the pass visit idle again; it ends without visiting the two tasks that were woken |
| Pids.StepKeepsDense | os/src/process/task.c:71 | without reaping the pids stay 0..n-1, each of one task |
| Pids.PidsFromBoot | os/src/process/task.c:71 | over all runs from boot without reaping the pids are exactly 0..n-1 |
| Pids.WakeMovesTheNamedTask | os/include/process/scheduler.h:103-124 | wakeup_pid then moves the one task that has the pid |
| Pids.PidIsFresh | os/src/process/task.c:71 | a new pid is unique if and only if no task has the number of tasks as pid |
| Pids.WakeReachesTheFirst | os/include/process/scheduler.h:103-124 | a waiting task runs after its pid is woken if and only if no waiting task in front of it has the same pid |
| Pids.WakeMissesTheSecond | os/include/process/scheduler.h:103-124 | of two waiting tasks with the same pid, the second one stays WAITING |
| PidClash.SecondPid2 | os/src/process/task.c:71 | a run from boot with one reaping after which two tasks have pid 2 |
| PidClash.OneOfTwoWakes | os/include/process/scheduler.h:103-124 | that run goes on: both wait, and waking pid 2 wakes only one |
| TaskMemory.CreateMemoryIsClean | os/src/process/task.c:46-104 | stack, TCB, child list and queue node are live, large enough, pairwise different and new; nothing live is lost; which requests are made and when they succeed is in Creations.CreationServes |
| TaskMemory.NoListNoNode | os/src/process/task.c:102-128 | if the child list cannot be allocated, creation fails |
| TaskMemory.CleanUpFreesExactly | os/src/process/scheduler.c:334-356 | exactly code section, stack, TCB and node of the task are freed, and no deallocation fails |
| TaskMemory.FrameStaysInStack | os/src/process/task.c:16-33 | fill and frame are together exactly the first 1536 bytes of the stack block: the fill ends where the frame begins, the frame ends at stack + 1536; every other live block lies outside both |
| TaskMemory.RefusalIsMonotone | os/src/memory.c:251-331 | a refused request stays refused for every larger size |
| Systems.TasksFitTable | os/src/process/task.c:46-128 | four blocks of each task have to fit into the 64 slots |
| Systems.TasksAndQueuesFit | os/src/process/task.c:46-128 | with the two queues, at most 15 unreaped tasks |
| Systems.CleanUpKeepsOthers | os/src/process/scheduler.c:334-356 | cleaning up one task leaves every block of every other task |
| Systems.ReapFreesExactly | os/src/process/scheduler.c:334-371 | a pass frees exactly the blocks of the tasks it removes |
| Systems.StepAtKeepsInv | os/src/core/runtime.c:153-187 | every event, also a call of the allocator by anyone, keeps scheduler invariant and ownership of blocks, those of the two queues included |
| Systems.GateIsExact | os/src/core/runtime.c:155-158 | in every reachable state the counter is the number of dead tasks, at most 14, so the gate never skips a needed pass |
| Systems.BootSystemInv | os/src/core/runtime.c:189-205 | booting on an empty table succeeds and establishes the invariant |
| Creations.CreationServes | os/src/process/task.c:46-104 | creation serves the requests 1600, 52, 8 for the link in the parent's list if there is one, 8, 12, in this order until one is refused, whether or not the task is external |
| Creations.CreationOutcome | os/src/process/task.c:46-128 | it succeeds if 5 slots are free, 4 without parent; success adds exactly 5 live blocks, 4 without; it fails if and only if one of the requests is refused on the table that the ones before it left |
| Creations.ExternalLikeInternal | os/src/core/runtime.c:160-164 | a received program becomes a task exactly if any other task would |
| Creations.SpawnSucceeds | os/src/process/task.c:46-128 | in every reachable state with 5 free slots the task is made: READY at the tail, its frame at the end of its 1536 bytes of stack |
| Creations.BootLayout | os/src/core/runtime.c:189-205 | offset and size of each block after boot |
| Projections.RunIsProjected | os/src/core/runtime.c:153-187 | every run of the system is, for its scheduler, a run of the machine |
| Projections.BypassFromBoot | os/include/process/scheduler.h:126-165 | bounded bypass in every state the system reaches from boot |
| Projections.ResumesFromBoot | os/src/process/scheduler.c:254-267 | in every such state: a task resumes with the stack pointer it left with |
| Projections.StartsFromBoot | os/src/process/task.c:89 | in every such state: a new task starts with the frame in the stack block that it owns: at its first dispatch psp + 64 is base + stack + 1536 |
| Projections.DeadFromBoot | os/src/process/scheduler.c:358-388 | in every such state: a dead task is never dispatched again |
| Projections.SystemPidsFromBoot | os/src/process/task.c:71 | in every state reached without reaping the pids are exactly 0..n-1 |
| Lifecycles.CreateTask | os/src/process/task.c:35-135 | rings and table after success and after failure; the new node and TCB lie in the blocks allocated for them; when it succeeds is in Creations.CreationOutcome |
| Lifecycles.CleanUpTask | os/src/process/scheduler.c:334-356 | rings and table afterwards; no panic is raised |
| Lifecycles.SearchInvalidateTasks | os/src/process/scheduler.c:358-371 | the loop over the shrinking ring does to rings and table what the pass on values does; no panic is raised |
| Lifecycles.SetupKernelRuntime | os/src/core/runtime.c:189-205 | boot succeeds on an empty table and builds the boot state |
| Simulation.Boot | os/src/core/runtime.c:189-205 | the kernel in memory refines the boot state, with its invariant |
| Simulation.Wake | os/include/process/scheduler.h:103-124 | one step of the state machine, from any state it can reach |
| Simulation.Block | os/include/process/scheduler.h:78-98 | the same |
| Simulation.Finish | os/src/process/scheduler.c:373-388 | the same, with the join of the parent as the TCBs have it |
| Simulation.Invalidate | os/src/process/scheduler.c:100-110 | the same |
| Simulation.SwitchContext | os/src/process/scheduler.c:254-267 | the same, and the stack pointer that is loaded is that of the state machine |
| Simulation.Spawn | os/src/process/task.c:35-135 | the same; if creation fails the scheduler is as before |
| Simulation.ReapGate | os/src/core/runtime.c:155-158 | the same; no panic is raised |
| Simulation.Take | os/src/memory.c:240-332 | the same |
| Simulation.Return | os/src/memory.c:160-182 | the same |
| Simulation.Compact | os/src/memory.c:59-110 | the same |

## Left out

- Inline assembly, SVC numbers, register save and restore, SysTick, NVIC and the fault handlers: a PendSV saves one stack pointer and loads another, and a fault is an `Invalidate` event.
- A fault of idle is not an event of the machine; `Machines.IdleFaultBreaks` says what it does. A usage fault of idle reboots (os/src/core/runtime.c:220-224), and idle never finishes. A hard fault between a block and its PendSV is not an event either.
- Interrupts inside an operation: allocator calls, queue operations, creations and single rounds of the reaper are atomic steps. In the state machine a whole pass is one step; wake-ups between its rounds are the subject of `Interrupts`.
- Mutexes (os/src/mutex.s:10-18), and the missing release of one on a bad size (os/src/memory.c:248-249).
- Allocation.Allocator.Defrag: asks for a virgin slot in the table. On a full table the first loop leaves the table (`Allocation.Allocator.HighestUsedEntry`), and sort and scan then run over foreign memory, which the model does not follow.
- Allocation.Allocator.constructor: asks for RAM that ends below the top of the address space and holds at least 128 words.
- Allocation.Allocator.UpdateMemoryStatistic: the counters of calls, which exist with DEBUG set only.
- Defragmenting.DefragExact: not decided if a shift reads past the table and the first word there that is not virgin is 0, or has no offset and a size that adds up, with the words behind it, to exactly 32767. A later merge may turn such a word into a virgin slot. The number of running tasks is not 0 while a task calls `defrag`.
- Systems.StepAtKeepsInv: events ask that carved memory fits the 16-bit offsets and that requests for fresh chunks are at most 32760 bytes; what happens otherwise is stated by `Allocation.Allocator.Allocate`, and the state machine ends there.
- Runs.DeadNeverDispatched: a run in which a new task gets the node address of the dead one is excluded, because nodes name tasks.
- Kernels.Kernel.FinishTask: a parent that was reaped keeps its last `join_pid` here, while its memory may already be reused; a task without parent is not joined, while the code reads through NULL.
- A full table during creation: if the link in the parent's child list or the child list itself cannot be allocated, the code writes through NULL, because `invoke_panic` returns. The model goes on and fails at the queue node (`TaskMemory.NoListNoNode`).
- Contents of child lists: `create_task` pushes the address of a local variable (os/src/process/task.c:99). Their allocations are modelled; `kill_*` and `single_list_*` are not.
- Contents of stacks: the frame and the fill are placed, not written.
- Sizes of TCBs without DEBUG: the model uses 52 bytes, the size with DEBUG set.
- `task_sleep` and timers: only the wake-up event that results.
- `collect_os_statistics`, `update_process_statistic`, `is_task_currently_running` and kernel subtasks: reporting code.
- Device drivers, radio and sensor libraries, packages, build scripts.
