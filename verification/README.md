# Resource managers of a small 64-bit kernel

The kernel is a single-core teaching kernel: it hands out memory, schedules processes by priority with aging, and offers
named semaphores, pipes and a one-place buffer built on semaphores by user programs. This project models those resource
managers and proves what they promise, over all inputs and all runs.

Every manager appears twice. A specification gives its state as a value and each operation as a function on it; the laws
are proved there. A class keeps the state the way the kernel does (headers in raw memory and links between them, arrays
shifted in place, circular buffers, reference counts) and each of its methods is proved to compute the specification.

| files | what they hold |
|---|---|
| `Bits`, `BuddySpec`, `BuddySteps`, `BuddyLaws`, `BuddyStatus`, `BuddyHeap` | the buddy system: exclusive-or address arithmetic, splitting and coalescing, the free lists as links in memory |
| `FirstFitSpec`, `FirstFitLaws`, `FirstFitHeap` | the first-fit memory manager |
| `Allocator`, `StatusLaws` | the interface that both memory managers implement, and what their status reports mean |
| `RunQueue`, `Choice`, `BoundedWaiting`, `Scheduler`, `Turns`, `Fairness`, `Aging` | the run queue with cursor and aging, who is chosen in plain numbers, the bound on waiting, the queue in memory, the length of a turn, the bound in ticks, where aging goes too far |
| `ProcessSpec`, `ProcessLaws`, `ProcessRuns`, `Pointwise`, `WaitPid`, `WaitWitness`, `ProcessMemory`, `Kernel`, `Syscalls`, `Boot` | the life cycle of processes over scheduler and heap, from set-up on |
| `PidQueue`, `SemaphoreSpec`, `SemaphoreLaws`, `SemaphoreOrder`, `SemaphoreResults`, `Semaphores` | named semaphores with first-come-first-served hand-off and clean-up at death |
| `MVar`, `MVarBooks`, `TwoSemaphores`, `MVarDeath`, `MVarWitness` | the one-place buffer of user programs, and the death of its users |
| `PipeSpec`, `PipeLaws`, `PipeRuns`, `PipeWakeups`, `PipeWitness`, `PipeEnds`, `FdLedger`, `Pipeline`, `Pipes`, `Files` | pipes and the descriptor table, who refers to a descriptor, and the shell's pipeline |
| `BlockedFrames`, `SleepFrames`, `WholeKernel` | process table, semaphores and pipes together: who is alive, who is blocked, and who is woken by a call or a death |
| `Basics`, `Ring` | optional values, duplicate-free queues, stored names; walking round a ring |

A process is named by its slot in the process table where the scheduler is concerned and by its pid elsewhere. Addresses
are offsets from the start of the heap; -1 stands for the null pointer. One kernel entry with its pending switch is one
step, since the gates disable interrupts and the switch is made before the return to the program.

What the environment has to respect is stated where it matters: idle makes no calls and is never killed or blocked; only
the semaphore or pipe that parked a process wakes it; a user program frees only blocks it holds; the conservation of
semaphores is over processes that open a semaphore once, by a name that fits, wait and close only when not holding and
post only when holding; wake-ups of pipes that depend on there being one reader and one writer say so.

Where the code does less than it seems to promise:

- The comments on semaphore clean-up and on the one-place buffer say that a participant can die without upsetting it. It
  can before it has opened both semaphores, while it waits, and anywhere between its wait and its post, where its death
  undoes the call. It cannot between two calls once it has completed one, since it is still marked as holding a unit that
  it has passed on; and the last one to go must leave the slot empty. `MVarDeath.DeathKeepsBufferIff` is the exact
  condition for the token and the values together, `MVarDeath.OnePlaceFifoWithDeaths` what holds over runs that respect
  it, and `MVarWitness.DeathAfterPut` a run from a fresh buffer that does not.
- When no descriptor is free, pipe returns -1 but the new pipe stays in use for good.
  `PipeRuns.StrandedIffNoDescriptor` is the exact condition, `PipeRuns.StrandedForever` the consequence, and
  `PipeWitness.PipeIsLost` a run from the empty tables that gets there.
- The comment on the aging bonus says that a process of priority 1 never exceeds an effective priority of 5. In the
  foreground, which counts one, it reaches 6. `RunQueue.AgingWithinRange` is the exact condition and
  `Aging.AgingPassesTheMaximum` a run from start-up that gets there.
- The buddy system's set-up accepts any size of memory, but uses each order once. `BuddyLaws.InitialValidIff`: it cuts up
  the whole memory exactly for a multiple of 16 bytes below 2^24, and the kernel's 8 MiB are one. `BuddyLaws.TailIsLost`
  is a size that it accepts and does not cut up: 24 bytes.
- Unblocking takes no notice of what a process waits for. `ProcessLaws.UnblockSettles`: what holds between kernel entries
  survives exactly if the process does not wait for a child. `WaitWitness.UnblockedTooEarly` is a run from start-up to a
  process that does.

## Model

| member | source | states |
|---|---|---|
| Bits.XorFlipsOneBit | Kernel/c/memoryManager/memoryManagerBuddy.c:60-71 | exclusive or of an offset with 2^k is the start of the other half of the pair of order k, for every offset and k |
| Bits.SiblingFacts | Kernel/c/memoryManager/memoryManagerBuddy.c:60-71 | the buddy of an aligned run is the adjacent aligned run, and the lower of the two starts an aligned run of twice the size |
| Bits.HalvesAreSiblings | Kernel/c/memoryManager/memoryManagerBuddy.c:143-152 | the two halves a split makes are each other's buddies, and the lower one keeps the address |
| BuddySpec.HeaderLookupSound | Kernel/c/memoryManager/memoryManagerBuddy.c:60-71 | in a tiled heap, whenever the buddy address of a block lies inside the heap, a block of at most the same order starts exactly there, so the header read is a real one |
| BuddyHeap.BuddyHeader | Kernel/c/memoryManager/memoryManagerBuddy.c:185-191 | what the coalescing loop reads at the buddy's address is true exactly when the buddy is a free block of the same order; past the end of the heap there is none |
| BuddySteps.MergeKeepsInv | Kernel/c/memoryManager/memoryManagerBuddy.c:185-205 | one turn of the coalescing loop keeps tiling, lists and freedom from free buddies, leaves the allocated blocks alone, and finds the buddy in the list of its order |
| BuddySteps.SplitKeepsInv | Kernel/c/memoryManager/memoryManagerBuddy.c:143-152 | one split keeps the whole invariant and the allocated blocks |
| BuddySteps.CarveKeepsValid | Kernel/c/memoryManager/memoryManagerBuddy.c:140-155 | taking a list head and cutting it down keeps the invariant and adds exactly one allocated block |
| BuddySteps.CoalesceKeepsValid | Kernel/c/memoryManager/memoryManagerBuddy.c:185-209 | the coalescing loop, wherever it stops, ends with no two free buddies of equal order and every free block in its list |
| BuddySteps.ReleaseKeepsValid | Kernel/c/memoryManager/memoryManagerBuddy.c:171-210 | free keeps the invariant and removes exactly the one block from those allocated |
| BuddyLaws.InitialValid | Kernel/c/memoryManager/memoryManagerBuddy.c:91-117 | the greedy decomposition tiles every heap of a multiple of 16 bytes below 2^24 and lists each block once |
| BuddyLaws.InitialValidIff | Kernel/c/memoryManager/memoryManagerBuddy.c:91-117 | for every size: what mm_init leaves is a whole heap if and only if the size is a multiple of 16 bytes and below 2^24; otherwise some last bytes are in no block |
| BuddyLaws.TailIsLost | Kernel/c/memoryManager/memoryManagerBuddy.c:91-117 | such a size: of 24 bytes, which mm_init takes, one block of 16 is made, and byte 16 is in no block |
| BuddyLaws.FreeBlockIffMaximalRun | Kernel/c/memoryManager/memoryManagerBuddy.c:91-210 | a block is free exactly where an aligned run of free bytes of its size lies that is part of no larger one: the free blocks follow from the allocated ones |
| BuddyLaws.CanonicalForm | Kernel/c/memoryManager/memoryManagerBuddy.c:91-210 | two heaps with the same allocated blocks have the same blocks |
| BuddyLaws.AllFreedIsInitial | Kernel/c/memoryManager/memoryManagerBuddy.c:91-210 | with nothing allocated the heap is the decomposition of mm_init again, free lists in order included |
| BuddyLaws.RunKeepsValid | Kernel/c/memoryManager/memoryManagerBuddy.c:119-210 | every run of malloc and free keeps tiling, alignment, exact free lists and no free buddies |
| BuddyLaws.HistoryDoesNotMatter | Kernel/c/memoryManager/memoryManagerBuddy.c:91-210 | any two histories that leave the same blocks allocated leave the same heap; one that leaves none has restored mm_init's |
| BuddyLaws.OrderIsLeast | Kernel/c/memoryManager/memoryManagerBuddy.c:47-57 | the order computed is the least whose blocks hold the size, and none exactly when 2^23 is too small |
| BuddyLaws.AllocFailsIffNoRun | Kernel/c/memoryManager/memoryManagerBuddy.c:119-138 | malloc returns NULL exactly for size 0, for a size above the largest order, or when no aligned run of wholly free bytes of the needed order exists; and then changes nothing |
| BuddyLaws.AllocGrants | Kernel/c/memoryManager/memoryManagerBuddy.c:119-160 | what malloc grants was a free aligned run of an order that holds size and header, and is the only change to the allocated blocks |
| BuddyLaws.AllocTakesSmallestRun | Kernel/c/memoryManager/memoryManagerBuddy.c:129-143 | best fit, on the allocated blocks alone: the address granted starts a maximal aligned free run, and no maximal free run that holds the request is smaller |
| BuddyLaws.LastFreedIsNext | Kernel/c/memoryManager/memoryManagerBuddy.c:87-157 | the block freed last, if nothing could be merged with it, is the one handed out next for a request of its order |
| BuddyLaws.PayloadsSound | Kernel/include/memoryManager.h:22-31 | live payloads lie inside the heap after their headers and share no byte with any other block |
| BuddyLaws.AllocRefines | Kernel/include/memoryManager.h:22-28 | a granted request is a step of the abstract allocator: fresh payload, large enough, all others untouched; the user count goes up only for users |
| BuddyLaws.ReleaseRefines | Kernel/include/memoryManager.h:30-31 | a free is a step of the abstract allocator: that payload goes and no other |
| BuddyHeap.Heap.constructor | Kernel/c/memoryManager/memoryManagerBuddy.c:91-117 | memory set up holds exactly the initial decomposition |
| BuddyHeap.Heap.SizeToOrder | Kernel/c/memoryManager/memoryManagerBuddy.c:47-57 | the loop computes the least order |
| BuddyHeap.Heap.GetBuddy | Kernel/c/memoryManager/memoryManagerBuddy.c:60-71 | the address by exclusive or is the sibling's, or null exactly when the sibling would reach past the heap |
| BuddyHeap.Heap.ListRemove | Kernel/c/memoryManager/memoryManagerBuddy.c:74-85 | after the walk over raw links the list of that order is the old one without the target, and only one link or head was written |
| BuddyHeap.Heap.SplitDown | Kernel/c/memoryManager/memoryManagerBuddy.c:143-152 | the splitting loop in memory computes the split of the specification and writes in no live block |
| BuddyHeap.Heap.MallocImpl | Kernel/c/memoryManager/memoryManagerBuddy.c:119-160 | malloc in memory is the allocation of the specification, returns the payload address or null, and writes no granule of any live block |
| BuddyHeap.Heap.Malloc | Kernel/c/memoryManager/memoryManagerBuddy.c:162-164 | as MallocImpl, for a user |
| BuddyHeap.Heap.MallocKernel | Kernel/c/memoryManager/memoryManagerBuddy.c:166-168 | as MallocImpl, for the kernel |
| BuddyHeap.Heap.CoalesceUp | Kernel/c/memoryManager/memoryManagerBuddy.c:184-209 | the loop that reads neighbours' headers from raw memory computes the coalescing of the specification |
| BuddyHeap.Heap.Free | Kernel/c/memoryManager/memoryManagerBuddy.c:171-210 | free of a live block is the release of the specification, writes in no block that stays live, and counts user blocks right |
| BuddyHeap.Heap.Status | Kernel/c/memoryManager/memoryManagerBuddy.c:217-247 | the walk by headers ends at the end of the heap; free, used and used_kernel are the bytes in blocks of each use and add up to total; the count is that of live user payloads |
| BuddyHeap.Heap.UserWrite | Kernel/c/memoryManager/memoryManagerBuddy.c:87-210 | whatever a program writes into its own block, link granule included, cannot disturb the allocator's state |
| StatusLaws.AllocMovesBytes | Kernel/c/memoryManager/memoryManagerBuddy.c:217-247 | what the report says after an allocation: the bytes of the block have moved from free to used, or used_kernel for the kernel, and the third number is as before |
| StatusLaws.FreeMovesBytes | Kernel/c/memoryManager/memoryManagerBuddy.c:217-247 | a free moves them back |
| FirstFitLaws.AllocTakesLowestGap | Kernel/c/memoryManager/memoryManagerFF.c:34-66 | malloc takes the lowest address at which a header and the rounded size fit between live blocks, and refuses a nonzero request exactly when there is none |
| FirstFitLaws.AllocCutsIffRoom | Kernel/c/memoryManager/memoryManagerFF.c:45-59 | the block handed out has exactly the rounded size if a header and eight bytes more are free behind it, and otherwise takes the whole gap |
| FirstFitLaws.CanonicalForm | Kernel/c/memoryManager/memoryManagerFF.c:19-102 | the live blocks alone determine the whole list of blocks |
| FirstFitLaws.RunKeepsValid | Kernel/c/memoryManager/memoryManagerFF.c:34-102 | every run keeps the list tiling the heap in address order with no two free neighbours |
| FirstFitLaws.HistoryDoesNotMatter | Kernel/c/memoryManager/memoryManagerFF.c:19-102 | any two histories that leave the same blocks live leave the same list; freeing everything restores the single initial block |
| FirstFitLaws.AllocRefines | Kernel/include/memoryManager.h:22-28 | a granted request is a step of the same abstract allocator as the buddy system's |
| FirstFitLaws.ReleaseRefines | Kernel/include/memoryManager.h:30-31 | a free is a step of that allocator |
| FirstFitLaws.EveryByteCounted | Kernel/c/memoryManager/memoryManagerFF.c:107-135 | the sums of the status walk account for every byte of the heap |
| FirstFitLaws.UserBlocksAreUserPayloads | Kernel/c/memoryManager/memoryManagerFF.c:121-131 | the number of user blocks met by the walk is the number of live user payloads |
| FirstFitSpec.ReleaseLaws | Kernel/c/memoryManager/memoryManagerFF.c:76-102 | free removes just that block from the live ones and, by the forward loop and the backward step together, leaves no two free neighbours |
| FirstFitSpec.CarveLive | Kernel/c/memoryManager/memoryManagerFF.c:45-59 | the block handed out has at least the rounded size and less than that plus the smallest splittable rest |
| FirstFitHeap.Heap.constructor | Kernel/c/memoryManager/memoryManagerFF.c:19-32 | one free block, or no heap at all for memory no larger than a header |
| FirstFitHeap.Heap.Seek | Kernel/c/memoryManager/memoryManagerFF.c:42-63 | the walk over linked headers stops at the first block that fits |
| FirstFitHeap.Heap.MallocImpl | Kernel/c/memoryManager/memoryManagerFF.c:34-66 | malloc in memory, with the size, the flags and the link of each header as words of their own, is the allocation of the specification and writes no word of any live block; null before set-up |
| FirstFitHeap.Heap.Malloc | Kernel/c/memoryManager/memoryManagerFF.c:68-70 | as MallocImpl, for a user |
| FirstFitHeap.Heap.MallocKernel | Kernel/c/memoryManager/memoryManagerFF.c:72-74 | as MallocImpl, for the kernel |
| FirstFitHeap.Heap.CoalesceForward | Kernel/c/memoryManager/memoryManagerFF.c:84-90 | the forward loop in memory swallows all following free blocks |
| FirstFitHeap.Heap.Before | Kernel/c/memoryManager/memoryManagerFF.c:93-96 | the search from the start of the heap finds the block whose link points to this one, null exactly for the first |
| FirstFitHeap.Heap.Free | Kernel/c/memoryManager/memoryManagerFF.c:76-102 | free in memory is the release of the specification and writes no word of a block that stays live |
| FirstFitHeap.Heap.Status | Kernel/c/memoryManager/memoryManagerFF.c:107-135 | total is the whole heap and the sum of free, used and used_kernel; the count is that of live user payloads |
| FirstFitHeap.Heap.UserWrite | Kernel/c/memoryManager/memoryManagerFF.c:8-13 | whatever a program writes into a word of its own payload, every header and so the whole list stay as they are |
| StatusLaws.FirstFitMovesBytes | Kernel/c/memoryManager/memoryManagerFF.c:107-135 | the same for first fit, with the header and what was not cut off |
| RunQueue.HighestIsMaximum | Kernel/c/scheduler/scheduler.c:125-138 | the scan finds the highest effective priority of any ready process, -1 exactly when none is ready |
| RunQueue.AgingWithinRange | Kernel/c/scheduler/scheduler.c:9-13 | a process of priority 1 has an effective priority of at most 5 if and only if it runs in the background or has waited less than 200 ticks; it never has more than 6 |
| Aging.AgingPassesTheMaximum | Kernel/c/scheduler/scheduler.c:9-13 | from start-up, after four calls of the shell and 200 ticks a foreground process of priority 1 waits, ready, with an effective priority of 6 |
| RunQueue.ChoiceIsFirstBest | Kernel/c/scheduler/scheduler.c:120-163 | the choice is a ready process of maximal effective priority, in the foreground if any such is, the first one after the cursor; the cursor moves onto it; idle only when nobody is ready |
| Choice.ChosenHasMost | Kernel/c/scheduler/scheduler.c:120-163 | in numbers, for every priority: whoever is chosen has at least every other ready process's sum of priority, one for the foreground and one for each 50 ticks waited, up to four; of equal sums the foreground wins |
| Choice.AgedGoesFirst | Kernel/c/scheduler/scheduler.c:31-37 | after 50 (d + 1) ticks of waiting, d below 4, a process goes before any on its ground that is d levels higher and has not aged |
| RunQueue.AddLaws | Kernel/c/scheduler/scheduler.c:65-90 | adding queues the process once, keeps descending priority and leaves the cursor on the same process |
| Choice.AddPlaces | Kernel/c/scheduler/scheduler.c:65-90 | a process is queued behind all of its priority or higher and before all of lower priority, and taking it out again restores queue and cursor |
| RunQueue.RemoveLaws | Kernel/c/scheduler/scheduler.c:94-110 | removing takes out just that process and leaves the cursor on the same process unless that is the one removed |
| Choice.RemoveKeepsOrder | Kernel/c/scheduler/scheduler.c:94-110 | the others keep their order: the queue before is the queue after with the process put back at its place |
| BoundedWaiting.BoundedWait | Kernel/c/scheduler/scheduler.c:31-37 | while n queued processes stay runnable and the rest stay blocked, all on one ground, any one of highest priority is among the next (n-1)^2+1 choices, by ticks and yields in any order; its 32-bit wait counter must not wrap meanwhile |
| BoundedWaiting.StaleIsAhead | Kernel/c/scheduler/scheduler.c:120-163 | a rival that was chosen before and has waited no longer can be chosen again only from ahead of the process in the round |
| BoundedWaiting.EventSpendsBudget | Kernel/c/scheduler/scheduler.c:171-306 | each choice of a rival, fresh or stale, lowers the number of choices that can still pass the process over |
| Fairness.SettledIsWindow | Kernel/c/scheduler/scheduler.c:120-163 | what holds between any two kernel entries is enough for bounded waiting to start from, given somebody queued and one ground |
| Fairness.StepIsAfter | Kernel/c/scheduler/scheduler.c:171-306 | ticks and yields of the bound are the entries of the whole system, switch included |
| Fairness.ChoicesInTime | Kernel/c/scheduler/scheduler.c:187-205 | a choice is made at least once every five ticks or yields |
| Fairness.RunsWithin | Kernel/c/scheduler/scheduler.c:31-37 | from any state between kernel entries with n processes not blocked, all on one ground, each of those of the highest priority is running at some moment of the next 5 ((n-1)^2+1) ticks and yields |
| Scheduler.Processes.AddProcess | Kernel/c/scheduler/scheduler.c:65-90 | the in-place insertion by shifting is Add of the specification |
| Scheduler.Processes.RemoveProcess | Kernel/c/scheduler/scheduler.c:94-110 | the in-place removal by shifting is Remove of the specification |
| Scheduler.Processes.AgingBonus | Kernel/c/scheduler/scheduler.c:31-37 | one per 50 ticks waited, at most 4 |
| Scheduler.Processes.HighestReady | Kernel/c/scheduler/scheduler.c:127-138 | the scan computes the highest effective priority |
| Scheduler.Processes.Pass | Kernel/c/scheduler/scheduler.c:141-160 | one pass round the queue stops, with the cursor, at the first candidate, and after a full round has the cursor where it was |
| Scheduler.Processes.NextReadyProcess | Kernel/c/scheduler/scheduler.c:120-163 | both passes together compute the choice and the new cursor of the specification |
| Scheduler.Processes.AgeWaiting | Kernel/c/scheduler/scheduler.c:180-185 | every ready process of the queue but the current one has waited one tick more, in 32 bits; nobody else |
| Scheduler.Processes.Get | Kernel/c/process/process.c:174-187 | the slot of the live process with this pid, null if there is none |
| Turns.TurnLasts | Kernel/c/scheduler/scheduler.c:187-205 | a process with q ticks of its turn left keeps the processor for the next q - 1 of them, and at the q-th a new choice is made |
| Turns.SwitchRests | Kernel/c/scheduler/scheduler.c:201-247 | whoever is chosen starts on a whole turn, as many ticks as its priority |
| Turns.StepTurns | Kernel/c/scheduler/scheduler.c:258-268 | every kernel entry leaves priorities in range, everyone but the current process with a whole turn ahead and the current one with the rest of a turn |
| Turns.RunTurns | Kernel/c/scheduler/scheduler.c:171-306 | so does every run |
| ProcessLaws.NextIsReady | Kernel/c/scheduler/scheduler.c:207-246 | about to switch, the scheduler always finds somebody ready: idle if nobody else |
| ProcessLaws.SwitchSettles | Kernel/c/scheduler/scheduler.c:209-247 | after a switch exactly one process is RUNNING and is the current one, none is ZOMBIE, and the queue holds every live process but idle once by descending priority |
| ProcessLaws.TickSettles | Kernel/c/scheduler/scheduler.c:171-248 | so does a timer tick |
| ProcessLaws.YieldSettles | Kernel/c/scheduler/scheduler.c:255-306 | and a voluntary switch, from any state a call may leave |
| ProcessLaws.CreateSettles | Kernel/c/process/process.c:204-280 | a new process gets a pid above all others and is in the queue: never dropped |
| ProcessLaws.ExitDeparts | Kernel/c/process/process.c:283-316 | exit, whichever processes it wakes by giving up semaphores, pipes and descriptors, leaves all in order but for the dead process, which the pending switch reaps |
| ProcessLaws.KillSettlesOrDeparts | Kernel/c/process/process.c:318-369 | so does killing oneself; killing another, with the wake-ups that makes, frees its slot at once |
| ProcessLaws.BlockSettlesOrDeparts | Kernel/c/process/process.c:374-389 | blocking keeps the queue exact and asks for a switch when the caller blocks itself |
| ProcessLaws.UnblockSettles | Kernel/c/process/process.c:392-408 | unblocking, which asks for nothing, keeps what holds between kernel entries if and only if the process does not wait for a child: one that does would be ready and still wait |
| ProcessLaws.UnblockAllSettles | Kernel/c/semaphore/semaphore.c:347-356 | waking any number of processes that do not wait for a child in one entry keeps it |
| ProcessLaws.WakeOrder | Kernel/c/process/process.c:293-307 | whether a dying process wakes its parent before or after those that wait for what it held makes no difference to the table or to the switch |
| ProcessLaws.NiceSettles | Kernel/c/process/process.c:411-441 | a change of priority clamps it and keeps the queue sorted and exact, for queued processes and for idle |
| ProcessLaws.WaitPidSettlesOrDeparts | Kernel/c/process/process.c:444-482 | waiting for a live process blocks the caller; for nobody it changes nothing; between kernel entries no third case arises |
| ProcessRuns.EntryLaws | Kernel/asm/interrupts.asm:291-315 | every kernel entry either leaves the system settled or in a state from which the pending switch settles it |
| ProcessRuns.Step | Kernel/asm/interrupts.asm:291-315 | an entry and its pending switch, as one step, lead from settled to settled |
| ProcessRuns.Run | Kernel/c/process/process.c:190-482 | every run of entries stays settled, deaths that wake others and calls that wake several included, provided idle is never killed or blocked and only the death of a child wakes one that waits for it |
| Pointwise.SwitchOnEntry | Kernel/c/scheduler/scheduler.c:207-247 | a switch changes the table only at the process it runs, whose waiting is over, and at a dead one, which it frees |
| Pointwise.TickOnEntry | Kernel/c/scheduler/scheduler.c:171-248 | a tick takes one from the running process's turn, or gives it a new one and makes a choice; every other ready and queued process has waited exactly one tick more, in 32 bits; nobody else changes |
| Pointwise.YieldOnEntry | Kernel/c/scheduler/scheduler.c:255-306 | a voluntary switch gives the caller a whole new turn, frees it if dead, and changes nobody else but the one it runs |
| Pointwise.NiceOnEntry | Kernel/c/process/process.c:411-441 | nice sets priority and turn to the argument, cut to 1 to 5, and the waiting to 0, for that process alone |
| Pointwise.StepNice | Kernel/c/syscall/syscallDispatcher.c:159-161 | as a whole kernel entry: 1 to 5 are taken as they are, 0 gives 1, more than 5 gives 5, after the argument is cut to 8 bits |
| Pointwise.CreateOnEntry | Kernel/c/process/process.c:190-281 | create fills exactly the first free entry: new pid, priority 3 with a whole turn, the caller as parent, blocked exactly if bit 1 of the flag is set |
| Pointwise.ToggleOnEntry | Kernel/c/syscall/syscallDispatcher.c:163-177 | block toggles: a blocked process that waits for no child becomes ready, any other that is not blocked becomes blocked; with exactly the switches that asks for |
| Pointwise.UnblockOnEntry | Kernel/c/process/process.c:392-408 | unblock makes exactly that blocked process ready, with no waiting counted, and asks for a switch exactly if its priority is above the current one's |
| Pointwise.UnblockAllOnEntry | Kernel/c/semaphore/semaphore.c:347-356 | of several unblocked in one entry, each blocked one listed becomes ready, and nobody else changes |
| Pointwise.UnblockAllSwitch | Kernel/c/process/process.c:392-408 | and a switch is asked for exactly if one of those that were blocked has a higher priority than the current process |
| Pointwise.ExitOnEntry | Kernel/c/process/process.c:283-316 | exit leaves the caller dead with its value, those listed awake, a parent that waits awake with the value in its frame, and everyone else as they were |
| Pointwise.KillOnEntry | Kernel/c/process/process.c:318-369 | so does kill with -1, but another process is out of the table at once; a switch is asked for exactly if one that is woken has a higher priority than the current process |
| Pointwise.WaitPidOnEntry | Kernel/c/process/process.c:444-482 | waitpid puts the caller to sleep on a live process, with 0 in its frame, and else returns -1; nobody else changes |
| Pointwise.WaitPidOnDead | Kernel/c/process/process.c:444-482 | on a dead process still in the table waitpid returns its value and frees its entry |
| Pointwise.OnNobody | Kernel/c/process/process.c:318-482 | block, unblock, kill, nice and waitpid on a pid that nobody has change nothing and ask for no switch |
| Pointwise.WithoutAnyone | Kernel/c/scheduler/scheduler.c:187-247 | with nobody running every tick makes a choice; with nobody to choose a current process that is ready goes on |
| Pointwise.BlockOnEntry | Kernel/c/process/process.c:374-389 | inside the kernel block is no toggle: it blocks a process that is ready or running, and asks for a switch exactly for the current one |
| WaitPid.HandOff | Kernel/c/process/process.c:298-307 | a parent blocked on its own child becomes ready in the very event in which the child dies, with the child's value, -1 if killed, in its saved RAX; in any other event in which both live it stays blocked, its frame untouched, on a live child |
| WaitPid.ChildrenLiveRun | Kernel/c/process/process.c:444-482 | in every run each awaited child is alive |
| WaitPid.WaitsUntilDeath | Kernel/c/process/process.c:298-342 | over any run that kills neither, the parent stays blocked on that child and its frame is untouched |
| WaitWitness.UnblockedTooEarly | Kernel/c/syscall/syscallDispatcher.c:179-181 | such a wait is reached: from start-up the shell creates a process and waits for it, and it then awaits its own child with every record right; unblocking it there leaves it ready and still waiting |
| BlockedFrames.StaysHeld | Kernel/c/process/process.c:283-482 | a process that is blocked and waits for no child stays so in every entry that does not kill, toggle, unblock or list it as woken |
| ProcessMemory.KernelGranted | Kernel/c/process/process.c:204-228 | a kernel allocation adds exactly its own payload to those the kernel holds and none to the users' |
| ProcessMemory.KernelReleased | Kernel/c/scheduler/scheduler.c:227-240 | a free of a kernel payload removes exactly that one |
| ProcessMemory.UserGranted | Kernel/c/syscall/syscallDispatcher.c:18-20 | what users allocate leaves the kernel's payloads alone |
| ProcessMemory.UserReleased | Kernel/c/syscall/syscallDispatcher.c:22-24 | what users free leaves the kernel's payloads alone |
| ProcessMemory.OwnedIsHeld | Kernel/c/process/process.c:344-368 | what a table entry owns is live in the heap, so it can be freed, and only once |
| Kernel.Kernel.constructor | Kernel/c/process/process.c:134-138 | the empty table over a fresh heap owns nothing |
| Kernel.Kernel.ReapProcess | Kernel/c/scheduler/scheduler.c:227-240 | reaping is Reap of the specification; the kernel's heap blocks are again exactly the stacks and argv copies of live entries |
| Kernel.Kernel.SchedulerTick | Kernel/c/scheduler/scheduler.c:171-248 | the tick is Tick of the specification and keeps that exactness |
| Kernel.Kernel.SchedulerYield | Kernel/c/scheduler/scheduler.c:255-306 | the switch is Yield of the specification and keeps that exactness |
| Kernel.Kernel.ProcessCreate | Kernel/c/process/process.c:190-281 | creates in the first free slot, or fails exactly when there is no slot or the heap has no room for stack and arguments; on every failure path no block is leaked and only a stale field of a free slot may differ |
| Kernel.Kernel.UnblockEach | Kernel/c/process/process.c:392-408 | unblocking one after the other is UnblockAll of the specification, with a switch asked for if any asks for one |
| Kernel.Kernel.ProcessExit | Kernel/c/process/process.c:283-316 | exit is Exit of the specification: the value recorded, whoever its clean-up wakes unblocked, the parent handed the value, and a switch asked for |
| Kernel.Kernel.ProcessKill | Kernel/c/process/process.c:318-369 | kill is Kill of the specification, with the wake-ups of the clean-up and both blocks of another process freed exactly once |
| Kernel.Kernel.ProcessBlock | Kernel/c/process/process.c:374-389 | block is Block of the specification |
| Kernel.Kernel.ProcessUnblock | Kernel/c/process/process.c:392-408 | unblock is Unblock of the specification, with the switch asked for a process of higher priority |
| Kernel.Kernel.ProcessNice | Kernel/c/process/process.c:411-441 | nice is Nice of the specification |
| Kernel.Kernel.ProcessWaitPid | Kernel/c/process/process.c:444-482 | waitpid is WaitPid of the specification on every path: -1 for nobody, the value of a dead process whose blocks are freed and slot reclaimed, or the caller blocked |
| Kernel.Kernel.SysMalloc | Kernel/c/syscall/syscallDispatcher.c:18-20 | a user allocation changes no process and no kernel block, and the block it gives was nobody's |
| Kernel.Kernel.SysFree | Kernel/c/syscall/syscallDispatcher.c:22-24 | a user free removes exactly that block |
| Syscalls.TimerInterrupt | Kernel/asm/interrupts.asm:179-190 | the timer leaves the kernel settled and its memory exact, by the step of the specification |
| Syscalls.SysYield | Kernel/c/syscall/syscallDispatcher.c:183-189 | yield, with its switch, is one step and leaves the kernel settled |
| Syscalls.SysExit | Kernel/c/syscall/syscallDispatcher.c:142-144 | exit, with the wake-ups it makes and its switch, is one step: the dead process is reaped and its memory given back |
| Syscalls.SysKill | Kernel/c/syscall/syscallDispatcher.c:155-157 | kill, with the wake-ups it makes and its switch if any, is one step |
| Syscalls.SysBlock | Kernel/c/syscall/syscallDispatcher.c:163-177 | the toggle is one step; -1 exactly for no such process or one that waits for a child |
| Syscalls.SysUnblock | Kernel/c/syscall/syscallDispatcher.c:179-181 | unblock, with its switch if any, is one step, for a process that does not wait for a child |
| Syscalls.SysWake | Kernel/c/syscall/syscallDispatcher.c:271-274 | a call that wakes several processes at once is one step |
| Syscalls.SysNice | Kernel/c/syscall/syscallDispatcher.c:159-161 | nice is one step, with the priority cut down to 8 bits before it is clamped |
| Syscalls.SysWaitPid | Kernel/c/syscall/syscallDispatcher.c:191-193 | waitpid, with its switch, is one step; -1 exactly when there is no such process |
| Syscalls.SysCreateProcess | Kernel/c/syscall/syscallDispatcher.c:133-140 | create, with the flags cut down to 8 bits, is one step, or fails exactly as ProcessCreate does and leaves the kernel settled |
| Boot.Initialize | Kernel/c/kernel/kernel.c:58-89 | after set-up with 8 MiB the kernel is settled: both creations succeed, idle is the fallback outside the queue with the lowest priority, the shell is queued and runs its first turn, no other slot is used |
| Boot.Started | Kernel/c/scheduler/scheduler.c:46-60 | the first choice is the shell, and what holds between kernel entries holds |
| PidQueue.Queue.Push | Kernel/c/semaphore/semaphore.c:71-82 | appends to the contents, or drops the pid when 64 are queued |
| PidQueue.Queue.PushNew | Kernel/c/pipe/pipe.c:33-51 | appends unless the walk finds the pid queued already |
| PidQueue.Queue.Pop | Kernel/c/semaphore/semaphore.c:85-94 | takes the first of the contents, through any wrap-around |
| PidQueue.Queue.Remove | Kernel/c/semaphore/semaphore.c:97-124 | takes out every occurrence, keeps the order of the rest, and says whether there was one |
| SemaphoreLaws.StepConserves | Kernel/c/semaphore/semaphore.c:165-403 | every disciplined call, creation and death keeps value = initial - holders - waiters, waiters = max(0, -value), holders apart from waiters, references counted right, and nobody in two queues or blocked outside one |
| SemaphoreLaws.RunConserves | Kernel/c/semaphore/semaphore.c:165-403 | so does every run |
| SemaphoreLaws.StartsConserved | Kernel/c/semaphore/semaphore.c:146-162 | the empty table satisfies it |
| SemaphoreLaws.Exclusion | Kernel/c/semaphore/semaphore.c:216-297 | at most `initial` holders, all units held while anyone waits, no waiter a holder, and mutual exclusion when the initial value is 1 |
| SemaphoreLaws.WaitOk | Kernel/c/semaphore/semaphore.c:216-254 | wait keeps the accounts, whether it takes a unit or parks the caller, and the queue always has room |
| SemaphoreLaws.PostOk | Kernel/c/semaphore/semaphore.c:259-297 | post keeps the accounts, whether the unit is handed over or put back |
| SemaphoreLaws.OpenOk | Kernel/c/semaphore/semaphore.c:165-210 | open keeps the accounts and never lets two open semaphores share a name |
| SemaphoreLaws.CloseOk | Kernel/c/semaphore/semaphore.c:371-403 | close keeps the accounts and loses no waiter when it frees the slot |
| SemaphoreLaws.CleanOneOk | Kernel/c/semaphore/semaphore.c:311-361 | cleaning up one semaphore keeps the accounts of all and leaves no trace of the dead process there |
| SemaphoreLaws.DeathOk | Kernel/c/semaphore/semaphore.c:305-366 | after a death, waiting or holding, every account is right again |
| SemaphoreOrder.StepFifo | Kernel/c/semaphore/semaphore.c:216-403 | in any event a queue only gains at the end, loses its head to the holders, or loses the process that died; nobody else becomes a holder |
| SemaphoreOrder.NoOvertaking | Kernel/c/semaphore/semaphore.c:216-366 | a process at place k of a queue dies, or was first and becomes a holder, or stays with nobody new ahead of it; while anyone waits only the first in line can become a holder |
| SemaphoreOrder.FirstComeFirstServed | Kernel/c/semaphore/semaphore.c:216-366 | over any run in which a process stays in the queue from place k on, units go only to processes that were ahead of it at the start, each at most once and in the order of the queue |
| SemaphoreResults.OpenResult | Kernel/c/semaphore/semaphore.c:165-210 | open returns 1 exactly if a semaphore of that name was open or a slot free, and exactly if the caller then refers to an open semaphore of that name; on 0 nothing changes |
| SemaphoreResults.OpenEffect | Kernel/c/semaphore/semaphore.c:165-200 | one that was open has a reference more and else stays; a new one has the value asked for, in 64 bits, an empty queue, the name cut to size and one reference; no other changes |
| SemaphoreResults.OthersResult | Kernel/c/semaphore/semaphore.c:216-403 | wait, post and close return 0 exactly if a semaphore of that name is open, and else -1 with nothing changed |
| SemaphoreResults.WaitEffect | Kernel/c/semaphore/semaphore.c:216-254 | wait takes one from the value; the caller then holds a unit if there was one and is otherwise last in the queue and asleep; nobody else changes |
| SemaphoreResults.PostEffect | Kernel/c/semaphore/semaphore.c:259-297 | post adds one to the value; if somebody waits, exactly the first in line leaves the queue, awake and holding; else the caller only stops holding |
| SemaphoreResults.CloseEffect | Kernel/c/semaphore/semaphore.c:371-403 | close takes one reference and the caller's marks away; the last one empties and frees the slot |
| SemaphoreResults.CleanupLeavesNothing | Kernel/c/semaphore/semaphore.c:305-366 | after the clean-up the dead process waits at no open semaphore and holds and refers to none |
| SleepFrames.SemStep | Kernel/c/semaphore/semaphore.c:216-403 | a call or a death puts nobody but the caller of wait to sleep, and changes who has a record here only by a birth or that death |
| Semaphores.SemTable.constructor | Kernel/c/semaphore/semaphore.c:146-162 | the table starts with no semaphore in use |
| Semaphores.SemTable.SemOpen | Kernel/c/semaphore/semaphore.c:165-210 | open in memory is Open of the specification; 0 for a null name or a full table |
| Semaphores.SemTable.SemWait | Kernel/c/semaphore/semaphore.c:216-254 | wait in memory is Wait of the specification; -1 for a null or unknown name |
| Semaphores.SemTable.SemPost | Kernel/c/semaphore/semaphore.c:259-297 | post in memory is Post of the specification |
| Semaphores.SemTable.SemClose | Kernel/c/semaphore/semaphore.c:371-403 | close in memory is Close of the specification |
| Semaphores.SemTable.SemCleanup | Kernel/c/semaphore/semaphore.c:305-366 | the loop over all semaphores is Cleanup of the specification |
| Semaphores.SemTable.FindSem | Kernel/c/semaphore/semaphore.c:58-68 | the first open semaphore of that name |
| MVar.NamesDiffer | Userland/c/commands/mvar.c:65-74 | the two semaphore names of an MVar always differ and always fit |
| MVar.OnePlaceFifo | Userland/c/commands/mvar.c:151-181 | for any interleaving of any number of writers and readers and of other programs: available empty + available full + participants between wait and post = 1, and the values of completed takes are those of completed puts, in order, with at most the last one missing, which is then in the slot |
| MVar.StepOk | Userland/c/commands/mvar.c:94-181 | every step of opening, putting and taking keeps that |
| MVarBooks.StepKept | Userland/c/commands/mvar.c:94-181 | and every step keeps the bitmaps right: a participant is marked as holding the semaphore of its role, and no other, from its first unit on for ever, refers to what it has opened, and waits nowhere else |
| MVar.BeginParks | Userland/c/commands/mvar.c:160-177 | a participant that finds no unit is parked in the queue of its role without upsetting the balance |
| MVar.HandsOver | Kernel/c/semaphore/semaphore.c:281-291 | a post with someone waiting passes the token to the first in line, who is then the only one inside |
| TwoSemaphores.CleanBoth | Kernel/c/semaphore/semaphore.c:305-366 | the clean-up over all 32 semaphores does to everyone else just what it does at the two that the process has open, in either order |
| MVarDeath.DeathKeepsBufferIff | Kernel/c/semaphore/semaphore.c:305-366 | for a participant killed at any moment, token, values and bitmaps are all kept if and only if it has not opened both semaphores; or others have both open and it is not between two calls marked as holding a unit; or, as the last with both, the second semaphore has no unit, it is not a reader inside, and it is not a writer marked as holding between two puts while somebody has the first semaphore open |
| MVarDeath.DeathTokens | Kernel/c/semaphore/semaphore.c:332-348 | while others have both semaphores open there are two tokens after the death of a participant between two calls, and one otherwise |
| MVarDeath.OnePlaceFifoWithDeaths | Userland/c/commands/mvar.c:151-181 | over every run with deaths at moments that meet that condition, a death between wait and post included, which undoes the call: one token, and the values of completed takes are those of completed puts, in order, with at most the last one in the slot |
| MVarWitness.DeathAfterPut | Kernel/c/semaphore/semaphore.c:332-348 | such a moment is reached: two writers open a fresh buffer, one completes a put and is killed; two tokens are left |
| PipeLaws.IncrefAgrees | Kernel/c/pipe/fd.c:61-79 | one more reference keeps the two tables in agreement: open_read (open_write) of each pipe is the sum of the references of live read (write) descriptors on it, and no live descriptor is on a released pipe |
| PipeLaws.DecrefAgrees | Kernel/c/pipe/fd.c:82-103 | so does one less, with the release of descriptor or pipe that may follow |
| PipeLaws.CreateFdsAgrees | Kernel/c/syscall/syscallDispatcher.c:213-228 | so does making the pair of descriptors, on every failure path |
| PipeLaws.PipeOpenAgrees | Kernel/c/pipe/pipe.c:186-220 | so does opening a pipe, new or found by name |
| PipeLaws.SwapAgrees | Kernel/c/syscall/syscallDispatcher.c:262-268 | so does replacing a descriptor of a process, whatever the old one was |
| PipeLaws.DieAgrees | Kernel/c/process/process.c:41-53 | so does the release of descriptors at death |
| PipeLaws.StepAgrees | Kernel/c/syscall/syscallDispatcher.c:213-292 | every call, creation and death keeps the agreement |
| PipeLaws.RunAgrees | Kernel/c/syscall/syscallDispatcher.c:213-292 | every run does |
| FdLedger.StepLedger | Kernel/c/pipe/fd.c:61-103 | every event keeps the account of each descriptor: its count is the number of times processes have it as stdin or stdout plus what programs were given by pipe and have not closed, and it is in use exactly while that is not zero; terminals are never freed |
| FdLedger.RunLedger | Kernel/c/pipe/fd.c:61-103 | so does every run in which programs close only what they were given |
| FdLedger.StartLedger | Kernel/c/pipe/fd.c:35-45 | the tables start with that account balanced |
| FdLedger.NothingLeaks | Kernel/c/process/process.c:41-53 | when all processes are dead and all that was given is closed, no descriptor but the terminals is in use and no end of any pipe is open |
| PipeEnds.PairIs | Kernel/c/syscall/syscallDispatcher.c:213-241 | pipe and pipe_open return the two lowest free numbers, first the read end, then the write end, each with one reference, both on one pipe, which is a blank slot or the pipe in use under the name; nothing else changes |
| PipeEnds.DeathLeavesQueues | Kernel/c/pipe/pipe.c:159-168 | after its death a process is in no queue of any pipe |
| PipeEnds.NumberMeans | Kernel/c/syscall/syscallDispatcher.c:43-85 | which descriptor a number means, in 32 bits: 0 is stdin and, to write, 1 is stdout; a read or write of anything but the right end moves nothing |
| Pipeline.DupReplaces | Kernel/c/syscall/syscallDispatcher.c:243-269 | dup2 refuses a bad number; otherwise exactly the descriptor named of the caller gives way, with one reference more to the new and one less to the old |
| Pipeline.SetupReplaces | Kernel/c/process/process.c:507-519 | so does the redirection of a child, for the child's descriptor named |
| PipeRuns.StreamStep | Kernel/c/pipe/pipe.c:299-422 | a read returns the oldest buffered bytes and a write appends what it accepts, and no other event touches the bytes of a pipe in use |
| PipeRuns.StreamRun | Kernel/c/pipe/pipe.c:340-414 | over every run in which a pipe stays in use: if before it the bytes accepted by writes were those returned by reads, followed by those buffered, they are after it |
| PipeRuns.StreamFromAllocation | Kernel/c/pipe/pipe.c:171-422 | from the event that allocates a pipe on, which is always pipe or pipe_open, and as long as it stays in use, the bytes returned by all reads, followed by those buffered, are the bytes accepted by all writes |
| PipeEnds.ReadMoves | Kernel/c/pipe/pipe.c:299-359 | a read takes the oldest bytes, as many as there are up to what was asked; it blocks exactly when there are none and the end is not reached; taking bytes wakes exactly the writer that waits longest |
| PipeEnds.WriteMoves | Kernel/c/pipe/pipe.c:367-422 | a write puts in exactly as many bytes as fit, blocks exactly on a full buffer or, on a named pipe, without a reader, and wakes exactly the reader that waits longest |
| PipeEnds.CloseMoves | Kernel/c/pipe/pipe.c:255-292 | closing an end takes one from its count; the last one wakes everyone who waits at the other end, in order, blanks the slot if it was the last of both, and marks the end of the file of a named pipe opened twice |
| PipeEnds.LastCloseWakes | Kernel/c/pipe/pipe.c:255-292 | so after the last close of an end everyone who waited at the other end is awake and out of the queue |
| Pipeline.PairRoundTrip | Kernel/c/syscall/syscallDispatcher.c:213-241 | what is written on the second number that pipe returns is read, in order, from the first, up to 4096 bytes |
| Pipeline.ShellConnects | Userland/c/shell/userlib.c:397-466 | the shell's pipeline: pipe, the two redirections and the two closes leave the left child writing to and the right child reading from one empty pipe, to whose ends nobody else refers |
| Pipeline.PipelineCarries | Kernel/c/pipe/pipe.c:273-422 | then what the left child writes the right child reads, also when the left one has died in between, and having read it all it sees the end of the file |
| PipeRuns.EndSeenIffDrained | Kernel/c/pipe/pipe.c:322-326 | a read of an anonymous pipe reports the end of the file exactly when no write end is open and every accepted byte has been read |
| PipeRuns.EndIsPermanent | Kernel/c/pipe/pipe.c:236-252 | and then no event can undo it while the pipe is in use: no write is possible and every read reports it again |
| PipeRuns.EndIsPermanentRun | Kernel/c/pipe/pipe.c:236-252 | over every run |
| PipeRuns.MarkedStep | Kernel/c/pipe/pipe.c:236-292 | the mark for the end of the file stands only on named pipes opened twice, and only while no write end is open |
| PipeRuns.EndIsTrue | Kernel/c/pipe/pipe.c:304-309 | in every run a read that sees the end of the file of any pipe, named or not, finds no write end open and every accepted byte read |
| PipeRuns.NamedEndSeenIffDrained | Kernel/c/pipe/pipe.c:273-309 | over every run of a named pipe that has been opened twice and had a writer since, a read sees the end of the file exactly when no write end is open and every accepted byte has been read |
| PipeRuns.QuietStep | Kernel/c/pipe/pipe.c:93-122 | with one reader and one writer on an anonymous pipe, every event keeps: a queued reader means an empty buffer with a write end open, a queued writer a full buffer with a read end open |
| PipeRuns.QuietRun | Kernel/c/pipe/pipe.c:93-422 | so the two are never parked together, in any run |
| PipeWakeups.LeavesAwake | Kernel/c/pipe/pipe.c:156-168 | a process asleep in a queue of an anonymous pipe is after any event still in a queue of it, awake, or dead, however many readers and writers there are |
| PipeWakeups.BlocksInQueue | Kernel/c/pipe/pipe.c:311-320 | whoever a read or write puts to sleep is in a queue of that pipe |
| PipeWakeups.NoLostWakeup | Kernel/c/pipe/pipe.c:255-422 | with one reader and one writer no wake-up is lost across read, write, open, close and kill: whoever sleeps does so only while its own condition to go on is false |
| SleepFrames.PipeStep | Kernel/c/pipe/pipe.c:255-422 | a call, creation or death puts nobody but the process that reads or writes to sleep, and changes who has a record here only by that creation or death |
| PipeRuns.StrandedIffNoDescriptor | Kernel/c/syscall/syscallDispatcher.c:213-241 | pipe succeeds exactly with two free descriptors, undoes its work with one, and with none leaves the new pipe in use without any descriptor |
| PipeRuns.StrandedForever | Kernel/c/syscall/syscallDispatcher.c:213-217 | such a pipe is never released: no event whatever changes it |
| PipeWitness.PipeIsLost | Kernel/c/syscall/syscallDispatcher.c:213-241 | such a pipe is reached: a process that opens one named pipe 64 times fills the descriptor table, and pipe then fails and leaves a slot in use, after every further run |
| Pipes.Pipe.CopyOut | Kernel/c/pipe/pipe.c:347-351 | the copy loop takes the oldest bytes out of the ring, in order, through any wrap-around |
| Pipes.Pipe.CopyIn | Kernel/c/pipe/pipe.c:410-414 | the copy loop appends behind the newest byte, through any wrap-around |
| Pipes.Pipe.PipeRead | Kernel/c/pipe/pipe.c:299-359 | read in memory is Read of the specification, with the writer it wakes |
| Pipes.Pipe.PipeWrite | Kernel/c/pipe/pipe.c:367-422 | write in memory is Write of the specification, with the reader it wakes |
| Pipes.Pipe.PipeOpenRead | Kernel/c/pipe/pipe.c:223-234 | opening the read end, with the writers of a named pipe that it wakes |
| Pipes.Pipe.PipeOpenWrite | Kernel/c/pipe/pipe.c:237-252 | opening the write end clears the end of the file of a named pipe and wakes its readers |
| Pipes.Pipe.PipeCloseRead | Kernel/c/pipe/pipe.c:255-270 | the last close of the read end wakes every writer, and of both ends frees the slot |
| Pipes.Pipe.PipeCloseWrite | Kernel/c/pipe/pipe.c:273-292 | the last close of the write end wakes every reader, sets the end of the file of a named pipe opened twice, and may free the slot |
| Pipes.Pipe.RemoveWaiter | Kernel/c/pipe/pipe.c:159-168 | a dying process leaves both queues of a pipe in use |
| Files.FileTable.constructor | Kernel/c/pipe/fd.c:35-45 | two terminals, and no other descriptor or pipe in use |
| Files.FileTable.FdIncref | Kernel/c/pipe/fd.c:61-79 | in memory as in the specification |
| Files.FileTable.FdDecref | Kernel/c/pipe/fd.c:82-103 | in memory as in the specification |
| Files.FileTable.FdCreatePipe | Kernel/c/pipe/fd.c:213-227 | the first free descriptor with one reference, or -1 for a full table |
| Files.FileTable.PipeCreateFds | Kernel/c/syscall/syscallDispatcher.c:213-228 | both descriptors, or none |
| Files.FileTable.OpenPipe | Kernel/c/pipe/pipe.c:186-220 | the named pipe in use under that name, opened once more, or the first free slot |
| Files.FileTable.MakePipe | Kernel/c/syscall/syscallDispatcher.c:230-287 | pipe and pipe_open |
| Files.FileTable.SysDup2 | Kernel/c/syscall/syscallDispatcher.c:243-269 | dup2, with -1 for a bad number and no change for the same one |
| Files.FileTable.SysClose | Kernel/c/syscall/syscallDispatcher.c:271-274 | close gives back one reference of any live descriptor, whoever the caller is |
| Files.FileTable.ProcessPipeSetup | Kernel/c/process/process.c:507-519 | redirection of a child before it starts |
| Files.FileTable.ProcessStarts | Kernel/c/process/process.c:258-261 | a new process takes a reference to each terminal |
| Files.FileTable.ProcessDies | Kernel/c/process/process.c:293-296 | death leaves the queues, then gives back both descriptors |
| Files.FileTable.FdRead | Kernel/c/syscall/syscallDispatcher.c:67-85 | read on the read end of a pipe |
| Files.FileTable.FdWrite | Kernel/c/syscall/syscallDispatcher.c:43-65 | write on the write end of a pipe |
| WholeKernel.LivesAfter | Kernel/c/process/process.c:174-369 | an entry changes which pids are alive only by the process it creates and the one it kills |
| WholeKernel.ListFor | Kernel/c/semaphore/semaphore.c:305-366 | whatever a call or a death does to the two tables, there is a list of exactly those it lets go on |
| WholeKernel.ListedWakeable | Kernel/c/semaphore/semaphore.c:347-356 | whoever a call or a death lets go on, at any semaphore or pipe, waits for no child: it may be unblocked |
| WholeKernel.StepCoherent | Kernel/c/process/process.c:283-369 | one kernel entry over process table, semaphores and pipes together, with exactly those woken that the other two tables let go on: each table accepts its part, and afterwards the same processes are alive in all three and whoever sleeps at a semaphore or at a pipe, never at both, is blocked in the process table and waits for no child |
| WholeKernel.Run | Kernel/c/process/process.c:190-482 | so does every run |
| WholeKernel.QueuedAreBlocked | Kernel/c/semaphore/semaphore.c:236-250 | in every such state whoever is in a semaphore's queue is blocked in the process table, is not the current process and waits for no child |
| WholeKernel.StartCoherent | Kernel/c/kernel/kernel.c:58-89 | what start-up leaves, with the tables of semaphores and pipes as set up, is such a state |

## Left out

- Kernel.Kernel.ProcessExit: which processes the clean-up of semaphores, pipes and descriptors wakes is an argument here; WholeKernel.StepCoherent, on values, computes it from that clean-up. The keyboard's waiter is not modelled.
- WholeKernel.Enabled: block and unblock, which any program may use on any process, are not used on one that sleeps at a semaphore or a pipe, which would leave it in the queue while it runs; semaphores are used as SemaphoreLaws.Disciplined says.
- Kernel.Kernel.ProcessKill: see ProcessExit; killing the foreground process by a key picks a pid and is not part of this model.
- ProcessLaws.ExitDeparts: takes the processes woken as an argument; WholeKernel.ListedWakeable shows that those the clean-up lets go on meet its condition.
- ProcessLaws.KillSettlesOrDeparts: takes the processes woken as an argument, as ProcessLaws.ExitDeparts does; the ones that the descriptors wake come in the code after the parent, which by ProcessLaws.WakeOrder makes no difference.
- Syscalls.SysExit: see Kernel.Kernel.ProcessExit.
- Syscalls.SysKill: see Kernel.Kernel.ProcessKill.
- Kernel.Kernel.ProcessCreate: names, entry points, the layout of the first stack frame and the references to the terminals (in Files.FileTable.ProcessStarts) are not part of the table entry, nor are the bytes copied into argv; only how many are needed.
- Syscalls.SysCreateProcess: as Kernel.Kernel.ProcessCreate.
- Syscalls.SysUnblock: asks that the process does not wait for a child, which the code does not; by ProcessLaws.UnblockSettles that is exactly when the result is settled.
- ProcessRuns.Enabled: unblocking a process that waits for a child is excluded, see Syscalls.SysUnblock.
- Boot.Initialize: the set-up of descriptors, pipes and semaphores is in the constructors of their tables.
- BoundedWaiting.BoundedWait: the wait counter of the process is assumed not to wrap around in 32 bits (497 days at 100 ticks a second), since waiting is lost when it does.
- Fairness.RunsWithin: as BoundedWaiting.BoundedWait; calls other than yields and ticks, which change priorities or who is blocked, are not part of the window.
- BuddyHeap.Heap.constructor: asks for a multiple of 16 bytes below 2^24, see BuddyLaws.InitialValidIff; the manager before it is set up (a null heap) is not modelled, while first fit is, because there mm_init may refuse.
- FirstFitHeap.Heap.UserWrite: bytes after the last whole word of a payload belong to no word here.
- SemaphoreSpec.Wait: values are unbounded below; the wrap-around of 64 bits is modelled only for the initial value.
- Semaphores.SemTable.SemWait: the spinlock never spins on one processor with interrupts off and is left out.
- MVar.Enabled: the semaphore table has room for the two semaphores; the table of MVars, whose entry exists throughout, its creation and its reuse are left out, and so is leaving a buffer without dying, which participants never do while its entry exists.
- MVar.Step: a put or take counts when its post is made; what a reader does with the value afterwards is not part of it.
- Files.FileTable.FdRead: terminals and the keyboard are not modelled; a read of anything but a read end changes nothing here.
- Files.FileTable.FdWrite: likewise a write of anything but a write end.
- Files.FileTable.ProcessPipeSetup: a negative index for the descriptor to replace, which the code does not refuse, is excluded.
- FdLedger.Fair: a program closes only numbers it was given, and a child is set up with a live descriptor it does not have yet; the code lets any process close any number.
- PipeRuns.QuietStep: several readers or writers, and named pipes, where a write wakes one reader only, so that more can be parked than the buffer warrants.
- The processes of the semaphore and pipe modules carry only what those modules read and write of a process; WholeKernel puts them beside the table entries of the scheduler, on values; the classes of the three tables are not put together.
- Payload bytes and the alignment of returned addresses.
- Pids, tick counts and reference counts do not wrap around at 64 bits.
- Listing processes, process names, register snapshots, the console, sound, time, video and keyboard drivers, the boot loader, the module loader and packer, and the shell and its commands.
