# ChicOS kernel model

A Dafny model of the simulated kernel of ChicOS and proofs about it: the process table and scheduler,
the instruction executor, counting semaphores, the SSTF disk, the page allocator with its second-chance
clock, and the printer queue. `dafny verify dfyconfig.toml` checks everything.

## How it is organised

Each component comes in two layers. A class holds the C structure's fields and updates them in place,
with the loops and branches of the C code. Its methods are proved equal to functions on plain values, and the
theorems are about those functions and about runs built from them.

| file | contents |
|---|---|
| `Common.dfy` | options, track distance, pigeonhole |
| `Disk.dfy`, `DiskDrain.dfy` | the request queue and one disk tick; drain time, head travel, no preemption |
| `Process.dfy`, `ProcessTable.dfy` | processes, program loading and reloading; the fixed table, its search, creation, reaping and selection |
| `Scheduler.dfy` | demotion, reaping and selection as functions |
| `Semaphore.dfy`, `SemaphoreList.dfy` | counting semaphores over a 64-slot ring; the list of declared semaphores |
| `Kernel.dfy` | the state machine: creation, the four phases of the CPU thread, disk and printer ticks, in any interleaving |
| `WaitSets.dfy`, `KernelInvariant.dfy`, `KernelResults.dfy` | the invariant of every run and what follows from it |
| `Commands.dfy` | what each command, creation, selection and disk tick leaves, field by field |
| `SemaphoreRuns.dfy`, `MutualExclusion.dfy`, `Deadlock.dfy` | semaphore accounting, mutual exclusion and freedom from deadlock over runs |
| `DiskRuns.dfy` | disk requests over whole runs of the kernel |
| `Counterexamples.dfy` | runs from the start in which a semaphore fails |
| `KernelEffects.dfy`, `WorkAccounting.dfy`, `Termination.dfy`, `RoundRobin.dfy` | who moves in a step; work conservation; termination of one process and of all; exact round-robin |
| `Machine.dfy` | the simulator object: all structures together, every routine tied to a step of the state machine |
| `Memory.dfy`, `Allocator.dfy` | first fit, blocks, runs and the clock as functions; the allocator object |
| `Printer.dfy`, `PrinterRuns.dfy` | the linked job list, FIFO order and drain time; print jobs over whole runs of the kernel |

The main results, in short:

- Draining the disk with no arrivals takes exactly the service time, plus one tick per removal, plus the
  head travel, and the head travels at most twice the span of the start and pending tracks.
- Every command, creation, selection and disk tick is spelled out field by field.
- In every state of every run the blocked processes are exactly the queued disk requests and the waiting
  ones exactly the ring entries, once each; so no wake-up misses, no queue or ring overflows, and an idle
  system with an idle disk is a semaphore deadlock.
- Programs that alternate P and V on a semaphore are never inside it together, whatever the interleaving, as
  long as no dispatch at or past the end of a program reaches a command on it that was left in memory. The
  semaphore accounts for everyone inside, in every state of a run, if and only if that never happens. If
  besides they close what they open and wait on no other semaphore, they never deadlock.
- On every run the work left and the dispatches add up to the work brought in, plus the dispatches of
  processes whose kill was lost. A process whose kill sticks is dispatched at most as often as it has work,
  and is killed by the last of these dispatches.
- CPU-only processes are served in exact rotation, however the devices interleave, until the 8-bit use counter wraps.
- On runs without eviction live blocks are disjoint, match their headers, hold what was asked for, and are
  counted exactly. An allocation leaves blocks and counter intact if and only if the counter allowed it to
  begin with; after an eviction the counter still never falls below the truth.

## Where the code departs from its evident intent

The model follows the code. Each departure is stated, with the exact condition under which it does no harm.

- Killing a process at its last slot is not followed by a return (`src/modules/cpu/cpu.c:163-167`), so the slot is
  dispatched as well. The code of a process is modelled as the whole content of its memory block: the
  parsed program and, behind it, whatever was there. `KernelResults.KillFallsThroughHarmlesslyIff` and
  `KernelResults.KillSticksIff` say when this is harmless. `KernelResults.LostKillIsReached` reaches a process that
  was blocked while being killed; by `Termination.StepEscapesIff` such a process is never killed afterwards. A V
  left in memory there lets two alternating processes in at once (`Counterexamples.StaleVBreaksExclusion`);
  `MutualExclusion.AccountIsKeptIff` says on which runs a semaphore keeps its account.
- `p_create` writes at `curr` while the scheduler reads up to `last`, and reaping lowers only `last`.
  `ProcessTable.CreationAppendsIff` shows that the new process is seen if and only if nothing was reaped
  before, and `KernelResults.ReapedTableIsReached` reaches a state where something was. The state machine takes
  creations only when nothing was, or when the table is full.
- The reaper passes over the entry that moves into a freed slot. `Scheduler.ReapIsFilterIff` shows that it is a
  filter if and only if no two killed entries are neighbours; `KernelResults.ReapingIsExact` that this holds on every run.
- The selection chain is not the lexicographic policy on unsorted tables (`Scheduler.SelectNeedsSorting`); every
  reachable table is sorted.
- `h_used` is 8 bits wide, and the rotation breaks when it wraps (`RoundRobin.RoundRobinBreaksAt255`). Semaphore
  values are 8 bits wide and wrap (`SemaphoreRuns.VBalancedIff`); `SemaphoreRuns.AccountIsExactIff` says on which runs
  they are exact, and `Counterexamples.WrapIsReached` reaches a state in which one has wrapped.
- The clock returns the page after the unused one it found, and whatever page an eviction gives up, it was
  free and is now counted twice, or a live block has lost it (`Memory.EvictionIsNeverSound`). The allocation that
  follows repairs neither (`Memory.AllocationIsIntactIff`), but it can hide the loss (`Memory.ReissuedPageLooksSound`).
  From a nonzero hand the clock does not look at the page before the hand.
- A reload resets `rw_count` and the commands already passed (`Process.ReloadResetsThePast`).

Each system call, interrupt, scheduler routine and device tick is one atomic step. The memory block that a creation or reload gets is a
parameter of the step: arbitrary content, large enough for the program. Parsing is a fixed function from a file to its
semaphore names and commands, and the file does not change.

## Model

| member | source | states |
|---|---|---|
| Disk.SortFront | src/modules/io/disk.c:18-35 | the queue stays a permutation and a nearest request is in front |
| Disk.SortFrontIs | src/modules/io/disk.c:18-35 | of several nearest requests the earliest is brought to the front, and only it and the former front change places |
| Disk.TickIs | src/modules/io/disk.c:37-95 | for the earliest of the nearest requests: exchanged with the front; one unit of service, or removal and report with the others in order, or one track towards it |
| Disk.DiskDrive.constructor | src/modules/io/disk.c:8-16 | the disk starts idle at track 0 |
| Disk.DiskDrive.SortDisk | src/modules/io/disk.c:18-35 | the in-place scan and swap bring the earliest nearest request to the front and exchange it with the former front only |
| Disk.DiskDrive.MoveHeader | src/modules/io/disk.c:37-46 | the head moves one track towards the target, and stays if it is there |
| Disk.DiskDrive.QPut | src/modules/io/disk.c:85-88 | a request is appended; the queue must not be full, which the code does not check |
| Disk.DiskDrive.QRemove | src/modules/io/disk.c:89-95 | exactly the front request is removed and the order of the others is kept |
| Disk.DiskDrive.SimulateIo | src/modules/io/disk.c:63-71 | a request with a full slice is queued if and only if the track exists; otherwise the simulator ends with the queue as it was |
| Disk.DiskDrive.ExecIo | src/modules/io/disk.c:73-83 | one unit of service, or removal and report of exactly the front request |
| Disk.DiskDrive.DiskLoopTick | src/modules/io/disk.c:48-61 | one loop iteration is one tick of the disk as a function of queue and head |
| DiskDrain.TickServes | src/modules/io/disk.c:54-57 | on the nearest request's track a tick uses up exactly one unit of service and the head stays |
| DiskDrain.TickMoves | src/modules/io/disk.c:51-58 | elsewhere the head moves one track closer to the chosen request, which stays the choice; nothing finishes |
| DiskDrain.DrainTimeExact | src/modules/io/disk.c:48-61 | the queue is empty exactly from tick DrainTime on |
| DiskDrain.DrainTimeIsServicePlusTravel | src/modules/io/disk.c:48-83 | drain time is the sum of (remaining time + 1) over all requests plus the head travel |
| DiskDrain.EachFinishedOnce | src/modules/io/disk.c:73-95 | draining reports every queued request exactly as often as it was queued, and nothing else |
| DiskDrain.TravelPotential | src/modules/io/disk.c:18-61 | travel plus the larger clear zone around the head is at most twice any interval holding the head and all pending tracks |
| DiskDrain.TravelAtMostTwiceTheSpan | src/modules/io/disk.c:18-61 | draining moves the head at most twice the span of the start track and all pending tracks |
| DiskDrain.TravelAtMostTwiceTheDisk | src/modules/io/disk.c:63-71 | with admitted tracks only, travel is at most twice the disk and drain time is bounded accordingly |
| DiskDrain.TicksAreAHop | src/modules/io/disk.c:37-61 | the ticks up to the chosen track are one hop to the nearest request with the queue otherwise unchanged and nothing finished |
| DiskDrain.ServiceNotPreempted | src/modules/io/disk.c:18-95 | once the head is on the front request's track no arrivals displace it: it is served every tick and reported the tick after its last unit |
| Process.InitCodeSection | src/modules/process/process.c:64-101 | slot by slot: the commands in the first slots of the block, what was there before in the rest, and the number of commands |
| Process.Realloc | src/modules/process/process.c:258-275 | save, re-read header, re-parse into the new block, restore: the process afterwards is Reload |
| Process.ReloadKeepsTheRest | src/modules/process/process.c:242-286 | PC, last and the commands from PC on, with the partly used one, are those from before the reload |
| Process.ReloadResetsThePast | src/modules/process/process.c:264-273 | every other command is the file's again, and rw_count is 0 |
| Scheduler.NoRunning | src/modules/scheduler/scheduler.c:8-19 | running entries become ready, all others are as they were |
| Scheduler.ReapIsFilterIff | src/modules/scheduler/scheduler.c:63-79 | reaping removes exactly the killed entries if and only if no two of them are neighbours |
| Scheduler.ReapMissesOne | src/modules/scheduler/scheduler.c:64-76 | of two killed neighbours the second survives |
| Scheduler.ReapIs | src/modules/scheduler/scheduler.c:63-79 | on every table reaping keeps, in order, who is not killed and every second one of a row of killed entries |
| Scheduler.SelectIsMinimum | src/modules/scheduler/scheduler.c:27-54 | on a sorted table selection is the minimum of (rw_count, h_used, pid) over the eligible processes, and none only if none is eligible |
| Scheduler.SelectNeedsSorting | src/modules/scheduler/scheduler.c:38-46 | on an unsorted table a smaller pid wins against less use |
| ProcessTable.Pcb.constructor | src/modules/process/process.c:9-14 | the table starts empty |
| ProcessTable.Pcb.PFind | src/modules/process/process.c:188-202 | the first slot with the pid among all slots, unused ones included, or none |
| ProcessTable.Pcb.PSuspend | src/modules/process/process.c:227-233 | exactly the named process gets the status and loses its slice |
| ProcessTable.Pcb.PUnblock | src/modules/process/process.c:235-240 | exactly the named process becomes ready |
| ProcessTable.Pcb.PKill | src/modules/process/process.c:204-218 | exactly the first slot with the pid, unused slots included, is marked killed; a pid that no slot holds changes nothing |
| ProcessTable.Pcb.Insert | src/modules/process/process.c:123-140 | the new process is written at curr under the next pid and the table is taken to be one longer; with nothing reaped it is the new last entry |
| ProcessTable.CreationAppendsIff | src/modules/process/process.c:135-138 | the table seen after a creation is the old one and the new process if and only if nothing was reaped before |
| ProcessTable.Pcb.SchedulerNoRunning | src/modules/scheduler/scheduler.c:8-19 | the loop demotes every running entry of the live table |
| ProcessTable.Pcb.ShiftDown | src/modules/scheduler/scheduler.c:69-73 | the slots behind the removed one move down by one, the last slot stays |
| ProcessTable.Pcb.SchedulerKillProcess | src/modules/scheduler/scheduler.c:63-79 | the in-place reaping of the whole table is Reap on the live entries and leaves the unused slots zeroed |
| ProcessTable.Pcb.SchedulerGetProcess | src/modules/scheduler/scheduler.c:21-61 | the scan selects Select, which is marked running with a full slice; nothing else changes |
| Semaphore.SemaphoreCell.GetWaitersSize | src/modules/semaphore/semaphore.c:28-30 | the number of slots from head to tail round the ring |
| Semaphore.SemaphoreCell.WaiterPush | src/modules/semaphore/semaphore.c:9-16 | the ring as a queue grows by the pid at its end, across the wrap, unless it is full |
| Semaphore.SemaphoreCell.WaiterPop | src/modules/semaphore/semaphore.c:18-26 | the ring as a queue loses and returns its oldest pid, across the wrap, unless it is empty |
| Semaphore.SemaphoreCell.Decrement | src/modules/semaphore/semaphore.c:39-41 | value and queue after a P, and whether the caller must wait |
| Semaphore.SemaphoreCell.Increment | src/modules/semaphore/semaphore.c:58-60 | value and queue after a V, and the pid to wake |
| Semaphore.Find | src/modules/semaphore/semaphore.c:112-118 | the first semaphore of that name, or none if it was never declared |
| Semaphore.DeclareAllDeclares | src/modules/semaphore/semaphore.c:85-110 | after a header every name in it is declared, unless the list is full |
| Semaphore.DeclareInOrder | src/modules/fs/synt.c:35-41 | the names of a header are declared one after the other: a new one is appended with value 1 and nobody waiting, unless 32 are there already |
| Semaphore.RedeclarationChangesNothing | src/modules/fs/synt.c:35-41 | reading the same header again leaves every semaphore as it is |
| SemaphoreList.SemList.GetSemaphoreByName | src/modules/semaphore/semaphore.c:112-118 | the scan of the list is Find |
| SemaphoreList.SemList.InitSemaphore | src/modules/semaphore/semaphore.c:85-110 | a new name is appended with value 1 and an empty ring; a known name or a full list changes nothing |
| SemaphoreList.SemList.ReadHeader | src/modules/fs/synt.c:35-41 | the names of a header are declared in order |
| KernelInvariant.DiskQueueNeverOverflows | src/modules/io/disk.c:85-88 | a request of a process that is not blocked always finds room |
| KernelInvariant.RingNeverFull | src/modules/semaphore/semaphore.c:9-13 | a process that is not waiting always finds room in every ring, and is not in it |
| KernelInvariant.PKeeps | src/modules/semaphore/semaphore.c:32-49 | a P by the executing process keeps the invariant |
| KernelInvariant.VKeeps | src/modules/semaphore/semaphore.c:51-68 | a V keeps the invariant |
| KernelInvariant.DispatchKeeps | src/modules/cpu/cpu.c:167-221 | every command keeps the invariant, or stops the simulator |
| KernelInvariant.CreateKeeps | src/modules/process/process.c:104-141 | creation, with nothing reaped before or into a full table, keeps the invariant |
| KernelInvariant.ReapKeeps | src/modules/scheduler/scheduler.c:63-79 | in a run reaping is a filter and keeps the invariant |
| KernelInvariant.DiskKeeps | src/modules/io/disk.c:48-83 | a disk tick and the wake-up it causes keep the invariant |
| KernelInvariant.StepKeeps | src/modules/cpu/cpu.c:21-155 | every step of every thread keeps the invariant |
| KernelInvariant.RunKeeps | src/modules/cpu/cpu.c:21-155 | so does every run, of any length and interleaving |
| KernelResults.NoProcessIsEverLost | src/modules/process/process.c:188-240 | no run reaches a wake-up or block whose process is not in the table |
| KernelResults.QueuesMatchStatuses | src/modules/process/process.c:227-240 | in every reachable state blocked processes are the disk ids and waiting ones the ring entries, each once, each in one ring, and every disk id and ring entry is a process in the table |
| KernelResults.FixedSizesSuffice | src/modules/io/disk.h:16-19 | in every reachable state the disk queue and the rings are below their fixed sizes |
| KernelResults.IdleMeansDeadlock | src/modules/scheduler/scheduler.c:29-54 | nothing eligible and an idle disk means that every process waits on a semaphore |
| KernelResults.SelectionFollowsThePolicy | src/modules/scheduler/scheduler.c:27-61 | in every reachable state selection is the policy's minimum |
| KernelResults.ReapingIsExact | src/modules/scheduler/scheduler.c:63-79 | in every reachable state reaping removes exactly the killed entries, at most one |
| KernelResults.DiskDrainsFromAnyState | src/modules/io/disk.c:48-83 | from every reachable state the disk alone is idle again within a stated number of ticks |
| KernelResults.DiskTicksReady | src/modules/io/disk.c:73-83 | after any number of disk ticks exactly the processes whose requests are finished are ready, and nobody else has changed |
| KernelResults.EveryBlockedProcessIsReadied | src/modules/io/disk.c:73-83 | once the queue has drained every process that was blocked is ready, and nobody else has changed |
| KernelResults.StopsOnlyOnMissingTrack | src/modules/io/disk.c:63-67 | a step stops the simulator if and only if it dispatches a request for a track beyond the last |
| DiskRuns.StepQueues | src/modules/cpu/cpu.c:68-72 | a step that is no disk tick appends exactly the dispatched request to the queue, or leaves the queue |
| DiskRuns.RequestsAreConserved | src/modules/io/disk.c:48-95 | on every run the requests finished and those still queued are the ones queued at the start and the ones dispatched, each as often |
| KernelResults.KillFallsThroughHarmlesslyIff | src/modules/cpu/cpu.c:163-221 | killing at the last slot has no further effect if and only if the slot is unrecognised or names an undeclared semaphore |
| KernelResults.KillSticksIff | src/modules/cpu/cpu.c:163-221 | the process is still marked killed afterwards if and only if the slot does not suspend it |
| KernelResults.LastDispatchKillsIff | src/modules/cpu/cpu.c:163-165 | the dispatch of the last unit of work leaves the process marked killed, and gone after the next reaping, if and only if the slot at the end does not suspend it |
| KernelResults.LostKillIsReached | src/modules/cpu/cpu.c:163-210 | a run from the start reaches a live process past its end that is blocked and not marked killed |
| KernelResults.ReapedTableIsReached | src/modules/scheduler/scheduler.c:69-76 | a run from the start reaches a table with room in which the next creation would write behind a free slot |
| Commands.ExecIs | src/modules/cpu/cpu.c:174-203 | an exec: use count, slice, time left, PC; after a full slice rw_count 0, the file's commands in their slots and the new block's content behind them; nothing else changes |
| Commands.PIs | src/modules/semaphore/semaphore.c:32-49 | a P: value modulo 8 bits; if negative the process is last in the ring, waits, and loses its slice; PC moves; nothing else changes |
| Commands.VIs | src/modules/semaphore/semaphore.c:51-68 | a V: value modulo 8 bits; the first in the ring leaves it and is ready; PC moves; nothing else changes |
| Commands.UndeclaredIs | src/modules/semaphore/semaphore.c:33-36 | a P or V on an undeclared semaphore only moves PC |
| Commands.UnknownIs | src/modules/cpu/cpu.c:216-221 | a slot that decodes to no command only moves PC |
| Commands.PrintIs | src/modules/cpu/cpu.c:98-101 | a print command puts a job with its time and pid at the end of the queue; PC moves; nothing else changes |
| Commands.DiskIs | src/modules/cpu/cpu.c:204-210 | a disk command queues 4000 units on its track, blocks its process without a slice and counts it; PC moves; nothing else changes |
| Commands.CreateIs | src/modules/process/process.c:104-141 | a creation with room: pid, status, slice, counters, PC and every slot of the block of the new last entry, and its header declared; nobody else changes |
| Commands.SelectionIs | src/modules/scheduler/scheduler.c:21-61 | the selected process has the least rw_count, then h_used, then pid of all that neither wait nor are blocked, and gets a full slice; nothing else changes |
| Commands.DiskTickIs | src/modules/cpu/cpu.c:123-126 | a disk tick readies exactly the blocked process whose request it finishes |
| SemaphoreRuns.StepCell | src/modules/semaphore/semaphore.c:32-68 | every step of the kernel changes a semaphore exactly by the P or V it completes |
| SemaphoreRuns.ValueIsAccount | src/modules/semaphore/semaphore.c:39-58 | on every run value = start - P + V + 256 times the wraps, without wraps exactly when the account fits in 8 bits |
| SemaphoreRuns.AccountIsExactIff | src/modules/semaphore/semaphore.c:32-68 | in every state of a run value = start - P + V and the waiters are max(0, -value) many, if and only if start - P + V never passes 127 |
| SemaphoreRuns.AccountFromStart | src/modules/semaphore/semaphore.c:85-110 | from the start of the simulator the same with value = 1 - P + V |
| SemaphoreRuns.VBalancedIff | src/modules/semaphore/semaphore.c:58-59 | a V keeps the number of waiters in step with the value if and only if the value is not 127 |
| SemaphoreRuns.VWakesTheLongestWaiting | src/modules/semaphore/semaphore.c:51-68 | a V with waiters readies exactly the longest-waiting process and keeps the order of the others |
| KernelEffects.ExecuteEffect | src/modules/cpu/cpu.c:157-222 | an execution moves the chosen process by one dispatch and leaves every other program where it is |
| MutualExclusion.StepGuarded | src/modules/cpu/cpu.c:54-155 | every step that dispatches no stale command keeps the exact account of who is inside, waiting, or killed inside |
| MutualExclusion.StepInAccountIff | src/modules/cpu/cpu.c:54-222 | a step leaves the account right if and only if it dispatches no stale command on the semaphore |
| MutualExclusion.NeverTwoInside | src/modules/semaphore/semaphore.c:32-68 | under that account no two processes are inside together |
| MutualExclusion.AccountIsKeptIff | src/modules/semaphore/semaphore.c:32-110 | with alternating programs, value + those inside or waiting + those killed inside is 1 in every state of a run, if and only if no dispatch at or past the end of a program is a P or V on the semaphore |
| MutualExclusion.MutualExclusionHolds | src/modules/semaphore/semaphore.c:32-110 | on every run of alternating programs that dispatches no stale command on the semaphore, at most one process is between its completed P and its V, and the value is between 1 less the processes created and 1 |
| Counterexamples.StaleVBreaksExclusion | src/modules/cpu/cpu.c:163-221 | a run from the start with alternating, declared programs reaches two processes inside, because a kill fell through to a V left in memory |
| Counterexamples.WrapIsReached | src/modules/semaphore/semaphore.c:58-59 | a program of 127 Vs takes the value from 1 to -128 with nobody waiting |
| Deadlock.SomebodyIsInside | src/modules/semaphore/semaphore.c:32-68 | a semaphore that has lost nobody never has every process waiting on it |
| Deadlock.NoDeadlock | src/modules/cpu/cpu.c:21-155 | on every run of alternating programs that close what they open and wait on one semaphore only, without stale commands, nothing to select and an idle disk means that no process is left |
| WorkAccounting.SlicesIsCeiling | src/modules/cpu/cpu.c:174-200 | an exec of n ms takes max(1, ceil(n / 1000)) dispatches |
| WorkAccounting.BurstWithinCommand | src/modules/cpu/cpu.c:175-188 | a burst is at most the slice and at most what is left, so the unsigned subtraction does not wrap |
| WorkAccounting.StepUses | src/modules/cpu/cpu.c:157-222 | a dispatch takes one unit of work and the burst's milliseconds from the chosen process and nothing from others; other steps take nothing |
| WorkAccounting.WorkCountsDispatches | src/modules/cpu/cpu.c:157-222 | on every run work left + dispatches = work + dispatches after a lost kill, so work goes down by one a dispatch, down to none; and exec time left + time charged = exec time |
| Termination.StepEscapesIff | src/modules/cpu/cpu.c:163-221 | a process is past its end without being killed after a step if and only if it was before or the step lost its kill; so it stays that way |
| Termination.EscapesIff | src/modules/cpu/cpu.c:163-221 | a run lets a process escape its kill if and only if one of its dispatches at the end finds a slot that suspends it |
| Termination.DispatchedExactlyItsWork | src/modules/cpu/cpu.c:157-222 | a process whose kill sticks is dispatched at most as often as it has work, and is killed or gone exactly when it has been dispatched that often |
| Termination.TotalWorkIsConserved | src/modules/cpu/cpu.c:21-222 | on every run the work left and the dispatches of all processes add up to the work at the start, the work created, and the dispatches after lost kills |
| Termination.DispatchesAreBounded | src/modules/cpu/cpu.c:21-222 | while no kill is lost, the dispatches of all processes are exactly the work at the start and created, less the work left |
| Termination.DispatchesFromStart | src/modules/cpu/cpu.c:21-222 | from the start, all processes together are dispatched at most as often as the programs created have work, and exactly that often when none is left |
| WorkAccounting.NewWork | src/modules/process/process.c:82-101 | a new process owes the dispatches of its whole program and the one that kills it |
| WorkAccounting.WorkMeansLive | src/modules/cpu/cpu.c:163-165 | work is left exactly for processes in the table that are neither killed nor past their end |
| RoundRobin.CpuTickIsFourSteps | src/modules/cpu/cpu.c:30-37 | an undisturbed loop iteration is the four steps one after the other |
| RoundRobin.RotationStep | src/modules/cpu/cpu.c:30-37 | no step of the CPU thread or a device but an execution takes the turn from the slot that has it; an execution is of this slot and passes the turn on |
| RoundRobin.RoundRobinIsExact | src/modules/scheduler/scheduler.c:21-61 | on every run of CPU steps and device ticks, in any interleaving, dispatch q * n + r goes to slot r and use counts differ by at most one, for up to 255 rounds |
| RoundRobin.RoundRobinBreaksAt255 | src/modules/process/process.h:40 | among processes with work for more than 256 dispatches at the start, dispatches 255 * n and 255 * n + 1 of every such run both go to slot 0 |
| RoundRobin.RotationCanStart | src/modules/process/process.c:104-141 | two processes with that much work are created by a run from the start |
| Machine.App.constructor | src/chicos.c:27-45 | the simulator starts in the initial state of the state machine |
| Machine.App.SemaphoreP | src/modules/semaphore/semaphore.c:32-49 | the routine on ring and table is the P of the state machine; only a caller that has to wait must be in the table |
| Machine.App.SemaphoreV | src/modules/semaphore/semaphore.c:51-68 | the routine on ring and table is the V of the state machine |
| Machine.App.DiskRequest | src/modules/cpu/cpu.c:68-72 | block, then queue or stop |
| Machine.App.PrintRequest | src/modules/cpu/cpu.c:98-101 | the job is appended to the printer's list |
| Machine.App.SleepWithTime | src/modules/utils/utils.c:7-12 | the countdown takes exactly the given milliseconds off |
| Machine.App.Burst | src/modules/cpu/cpu.c:174-189 | the burst and its accounting are Charged |
| Machine.App.ExecBurst | src/modules/cpu/cpu.c:174-203 | the exec command with its reload is that of the state machine |
| Machine.App.Dispatch | src/modules/cpu/cpu.c:167-221 | the switch is that of the state machine |
| Machine.App.ExecProcess | src/modules/cpu/cpu.c:157-222 | kill without return, then dispatch, as in the state machine |
| Machine.App.CpuDemote | src/modules/cpu/cpu.c:30 | is the demotion step and keeps the invariant |
| Machine.App.CpuReap | src/modules/cpu/cpu.c:31 | is the reaping step and keeps the invariant |
| Machine.App.CpuSelect | src/modules/cpu/cpu.c:33 | is the selection step and keeps the invariant |
| Machine.App.CpuExecute | src/modules/cpu/cpu.c:34-37 | is the execution step and keeps the invariant, or stops |
| Machine.App.CpuLoopIteration | src/modules/cpu/cpu.c:21-51 | one undisturbed iteration of the CPU loop |
| Machine.App.DiskThreadTick | src/modules/io/disk.c:48-83 | is the disk step with its interrupt and keeps the invariant |
| Machine.App.PrinterThreadTick | src/modules/io/printer.c:21-38 | is the printer step and keeps the invariant |
| Machine.App.PCreate | src/modules/process/process.c:104-141 | is the creation step and keeps the invariant; a full table changes nothing |
| Memory.PagesForIsEnough | src/modules/memory/mem.c:71 | the page count is the least number of 1024-byte pages that holds the request and its 8-byte header |
| Memory.FirstFit | src/modules/memory/mem.c:100-129 | the smallest index of an all-free window, or none if there is none |
| Memory.TakeThenRelease | src/modules/memory/mem.c:180-198 | releasing what was just taken restores free map and count |
| Memory.AllocPagesSound | src/modules/memory/mem.c:100-141 | an allocation keeps soundness and its window meets no live block |
| Memory.FreeBlockSound | src/modules/memory/mem.c:180-198 | releasing a live block by its header keeps soundness |
| Memory.AllocThenFree | src/modules/memory/mem.c:100-198 | allocation and release restore free map, counter and blocks |
| Memory.ReallocSound | src/modules/memory/mem.c:144-173 | the new window meets no live block, the old one included; afterwards exactly the old block is gone and the state is sound; without a window nothing changes |
| Memory.RunsStaySound | src/modules/memory/mem.c:66-198 | every run of allocations, releases and reallocations without eviction keeps blocks disjoint, headed, exactly covering the taken pages, and counted, and every live payload as large as was asked for |
| Memory.EvictionIsNeverSound | src/modules/memory/mem.c:83-97 | one eviction from a sound state double-counts a free page or takes a page from a live block, never neither |
| Memory.EvictForSpoilsIff | src/modules/memory/mem.c:83-98 | making room from a sound state leaves a wrong counter or a block without one of its pages if and only if anything was evicted |
| Memory.EvictForIs | src/modules/memory/mem.c:83-98 | making room succeeds if and only if the clock returns as many pages as the counter is short of, and exactly these are evicted; otherwise those it returned before giving up |
| Memory.AllocationIsIntactIff | src/modules/memory/mem.c:81-129 | an allocation that succeeds on a sound state leaves the counter right and every page of every block taken and not handed out again, if and only if the counter allowed it to begin with |
| Memory.ReissuedPageLooksSound | src/modules/memory/mem.c:81-129 | a page evicted from a one-page block and handed out again gives a state that is sound with one owner forgotten, so soundness alone does not show the damage |
| Memory.ClockFailsIff | src/modules/memory/mem.c:252-273 | the clock gives up if and only if the hand is nonzero and every page but the one before it was used |
| Memory.ClockRecovers | src/modules/memory/mem.c:268-272 | after giving up the next call succeeds with the page after the hand |
| Allocator.FirstPass | src/modules/memory/mem.c:257-266 | the clock returns the page after the first unused one from the hand, and exactly the pages passed before lose their mark |
| Allocator.SecondPass | src/modules/memory/mem.c:257-268 | from hand 0 with every page used it comes round to page 0 and returns the page after it, all marks lost |
| Allocator.Mem.constructor | src/modules/memory/mem.c:7-49 | the given size, or 1 MB from 4 MB on; all pages free and unused, the counter full, the hand at 0, the free stack the identity |
| Allocator.FreshRequest | src/modules/memory/mem.c:66-142 | with every page free, a request whose pages fit the table is answered with block 0 and takes just these; one that needs more pages than there are never gets a block |
| Allocator.Mem.PushFreeStack | src/modules/memory/mem.c:174-178 | a push is dropped when the stack is full |
| Allocator.Mem.SecondChance | src/modules/memory/mem.c:252-273 | the loop is Clock, visits at most one page more than there are, and leaves the free bits |
| Allocator.Mem.Evict | src/modules/memory/mem.c:81-98 | the loop ends, leaves exactly the state of EvictFor, evicts nothing when the counter suffices, and keeps the counter at or above the free pages |
| Allocator.Mem.FindWindow | src/modules/memory/mem.c:102-115 | the nested scan is FirstFit |
| Allocator.Mem.AllocateWindow | src/modules/memory/mem.c:100-129 | window, counter, pages and header are those of AllocPages |
| Allocator.RequestIsIntactIff | src/modules/memory/mem.c:66-142 | a request on a sound state leaves blocks and counter intact if and only if the counter allowed it, or the clock gave up before anything was evicted |
| Allocator.RequestIs | src/modules/memory/mem.c:66-142 | a request finds the memory full if and only if the clock gives up before it has returned the pages the counter is short of; otherwise these are evicted and the first window is taken, or there is none |
| Allocator.Mem.CAlloc | src/modules/memory/mem.c:66-142 | result and whole state on all runs are those of Request: null requests, first fit, evictions, the crash on fragmentation; blocks and counter intact exactly under the guard; the counter bound on all runs |
| Allocator.Mem.CDealloc | src/modules/memory/mem.c:180-198 | exactly the pages named by the header are marked free, and counted; a null pointer changes nothing |
| Allocator.Mem.MemCpy | src/modules/memory/mem.c:167 | the target receives the source's bytes when they do not overlap or are the same, and no other byte changes |
| Allocator.Mem.CRealloc | src/modules/memory/mem.c:144-173 | on all runs: the request, the copy and the release by header, with the payload preserved and room for the new bytes; from a sound state without eviction: a disjoint, larger block that starts with the old payload, the old block released, all other payloads and soundness kept |
| Printer.Spooler.AddToPrintQueue | src/modules/io/printer.c:40-57 | the list as a sequence grows by the job at its end |
| Printer.Spooler.PopFromPrintQueue | src/modules/io/printer.c:59-74 | the list loses and returns its first node, and head and tail stay right |
| Printer.Spooler.PopPrint | src/modules/io/printer.c:83 | the first job becomes the buffer |
| Printer.Spooler.PrinterLoopTick | src/modules/io/printer.c:21-38 | one loop iteration is one tick of the printer as a function |
| Printer.FirstInFirstOut | src/modules/io/printer.c:21-83 | on every run with arrivals, printed followed by pending is what was pending followed by what arrived |
| Printer.DrainTimeExact | src/modules/io/printer.c:21-38 | the printer is idle exactly from tick DrainTime on |
| Printer.DrainsInOrder | src/modules/io/printer.c:21-38 | from an empty buffer a nonempty list is printed in order, each job once, in 1 + the sum of max(1, time) ticks |
| Printer.SubmitTakes | src/modules/io/printer.c:40-57 | a submitted job keeps the printer busy for max(1, time) ticks more, and one more if it was idle |
| Printer.EachJobInTime | src/modules/io/printer.c:21-38 | from an empty buffer, after n ticks exactly the jobs are done whose times, at least 1 each, and 1 add up to at most n |
| PrinterRuns.StepPrinter | src/modules/cpu/cpu.c:98-104 | a dispatched print command submits its job, a printer tick serves one, and no other step of any thread touches the printer |
| PrinterRuns.PrintedInOrder | src/modules/io/printer.c:21-83 | on every run of the kernel, printed followed by pending is what was pending followed by the dispatched print commands' pids in dispatch order |
| PrinterRuns.PrintTimeIsConserved | src/modules/io/printer.c:21-57 | on every run of the kernel, the ticks the printer was busy and those it still needs are those needed at the start and those of the dispatched print commands |

## Left out

- Machine.App.PCreate: requires that nothing was reaped before or that the table is full, because after a reap the code leaves a zeroed slot in the live table whose file pointer the scheduler follows; ProcessTable.Pcb.Insert and ProcessTable.CreationAppendsIff cover that case.
- KernelInvariant.CreateKeeps: the same; a creation after a reap into a table with room is no step of the state machine.
- Allocator.Mem.CAlloc: requires a page table that is not empty for requests that reach it, because the clock would read past an empty one.
- Allocator.Mem.CRealloc: requires a header in range, a total below 2^32, and that the new block does not cover part of the old one, which only an eviction can bring about; the code would then copy over the header that it reads next.
- MutualExclusion.MutualExclusionHolds: assumes that the programs created alternate and that the semaphore is declared where it is used; AccountIsKeptIff and StaleVBreaksExclusion cover the runs with stale commands.
- RoundRobin.RoundRobinIsExact: is about CPU-only processes with work for the rounds considered, and no creations in between.
- Kernel memory: in the state machine, allocation for processes, headers, semaphores and print jobs always succeeds; the allocator is modelled on its own.
- A reload's growth of the block is represented by the size of the region it gets, not computed.
- The block header is kept in a table beside the pool rather than as bytes inside it, so a block that shares pages with another after an eviction keeps its header when the other is written.
- The free counter is unbounded; its 32-bit wrap after billions of evictions is not modelled.
- `rw_count` and the print and disk times are unbounded or 32-bit without arithmetic that could wrap.
- Kernel.FindPid: looks among live processes only, while the code's scan also meets zeroed slots, which match pid 0; by KernelInvariant.RunKeeps no wake-up or block ever looks for a pid that is not live. ProcessTable.Pcb.PFind covers the whole table.
- The retries and pauses of `p_find` within one atomic step; a second scan of an unchanged table finds the same.
- Real threads, data races between them, signals, sleeping and wall-clock time.
- Text parsing of program files and headers, missing files, and a program file that ends with its header.
- The `process_interrupt` call, which no reachable state issues, beyond the test of the slice that guards it.
- User interface, logging, authentication, argument handling, percentages and teardown: no hard property.
