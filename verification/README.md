# OS simulator: verified model

A Dafny model of the three stateful cores of the OS simulator, with proofs over every input,
every run and every interleaving.

**Scheduling in lock-step time.** `Barrier` is the protocol of src/timer.c as a transition
system: a timer thread and N devices share the flags `done` and `fsh` and the time. A step is one
section that runs under a lock, and a condition wait is a guard. `TimerDevices` is the same file
as a class whose methods update those fields in place. `ReadyQueue`, `MlqPolicy` and `Scheduler`
are the bounded array queue, the 140-level policy on values, and the scheduler's static data with
its search loops. `OsSystem` composes CPU threads, loader, scheduler and barrier into one
transition system; `OsPlaces`, `OsQuantum`, `OsTimetable` and `OsSlots` prove process
conservation, quantum accounting, the loading timetable and the advance of time over all its
runs. On top of these `OsProgress` shows that all work gets done and by which slot, and `OsDrops`
when a full queue loses a process. `OsStopping` and `OsLulls` say which CPUs can stop and bound how
many ever do, and `OsExample` is a run that shows both cases. `OsThreads` is the imperative side of
src/os.c over the scheduler and timer objects, and `Interleave` shows that any order of its
threads' sections is a run of the transition system, so everything proved of runs holds of it.

**Page table and frames.** `Bits`, `PageEntry` and `PageIndex` are the machine words, the
overlapping bit fields of an entry and the split of a page number into five indices. `PageTable`
is the lazily allocated tree of 512-word tables, proved to be a flat map. `PageHistory` and
`RangeMap` are whole runs of settings, and `vmap_page_range`. `Frames` and `FrameRuns` are the
linked free-frame list with all-or-nothing allocation; `PageFifo` is the list of mapped pages.

**Regions.** `Regions` is first fit on a list of byte ranges in 64-bit arithmetic, `RegionRuns`
whole runs of allocations and releases, `RegionAllocator` the linked list that deletes a node in
place by cloning its successor. `Cover` counts how many regions hold a byte; disjointness and
conservation are both statements about it.

The whole-run theorems are about functions on values. `Perform`, for the scheduler, the page table,
the free-frame list, the page list and the regions, and `Interleave`, for the simulation, carry out
a whole sequence of operations in place and end in the state that the run on values ends in. The
ready queue and the timer have no such method of their own: the scheduler's and the simulation's
work through them.

## How the code differs from what one might expect

- `init_mm` leaves the fifth table pointer NULL (src/mm64.c:596) and `pte_get_entry` returns 0
  while it is (src/mm64.c:267). What is set is read back if and only if all five pointers are set
  or the value is 0 anyway (`SetThenGet`); in a fresh address space it is not (`FreshReadsZero`).
- The page-entry masks are 32 bits wide while an entry has 64, so a setting also clears the upper
  half of the entry (`WithFrameBits`, `WithSwapBits`).
- A failed range allocation returns every frame but reverses the free list (`AllOrNothing`); a
  second failure restores it (`TwoFailuresRestore`). A request of zero or fewer frames "succeeds".
- `rg_start + size` is 64-bit arithmetic on a sign-extended int. Bytes are conserved exactly when
  that sum does not wrap (`CarveConservesExactlyWithoutWrap`; size -1 on a region at 1 is an
  input that fails, `NegativeSizeClaimsAByte`). For the same reason the fit test also accepts a
  region so high that the sum wraps, and then serves the request with an empty result
  (`FirstFitIsExact`; an input is in `TopOfMemoryWraps`).
- `__alloc` does not release what the slot held before. Bytes are conserved exactly when the slot
  was empty (`OverwrittenSlotLosesBytes`; an input that fails is in `SecondAllocationLosesBytes`).
- A CPU that finds no process at the top of its loop does not look at `done` (src/os.c:57-61). Once
  all work is over, a CPU can still stop if and only if it is past that branch (`StopsExactly`);
  with nothing to load no CPU stops (`NothingToLoad`), and with more CPUs than the processes need
  dispatches some CPU and the timer never stop (`TooManyCpusNeverStop`). The same holds with more
  CPUs than the processes after a lull need dispatches, since every CPU goes idle in the lull
  (`LullKeepsCpus`).
- A full ready queue silently drops a process. Some number of CPUs and some run lose one of a given
  priority if and only if more than 50 processes have that priority (`DropsExactly`). 51 processes
  of one priority are an input (`FiftyOneDrop`). With any number of CPUs every run loses one once
  there is enough work (`EveryRunDrops`, `OneCpuDrops`).
- With a time slot of zero or less a process is dispatched once and never put back
  (`QuantumAccounting`).
- With exactly one frame the free list is well formed only if the uninitialised link happens to
  be NULL (`Frames.Device.Format`).
- A process without instructions is still passed to `run` once (`QuantumAccounting`).

## Model

| member | source | states |
|---|---|---|
| Barrier.RunInv | src/timer.c:21-93 | The barrier invariant holds in every state of every interleaving of the timer and the devices. |
| Barrier.LockStep | src/timer.c:21-81 | In every interleaving: during the scan at time t a live device has set `done` t or t+1 times, t+1 exactly when `done` is set; during release no live device is more than one call ahead of another; between its n-th return from `next_slot` and its next call a device sees time n; the timer only clears the `done` of a live device that waits for it. |
| Barrier.NoDeadlock | src/timer.c:29-57 | Until the timer exits, the timer can step or the very device it waits for can. |
| Barrier.TimerNeverIdles | src/timer.c:21-59 | Whichever of the timer's own steps is enabled is the one it takes next. |
| Barrier.ExitOnlyWhenAllGone | src/timer.c:37-57 | The timer leaves its loop only when every device has detached, and when the time advances its two counts agree exactly in that case. |
| Barrier.StepUsesOne | src/timer.c:21-81 | Every step except the time advance lowers the number of steps left in the slot. |
| Barrier.SlotIsBounded | src/timer.c:21-81 | Without a time advance no run of N devices is longer than 4N+3 steps, in any interleaving. |
| TimerDevices.Timer.AttachEvent | src/timer.c:95-118 | Refused exactly when the timer has started; otherwise a fresh device, neither done nor finished, is put in front of the list. |
| TimerDevices.Timer.StartTimer | src/timer.c:83-86 | Only the started flag changes. |
| TimerDevices.Timer.Arrive | src/timer.c:61-66 | Setting `done` in place is the barrier's arrive step and changes no other device. |
| TimerDevices.Timer.Resume | src/timer.c:68-77 | The wait is over exactly when the barrier's resume step is enabled, and is then that step; otherwise nothing changes. |
| TimerDevices.Timer.DetachEvent | src/timer.c:88-93 | Setting `fsh` in place is the barrier's detach step. |
| TimerDevices.Timer.ScanOne | src/timer.c:29-42 | The timer passes a device exactly when the barrier's scan step is enabled, counting it as that step does. |
| TimerDevices.Timer.Tick | src/timer.c:44-45 | One more slot, and the release starts at the first device. |
| TimerDevices.Timer.ReleaseOne | src/timer.c:47-53 | Clearing one device's `done` in place is the barrier's release step. |
| TimerDevices.Timer.NextRound | src/timer.c:54-57 | Leaving the loop or starting over is the barrier's last step of a round. |
| TimerDevices.Timer.Step | src/timer.c:21-59 | Wherever the timer thread is, its next section is the barrier's enabled timer step, or nothing. |
| TimerDevices.Timer.StopTimer | src/timer.c:120-121 | The stop request is the barrier's, once every device is gone. |
| TimerDevices.Timer.ScanAll | src/timer.c:24-42 | The scan loop, undisturbed, passes every device up to the first one still at work and waits for that one; if there is none, its two counts agree exactly when every device has detached. |
| TimerDevices.Timer.ReleaseAll | src/timer.c:47-53 | The release loop clears every device's `done` and changes nothing else of any device. |
| TimerDevices.Timer.FinishRound | src/timer.c:44-57 | After a completed scan: one tick, everyone released, and the routine ends exactly when it was told to stop or its counts agree. |
| TimerDevices.Timer.TimerRound | src/timer.c:22-57 | An undisturbed round from any state of the devices: if all are ready it is one tick, releases everyone and ends the routine exactly when it was told to stop or all have detached; otherwise it waits for the first device at work and changes no device and no time. |
| ReadyQueue.Queue.Enqueue | src/queue.c:12-23 | A queue of fewer than 50 processes takes a new one at its end; a queue of 50, or a NULL process, changes nothing. The array is the sequence. |
| ReadyQueue.Queue.Dequeue | src/queue.c:25-41 | The shift loop returns the front process and leaves the rest in order; NULL exactly on an empty queue. |
| MlqPolicy.ServesTop | src/sched.c:82-89 | With budget left the head of the most urgent level is dispatched and one unit of budget is used. |
| MlqPolicy.ServesSecond | src/sched.c:91-103 | With the budget used up, the second most urgent level is served once. |
| MlqPolicy.ServesAlone | src/sched.c:91-103 | With the budget used up and no other level waiting, the cyclic search comes back to the same level. |
| MlqPolicy.ServedLevel | src/sched.c:59-111 | NULL exactly when all 140 queues are empty; otherwise the head of the most urgent level, or of the second one when the first has used its budget; no other level is ever served or changed, and 0 <= used_slot <= slot[currentPrio] is kept. |
| MlqPolicy.ExactSchedule | src/sched.c:82-103 | While p and q stay the two most urgent levels, dispatch k goes to q exactly when the starting count plus k is 140-p modulo 141-p, and to p otherwise. |
| MlqPolicy.FairShare | src/sched.c:82-103 | From any valid state and however the queues change between calls, every window of 141-p consecutive dispatches serves q exactly once and p exactly 140-p times. |
| MlqPolicy.StepFifo | src/sched.c:59-141 | One call keeps, per level, queue plus accepted equal to dispatched plus queue, in order. |
| MlqPolicy.LevelIsFifo | src/sched.c:59-141 | Over any run of puts and gets the processes dispatched from a level are a prefix of those it held and accepted, in the same order. |
| Scheduler.Mlq.constructor | src/sched.c:37-50 | 140 empty and separate queues, slot[i] = 140 - i, service at level 0 with nothing used. |
| Scheduler.Mlq.HighestPrio | src/sched.c:69-75 | The first search finds the most urgent non-empty level, or -1. |
| Scheduler.Mlq.NextDistance | src/sched.c:94-103 | The cyclic search finds the distance to the next non-empty level, if there is one. |
| Scheduler.Mlq.TakeHead | src/sched.c:98-98 | The head of one level leaves and the other 139 queues are untouched. |
| Scheduler.Mlq.ServeCurrent | src/sched.c:87-107 | Budget test, cyclic search and dequeue, in place, refine the policy's choice. |
| Scheduler.Mlq.GetMlqProc | src/sched.c:59-111 | The in-place scheduler refines the policy: same process, same queues, same level and count. |
| Scheduler.Mlq.PutMlqProc | src/sched.c:113-141 | The process joins its own level's queue; every other queue and the budget state are untouched. |
| Scheduler.Perform | src/sched.c:59-141 | Any sequence of puts and gets on the queue array ends in the state of the policy's run. |
| OsPlaces.NeverFull | src/queue.c:17-19 | A level's ready queue holds fewer processes than are given that priority, while one of them is not ready. |
| OsPlaces.ProcessConservation | src/os.c:46-143 | In every state of every run a loaded process is in exactly one place (once in its own level's queue, on exactly one CPU, finished, or dropped by a full queue) and one not yet loaded is nowhere; a process whose priority is given to at most 50 is never dropped; queues hold only loaded processes of their level. |
| OsPlaces.NoEnqueueRefused | src/os.c:69-74 | Whenever a CPU or the loader is about to put a process whose priority is given to at most 50, its queue has room. |
| OsQuantum.QuantumAccounting | src/os.c:50-97 | For every time slot T: a finished process of n instructions has run all of them, with n >= 1 exactly n runs, whichever CPUs served it; with T >= 1 it was dispatched exactly n/T times rounded up and one put back has run T instructions for each dispatch; with T <= 0 it was dispatched once; a CPU without a process has no time left. |
| OsTimetable.Timetable | src/os.c:113-137 | In every run process i is added at exactly its slot L_i, with L_0 = start_0 and L_i = max(start_i, L_(i-1) + 1): in file order, at strictly increasing slots. |
| OsTimetable.SlotsIncrease | src/os.c:121-136 | The slots of the timetable are strictly increasing. |
| OsTimetable.ThreadsAreInStep | src/os.c:46-143 | A CPU outside `next_slot` sees as the time its number of returns, and the clock cannot move; when the timer has exited every thread has ended. |
| OsTimetable.NobodyStuck | src/os.c:46-143 | Each thread that has neither ended nor is held by the barrier can step, and until the timer exits some thread can. |
| OsSlots.StepUsesOne | src/os.c:46-143 | In the whole system every step except the time advance lowers the number of steps left in the slot. |
| OsSlots.TimeAdvances | src/os.c:46-143 | In every interleaving a run that advances the time k times takes at most k(8c+10) steps plus the at most 8c+9 steps left in its first slot, c being the number of CPUs. |
| OsSlots.RunReachesSlot | src/os.c:46-143 | From the start, a run without a time advance has at most 8c+9 steps, and every run long enough has passed slot k. |
| OsProgress.SettledBySlot | src/os.c:46-143 | With at least one CPU, in every interleaving: once more slots have passed since the last loading than the loaded processes need runs in all, each of them has finished or was dropped, and has finished if its priority is given to at most 50. |
| OsProgress.LongRunsFinish | src/os.c:46-143 | With at least one CPU and no priority given to more than 50 processes, every run long enough has finished every process, however the threads take turns. |
| OsProgress.ExitMeansDone | src/os.c:46-143 | With at least one CPU the timer exits only when every process has finished or was dropped. |
| OsProgress.LoadedOnTime | src/os.c:113-137 | In every run and at any time, a process whose slot has passed is loaded and one whose slot is still to come is not. |
| OsProgress.RunsTotal | src/os.c:93-95 | The work of the first k processes, used in the bounds, is exactly the number of runs in any run that has finished them. |
| OsDrops.CapacityKept | src/os.c:93-97 | Every step keeps this: the runs so far, and the CPUs that can still run in this slot, are together at most one for each CPU and slot. |
| OsDrops.DroppedAtLeast | src/queue.c:17-19 | Of the loaded processes of a level at most 50 wait and one is on each CPU; all others have finished or were dropped. |
| OsDrops.EveryRunDrops | src/os.c:46-143 | For any number of CPUs: if a priority is given to more than 50 plus the number of CPUs, each with more work than the CPUs can do before the last loading slot, then in every run past that slot at least all those beyond queue and CPUs were dropped. |
| OsDrops.DropsExactly | src/queue.c:17-19 | Level by level: some number of CPUs and some run drop a process of that priority if and only if it is given to more than 50. |
| OsDrops.FiftyOneDrop | src/queue.c:17-19 | An input: 51 processes of priority 0 and no CPU have a run that drops one. |
| OsDrops.OneCpuDrops | src/queue.c:17-19 | An input with a CPU: of 52 processes of priority 0 with 53 instructions each, every run past slot 51 has dropped one. |
| OsStopping.IdleCpuNeverStops | src/os.c:52-61 | Once everything is loaded and no CPU holds a process, a CPU going round the no-process branch stays on it in every run. |
| OsStopping.StopsExactly | src/os.c:52-99 | Once all work is over and `done` is set, some run leads a CPU to its end if and only if it is not at the top of its loop, fetching there, or waiting for the slot. |
| OsStopping.NothingToLoad | src/os.c:52-61 | With no processes at all, no CPU ever stops, in any run. |
| OsStopping.TooManyCpusNeverStop | src/os.c:46-143 | With more CPUs than dispatches that the processes need in all, in every run some CPU has not ended and the timer has not exited. |
| OsStopping.DispatchesTotal | src/os.c:86-90 | The dispatches that the processes need, used in the bound, are exactly those made in any run that has finished them all. |
| OsStopping.TwoCpusOneJob | src/os.c:46-143 | In particular with two CPUs and one process that finishes in its first quantum. |
| OsLulls.LullKeepsCpus | src/os.c:46-143 | If the first k processes need fewer slots than pass before the next one is loaded, and the CPUs are more than the dispatches that the processes from the k-th on need, then in every run some CPU has not ended and the timer has not exited. |
| OsLulls.TwoCpusOneLull | src/os.c:46-143 | An input with exactly as many CPUs as dispatches in all: two CPUs, a process of one instruction at slot 0 and one at slot 4. |
| OsExample.OneStopsOneNever | src/os.c:46-143 | A reachable state of two CPUs and one process in which all work is over, one CPU can still stop and the other never will. |
| OsThreads.Boot | src/os.c:216-262 | Attaching the devices, starting the timer and setting up the scheduler gives the initial state of the transition system. |
| OsThreads.Simulation.CheckStatus | src/os.c:53-75 | Updating the thread's fields and the queues in place refines the system's status-check step (finish, put back, or go on), and places, quanta, barrier and timetable stay consistent. |
| OsThreads.Simulation.LoadProcess | src/os.c:57-74 | Taking a process from the scheduler object refines the system's fetch step, with time_left cleared only after a finished process; places, quanta, barrier and timetable stay consistent. |
| OsThreads.Simulation.Recheck | src/os.c:77-91 | Stopping, skipping the slot or dispatching a fresh quantum, in place, refines the system's recheck step; places, quanta, barrier and timetable stay consistent. |
| OsThreads.Simulation.RunProcess | src/os.c:93-95 | One instruction and one unit of time_left, in place, refine the system's run step; places, quanta, barrier and timetable stay consistent. |
| OsThreads.Simulation.EnterSlotWait | src/os.c:96-96 | Setting `done` through the timer object refines the system's arrive step of this CPU's own device; places, quanta, barrier and timetable stay consistent. |
| OsThreads.Simulation.LeaveSlotWait | src/os.c:96-96 | The CPU goes back to the top of its loop exactly when the barrier has released its device; otherwise nothing changes. |
| OsThreads.Simulation.EndCpu | src/os.c:98-99 | Detaching through the timer object refines the system's last step of this CPU; places, quanta, barrier and timetable stay consistent. |
| OsThreads.Simulation.NextJob | src/os.c:113-140 | The loader's loop test, in place, refines the system's step: `done` is set exactly when everything is loaded. |
| OsThreads.Simulation.AddJob | src/os.c:121-136 | The loader skips the slot before the start time, else adds the process to the scheduler object; this refines the system's step and keeps its timetable. |
| OsThreads.Simulation.LoaderBarrier | src/os.c:121-142 | The loader's `next_slot` and `detach_event`, through the timer object, refine the system's barrier steps of the loader's own device. |
| OsThreads.Simulation.TimerStep | src/timer.c:21-59 | One section of the timer thread, in place, refines the system's timer step; places, quanta, barrier and timetable stay consistent. |
| OsThreads.Simulation.StopTimer | src/timer.c:120-122 | Joining every thread is exactly the barrier's condition for a stop request. |
| OsThreads.Simulation.Interleave | src/os.c:46-143 | Whatever order the threads take turns in, the result is the run of the transition system in which each thread takes its next step whenever its turn comes, unless it has ended or the barrier holds it. |
| PageEntry.FlagMasks | include/mm.h:18-19 | The flag constants are what the macros compute. |
| PageEntry.FrameMasks | include/mm.h:33-44 | The 13-bit frame mask and its complement are what the macros compute. |
| PageEntry.SwapTypeMasks | include/mm.h:36-45 | The 5-bit swap-type mask and its complement are what the macros compute. |
| PageEntry.SwapOffsetMasks | include/mm.h:39-46 | The swap-offset mask of bits 5-25 and its complement are what the macros compute. |
| PageEntry.FieldRead | include/mm.h:75-76 | A field reads back the low bits of what was set, and the value itself exactly when it fits. |
| PageEntry.WithFrameBits | src/mm64.c:241-244 | Bit by bit: frame in bits 0-12, present, not swapped, upper half cleared, every other bit kept. |
| PageEntry.WithSwapBits | src/mm64.c:173-177 | Bit by bit: type in bits 0-4, offset in bits 5-25, present and swapped, every other low bit kept. |
| PageEntry.FrameDecodes | src/mm64.c:241-244 | Present, not swapped, and that frame exactly when it is below 2^13; bits 13-29 as before; the entry fits 32 bits. |
| PageEntry.SwapDecodes | src/mm64.c:173-177 | Present, swapped, that type exactly when below 32 and that offset exactly when below 2^21. |
| PageIndex.PathOfAddress | src/mm64.c:77-83 | Five indices, each inside its 512-entry table, for every address. |
| PageIndex.AddressMasks | include/mm64.h:55-61 | The five mask constants are what the macro computes. |
| PageIndex.PathDigits | src/mm64.c:109-113 | The indices are the five base-512 digits of the page number. |
| PageIndex.EveryPathIsAPage | src/mm64.c:109-113 | Every five indices are those of a page number below 2^45. |
| PageIndex.PathsAreBijective | src/mm64.c:109-113 | Below 2^45 page numbers and index paths correspond one to one; in general two pages share a path exactly when they agree modulo 2^45. |
| PageTable.AddressSpace.InitMm | src/mm64.c:592-596 | Every entry of a new table reads 0; four pointers are set and the fifth is NULL. |
| PageTable.AddressSpace.NewTable | src/mm64.c:209-212 | A fresh zeroed table is stored in one word; every other link and every entry is as before. |
| PageTable.AddressSpace.AddTable | src/mm64.c:209-212 | The new table joins the tree, which stays a tree, and every entry is as it was. |
| PageTable.AddressSpace.Descend | src/mm64.c:209-213 | One level down, allocating if needed: the right table, all entries unchanged, tables only added. |
| PageTable.AddressSpace.Walk | src/mm64.c:209-234 | The walk ends in the table of the page's path and changes no entry. |
| PageTable.AddressSpace.PteSetEntry | src/mm64.c:318-362 | The flat map is updated at the page's path and nowhere else. |
| PageTable.AddressSpace.PteSetFpn | src/mm64.c:188-248 | The page's entry becomes the frame setting of its old value; no other page changes. |
| PageTable.AddressSpace.PteSetSwap | src/mm64.c:122-181 | The page's entry becomes the swap setting of its old value, a negative type counting as its unsigned word; no other page changes. |
| PageTable.AddressSpace.ReadEntry | src/mm64.c:267-311 | The low 32 bits of the flat map's entry when all five pointers are set, else 0; no entry changes, tables are only added. |
| PageTable.AddressSpace.PteGetEntry | src/mm64.c:256-311 | The same, and 0 if there is no address space. |
| PageTable.SetThenGet | src/mm64.c:256-362 | A value that is set is read back if and only if all five pointers are set or its low half is 0. |
| PageTable.FreshReadsZero | src/mm64.c:578-596 | In a fresh address space the entry is stored but reads back as 0. |
| PageHistory.LastSettingDecides | src/mm64.c:122-362 | After any sequence of accesses a page's entry is what its last setting made of its entry then, whatever was done to other pages. |
| PageHistory.DecodesToLastSetting | src/mm64.c:122-362 | After any sequence each page decodes to its last setting with the right flags: the frame modulo 2^13, or the swap type (an int, in two's complement) modulo 32 and the offset modulo 2^21. |
| PageHistory.Perform | src/mm64.c:122-362 | Any sequence of accesses to the tree ends in the flat map of the run on values. |
| RangeMap.VmapPageRange | src/mm64.c:421-462 | With m = 0 for pgnum <= 0 and else the smaller of pgnum and the number of frames: the entries are those after mapping the first m pages, those pages are on the page list in reverse order, the region is addr to addr+4096m modulo 2^64, nothing else changes. |
| RangeMap.PageAtValue | src/mm64.c:448-449 | Iteration i maps page addr/4096 + i, modulo 2^45 in case the address wraps. |
| RangeMap.PagesAreDistinct | src/mm64.c:446-449 | No two iterations fewer than 2^45 apart hit the same entry. |
| RangeMap.RangeIsMapped | src/mm64.c:446-459 | The i-th page gets the i-th frame for every i < m, and no page outside the range changes. |
| RangeMap.RangeDecodes | src/mm64.c:446-459 | Page addr/4096 + i reads present, not swapped, in frame i exactly when that frame fits 13 bits. |
| Frames.Device.Format | src/mm-memphy.c:125-151 | For a positive page size -1 exactly when maxsz < pagesz, and otherwise the k frames 0..k-1 in order with k*pagesz <= maxsz < (k+1)*pagesz (mirrored for a negative page size); a well-formed list for k >= 2 and, for k = 1, exactly if the uninitialised link is NULL. |
| Frames.Device.GetFreeFp | src/mm-memphy.c:153-171 | The first free frame leaves the list; -1 exactly when there is none. |
| Frames.Device.PutFreeFp | src/mm-memphy.c:197-208 | The frame comes first on the list. |
| Frames.Device.AllocPagesRange | src/mm64.c:471-511 | The pointer loops refine all-or-nothing allocation: same result, same frame list, same free list. |
| Frames.Device.PutBack | src/mm64.c:484-490 | The rollback pushes the taken frames back in reverse. |
| FrameRuns.AllOrNothing | src/mm64.c:471-511 | A request n succeeds exactly when n frames are free, with the first n in order, or nothing for n <= 0; on failure the code is 2^64-1, nothing is taken and the free list is reversed. |
| FrameRuns.TwoFailuresRestore | src/mm64.c:482-491 | Two failed requests leave the free list exactly as it was. |
| FrameRuns.PutBackRestores | src/mm-memphy.c:153-208 | A frame that is taken and put back leaves the free list exactly as it was. |
| FrameRuns.RangePutBackRestores | src/mm64.c:471-511 | So does a range that is allocated and put back last frame first. |
| FrameRuns.RunConserves | src/mm-memphy.c:153-208 | Every run of gets, range allocations and put-backs of held frames keeps the multiset of free and held frames. |
| FrameRuns.NoFrameTwice | src/mm-memphy.c:125-208 | From a formatted device of k frames, each frame below k is in exactly one place and no other frame appears. |
| FrameRuns.PutBackTwice | src/mm-memphy.c:197-208 | A put-back keeps the free list free of duplicates exactly when the frame is not already on it. |
| FrameRuns.Perform | src/mm-memphy.c:153-208 | Any legal sequence of operations on the linked list ends in the free list and held frames of the run on values. |
| PageFifo.PageList.Enlist | src/mm64.c:639-647 | The page comes first on the list. |
| PageFifo.PageList.CutLast | src/libmem.c:471-477 | Clearing the predecessor's link removes exactly the last node. |
| PageFifo.PageList.FindVictimPage | src/libmem.c:462-482 | The oldest page leaves and the others stay in order; none exactly when the list is empty. |
| PageFifo.VictimsLeaveInOrder | src/libmem.c:462-482 | Over any run victims leave in exactly the order their pages were enlisted, one for each eviction, and the rest are still listed in that order. |
| PageFifo.Perform | src/libmem.c:462-482 | Any legal sequence on the linked list ends in the pages and victims of the run on values. |
| Regions.FirstFitIsExact | src/libmem.c:490-540 | For every size from 0 on: a region is found exactly when the free list has one that is long enough or whose 64-bit sum wraps; the first such one is taken, the result is its first `size` bytes when the sum does not wrap and empty when it does; -1 exactly when none is found or the result starts at the marker address. |
| Regions.NegativeSize | src/libmem.c:503-505 | For a negative size: the address sum, and exactly which regions the fit test accepts. |
| Regions.TopOfMemoryWraps | src/libmem.c:503-509 | An input whose sum wraps: size 10 on a region of the last bytes is served with an empty result, and the list then holds a region from 4 on. |
| Regions.DisjointIsCoverOne | src/libmem.c:490-540 | The meaning of conservation: regions are pairwise disjoint exactly when no byte is covered twice. |
| Regions.CarveConserves | src/libmem.c:503-529 | The bytes covered afterwards by the list and the result are those covered before, byte by byte and counted, in all three removal cases. |
| Regions.CarveConservesExactlyWithoutWrap | src/libmem.c:503-509 | Carving conserves every byte if and only if the address sum of the chosen region stays below 2^64. |
| Regions.NegativeSizeClaimsAByte | src/libmem.c:503-509 | An input that wraps: size -1 on a region from 1 to 10 leaves a free region that also claims byte 0. |
| Regions.CarveKeepsOrder | src/libmem.c:507-528 | The chosen region shrinks in its place and every other non-empty region stays, in order, including the cloned successor and the empty last node. |
| RegionRuns.AllocCover | src/libmem.c:78-86 | For any size that does not wrap, an allocation loses exactly the bytes its slot held before. |
| RegionRuns.AllocServes | src/libmem.c:70-86 | For every size below 2^31: the named slot gets the first `size` bytes of the first region that the fit test accepts, no other slot changes, and if no region is accepted nothing changes. |
| RegionRuns.AsIntRange | src/libmem.c:78-78 | A 64-bit size passed as an int keeps its low 32 bits in two's complement, and its value exactly when that is below 2^31. |
| RegionRuns.FreeCover | src/libmem.c:131-161 | A release conserves the cover count of every byte over free and live regions together, on every path. |
| RegionRuns.FreeMovesRegion | src/libmem.c:131-161 | A release clears its slot and no other, covers each byte of the region by one more free region, and changes nothing when repeated. |
| RegionRuns.AllocThenFree | src/libmem.c:70-161 | Allocating into an empty slot and releasing it gives every byte back to the free list and changes no other slot. |
| RegionRuns.SlotKept | src/libmem.c:70-161 | Over any legal run a slot keeps its region as long as no operation names it. |
| RegionRuns.BoundedNeverWraps | src/libmem.c:503-509 | If no region reaches the last 2^31 bytes of the address space, positive sizes never wrap, and that stays so. |
| RegionRuns.RunConserves | src/libmem.c:70-161 | Every run of allocations into empty slots, without wrap, and of releases keeps the cover count of every byte. |
| RegionRuns.RunKeepsDisjoint | src/libmem.c:70-161 | Regions pairwise disjoint at the start stay pairwise disjoint in every such run, and hold the same bytes together. |
| RegionRuns.BoundedRunKeepsDisjoint | src/libmem.c:70-161 | From disjoint regions below the last 2^31 bytes of the address space, every sequence of positive sizes into empty slots and of releases is such a run, so it stays disjoint and keeps the bytes. |
| RegionRuns.OverwrittenSlotLosesBytes | src/libmem.c:78-80 | A served allocation conserves all bytes if and only if its slot was empty. |
| RegionRuns.SecondAllocationLosesBytes | src/libmem.c:78-80 | An input that fails: four of ten free bytes into slot 0, then three into slot 0 again; bytes 0 to 3 are in no region any more. |
| RegionAllocator.MemoryArea.InitMm | src/mm64.c:598-614 | One empty free region and an empty symbol table. |
| RegionAllocator.MemoryArea.CloneSuccessor | src/libmem.c:516-522 | Copying the successor and dropping its node removes exactly region k from the list. |
| RegionAllocator.MemoryArea.RemoveInPlace | src/libmem.c:511-528 | Region k leaves the list, or stays as an empty region if it is last. |
| RegionAllocator.MemoryArea.TakeFrom | src/libmem.c:504-529 | Taking bytes from the chosen node is the carving of the list. |
| RegionAllocator.MemoryArea.GetFreeVmrgArea | src/libmem.c:490-540 | The traversal with in-place deletion refines first-fit carving: same code, same region, same list, for every size. |
| RegionAllocator.MemoryArea.AllocFromFreeList | src/libmem.c:70-86 | Served exactly when first fit finds a region; then the named slot holds that region, the address is its start, every other slot is as before and the free list is what is left. Otherwise the table is unchanged. |
| RegionAllocator.MemoryArea.FreeRegion | src/libmem.c:131-161 | -1 with nothing changed exactly on an index outside the table or a slot holding (0, 0); otherwise the slot becomes (0, 0), every other slot stays, and the region comes first on the free list unless it is empty. |
| RegionAllocator.MemoryArea.EnlistFreeRegion | src/libmem.c:35-48 | A non-empty region comes first on the list; an empty one is refused. |
| RegionAllocator.Perform | src/libmem.c:35-161 | Any legal sequence of allocations and releases on the linked list ends in the free list and table of the run on values. |

## Left out

- RegionAllocator.MemoryArea.AllocFromFreeList: stops where the source goes on to grow the area (src/libmem.c:88-121), because `sbrk` never advances there and disjointness does not hold; requires an index below 30, which the source does not check.
- RegionRuns.FreeCover: excludes index 30, like the method it is about.
- RegionAllocator.MemoryArea.FreeRegion: excludes index 30, which passes the source's range check and lies past the end of the table.
- RegionAllocator.MemoryArea.InitMm: takes the list that the first region is linked to as NULL; src/mm64.c:604 reads a head that malloc left unset.
- PageFifo.PageList.FindVictimPage: excludes a one-page list, where the source dereferences a NULL predecessor (src/libmem.c:477).
- Frames.Device.Format: excludes a page size of zero, a division by zero in the source.
- Barrier.Init: starts inside the timer's first scan. The test of the stop flag before it (src/timer.c:22) matters only if every device detaches and a stop is requested before the timer thread begins; that run, which ends at time 0, is not modelled.
- OsStopping.TooManyCpusNeverStop: sufficient, not necessary, as a condition on the configuration, and so is the one of `OsLulls.LullKeepsCpus`; the exact condition is `StopsExactly`, per state.
- OsPlaces.ProcessConservation: priorities below 140, as for everything about the running system; the source does not check them and indexes its 140 queues with them.
- OsThreads.Simulation.Interleave: each section between two lock operations is one step; the timer's unlocked `_time` write and its reads are atomic.
- A process is its index in the configuration and its priority; `run` is the program counter alone, without the instruction executed.
- Pthread internals: locks are atomic steps, condition waits are guards, and a missed wake-up is not modelled.
- Time, slots and counters are unbounded integers.
- Fairness of the thread scheduler: which CPUs can stop is stated as the existence of a run, and in every long run time advances and all work is done, but no theorem says that a given thread is ever given a turn.
- running_list, `queue_empty`, `purgequeue` and the single-queue scheduler: no part in dispatch as configured.
- Memory allocation always succeeds and gives a fresh object; what `free` does is not modelled.
- Reading the configuration, loading programs, printing and table dumps: input and output only.
- `inc_vma_limit`, `vm_map_ram`, `get_vma_by_num`: the grow path, with its call of `alloc_pages_range` commented out; there is one memory area.
- `vmap_pgd_memset`, `pg_getpage`, `free_pcb_memph`, `pgread`, `pgwrite`, `init_pte`, `__swap_cp_page`: unfinished swapping logic.
- `MEMPHY_read`, `MEMPHY_write` and the contents of memory: no allocation state depends on them.
- src/mm.c, src/mem.c, src/paging.c: stubs and obsolete code.
- System call table and handlers: dispatch only.
