# Verified models of the moss kernel

This project models the parts of the moss kernel whose correctness spans many calls, and proves what every run of
them keeps. Most modules have the same shape. A value-level state with one function per operation says what the
operations do; a run is any sequence of enabled steps; an invariant is proved of every state of every run; and the
theorems follow from it. Where the kernel works in place, a class with the same fields and methods with loops is
proved to do what those functions say.

- **Memory.** `Paging` is a machine of frames, page-table entries, areas, shared backings and owned handles, with
  demand faults (shared, deferred, anonymous), copy-on-write faults, fork, unmapping and pinning.
  `PagingInvariant` proves reference conservation, `CopyOnWriteRefinement` that the machine is indistinguishable
  from one that copies every page at fork, and `FaultHandlers` that the handlers themselves do these steps.
  `FaultOutcomes` says of each fault, resumed fault, pin, store and fork which outcome it has, when, and who notices.
  `UserStack` and `StackSetup` build the initial stack of a program and read it back. `ProcessVm` is
  `process_vm_readv`.
- **Waiting.** `WakerSets`, `ConditionVariables`, `AsyncMutexes`, `Channels`, `KernelBuffers` and `RealtimeClock`
  are protocols between futures, polled, cancelled and woken in any interleaving. `RingBuffers` is the data of a
  kernel buffer and the splice between two of them.
- **Files.** `PathWalk` resolves paths through links and mounts, `DirectoryReads` lists directories in pieces,
  `FdTables` hands out descriptors.
- **Processes.** `ProcessTree`, `Privileges`, `Inotify` and `InotifyReads`.

`PageFrames`, `Numbers`, `LittleEndian` and `NulTerminated` hold what several modules share.

The environment enters as parameters: which frame the allocator offers and whether it offers one, whether a
page-table page could be had, the clock's reading, what joins an event queue between two looks at it, which
addresses fault, what a filesystem answers. Interrupt-disabling spin locks make each lock hold one step. Integers
are unbounded except where a width is written out: 64-bit waker tokens, 32-bit watch descriptors and identities,
the widths of the fields on the stack, in directory records and in inotify events.

## What turned out false

Each of these is kept as the code has it and shown by a lemma, with the condition that separates the cases where there
is one.

- A waiter is not registered again after a wake-up that finds its condition false, so a later wake-up passes it by
  (`ConditionVariables.EarlyWakeLosesLater`). A future is attended throughout a run if and only if each update wakes it
  exactly when its condition becomes true and keeps the condition true until it polls
  (`ConditionVariables.NoLostWakeUp`); vfork release and the pipe's flag are so. In a kernel buffer the failing case is
  anyone emptying it under a woken reader, or filling it under a woken writer (`KernelBuffers.SecondReaderLosesWakeUp`,
  `KernelBuffers.PopKeepsIff`, `KernelBuffers.PushKeepsIff`).
- `Task::get_page` asked to write a copy-on-write page never returns, whether the page comes from a file or not; in all
  other cases it ends within two turns (`FaultHandlers.GetPageOutcome`). The one caller in the repository,
  `process_vm_readv`, asks to read.
- Of two threads that write one copy-on-write page at once, the second is denied: the handler takes an entry that the
  first made writable for a violation. Its second debug assertion holds if and only if the entry still refuses the
  access (`FaultHandlers.SecondWriterDenied`, `FaultHandlers.ProtectionFaultAgreesWithArea`).
- `exit_group` looks its parent up before it looks at its own state. A late thread of a process that was torn down
  already panics the kernel if the parent has been freed meanwhile (`ProcessTree.PanicsExactlyWhen`,
  `ProcessTree.LateExitPanics`).
- Clone does not look at the state of the process at all. A late thread can hang a running process under a torn-down
  one; it then does not reach init, and its own exit panics once that parent is freed
  (`ProcessTree.LateCloneOrphans`). Live processes have live parents throughout a run if and only if the run holds no
  such clone (`ProcessTree.RunAttachedIffRooted`).
- A splice between two rings that both wrap stops early, at the longer of the two first slices
  (`RingBuffers.CopySlices`, `RingBuffers.Ring.SpliceFrom`).
- The random bytes that the auxiliary vector names are bytes of the strings whenever there is a string
  (`UserStack.RandomBytesAliasStrings`).
- A cancelled or unprompted lock future can leave an unlocked mutex with waiters that nobody wakes
  (`AsyncMutexes.CancelStrands`, `AsyncMutexes.UnpromptedPollStrands`); which ones do is exact
  (`AsyncMutexes.HandOverIffHarmless`).
- The descriptor counter of an inotify instance sticks at its end; adding a watch keeps the indexes inverse if and
  only if the descriptor it gets is free (`Inotify.AddWatchKeepsIffNotExhausted`).
- The check that a new thread shares memory and signal handlers tests the conjunction of two different bits and so
  refuses nothing, although its comment asks for both (`ProcessTree.ThreadGuardNeverRefuses`).
- Insertion at or above a minimum descriptor falls below it if and only if the table is shorter than the minimum,
  although its comment promises otherwise (`FdTables.AboveKeepsToMinimum`).
- With mounts stacked on mount roots, resolving in stages can end elsewhere (`PathWalk.StackedMountsDiffer`); it cannot
  in any filesystem if and only if no root is a mount point of another (`PathWalk.StagesAgreeIffSettled`).

## Model

| member | source | states |
|---|---|---|
| PageFrames.DropUndoesClaim | libkernel/src/memory/claimed_page.rs:31-108 | giving a reference back restores the allocator, whether the page was new (and is freed) or shared |
| PagingInvariant.DemandFaultKeeps | src/memory/fault.rs:45-153 | every path of a demand fault keeps counts exact and private, shared and deferred pages apart |
| PagingInvariant.FinishDeferredKeeps | src/memory/fault.rs:89-133 | a deferred fault that maps, loses the race, finds its area changed or cannot map leaks and frees nothing wrongly |
| PagingInvariant.CopyOnWriteKeeps | src/memory/fault.rs:190-209 | copying a shared page moves exactly one reference from the old frame to the new |
| PagingInvariant.TakeOwnershipKeeps | src/memory/fault.rs:179-189 | a sole owner may get write permission without a copy and still no other entry has the frame |
| PagingInvariant.UnmapKeeps | src/memory/mmap.rs:164-181 | an unmapped page's reference passes to whoever will free it |
| PagingInvariant.PinKeeps | src/process/mod.rs:328-346 | a pin is one more reference and nothing else |
| PagingInvariant.DropBackingKeeps | src/memory/shared_anon.rs:14-56 | dropping a backing page gives up its own reference only |
| PagingInvariant.ForkPagesAt | libkernel/src/memory/address_space.rs:160-196 | after the walk of fork each slot has its origin's frame, and no frame or byte changes |
| PagingInvariant.ForkKeeps | libkernel/src/memory/address_space.rs:160-196 | fork keeps the whole invariant, so a writable private entry stays the only one for its frame |
| PagingInvariant.StepKeeps | src/memory/fault.rs:45-217 | every step of every kind keeps the invariant |
| PagingInvariant.EveryRunConserves | src/memory/fault.rs:45-217 | in every run each frame's count equals its entries, backings and handles, and all the invariant holds |
| PagingInvariant.AllocatedExactlyWhileOwned | src/memory/fault.rs:60-153 | in every run a frame is allocated if and only if an entry, a backing or a handle owns it: none freed while mapped, none leaked |
| CopyOnWriteRefinement.DemandFaultInvisible | src/memory/fault.rs:45-153 | a demand fault changes nothing that any address space reads |
| CopyOnWriteRefinement.ProtectionFaultInvisible | src/memory/fault.rs:157-217 | a copy-on-write fault changes nothing that any address space reads |
| CopyOnWriteRefinement.FinishDeferredRefines | src/memory/fault.rs:89-133 | a deferred fault makes the file's page visible once, or not at all |
| CopyOnWriteRefinement.StoreRefines | src/memory/fault.rs:157-217 | a store reaches one private page, or one backing page, and no other |
| CopyOnWriteRefinement.ForkRefines | libkernel/src/memory/address_space.rs:160-196 | sharing pages read-only at fork is the same as copying them all |
| CopyOnWriteRefinement.RunRefines | src/memory/fault.rs:134-217 | every run is matched step by step by the machine that copies at fork |
| CopyOnWriteRefinement.ReadsAsIfCopied | src/memory/fault.rs:134-217 | at every point of every run, each address space reads what it would read had fork copied every page |
| FaultHandlers.Kernel.ClaimPage | src/memory/shared_anon.rs:34-56 | yields the canonical page of a backing slot with one extra reference, creating it once; fails exactly if it must create one and cannot |
| FaultHandlers.Kernel.HandleDemandFault | src/memory/fault.rs:45-153 | the handler does exactly the demand-fault step and keeps the invariant |
| FaultHandlers.Kernel.Install | src/memory/fault.rs:134-152 | a page is leaked to the table if it was mapped and dropped if not |
| FaultHandlers.Kernel.ResumeDeferredFault | src/memory/fault.rs:97-133 | the second half of a deferred fault in place: `FaultOutcomes.ResumeMapsExactlyWhen` says what it maps and when; it reports failure exactly if the area is unchanged and there is still no entry |
| FaultHandlers.Kernel.AbandonDeferredFault | src/memory/fault.rs:93-93 | a failed read gives the page back |
| FaultHandlers.Kernel.HandleProtectionFault | src/memory/fault.rs:157-217 | the handler in place does the protection-fault step, whose outcome is `FaultOutcomes.CowFaultOutcome`, and keeps the invariant |
| FaultHandlers.Kernel.CopyForWrite | src/memory/fault.rs:190-209 | allocation, copy, remap and drop amount to one copy-on-write step |
| FaultHandlers.Kernel.CloneAsCow | libkernel/src/memory/address_space.rs:160-196 | the page-by-page walk amounts to one fork step and keeps the invariant |
| FaultHandlers.Kernel.UnmapRange | libkernel/src/memory/address_space.rs:134-144 | takes out the pages of the range and no other, and returns a handle for each that was there |
| FaultHandlers.Kernel.FreeUnmappedPages | src/memory/mmap.rs:164-181 | gives up one reference per unmapped page, changes no byte, keeps the invariant |
| FaultHandlers.ResolvedDemandFaultMaps | src/memory/fault.rs:45-153 | a resolved demand fault leaves an entry, and a new entry allows the access |
| FaultHandlers.ProtectionFaultAgreesWithArea | src/memory/fault.rs:163-215 | denied exactly if the area refuses, as the second debug assertion says, if and only if the entry found under the lock still refuses the access; what is resolved gets the area's permissions, as the first one says |
| FaultHandlers.SecondWriterDenied | src/memory/fault.rs:210-215 | of two threads that write one copy-on-write page, the one whose handler comes second is denied a write that its area allows |
| FaultHandlers.PresentEntryPermits | src/process/mod.rs:328-335 | a present entry allows exactly what its area allows, but for a write to a copy-on-write page |
| FaultHandlers.CowTurnStalls | src/process/mod.rs:308-361 | a turn of the loop on a write to a copy-on-write page, file-backed or not, changes nothing and asks for another |
| FaultHandlers.AbsentTurnMaps | src/process/mod.rs:308-361 | a turn on an absent page that the area allows maps it with the access permitted, from its file if need be |
| FaultHandlers.GetPageOutcome | src/process/mod.rs:308-361 | over any number of turns: the page is pinned within two if and only if the area allows the access and it is no write to a copy-on-write page, on which the loop never ends; where the area refuses, a fault at once |
| FaultOutcomes.CowFaultOutcome | src/memory/fault.rs:163-209 | a write fault on a copy-on-write entry fails if and only if another entry, a backing or a handle has the frame and there is no memory for a copy; otherwise it is resolved |
| FaultOutcomes.CowFaultResolved | src/memory/fault.rs:177-209 | once resolved the entry is writable and no longer copy-on-write, no other entry names its frame, and it reads what it read before |
| FaultOutcomes.CowFaultUnnoticed | src/memory/fault.rs:177-209 | every other slot keeps its entry and reads what it read |
| FaultOutcomes.OtherFaultsDenied | src/memory/fault.rs:210-216 | any other access or entry is denied and changes nothing |
| FaultOutcomes.DemandFaultOutcome | src/memory/fault.rs:50-152 | denied, deferred, failed or resolved, each by its exact condition on area, entry and memory |
| FaultOutcomes.DemandFaultMaps | src/memory/fault.rs:60-152 | the page mapped is a new zero page, or the backing's one, with the area's permissions |
| FaultOutcomes.ResumeMapsExactlyWhen | src/memory/fault.rs:97-133 | a resumed fault maps the page it read, with the area's permissions, if and only if the slot's area is the very one recorded and allows the access, there is no entry and a table page can be had; otherwise no entry changes |
| FaultOutcomes.StaleResumeUnnoticed | src/memory/fault.rs:97-133 | if the area differs in anything, an entry is there or no table page can be had, no entry changes and every slot and backing reads what it read |
| FaultOutcomes.UnchangedAreaGetsPage | src/memory/fault.rs:97-133 | in every run, the same area, no entry and a table page are enough for the page read to be mapped with its bytes |
| FaultOutcomes.FileDataArrives | src/memory/fault.rs:89-133 | in every run, whatever happens between the read and the second half, the page mapped then reads what the file gave |
| FaultOutcomes.EntryPermissions | libkernel/src/memory/proc_vm/vmarea.rs:70-75 | in every state of every run an entry is for users and allows what its area allows, but for the write of a private copy-on-write page |
| FaultOutcomes.PinHolds | src/process/mod.rs:328-346 | the handle holds the slot's frame, whose count is one higher; entries and bytes stay |
| FaultOutcomes.PinnedStays | src/process/mod.rs:328-346 | in every run a pinned frame is allocated |
| FaultOutcomes.StoreIsRead | src/memory/fault.rs:157-217 | a store that an entry allows is read back at its slot, its neighbours unchanged |
| FaultOutcomes.ForkOutcome | libkernel/src/memory/address_space.rs:160-196 | the child has the parent's areas, resident frames and entries; of these the private writable ones are copy-on-write on both sides, the others writable as their area says |
| FaultOutcomes.ForkLeavesOthers | libkernel/src/memory/address_space.rs:160-196 | every space but the two keeps its areas and entries |
| UserStack.LayoutIsTight | src/process/exec.rs:294-344 | 16-byte aligned stack pointer; block, padding below 16 bytes and strings follow each other up to the top without overlap |
| UserStack.StartUpRoundTrip | src/process/exec.rs:288-386 | reading words and then strings from the stack pointer recovers exactly argc, argv, envp and the auxiliary vector, as section 3.4.1 of the System V ABI AMD64 supplement orders them |
| UserStack.RandomBytesAliasStrings | src/process/exec.rs:325-327 | the block that AT_RANDOM names overlaps the strings if and only if there is a string |
| StackSetup.PlaceStrings | src/process/exec.rs:296-311 | the two passes give every string its final address |
| StackSetup.WriteStrings | src/process/exec.rs:346-355 | the image ends in the strings, each ended by zero, and is zero below |
| StackSetup.CollectInfo | src/process/exec.rs:313-333 | the information block in the order that readers expect |
| StackSetup.MapImage | src/process/exec.rs:364-383 | every byte of the image is read back through the pages; fails exactly if there are too few pages |
| StackSetup.SetupUserStack | src/process/exec.rs:288-386 | refuses what is too large and nothing else; otherwise a reader going through the mapped pages recovers the start-up data |
| ProcessVm.UnderCursor | src/memory/process_vm.rs:27-43 | a cursor stands at its position of the joined buffers |
| ProcessVm.ChunkInPage | src/memory/process_vm.rs:44-47 | no chunk crosses a remote page |
| ProcessVm.CopyChunk | src/memory/process_vm.rs:64-90 | one chunk carries the copy on in place, or stops at a byte that cannot be reached |
| ProcessVm.CopyVectors | src/memory/process_vm.rs:27-109 | the two-cursor loop ends, stores a prefix of the joined buffers in order and reports it |
| ProcessVm.CompleteIffGood | src/memory/process_vm.rs:92-109 | everything is copied if and only if no byte on either side faults |
| ProcessVm.ProcessVmReadv | src/memory/process_vm.rs:14-109 | with disjoint local buffers byte i of the joined local buffers is byte i of the joined remote ones; a fault is reported by the count before it, or as an error if that is zero, and lies within a page of it |
| WakerSets.WakerSet.RegisterWaker | libkernel/src/sync/waker_set.rs:35-43 | a registration adds an entry exactly if its token is not in use |
| WakerSets.WakerSet.RemoveToken | libkernel/src/sync/waker_set.rs:50-53 | one token goes and no other |
| WakerSets.WakerSet.WakeOne | libkernel/src/sync/waker_set.rs:55-65 | the longest registered waker is woken, none exactly if the set is empty |
| WakerSets.WakerSet.WakeAll | libkernel/src/sync/waker_set.rs:67-72 | every waker is woken and the set emptied |
| WakerSets.LongestWaitingFirst | libkernel/src/sync/waker_set.rs:35-65 | whoever waits longest is woken first: a later registration does not come before those there already |
| ConditionVariables.EveryRunOwnsTokens | libkernel/src/sync/waker_set.rs:189-228 | in every run, cancellations included, every token registered is that of one live future |
| ConditionVariables.DropRemovesOwnToken | libkernel/src/sync/waker_set.rs:213-228 | a dropped future takes its own registration with it and no other |
| ConditionVariables.PollReadyIff | libkernel/src/sync/waker_set.rs:189-210 | a poll is ready if and only if the condition holds; a future that first sleeps is registered; no other future changes |
| ConditionVariables.FutureLives | libkernel/src/sync/waker_set.rs:176-228 | a future lives from its creation, unpolled and unregistered, to its drop |
| ConditionVariables.WakeEveryReachesRegistered | libkernel/src/sync/condvar.rs:54-64 | waking everyone reaches a sleeper if and only if it is still registered |
| ConditionVariables.UnregisteredStaysAsleep | libkernel/src/sync/waker_set.rs:197-209 | once unregistered a sleeper is woken by nothing |
| ConditionVariables.AttendedIffTimely | libkernel/src/sync/condvar.rs:54-64 | a step keeps a future attended if and only if, asleep, it is woken exactly when its condition becomes true and, woken, its condition stays true; whom else it wakes does not matter |
| ConditionVariables.NoLostWakeUp | libkernel/src/sync/condvar.rs:54-83 | for any number of waiters and cancellations, a future is attended throughout a run if and only if every update was timely for it; it then never sleeps while its condition holds |
| ConditionVariables.EarlyWakeLosesLater | libkernel/src/sync/waker_set.rs:197-209 | from any state with a sleeper, one wake-up too early loses the one that matters |
| ConditionVariables.VforkParentResumes | src/process/thread_group.rs:157-179 | from a new process on, with the flag set before anyone waits, a parent is not asleep once the child released it, however often |
| ConditionVariables.VforkReleases | src/process/thread_group.rs:157-179 | a registered parent waits exactly from the start of a vfork to its release, which wakes it; a second release does nothing |
| ConditionVariables.PipePeerNotices | src/fs/pipe.rs:180-188 | the other side of a pipe is not asleep on the flag once this side is gone |
| ConditionVariables.SideGoneWakes | src/fs/pipe.rs:180-188 | whoever is registered for the other end of a pipe to go is woken when it goes |
| ConditionVariables.CondVarInner.RunUpdate | libkernel/src/sync/condvar.rs:54-64 | the update and the wake-up it asks for, in one lock hold |
| ConditionVariables.CondVarInner.PollWait | libkernel/src/sync/waker_set.rs:189-210 | the condition first, then at most one registration in a future's life |
| RingBuffers.CopySlices | libkernel/src/memory/kbuf.rs:288-328 | copies a prefix in order, its length limited by the longer head, and touches nothing else |
| RingBuffers.AppendView | libkernel/src/memory/kbuf.rs:240-254 | what is written into the vacant slices stands behind what was held, however the ring wraps |
| RingBuffers.AppendExtends | libkernel/src/memory/kbuf.rs:230-254 | filling the vacant slices and moving the write index appends to the contents and keeps a ring a ring |
| RingBuffers.DropShortens | libkernel/src/memory/kbuf.rs:250-254 | moving the read index takes exactly the front slices off the contents |
| RingBuffers.SpliceMoves | libkernel/src/memory/kbuf.rs:233-266 | between any two rings, a prefix of the source moves behind the contents of the destination, some of it exactly if data can move |
| RingBuffers.SpliceLengthIs | libkernel/src/memory/kbuf.rs:233-328 | a splice moves all that was asked for, is held and fits, or stops at the longer of the two runs before the end of the memory |
| RingBuffers.Ring.PushSlice | libkernel/src/memory/kbuf.rs:164-170 | the ring in place takes the step of the ring as a value; as much as there is room for is appended |
| RingBuffers.Ring.PopSlice | libkernel/src/memory/kbuf.rs:133-138 | the ring in place takes the step of the ring as a value; what is delivered followed by what is left was the contents |
| RingBuffers.Ring.SpliceFrom | libkernel/src/memory/kbuf.rs:205-286 | copying by slices and moving both indices is the splice of the rings as values, of exactly stated length; nothing onto itself |
| KernelBuffers.MoveConserves | libkernel/src/memory/kbuf.rs:131-286 | a push, pop or splice of any size between rings at any index conserves every buffer |
| KernelBuffers.EveryNetworkRunConserves | libkernel/src/memory/kbuf.rs:131-286 | over every run on a network of wrapped rings, what was put into each is what left it followed by what its memory and indices hold |
| KernelBuffers.PopKeepsIff | libkernel/src/memory/kbuf.rs:113-123 | a pop by anyone is safe if and only if it does not empty the buffer under a woken reader |
| KernelBuffers.PushKeepsIff | libkernel/src/memory/kbuf.rs:89-99 | a push by anyone is safe if and only if it does not fill the buffer under a woken writer |
| KernelBuffers.NobodySleepsInVain | libkernel/src/memory/kbuf.rs:77-198 | with one waiting reader and one waiting writer, and pops and pushes by anyone within those conditions, no reader sleeps on data and no writer on room, in every run |
| KernelBuffers.ReaderGets | libkernel/src/memory/kbuf.rs:133-151 | a polled reader finishes if and only if there is data, takes what it wished or all there is, and then wakes a sleeping writer; without data it sleeps |
| KernelBuffers.WriterPuts | libkernel/src/memory/kbuf.rs:164-188 | a polled writer finishes if and only if there is room, fills what it can, and then wakes a sleeping reader; without room it sleeps |
| KernelBuffers.SecondReaderLosesWakeUp | libkernel/src/memory/kbuf.rs:113-123 | from any state with a woken reader, someone else emptying the buffer leaves the reader asleep on later data |
| RealtimeClock.EveryRunHolds | src/clock/mod.rs:52-89 | the invariant of clock, setters, sleepers and tokens in every interleaving |
| RealtimeClock.NoMissedClockStep | src/clock/realtime.rs:24-36 | a parked sleeper with an outdated reading was woken, or a setter has yet to bump the generation |
| RealtimeClock.TimerMeetsDeadline | src/clock/mod.rs:59-85 | an undisturbed sleeper's timer runs out when the clock reaches the target, up to the time taken to arm it |
| RealtimeClock.NoStaleRegistration | src/clock/realtime.rs:62-100 | the registered tokens are those of parked, unwoken sleepers, and no others |
| RealtimeClock.WokenSleeperReevaluates | src/clock/mod.rs:77-87 | a woken sleeper goes back to the top of its loop |
| RealtimeClock.DateRunsOn | src/clock/realtime.rs:14-21 | the date at the instant recorded is the duration set, without a record it is the uptime, and it advances as time does |
| RealtimeClock.SetDateShows | src/clock/realtime.rs:24-36 | in every run, whatever happens meanwhile, a call of `set_date` makes the duration it was given the date of the moment it began |
| RealtimeClock.PollActsOnTimer | src/clock/mod.rs:79-86 | in every run a parked sleeper polled once its timer ran out, or once the generation moved, is at the top of its loop without a token; polled before either it stays parked and registered |
| RealtimeClock.TurnReturnsIffReached | src/clock/mod.rs:52-69 | one turn of the loop returns if and only if the date shown has reached the target |
| RealtimeClock.ReturnsOnlyWhenReached | src/clock/mod.rs:60-67 | in every run the date that a sleeper returned with had reached its target |
| RealtimeClock.SleepEndsAtDeadline | src/clock/mod.rs:52-88 | in every run, for a sleeper that was not woken and with no clock step recorded but not yet told, the poll at or after the deadline is followed by a turn that returns |
| RealtimeClock.ClockSystem.ReadDateOf | src/clock/realtime.rs:14-21 | the second half of `date`, after the lock is gone, takes the machine's step and keeps its invariant |
| RealtimeClock.ClockSystem.WriteRecordOf | src/clock/realtime.rs:25-28 | the record is written with the time read before the lock, as the machine's step, keeping its invariant |
| RealtimeClock.ClockSystem.NotifySet | src/clock/realtime.rs:30-36 | bump and wake-up in one lock hold leave no one registered and every parked sleeper woken |
| RealtimeClock.ClockSystem.ParkOn | src/clock/realtime.rs:76-94 | a sleeper is registered exactly if the generation has not moved since its sample |
| RealtimeClock.ClockSystem.PollParked | src/clock/mod.rs:79-86 | the timer first, whose end drops the registration, then the notification, as the machine's step, which `RealtimeClock.PollActsOnTimer` describes |
| AsyncMutexes.EveryRunExcludes | libkernel/src/sync/mutex.rs:88-116 | at most one guard, and one exactly while the lock is held, cancellations included |
| AsyncMutexes.PollGetsFreeLock | libkernel/src/sync/mutex.rs:91-103 | in every run a poll gets the lock if and only if nobody holds it; otherwise its task is queued, behind those queued before |
| AsyncMutexes.ReleaseWakesFirst | libkernel/src/sync/mutex.rs:106-116 | in every run a release leaves nobody holding, takes the first task off the queue and wakes that one alone |
| AsyncMutexes.HandOverIffHarmless | libkernel/src/sync/mutex.rs:88-116 | a poll, release or cancellation keeps the hand-over if and only if it is harmless: no unprompted poll of a free lock, no cancellation but of a woken task whose turn nobody needs |
| AsyncMutexes.RunHandsOverIffHarmless | libkernel/src/sync/mutex.rs:88-116 | a run hands over throughout if and only if all its steps are harmless; whoever waits is then behind a guard or a woken task |
| AsyncMutexes.CancelStrands | libkernel/src/sync/mutex.rs:106-116 | cancelling the first of several waiters strands the rest |
| AsyncMutexes.UnpromptedPollStrands | libkernel/src/sync/mutex.rs:91-103 | an unprompted poll that wins the lock strands the woken task |
| AsyncMutexes.MutexState.TryLock | libkernel/src/sync/mutex.rs:91-103 | takes a free lock, else queues the task once |
| AsyncMutexes.MutexState.Unlock | libkernel/src/sync/mutex.rs:106-116 | wakes the longest waiting task and opens the lock |
| Channels.EveryRunConserves | libkernel/src/sync/mpsc.rs:38-136 | the sender count is the number of handles; accepted messages are those received followed by those queued, in order |
| Channels.SendIsAccepted | libkernel/src/sync/mpsc.rs:93-104 | in every run a message is accepted, behind the others, exactly while there is a receiver |
| Channels.PollDeliversOldest | libkernel/src/sync/mpsc.rs:38-57 | in every run a poll delivers the oldest message accepted and not yet received; without one it ends if no sender is left and sleeps otherwise |
| Channels.ClosedMeansDrained | libkernel/src/sync/mpsc.rs:38-57 | the stream ends if and only if every sender is gone and every accepted message was received |
| Channels.ReceiverNeverStranded | libkernel/src/sync/mpsc.rs:93-136 | a sleeping receiver has no message waiting and a sender left |
| Channels.Mpsc.SendMessage | libkernel/src/sync/mpsc.rs:93-104 | a send in place, with its wake-up, is the machine's step and keeps conservation and the receiver attended |
| Channels.Mpsc.PollOnce | libkernel/src/sync/mpsc.rs:38-56 | a poll of `recv` in place delivers the oldest message, or the end exactly if there is none and no sender, or sleeps registered once; the machine's step |
| Channels.Mpsc.RemoveSender | libkernel/src/sync/mpsc.rs:121-136 | the sender count never underflows, and a receiver asleep on an empty channel is woken by the last sender to go; the machine's step |
| Channels.Mpsc.EndRecv | libkernel/src/sync/waker_set.rs:213-228 | a dropped receive, done or not, leaves no registration; the machine's step |
| PathWalk.SplitJoin | src/fs/mod.rs:287-295 | the components of a joined path are those of its parts |
| PathWalk.Walk | src/fs/mod.rs:277-351 | a walk ends whatever the links are and never follows more than the limit |
| PathWalk.WalkStops | src/fs/mod.rs:296-309 | with nothing left the walk is over; it fails where the place it stands at, mounts crossed, is no directory or cannot be looked at |
| PathWalk.WalkSteps | src/fs/mod.rs:310-316 | in a directory a dot stays, a failed lookup fails, and a name that is no link to follow is stepped to |
| PathWalk.WalkFollows | src/fs/mod.rs:317-345 | a text that begins with a slash goes on from the root, any other from the link's own directory, a jump from its target, over the text's components and then the rest; past the limit it is a loop |
| PathWalk.ResolveMeans | src/fs/mod.rs:353-370 | after the walk one more mount is crossed, and a path that ends in a slash must end in a directory |
| PathWalk.WalkComposes | src/fs/mod.rs:296-351 | walking a and then b is walking a with every link followed and then b with the links left |
| PathWalk.BudgetShifts | src/fs/mod.rs:318-323 | with fewer links left a walk succeeds if and only if those it needs are left, and ends alike |
| PathWalk.ResolveInStages | src/fs/mod.rs:277-370 | a path that resolves can be resolved in two stages, given that mount roots are not mount points |
| PathWalk.StackedMountsDiffer | src/fs/mod.rs:296-361 | for any mount root that is a mount point of another, a filesystem with those mounts in which one walk and two stages end at different inodes |
| PathWalk.StagesAgreeIffSettled | src/fs/mod.rs:277-370 | stages agree in every filesystem with given mounts if and only if no mount root is a mount point of another |
| PathWalk.SelfLinkLoops | src/fs/mod.rs:317-323 | a link that leads back to its own name is reported as a loop, whatever follows it |
| PathWalk.PushReversed | src/fs/mod.rs:326-342 | pushing a link's components reversed puts them before what was pending |
| PathWalk.WalkPath | src/fs/mod.rs:283-351 | the loop over the component stack is the walk, within as many passes as components and link texts allow |
| PathWalk.ResolvePath | src/fs/mod.rs:277-370 | the whole function in place is the resolution that `PathWalk.ResolveMeans` and `PathWalk.WalkFollows` describe, within a bound on passes |
| DirectoryReads.RecordRoundTrip | src/fs/dir.rs:148-192 | a record gives back inode, offset, name and kind |
| DirectoryReads.ListingRoundTrip | src/fs/dir.rs:148-199 | parsing consecutive records by their length recovers the entries with their offsets |
| DirectoryReads.OffsetResumes | src/fs/dir.rs:31-46 | a listing resumed at the offset of any entry goes on right after that entry |
| DirectoryReads.DirIterator.Next | src/fs/dir.rs:31-46 | consuming an entry moves the position to that entry's offset |
| DirectoryReads.FitIsMost | src/fs/dir.rs:156-165 | a call lists as many entries as fit: their records are no longer than the buffer, with one more they would be |
| DirectoryReads.Getdents | src/fs/dir.rs:136-209 | one call lists exactly the entries that fit whole; an error exactly if the next one does not fit at all |
| DirectoryReads.CallsListAPrefix | src/fs/dir.rs:136-209 | calls with any buffer sizes list a prefix of the directory, each entry once and in order |
| DirectoryReads.EnoughCallsListAll | src/fs/dir.rs:136-209 | with buffers that hold any entry, as many calls as entries list everything |
| FdTables.HintedIsScan | src/process/fd_table.rs:183-202 | a search from the hint finds what a scan from zero finds |
| FdTables.InsertTakesLowest | src/process/fd_table.rs:83-92 | an insertion takes the lowest free descriptor and changes no other; it fails if and only if all are taken and the limit is reached |
| FdTables.PutIsExact | src/process/fd_table.rs:93-105 | a file put at any descriptor is there, the slots in between are free and all others stay |
| FdTables.AboveKeepsToMinimum | src/process/fd_table.rs:107-128 | an insertion above a minimum takes a free slot, keeps to the minimum if and only if the table is that long, and changes no other |
| FdTables.CloseOnExecIsExact | src/process/fd_table.rs:156-181 | an exec closes the marked descriptors and keeps all others |
| FdTables.EveryRunKeepsHint | src/process/fd_table.rs:61-202 | after any calls every slot below the hint is taken |
| FdTables.EveryInsertIsLowest | src/process/fd_table.rs:83-202 | after any calls the next insertion gets the lowest free descriptor, as section 2.14 of POSIX.1-2017 System Interfaces asks |
| FdTables.FileDescriptorTable.FindFreeFd | src/process/fd_table.rs:183-202 | the loop finds the first free slot from the hint and moves the hint behind it |
| FdTables.FileDescriptorTable.InsertAtFd | src/process/fd_table.rs:93-105 | the table grows as needed, the slot is replaced and its old entry returned |
| FdTables.FileDescriptorTable.InsertWithFlags | src/process/fd_table.rs:83-92 | search and insertion together take the lowest free descriptor and keep the hint right |
| FdTables.FileDescriptorTable.InsertAboveFd | src/process/fd_table.rs:107-128 | the first free slot from the minimum, else the end |
| FdTables.FileDescriptorTable.RemoveFd | src/process/fd_table.rs:140-154 | the slot is emptied, its file returned and the hint lowered to it |
| FdTables.FileDescriptorTable.CloseCloexecEntries | src/process/fd_table.rs:156-181 | both loops of the exec path |
| ProcessTree.ThreadGuardNeverRefuses | src/process/clone.rs:93-98 | the guard on new threads refuses no flags |
| ProcessTree.CloneKeeps | src/process/clone.rs:76-120 | clone, by any thread, under its process or that one's parent, keeps links and children inverse and parents older |
| ProcessTree.ThreadJoins | src/process/clone.rs:93-102 | a thread joins its caller's process and nothing else changes |
| ProcessTree.ProcessHangs | src/process/clone.rs:103-120 | a new process hangs under its caller, or under the caller's parent with CLONE_PARENT, then refused exactly for init and where that parent was freed; no other process changes |
| ProcessTree.ExitKeeps | src/process/exit.rs:16-99 | an exit that does not panic, with its reparenting, keeps links and children inverse |
| ProcessTree.ExitHandsOver | src/process/exit.rs:30-95 | after the first exit the children are init's, the parent lists the process no more and is told once, nothing else changes; a later exit changes nothing |
| ProcessTree.PanicsExactlyWhen | src/process/exit.rs:19-43 | `exit_group` panics exactly for init and for a process whose parent was freed; while live processes have live parents, those are late threads of torn-down processes |
| ProcessTree.LateExitPanics | src/process/exit.rs:23-43 | a run from boot in which a late thread's exit panics |
| ProcessTree.LateCloneOrphans | src/process/clone.rs:101-120 | a run from boot in which a late thread's clone leaves a running process whose exit panics |
| ProcessTree.EveryRunIsATree | src/process/exit.rs:16-99 | in every run, late clones included, children are the live processes whose parent one is, parents are older, and each exit is told once |
| ProcessTree.AttachedIffRooted | src/process/clone.rs:101-120 | a step leaves every live process under a live one if and only if it is no clone under a torn-down process |
| ProcessTree.RunAttachedIffRooted | src/process/clone.rs:76-120 | that is so throughout a run if and only if the run holds no such clone |
| ProcessTree.OnlyInitPanics | src/process/exit.rs:19-28 | in every run without such a clone, of all live processes exit panics for init only |
| ProcessTree.AllReachInitIffAttached | src/process/thread_group.rs:127-151 | every live process reaches init through live, ever older ancestors if and only if every live process has a live parent |
| ProcessTree.ReachesInit | src/process/thread_group.rs:127-151 | in every run without a clone under a torn-down process, every live process reaches init so |
| ProcessTree.TornDownOnce | src/process/exit.rs:30-45 | however many threads exit and whatever is freed, a process is torn down once, for good, and its parent told once |
| ProcessTree.ProcessTable.SysClone | src/process/clone.rs:76-120 | the id is spent first; the new process hangs under the right parent, or the call is refused; the invariant is kept |
| ProcessTree.ProcessTable.DoExitGroup | src/process/exit.rs:16-99 | the whole exit, or nothing if it is under way; the invariant is kept |
| ProcessTree.ProcessTable.Reparent | src/process/exit.rs:69-84 | the loop gives every child to init and changes nothing else |
| Privileges.IdsComeFromHeld | src/process/creds.rs:97-319 | without the capability no identity appears that was not held; with it no call is refused |
| Privileges.SetReForgets | src/process/creds.rs:167-172 | setting the real identity makes the saved one the effective one |
| Privileges.SetOneGives | src/process/creds.rs:97-133 | with the capability all three identities become the argument; without it the effective one alone, and only to the real or saved one |
| Privileges.SetReGives | src/process/creds.rs:135-217 | which argument each field gets, when the saved one follows the effective one, and exactly when the call is permitted |
| Privileges.SetResGives | src/process/creds.rs:219-319 | each argument reaches its own field or leaves it, and exactly when the call is permitted |
| Privileges.RestoredIffHeld | src/process/creds.rs:219-319 | a task without the capability goes back to earlier identities, field by field, if and only if it holds all three of them |
| Privileges.IdsCallGives | src/process/creds.rs:97-319 | a call for user ids asks for CAP_SETUID and leaves groups and capabilities alone, one for group ids the other way round; other tasks stay |
| Privileges.CapSetBegins | src/process/caps.rs:92-103 | a call on oneself is never refused; one on another task needs CAP_SETPCAP first and a task that is found second |
| Privileges.ExitedNotFound | src/process/caps.rs:92-103 | in every run a task that has exited is never found again, whoever asks |
| Privileges.CapSetGives | src/process/caps.rs:105-142 | the target gets the three masks passed, bit by bit, and keeps all else, if and only if the version is known and the target may have them; otherwise nothing changes, with the right error |
| Privileges.DropGives | src/process/prctl.rs:48-54 | a drop takes that one capability out of the bounding set and nothing else; refused exactly for a number that is none |
| Privileges.CloneCopies | src/process/clone.rs:157-188 | in every run a clone starts with exactly its caller's credentials, under an id that no task has had, and no other task changes |
| Privileges.StepIsMonotone | libkernel/src/proc/caps.rs:130-152 | no call gives any task more permitted or bounding capabilities, or identities it had no right to |
| Privileges.EffectiveWithinPermitted | libkernel/src/proc/caps.rs:130-152 | in every run effective capabilities stay within permitted ones |
| Privileges.PrivilegeOnlyShrinks | src/process/caps.rs:87-143 | from any moment on a task and its descendants never exceed what it had; without CAP_SETUID (CAP_SETGID) in permitted their uids (gids) are among the three held then |
| Privileges.CallBegan | src/process/caps.rs:92-103 | a `capset` in progress carries the capabilities its caller had when it began, and was let begin on another task only with CAP_SETPCAP |
| Privileges.OthersNeedSetPcap | src/process/caps.rs:87-143 | in every run another task's credentials change only at the end of a `capset` whose caller held CAP_SETPCAP when it began, and only in their capabilities |
| Privileges.TaskTable.SetOneId | src/process/creds.rs:97-133 | `setuid` and `setgid` in place: the machine's step, after which no task has more privilege |
| Privileges.TaskTable.SetTwoIds | src/process/creds.rs:135-217 | `setreuid` and `setregid` in place: the machine's step, after which no task has more privilege |
| Privileges.TaskTable.SetThreeIds | src/process/creds.rs:219-319 | `setresuid` and `setresgid` in place: the machine's step, after which no task has more privilege |
| Privileges.TaskTable.EndCapSet | src/process/caps.rs:105-142 | the end of `capset` in place: the machine's step, after which no task has more privilege |
| Inotify.AddWatchKeepsIffNotExhausted | src/process/inotify.rs:261-312 | adding a watch keeps the indexes inverse if and only if it updates one or gets a free descriptor |
| Inotify.RmWatchKeeps | src/process/inotify.rs:314-329 | removal keeps both indexes and the registry in step |
| Inotify.ReleaseKeeps | src/process/inotify.rs:331-348 | a release removes every registry entry of the instance and no other |
| Inotify.DispatchIsExact | src/process/inotify.rs:350-453 | an event is queued once in each live instance whose watch wants it and in no other |
| Inotify.NewWatchDelivers | src/process/inotify.rs:261-372 | after a new watch with a mask an event is queued once if and only if it shares a bit of the low twelve with that mask or is one of the three that every watch gets |
| Inotify.SecondAddDelivers | src/process/inotify.rs:261-372 | after a further add the same holds of the new mask alone, or of both masks together with IN_MASK_ADD; the descriptor stays |
| Inotify.SecondAddStores | src/process/inotify.rs:267-293 | a further add with IN_MASK_CREATE is refused and changes nothing; any other keeps descriptor and queue |
| Inotify.RemovalIsTold | src/process/inotify.rs:314-329 | a removal queues IN_IGNORED last, for that descriptor, and takes that watch and inode out of the indexes and no other |
| Inotify.ReleaseClears | src/process/inotify.rs:331-348 | after a release the instance has no watch and no event, and no inode lists it |
| Inotify.EveryRunIndexes | src/process/inotify.rs:126-453 | in every run the two indexes are inverse and the registry lists a live instance exactly for its watches, dead instances included |
| Inotify.EveryRunDelivers | src/process/inotify.rs:350-453 | at any point of any run a dispatched event reaches each live instance as its watch asks |
| Inotify.LongRunsBeforeExhaustion | src/process/inotify.rs:141-147 | no descriptor can be handed out twice before the counter's range is used up |
| Inotify.Subsystem.RegistryAddWatch | src/process/inotify.rs:391-407 | an entry is added unless it is there |
| Inotify.Subsystem.RegistryRemoveWatch | src/process/inotify.rs:409-422 | the entry goes, and the inode's list with it if that is empty |
| Inotify.Subsystem.Add | src/process/inotify.rs:261-312 | update of a watch, refusal, or a new watch in both indexes and the registry; the invariant is kept if and only if the descriptor was free |
| Inotify.Subsystem.Remove | src/process/inotify.rs:314-329 | a watch leaves the indexes and the registry and IN_IGNORED is queued; fails exactly if there is none |
| Inotify.Subsystem.Release | src/process/inotify.rs:331-348 | all watches and queued events of the instance go |
| Inotify.Subsystem.DispatchEvent | src/process/inotify.rs:424-453 | both loops of a dispatch, with the clearing of dead entries, are the dispatch that `Inotify.NewWatchDelivers` and `Inotify.SecondAddDelivers` describe |
| InotifyReads.EncodeName | src/process/inotify.rs:118-124 | a name's encoding is longer than it, by at most four, and a multiple of four |
| InotifyReads.NameRoundTrip | src/process/inotify.rs:118-124 | reading up to the first zero gives the name back |
| InotifyReads.EventRoundTrip | src/process/inotify.rs:81-116 | a framed event gives back descriptor, mask, cookie and name, whatever follows it |
| InotifyReads.FramingRoundTrip | src/process/inotify.rs:98-124 | parsing framed events by their length field recovers them in order |
| InotifyReads.EventQueue.ReadImpl | src/process/inotify.rs:175-215 | a read removes a prefix of whole events, writes exactly their frames within the count, stops only where it must, and says why |
| InotifyReads.EventQueue.Look | src/process/inotify.rs:184-199 | one look at the queue: take the first event if it fits, end, or sleep |
| InotifyReads.ReadRoundTrip | src/process/inotify.rs:175-215 | what a successful read wrote parses back into the first events of the queue |
| InotifyReads.EveryQueueCarried | src/process/inotify.rs:98-116 | in every run in which names hold no zero byte and cookies fit 32 bits, every queue can be framed and parsed back |

## Left out

- The bodies behind `MemoryMap`, the page-table walkers, the page allocator and the slab; only their contracts at the call sites are used.
- The caller of the protection handler, which expects the entry of the faulting address to be there still.
- Channels.EveryRunConserves: one `recv` at a time, as the channel's single consumer has it.
- `mprotect`, what files hold, stores through pinned pages, and a fork that fails halfway.
- FaultHandlers.GetPageOutcome: memory to spare, a file that can be read and one thread, because others may unmap the page between two turns.
- The 2^64 registrations after which waker tokens repeat, and the wrap of the generation, instance and thread counters: runs stop before them.
- KernelBuffers.NobodySleepsInVain: without splice, because a splice registers wakers that nothing removes, and without slices of no items, which never finish.
- KernelBuffers.EveryNetworkRunConserves: data only; which waiters a splice wakes is not followed, and each call is one lock hold.
- Pipe end-of-file order across processors, and the order of inotify events against IN_IGNORED under concurrency, where the code takes its locks twice.
- ProcessVm.ProcessVmReadv: local buffers that are also the remote ones, remote memory that changes meanwhile, and address wrap-around; copying the vectors in is a caller's matter.
- PathWalk.ResolvePath: the filesystem does not change during the walk.
- DirectoryReads.Getdents: names that the 512-byte entry buffer cannot hold, faults of the caller's buffer and a directory that changes between calls.
- InotifyReads.EventQueue.ReadImpl: a fault is told by how much of the buffer can be written, and the event taken last is then lost, as in the code; the polling sleep is one look.
- Inotify: the checks of `sys_inotify_add_watch` on flags, paths and permissions.
- ProcessTree.EveryRunIsATree: an exit is one step, so two exits do not interleave; a process is freed once it is torn down and its threads have ended; wait queues, sessions and signals are not modelled.
- Privileges.DropGives: a build with overflow checks, which panics for numbers from 64 on instead of taking them modulo 64.
- Privileges.PrivilegeOnlyShrinks: ambient capabilities, which nothing here consults, and exec, which leaves credentials alone.
- FdTables.FileDescriptorTable.InsertAtFd: negative descriptors, whose cast makes the table grow beyond memory.
- `Rwlock`, the scheduler, futexes, signals, ptrace, drivers, networking, terminals and the system-call argument copies.
