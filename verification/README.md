# Gaia kernel: models and proofs

Models in Dafny 4.11 of the memory, scheduling, signal and I/O core of the Gaia
x86_64 kernel, and proofs of what that core keeps in every run. `dafny verify
dfyconfig.toml` checks all of it.

The models keep the form of the C code: objects updated in place are classes with
a `Valid()` invariant and an abstract value, loops are loops with invariants, linked
lists are arrays or maps of links tied to sequences, and the properties are stated
on the abstract value. The main results are statements about every run.

* **Memory.** `Pmm` is the frame bitmap, `BootMemory` its set-up from the memory map
  of the boot loader. `PageTables`, `Ownership` and `Vmm` are four-level page tables
  that refine a flat map from page to leaf entry; ownership says which frame is which
  node or private leaf of which process tree. `AddressSpaces` creates and tears down a
  process tree. `Reservations` is the record table and the mmap arena, `Uvm` the calls
  that join it to the page tables (demand paging, protect, release, discard, sharing).
  `KernelHalf` is the half of the address space all processes share, from the boot
  tables on. `VmRuns` boots, creates processes and runs any interleaving of their calls
  over one memory. `Differences` holds runs from boot that end where a promise fails.
  `Heap` is the kernel heap.
* **Tasks.** `ReadyQueue` is the three-level queue with its fairness bounds,
  `Scheduler` the task table with every state change from spawn to reap, `Loader` the
  queue of images to load, `WaitQueue` the doubly linked wait queues under them. `Pipe`
  runs concurrent readers and writers. `Sharing` counts the users of address-space
  records through threads, vfork and exec. `Descriptors` counts references to files,
  sockets and pipe ends.
* **Signals.** `Signals` builds and unwinds frames on the user stack.
* **Smaller cores.** `PeModules` (placement, discovery and initialisation order of
  DLLs), `Paths` (lexical path normalisation, working directories and directory
  descriptors), `Display` (damage rectangles, the flush and the multi-lane copy),
  `Checksum` (the two Internet checksums).

Allocation failures, permission answers of other modules, clocks and what user code
does between two kernel entries are parameters, so every claim holds whatever they are.

## Where the code differs from what it promises

The models follow the code. For each of these there is an input on which the promise
fails and the exact condition under which it holds.

* `kernel/memory/uvm.c:68-70` promises that the arena never returns overlapping
  ranges. A release that passes the bump pointer and is recorded, or a fixed
  reservation inside the arena, breaks that (`Differences.SamePageTwice`); all other
  calls keep it (`Uvm.ReleasedArena`, `Uvm.FixedReserveIff`). Ownership of frames does
  not depend on the arena and is kept by every call (`VmRuns.Run`).
* `kernel/memory/uvm.h:97-100` promises that a failed `uvm_protect` changed nothing.
  Pages committed before the refused one stay committed
  (`Differences.ProtectHalfway`); nothing changed exactly when the first page that was
  not usable before would be refused (`Uvm.TaskVm.CommitRange`, `Uvm.TaskVm.Protect`).
* `kernel/arch/syscall.c:1028-1029` leaves lent frames to the caller. A caller that
  releases the page or is reaped frees the frame under the receiver
  (`Differences.FreedUnderReceiver`, `Differences.ReapedUnderReceiver`);
  `Uvm.NoDangling` says for which pages, and that private pages of other processes are
  never affected. A share that lands on a private page of the receiver loses that
  page's frame for good (`Differences.FrameLost`); frames are conserved exactly
  otherwise (`Uvm.TaskVm.Lend`).
* `kernel/memory/pmm.c:110` says that marking a region free rounds inward. It rounds
  the start down (`Pmm.FreedWithin`); free frames are usable memory when the regions
  start on frame boundaries (`BootMemory.FreeIsUsable`).
* `kernel/memory/heap.c:111` rounds a size above 2^64 - 16 to zero (`Heap.RoundedIff`),
  and line 138 asks for no page when the block would end in the last page of the
  address space (`Heap.NeededPages`).
* `kernel/sched/sched.c:454-461` says a NORMAL task waits at most 4 dispatches. That is
  so exactly when the LOW floor cannot fall due meanwhile
  (`ReadyQueue.NormalWaitsFour`); in general it can be passed over 9 times and no more
  (`ReadyQueue.ServedWithinBound`, `ReadyQueue.BoundIsTight`).
* `kernel/arch/syscall.c:1300-1302` says a path fails only when the result does not
  fit. It also fails when an intermediate path does not fit (`Paths.FailsInBetween`);
  without ".." the two are the same (`Paths.FailsOnResult`), and the exact condition is
  in `Paths.Resolve`.
* `kernel/display/framebuffer.c:1110-1111` clears the damage before the flush. When
  the flush fails it is only logged and the damage is gone (`Display.Scanout.Present`).

One comment is out of date without a property behind it: `kernel/sched/sched.c:1478-1486`
speaks of 16 task slots, and the table has 32.

## Model

| member | source | states |
|---|---|---|
| `Pmm.ByteScan` | kernel/memory/pmm.c:58-69 | what the masked complement of one bitmap byte says about the eight frames it stands for |
| `Pmm.FrameAllocator.FindFreeFrame` | kernel/memory/pmm.c:50-69 | skipping full bytes finds the lowest free frame of the range, and reports none exactly when none is free |
| `Pmm.FrameAllocator.AllocateAt` | kernel/memory/pmm.c:292-299 | the frame becomes used, the count stays exact, the hint moves past it and wraps |
| `Pmm.FrameAllocator.ScanFree` | kernel/memory/pmm.c:303-320 | one side of the next-fit scan: the lowest free frame or proof that there is none |
| `Pmm.FrameAllocator.AllocFrame` | kernel/memory/pmm.c:303-320 | the first free frame in a circle from the hint on, and the next search starts behind it; fails exactly when every frame at or above 1 MiB is used, wherever the hint stands |
| `Pmm.FrameAllocator.AllocFrameBelow` | kernel/memory/pmm.c:322-345 | the lowest free frame that ends at or below the limit, above 1 MiB when the limit is; failure exactly when there is none |
| `Pmm.StreakShort` | kernel/memory/pmm.c:365-389 | a short streak of free frames excludes every run that would end there |
| `Pmm.FirstRunIsLowest` | kernel/memory/pmm.c:365-389 | the first run the search completes is the lowest-starting one |
| `Pmm.FrameAllocator.FindRun` | kernel/memory/pmm.c:365-389 | the search finds the lowest-starting free run, and fails exactly when no run exists |
| `Pmm.FrameAllocator.AllocContiguousBelow` | kernel/memory/pmm.c:349-393 | the lowest run of free frames that ends at or below the limit, above 1 MiB when the limit is; takes exactly that run, or changes nothing when there is none |
| `Pmm.FrameAllocator.FreeFrame` | kernel/memory/pmm.c:402-412 | out-of-range and double frees change nothing, so the used count equals the number of set bits for ever; the hint never stays above a freed frame |
| `Pmm.FrameAllocator.FreeContiguous` | kernel/memory/pmm.c:397-400 | gives back exactly the run |
| `Pmm.FrameAllocator.MarkRegionUsed` | kernel/memory/pmm.c:97-107 | exactly the frames that overlap the region become used |
| `Pmm.FrameAllocator.MarkRegionFree` | kernel/memory/pmm.c:110-121 | exactly the frames that end in the region become free |
| `Pmm.FreedWithin` | kernel/memory/pmm.c:110-121 | that rounds inward, as the comment says, if and only if the region starts on a frame boundary or does not reach the end of its first frame |
| `BootMemory.FindBitmapRegion` | kernel/memory/pmm.c:76-95 | the lowest aligned place above the limit in the first usable region that has one, and none exactly when no region has one |
| `BootMemory.FreeUsable` | kernel/memory/pmm.c:250-260 | after the first pass exactly the frames of usable regions are free |
| `BootMemory.KeepRegions` | kernel/memory/pmm.c:262-285 | after the second exactly the frames that touch nothing kept |
| `BootMemory.Init` | kernel/memory/pmm.c:179-285 | for any memory map, kernel, boot information and modules: a frame is free exactly when it is usable and holds no byte of the kernel, the bitmap, the boot information, a module, 0 to 0x10000 or 0xA0000 to 0x100000; the bitmap takes the first place that fits above all of them; the cases in which it halts, exactly |
| `BootMemory.KeptIsNeeded` | kernel/memory/pmm.c:262-285 | the list of regions that are marked is exactly these |
| `BootMemory.NothingKeptIsFree` | kernel/memory/pmm.c:262-285 | no byte of anything kept lies in a free frame |
| `BootMemory.FreeIsUsable` | kernel/memory/pmm.c:250-260 | when regions start on frame boundaries every free frame lies wholly in usable memory |
| `PageTables.SplitJoin` | kernel/memory/vmm.c:39-44 | the four index slices identify a 48-bit page |
| `PageTables.JoinSplit` | kernel/memory/vmm.c:39-44 | and every quadruple of indices is the split of one page |
| `PageTables.PageOffsetOr` | kernel/memory/vmm.c:184-208 | the or of frame address and page offset is their sum |
| `PageTables.SameLinkKeepsLeaves` | kernel/memory/vmm.c:51-106 | setting the user bit on a link changes no page of any space |
| `PageTables.LinkNewKeepsLeaves` | kernel/memory/vmm.c:51-106 | linking a new empty table changes no page of any space |
| `PageTables.LeafWrite` | kernel/memory/vmm.c:130-145 | one leaf write changes the flat map at exactly the pages whose walk ends in that entry |
| `Ownership.DescendSlot` | kernel/memory/vmm.c:111-128 | whatever a walk reaches is a kernel table or sits at exactly the tree position the walk spells |
| `Ownership.NoAlias` | kernel/memory/vmm.c:111-128 | a leaf entry of a user page is named by that page of that process alone |
| `Vmm.Memory.AllocZeroed` | kernel/memory/vmm.c:51-106 | a zeroed frame that no tree owns, or 0 exactly when no general frame is free |
| `Vmm.Memory.NextTable` | kernel/memory/vmm.c:51-106 | one level of the walk: follow or create, failing exactly on a huge page or an empty allocator; a new link is present and writable, and for users exactly if asked; an old one changes at most by becoming a user link if asked |
| `Vmm.Memory.WalkOrCreate` | kernel/memory/vmm.c:51-106 | reaches the leaf table, every level user accessible if asked, exactly when no huge page is in the way and at least as many frames are free as tables are missing, and takes exactly that many; every new link is writable, and none is a user link unless asked; a failed walk leaves every page of every space as it was and would fail again |
| `Vmm.Memory.MapIn` | kernel/memory/vmm.c:130-145 | succeeds exactly when the physical address is in range and the walk can be completed; then exactly one page of one space changes, to the frame and each of the flags asked for, the processor can write it exactly if they say so, and ownership of the mapped frame moves into the tree; failure changes no page |
| `Vmm.PathWritable` | kernel/memory/vmm.c:51-106 | in every valid state no link stands in the way of a write: what the processor may write is decided by the leaf entry alone |
| `Vmm.Memory.WalkOnly` | kernel/memory/vmm.c:111-128 | the same leaf table without allocating |
| `Vmm.Memory.EntryIn` | kernel/memory/vmm.c:165-170 | reads the flat map |
| `Vmm.Memory.TranslateIn` | kernel/memory/vmm.c:184-208 | the physical address through 4 KiB, 2 MiB and 1 GiB leaves |
| `Vmm.Memory.UnmapIn` | kernel/memory/vmm.c:172-179 | exactly one page becomes absent; fails exactly without a leaf table |
| `Vmm.Memory.ProtectIn` | kernel/memory/vmm.c:152-160 | exactly one page changes: it keeps its frame, has each of the new flags, stays borrowed if it was, and can be written exactly if they say so |
| `Vmm.OnlyPage` | kernel/memory/vmm.c:130-145 | inside a process tree a leaf write is seen at one page only |
| `AddressSpaces.FreePt` | kernel/loader/process.c:65-96 | frees the private pages of a leaf table and the table, each once, and no borrowed page |
| `AddressSpaces.FreePd` | kernel/loader/process.c:65-96 | frees everything below a page directory, each frame once |
| `AddressSpaces.FreePdptSubtree` | kernel/loader/process.c:65-96 | frees everything below a PDPT except the shared low entry |
| `AddressSpaces.FreeUserPml4` | kernel/loader/process.c:103-120 | returns exactly the frames the space owns: no shared leaf, no kernel table, no shared low table, no double free |
| `AddressSpaces.Pml4Create` | kernel/loader/process.c:182-219 | two frames, the kernel half shared, nothing private, the first entry present, writable and for users; fails exactly when fewer than two frames are free, and then changes nothing |
| `AddressSpaces.NewSpaceView` | kernel/loader/process.c:182-219 | a new space reads like the kernel outside its private area |
| `AddressSpaces.EnableLowElf` | kernel/loader/process.c:50-57 | cuts the shared low 1 GiB out of this space only, by one cleared entry and one mark; a second call changes nothing |
| `AddressSpaces.ServePrivate` | kernel/loader/process.c:139-162 | a frame in hand is owned by the space after a successful map and returned after a failed one |
| `AddressSpaces.LifeCycle` | kernel/loader/process.c:50-120 | create, any list of successful and failed maps, tear down: the allocator is back where it was, every other space owns and reads what it did |
| `KernelHalf.ReserveKernel` | kernel/memory/vmm.c:233-251 | every absent kernel slot gets a table, linked present and writable and not for users, and no page of any space changes; fails exactly when fewer frames are free than slots are absent |
| `KernelHalf.SameKernel` | kernel/memory/vmm.c:219-232 | through a shared PML4 entry every page, huge or not, reads the same |
| `KernelHalf.KernelStays` | kernel/memory/vmm.c:130-145 | no page-table operation turns a kernel table into one of a process |
| `KernelHalf.MapKernel` | kernel/memory/vmm.c:213-232 | a kernel mapping is seen by every process at once, however long ago it was created |
| `KernelHalf.Run` | kernel/memory/vmm.c:213-251 | after any sequence of kernel and user mappings, unmappings, permission changes and process creations the kernel half reads the same in every process |
| `KernelHalf.BootOwned` | kernel/arch/x86_64/boot/main.asm:158-230 | the boot tables satisfy the ownership invariant, shared and aliased entries included |
| `KernelHalf.BootIdentity` | kernel/arch/x86_64/boot/main.asm:159-187 | the boot tables map the first gigabyte to itself |
| `KernelHalf.BootDirect` | kernel/arch/x86_64/boot/main.asm:166-230 | the direct map covers the first four gigabytes and one more for each directory that hhdm_extend adds, writable and for the kernel only |
| `KernelHalf.BootAlias` | kernel/arch/x86_64/boot/main.asm:156-188 | and the first gigabyte is mapped where it is and where the kernel is linked |
| `KernelHalf.ExtendDirect` | kernel/memory/pmm.c:141-174 | one distinct low frame for every gigabyte beyond four; it stops only when memory exceeds 512 GiB or no low frame is left |
| `KernelHalf.Prepare` | kernel/memory/pmm.c:179-285 | allocator and direct map for any memory map that holds the kernel image |
| `KernelHalf.Start` | kernel/memory/vmm.c:233-251 | over the boot tables the kernel slots can be reserved exactly when 254 frames are free |
| `KernelHalf.Boot` | kernel/memory/vmm.c:253-261 | from any memory map of the boot loader to the state every process creation needs: all memory is mapped directly, its first gigabyte also where it is and where the kernel is linked, all of it writable and for the kernel only; failure means that no frame is left |
| `Reservations.RangeOkMeans` | kernel/memory/uvm.c:20-28 | the wrapping range test is the plain interval test |
| `Reservations.ReservedUnique` | kernel/memory/uvm.c:30-39 | an address has at most one set of flags |
| `Reservations.ReservationTable.constructor` | kernel/memory/uvm.c:10-18 | an empty table with the bump pointer at the base of the arena |
| `Reservations.ReservationTable.VmaAt` | kernel/memory/uvm.c:30-39 | finds the record of an address exactly when it is reserved |
| `Reservations.ReservationTable.FreeSlot` | kernel/memory/uvm.c:41-49 | the first unused record, or proof that all are used |
| `Reservations.ReservationTable.Overlaps` | kernel/memory/uvm.c:52-66 | true exactly when some address of the range is reserved |
| `Reservations.ReservationTable.Absorb` | kernel/memory/uvm.c:71-93 | the restarting merge loop ends, keeps holes separate and covers exactly the old holes and the range |
| `Reservations.ReservationTable.HoleAdd` | kernel/memory/uvm.c:71-101 | the range is recorded exactly when the list has an empty slot or a hole that touches it; then exactly the old free addresses and the range are free, otherwise nothing changes |
| `Reservations.ReservationTable.ArenaAlloc` | kernel/memory/uvm.c:106-124 | first fit, else the bump pointer, with the whole new state; never leaves the arena; while the arena is sound what it returns is unreserved and no longer free, and it fails exactly when nothing fits |
| `Reservations.ListFull` | kernel/memory/uvm.c:71-101 | a sound arena with sixteen holes: a further page released apart from them is not recorded |
| `Reservations.ReservationTable.RemoveRange` | kernel/memory/uvm.c:130-166 | splits, trims and drops records so that nothing of the range stays reserved and, while records are disjoint, exactly the range goes; refused exactly when a split needs a record and none is free, and then nothing changes |
| `Reservations.ReservationTable.Insert` | kernel/memory/uvm.c:248-279 | merging with neighbours adds exactly the range to the address-to-flags map, keeps disjoint records disjoint, spends a record exactly when no record with these permissions touches the range, and gives one back when it joins two |
| `Uvm.TaskVm.FaultIn` | kernel/memory/uvm.c:168-192 | true exactly when the page was usable, or was absent with a record that permits the access and enough free frames for it and its missing tables; at most this page changes, from absent to a zeroed private frame with its reservation permissions; a refusal changes no page and would be repeated; when asked for writing and true, the processor can write the page |
| `Uvm.TaskVm.MapFresh` | kernel/memory/uvm.c:183-192 | a zeroed frame is mapped exactly when there is one for the page and one for every missing table, and given back otherwise |
| `Uvm.TaskVm.CommitFrame` | kernel/memory/uvm.c:183-192 | the same once the frame is in hand |
| `Uvm.TaskVm.RangeIsUnmapped` | kernel/memory/uvm.c:52-66 | true exactly when no record and no translation lies in the range |
| `Uvm.TaskVm.Reserve` | kernel/memory/uvm.c:225-279 | succeeds exactly when a record is free and the range is vacant; then exactly the range is added, from the hole or bump pointer first fit names; keeps the arena sound exactly when a fixed range stays clear of it; callable also when it is not sound |
| `Uvm.FixedReserveIff` | kernel/memory/uvm.c:225-279 | a fixed reservation keeps the arena sound if and only if it is clear of its holes and its unused part |
| `Uvm.TaskVm.CommitRange` | kernel/memory/uvm.c:281-299 | commits page by page; a failed call changed nothing if and only if the first page that was not usable before is one that would be refused |
| `Uvm.TaskVm.BufferOk` | kernel/memory/uvm.c:194-223 | true only when every byte can be accessed afterwards; false only outside the user ranges or at a refused page; present pages never change |
| `Uvm.TaskVm.Protect` | kernel/memory/uvm.c:281-299 | on success every page of the range has each of the new flags on its old or freshly committed frame, stays borrowed if it was, can be written exactly if they say so, and nothing outside changed; a failed call changed nothing if and only if the first page that was not usable before is one that would be refused |
| `Uvm.ProtectedHad` | kernel/memory/uvm.c:281-299 | it succeeds only where every page was present or reserved |
| `Uvm.TaskVm.DropLeaf` | kernel/memory/uvm.c:309-320 | one page goes; its frame is returned exactly when it is private |
| `Uvm.TaskVm.Release` | kernel/memory/uvm.c:301-325 | succeeds exactly on a legal range whose split fits; then exactly the range is unreserved, unmapped and its private frames returned; keeps the arena sound exactly when the range does not pass the bump pointer or the free list, as it was, cannot record it |
| `Uvm.ReleasedArena` | kernel/memory/uvm.c:301-325 | that condition on the old tables, as an equivalence |
| `Uvm.TaskVm.Discard` | kernel/memory/uvm.c:327-350 | all or nothing: succeeds exactly when every page is reserved and not borrowed |
| `Uvm.PrivateLeaf` | kernel/memory/uvm.c:168-192 | the frame of a private page is used, is no table, and is the leaf of no other page of any process |
| `Uvm.NoDangling` | kernel/memory/uvm.c:301-350 | after a release or discard a mapped page has lost its frame if and only if it is borrowed and its lender gave the frame up |
| `Uvm.TaskVm.Lend` | kernel/arch/syscall.c:1027-1034 | one lent page, the lender itself as receiver included: succeeds exactly when the source translates to an address in range and the walk can be completed; exactly one page of the receiver changes, to the source frame, readable, writable and borrowed; frames are conserved if and only if that page held no private frame |
| `Uvm.TaskVm.LendThenRelease` | kernel/arch/syscall.c:1003-1048 | a lender can release a lent page exactly when the release fits, and leaves the receiver with a page whose frame is free |
| `VmRuns.OtherSpace` | kernel/memory/uvm.c:168-350 | a call of one process keeps the whole invariant of every other process |
| `VmRuns.Act` | kernel/memory/uvm.c:168-350 | every call of a process on its space, whether or not its arena is sound, keeps the invariant and neither takes nor frees a frame outside it |
| `VmRuns.Lend` | kernel/arch/syscall.c:1003-1048 | sharing keeps the invariant of lender and receiver, themselves included, and loses a frame at most when it covers a private page |
| `VmRuns.Unshare` | kernel/arch/syscall.c:1084-1103 | taking a borrowed page away changes that page only |
| `VmRuns.LowElf` | kernel/loader/process.c:50-57 | making the low gigabyte private keeps the invariant |
| `VmRuns.ExitProcess` | kernel/loader/process.c:103-120 | exactly the frames of the process become free, lent ones included, and no other process changes |
| `VmRuns.EffectUnheld` | kernel/memory/uvm.c:168-350 | no call frees a frame that belongs to no process, and none becomes one unless a share covers a private page |
| `VmRuns.Run` | kernel/memory/uvm.c:168-350 | after any interleaving of reserve, fault, check, protect, release, discard, share, unshare, low-ELF and exit calls by any processes every private frame is still allocated and belongs to one page of one process; no frame outside processes is freed, and without shares none is lost |
| `VmRuns.NewSpaceOk` | kernel/loader/process.c:182-219 | a new process with an empty table satisfies the whole invariant |
| `VmRuns.Spawn` | kernel/loader/process.c:182-219 | creating a process keeps the invariant of every other one and takes two frames; fails exactly when there are not two |
| `VmRuns.Session` | kernel/memory/uvm.c:168-350 | the same from any memory map of the boot loader on, for any number of processes: no assumption about the starting state is left |
| `Differences.Machine` | kernel/memory/pmm.c:179-285 | a memory map from which the boot ends with two processes and frames to spare |
| `Differences.SamePageTwice` | kernel/memory/uvm.c:68-124 | releasing an arena page that was never reserved makes two reservations return it |
| `Differences.ProtectHalfway` | kernel/memory/uvm.c:281-299 | a reserved page followed by an unreserved one: the call fails and the first page is there |
| `Differences.FreedUnderReceiver` | kernel/memory/uvm.c:301-325 | a lender releases a lent page: the receiver maps a free frame |
| `Differences.ReapedUnderReceiver` | kernel/loader/process.c:103-120 | a lender is reaped: the receiver maps a free frame |
| `Differences.FrameLost` | kernel/arch/syscall.c:1032-1039 | a share over a private page: its frame stays allocated after both processes have exited |
| `ReadyQueue.LevelServes` | kernel/sched/sched.c:519-565 | a level is chosen exactly when some queue is not empty, and never an empty one |
| `ReadyQueue.PatienceStep` | kernel/sched/sched.c:519-565 | every dispatch of another level uses up patience of a waiting one |
| `ReadyQueue.ServedWithinBound` | kernel/sched/sched.c:461-565 | a queue that stays non-empty is served in any 3 (HIGH), 10 (NORMAL) or 65 (LOW) consecutive dispatches |
| `ReadyQueue.BoundIsTight` | kernel/sched/sched.c:461-565 | each of the three bounds is reached, by tasks that are queued once each and become ready again after they ran |
| `ReadyQueue.NormalWaitsFour` | kernel/sched/sched.c:454-461 | a ready NORMAL task waits at most four dispatches, whatever is pushed or removed, if and only if the LOW floor cannot fall due within the rest of the HIGH burst |
| `ReadyQueue.WaitStep` | kernel/sched/sched.c:483-586 | no push, removal or dispatch moves a waiting task back |
| `ReadyQueue.BoundedWait` | kernel/sched/sched.c:461-586 | a task at position k runs within bound times k + 1 dispatches, whatever is pushed or removed meanwhile |
| `ReadyQueue.ReadyQueues.Push` | kernel/sched/sched.c:483-508 | the linked lists represent the queue with the task at its end |
| `ReadyQueue.ReadyQueues.Any` | kernel/sched/sched.c:512-517 | true exactly when some queue is not empty |
| `ReadyQueue.ReadyQueues.ChooseLevel` | kernel/sched/sched.c:519-555 | the burst and floor rules pick the level of the specification |
| `ReadyQueue.ReadyQueues.Pop` | kernel/sched/sched.c:519-565 | hands out the head of that level and updates both counters |
| `ReadyQueue.ReadyQueues.Remove` | kernel/sched/sched.c:567-586 | takes the task out of whichever list holds it and nothing else, and reports whether it was queued |
| `Scheduler.Scheduler.constructor` | kernel/sched/sched.c:655-692 | the invariant holds after start-up with task 1 running and idle on no queue |
| `Scheduler.Scheduler.ReadyPush` | kernel/sched/sched.c:483-508 | pushes, and notes a reschedule exactly when the task outranks the running one |
| `Scheduler.Scheduler.Yield` | kernel/sched/sched.c:1162-1186 | the caller goes to the back of its queue, the next task runs with a new slice and no reschedule noted; idle alone keeps the CPU |
| `Scheduler.Scheduler.PreemptTick` | kernel/sched/sched.c:1188-1220 | the running task loses the CPU exactly when somebody is ready and either outranks it or the quantum is over |
| `Scheduler.Quantum` | kernel/sched/sched.c:1206-1209 | ten milliseconds in ticks, rounded up, at least one |
| `Scheduler.Scheduler.Block` | kernel/sched/sched.c:1222-1241 | the caller parks, the next task runs |
| `Scheduler.Scheduler.Wakeup` | kernel/sched/sched.c:1243-1250 | exactly a parked task becomes ready, once, and waits for nothing any more |
| `Scheduler.Scheduler.BlockUntil` | kernel/sched/sched.c:1252-1269 | parks with a deadline unless a signal is deliverable; the timed counter stays exact |
| `Scheduler.Scheduler.Resumed` | kernel/sched/sched.c:1270-1276 | interrupted, timed out or woken, with the flags cleared |
| `Scheduler.Scheduler.Interrupt` | kernel/sched/sched.c:1278-1285 | wakes exactly an interruptible parked task |
| `Scheduler.Scheduler.WakeFutex` | kernel/sched/sched.c:1287-1299 | wakes the first task parked on the key, or nobody exactly when there is none |
| `Scheduler.Scheduler.SleepTicks` | kernel/sched/sched.c:1301-1327 | the caller sleeps until its tick; zero ticks do nothing |
| `Scheduler.Scheduler.WakeSleepers` | kernel/sched/sched.c:1332-1350 | every due sleeper and every expired block becomes ready and nobody else changes, so the counter shortcut is exact; a reschedule is noted exactly when one of them outranks the running task |
| `Scheduler.Scheduler.SetPriority` | kernel/sched/sched.c:588-603 | refused outside the levels; a queued task moves to the back of its new queue |
| `Scheduler.Scheduler.Find` | kernel/sched/sched.c:743-751 | the task with the pid, or proof that there is none |
| `Scheduler.Scheduler.WaitOn` | kernel/sync/waitqueue.c:8-23 | one more wait entry of the caller |
| `Scheduler.Scheduler.LeaveQueues` | kernel/sync/waitqueue.c:25-40 | no wait entry of the task is left |
| `Scheduler.Scheduler.WakeAll` | kernel/sync/waitqueue.c:50-55 | exactly the parked tasks on the queue become ready, and a reschedule is noted exactly when one of them outranks the running task |
| `Scheduler.Scheduler.MarkExited` | kernel/sched/sched.c:1410-1508 | the whole table after an exit: the task is a zombie on no ready or wait queue, no pending vfork child, and unclaimed exactly when no task still parked waits for it; every other parked task that waits for it, for any child, on one of its pipes or, if it was a vfork child, on the vfork queue is ready; a notified parent is interrupted; a zombie it waited for becomes unclaimed; nobody else changes; a reschedule is noted exactly when a task that became ready outranks the running one |
| `Scheduler.ExitedByParts` | kernel/sched/sched.c:1444-1507 | the order of the steps of an exit: whom each wakes and who is left to claim the code |
| `Scheduler.FlaggedByParts` | kernel/sched/sched.c:1444-1507 | and which of them note a reschedule |
| `Scheduler.Scheduler.Exit` | kernel/sched/sched.c:1592-1643 | the caller never runs again and another task does; the others see exactly what MarkExited says |
| `Scheduler.Scheduler.ExitThread` | kernel/sched/sched.c:1645-1676 | the same for a bare thread: an unclaimed zombie, exactly its waiters are ready |
| `Scheduler.Scheduler.Kill` | kernel/sched/sched.c:1565-1590 | on a task that is not loading: succeeds exactly on a live user task outside the file system, which ends as a zombie on no queue, seen by the others exactly as MarkExited says |
| `Scheduler.Scheduler.ReapClaim` | kernel/sched/sched.c:1720-1728 | exactly a zombie outside the file system can be claimed, once |
| `Scheduler.Scheduler.ReapFree` | kernel/sched/sched.c:1730-1742 | its slot becomes free |
| `Scheduler.Scheduler.ReapUnclaimed` | kernel/sched/sched.c:1774-1798 | exactly the unclaimed zombies that lent no frame and are outside the file system are freed |
| `Scheduler.Scheduler.AllocSlot` | kernel/sched/sched.c:605-622 | a free slot, reclaiming zombies if need be; fails only on a table without any |
| `Scheduler.Scheduler.Spawn` | kernel/sched/sched.c:753-1067 | a new task with a fresh pid, the parent its path names, on its queue (or loading); fails only when an allocation failed or the table is full |
| `Scheduler.Scheduler.Activate` | kernel/sched/sched.c:892-911 | exactly a loading task becomes ready |
| `Scheduler.Scheduler.FailReserved` | kernel/sched/sched.c:913-917 | exactly a loading task becomes a zombie, as MarkExited says |
| `Scheduler.OneSlot` | kernel/sched/sched.c:483-603 | what a change of one slot and its queue membership needs to keep the invariant and the counters |
| `Scheduler.YieldOk` | kernel/sched/sched.c:1162-1186 | pop, requeue and switch keep the invariant |
| `Scheduler.Run` | kernel/sched/sched.c:483-1798 | in every state reachable from start-up exactly one task is running and is current, ready tasks are on their own queue exactly once, nothing else is queued, pids are unique and both counters are true |
| `Loader.Loads.SpawnAsync` | kernel/loader/process.c:632-667 | a reserved task that is queued to be loaded |
| `Loader.Loads.LoadDone` | kernel/loader/process.c:522-569 | the task becomes ready exactly when it was loaded and not killed meanwhile, else it exits with the code of its killer, as MarkExited says |
| `Loader.Loads.CancelAsync` | kernel/loader/process.c:680-707 | a waiting request dies at once, the one being loaded is marked; fails exactly when there is none |
| `Loader.Loads.Kill` | kernel/sched/sched.c:1565-1590 | succeeds exactly on a killable task or one that is being loaded, and says when it dies and what the others see |
| `Loader.Run` | kernel/loader/process.c:522-707 | any interleaving of scheduler steps, asynchronous spawns, the loader and kills keeps the task table consistent |
| `WaitQueue.WaitQueues.Add` | kernel/sync/waitqueue.c:8-23 | the doubly linked queue and the chain of the task both gain the entry at the front |
| `WaitQueue.RemoveOk` | kernel/sync/waitqueue.c:25-40 | unlinking the newest entry of a task keeps every queue and every chain well linked |
| `WaitQueue.WaitQueues.RemoveAll` | kernel/sync/waitqueue.c:25-40 | exactly the entries of the task leave, from every queue |
| `WaitQueue.WaitQueues.WakeOrder` | kernel/sync/waitqueue.c:50-55 | the tasks woken are those on the queue, in list order |
| `Pipe.ReadRing` | kernel/msg/pipe.c:72-79 | two block moves read the oldest bytes across the wrap |
| `Pipe.WriteRing` | kernel/msg/pipe.c:115-123 | two block moves append across the wrap |
| `Pipe.Pipe.constructor` | kernel/msg/pipe.c:8-18 | an empty pipe with one reader and one writer |
| `Pipe.Pipe.Ref` | kernel/msg/pipe.c:20-27 | one more reference to one end |
| `Pipe.Pipe.Unref` | kernel/msg/pipe.c:29-46 | one fewer; the last reference to an end wakes everybody parked at the other |
| `Pipe.Pipe.ReadStep` | kernel/msg/pipe.c:52-84 | takes the oldest bytes, as many as asked or there; parks only on an empty ring that has a writer; end of file exactly without one |
| `Pipe.Pipe.WriteStep` | kernel/msg/pipe.c:86-131 | what is accepted and answered, exactly, from the state before: nothing and a broken pipe without a reader; a write up to the atomic size whole or not at all, a longer one as far as there is space; then done, or waiting, again or interrupted by mode and signal, an error only if nothing was ever accepted; the bytes in the stream, the readers woken and the count follow |
| `Pipe.ChunkBooks` | kernel/msg/pipe.c:99-126 | one more chunk keeps the record of every call in any interleaving |
| `Pipe.LastWriter` | kernel/msg/pipe.c:29-46 | when the last writer goes no reader stays parked |
| `Pipe.LastReader` | kernel/msg/pipe.c:29-46 | when the last reader goes no writer stays parked |
| `Pipe.Run` | kernel/msg/pipe.c:8-131 | in any interleaving of reads, writes, wake-ups, signals and reference changes bytes read are a prefix of bytes written, small writes are contiguous and no wake-up is lost |
| `Heap.RoundedIff` | kernel/memory/heap.c:104-111 | rounding up keeps its promise exactly for sizes that do not wrap |
| `Heap.PayloadsDisjoint` | kernel/memory/heap.c:104-145 | live payloads are disjoint, 16-aligned and inside the heap |
| `Heap.TakenOk` | kernel/memory/heap.c:118-134 | allocating keeps the blocks a tiling without two free neighbours |
| `Heap.TakenLive` | kernel/memory/heap.c:118-134 | and makes exactly one block live |
| `Heap.FreedOk` | kernel/memory/heap.c:178-205 | freeing with both merges keeps it too |
| `Heap.FreedLive` | kernel/memory/heap.c:178-205 | and ends exactly one live block |
| `Heap.AllFreeIsOne` | kernel/memory/heap.c:178-205 | with nothing live the heap is one free block |
| `Heap.Heap.Grow` | kernel/memory/heap.c:50-66 | maps a prefix of the pages asked for |
| `Heap.Heap.ListAppend` | kernel/memory/heap.c:87-102 | new pages join the last block if it is free, else become one |
| `Heap.Heap.FindFit` | kernel/memory/heap.c:113-117 | first fit |
| `Heap.Heap.Malloc` | kernel/memory/heap.c:104-145 | a new block, the first that fits, disjoint from all live ones, with less than a header and 16 bytes to spare; terminates; null for a non-zero size exactly when no free block fits and the last growth attempt mapped no page, which was refused unless the request would end in the last page of the address space |
| `Heap.NeededPages` | kernel/memory/heap.c:136-143 | the page count wraps to zero exactly for such a request |
| `Heap.Heap.Free` | kernel/memory/heap.c:178-205 | exactly the block of the pointer stops being live; a null pointer changes nothing |
| `Heap.Session` | kernel/memory/heap.c:50-205 | any sequence of allocations and frees, then freeing the rest, ends with one free block |
| `Signals.Geometry` | kernel/sched/signal.c:198-206 | the frame and the FPU image are aligned and lie below the red zone, also where addresses wrap |
| `Signals.FramesDisjoint` | kernel/sched/signal.c:168-236 | frames of nested deliveries never overlap |
| `Signals.DeliverHolds` | kernel/sched/signal.c:200-236 | a delivery leaves every live outer frame intact |
| `Signals.SanitizedValid` | kernel/sched/signal.c:326-333 | the restored MXCSR has no reserved bit, and a valid one is untouched |
| `Signals.Task.Deliver` | kernel/sched/signal.c:168-236 | picks the lowest unblocked signal; ignores, terminates or enters the handler exactly as its action, its restorer and the stack check say; the frame at the new stack pointer holds the restorer, the signal and everything interrupted, as high below the red zone as alignment allows, other memory untouched; only the handler of the delivered signal changes, to the default, exactly when it asks for it |
| `Signals.ReturnsTo` | kernel/sched/signal.c:308-339 | an intact frame gives back what the delivery saved |
| `Signals.Task.SigReturn` | kernel/sched/signal.c:308-339 | returning from the innermost handler restores every register but the selectors, the FPU image and the mask; a bad frame terminates; SIGKILL and SIGSTOP stay unblocked |
| `Signals.Task.SigProcMask` | kernel/sched/signal.c:347-378 | the three ways to change the mask, never blocking SIGKILL or SIGSTOP |
| `Signals.Task.Send` | kernel/sched/signal.c:113-145 | discard, terminate at once or leave pending, exactly as the action and the mask say |
| `Signals.Perform` | kernel/sched/signal.c:113-378 | in every step live frames form a stack: delivery pushes exactly when a caught signal is next and its frame fits, sigreturn pops and restores exactly at the return of the innermost handler, user code can only overwrite inner frames; a delivery adds its mask, takes its signal off and changes no action but the delivered one, and no other step changes more than it names |
| `Signals.SavedKept` | kernel/sched/signal.c:113-378 | while a task runs below a frame no step changes what that frame saved |
| `Signals.Run` | kernel/sched/signal.c:113-378 | any steps of a new task keep the invariant and follow the stack discipline |
| `Signals.HandlerIsTransparent` | kernel/sched/signal.c:168-339 | delivery at any depth, any steps that stay below its frame, nested deliveries included, then its sigreturn: registers, FPU image and mask are what they were |
| `Sharing.Spaces.Spawn` | kernel/sched/sched.c:795-890 | a task on a fresh record with one user |
| `Sharing.Spaces.Activate` | kernel/sched/sched.c:892-911 | exactly a loading task gets its page tables and a counted record |
| `Sharing.Spaces.Share` | kernel/sched/sched.c:919-1067 | a thread or vfork child on the record of its creator, counted |
| `Sharing.Spaces.VforkRelease` | kernel/sched/sched.c:1069-1074 | the child stops borrowing and every parked parent looks again |
| `Sharing.Spaces.VforkWait` | kernel/sched/sched.c:1076-1093 | a vfork parent leaves its wait exactly when the child has exec'd or exited |
| `Sharing.LastUser` | kernel/sched/sched.c:1688-1718 | the count reaches zero exactly for the last user |
| `Sharing.Spaces.Exec` | kernel/sched/sched.c:1095-1133 | a new record; the old one is torn down, or leaked if frames are lent, exactly by its last user |
| `Sharing.Spaces.Exit` | kernel/sched/sched.c:1471-1473 | a borrowed space goes back to the parent, the record stays until the reap |
| `Sharing.Spaces.Reap` | kernel/sched/sched.c:1688-1742 | the record is torn down exactly by its last user, and never twice; frames it has lent go with it |
| `Sharing.Run` | kernel/sched/sched.c:795-1742 | over any run counts equal users, no torn record is pointed at, and a parked vfork parent always has a pending child |
| `Descriptors.ClosedIff` | kernel/sched/sched.c:338-371 | the tests on the counters recognise the last slot, for files, sockets and both pipe ends |
| `Descriptors.Table.Release` | kernel/sched/sched.c:338-371 | an object is closed exactly when its last slot goes |
| `Descriptors.Table.DupTo` | kernel/sched/sched.c:373-411 | one more slot on the same object, counted; fails only when a directory path cannot be copied |
| `Descriptors.Table.LowestFree` | kernel/arch/syscall.c:1806-1815 | the lowest free descriptor past the standard three, or proof that there is none |
| `Descriptors.Table.Close` | kernel/arch/syscall.c:1791-1800 | succeeds exactly on a used or standard descriptor |
| `Descriptors.Table.DupInto` | kernel/arch/syscall.c:1817-1832 | replacing a slot by its own object closes nothing |
| `Descriptors.Table.Dup` | kernel/arch/syscall.c:1834-1842 | the lowest free slot refers to the same object, without close-on-exec; each error exactly in its case |
| `Descriptors.Table.Dup23` | kernel/arch/syscall.c:1844-1867 | dup2 and dup3, equal numbers included: the target refers to the same object with the flag asked for; each error exactly in its case |
| `Descriptors.Table.Open` | kernel/arch/syscall.c:347-361 | a new object in the lowest free slot |
| `Descriptors.Table.Pipe2` | kernel/arch/syscall.c:1869-1909 | both ends in the two lowest free slots, or nothing |
| `Descriptors.Table.ReleaseAll` | kernel/sched/sched.c:1681-1686 | exactly the wanted slots of the task go: all, those with close-on-exec, or the pipe ends |
| `Descriptors.Table.InheritStdio` | kernel/sched/sched.c:413-423 | the child gets the standard slots of the parent |
| `Descriptors.Table.VforkCopy` | kernel/sched/sched.c:1026-1038 | all slots or, with every copy rolled back, none; nothing is closed by the rollback |
| `Descriptors.CountsDetermined` | kernel/sched/sched.c:325-423 | the slots determine every counter |
| `Descriptors.LedgerClosed` | kernel/sched/sched.c:338-371 | closing moves an object from open to closed, once |
| `Descriptors.Run` | kernel/sched/sched.c:325-423 | over any sequence of calls each counter equals its slots, and every object ever opened is either open or was closed exactly once |
| `PeModules.LowerTwice` | kernel/loader/pe.c:31-49 | lower-casing a module name is idempotent and keeps it legal |
| `PeModules.CopyName` | kernel/loader/pe.c:31-49 | the loop accepts exactly the legal names and lower-cases them |
| `PeModules.PeProcess.RangeFree` | kernel/loader/pe.c:98-111 | true exactly when the range is in bounds and hits no module, page or TEB window |
| `PeModules.PeProcess.Place` | kernel/loader/pe.c:177-192 | the preferred base if free, else the first free slot of the relocation area; fails exactly when none fits |
| `PeModules.PeProcess.ModuleNamed` | kernel/loader/pe.c:142-163 | a loaded module of that name is found again, never loaded twice; a new one comes from the directory of the program, or else of the system; an illegal name and too long a path load nothing |
| `PeModules.PeProcess.LoadImports` | kernel/loader/pe.c:216-236 | succeeds exactly when every import is a recorded dependency, and then every module loaded for it is complete |
| `PeModules.PeProcess.Discover` | kernel/loader/pe.c:164-236 | terminates on cyclic imports; succeeds exactly when the image loads, fits, gets its buffers and all its imports resolve; modules stay disjoint and names unique; then everything loaded on the way is complete |
| `PeModules.ClosedDown` | kernel/loader/pe.c:355-365 | everything a finished module depends on is finished |
| `PeModules.PeProcess.InitOrder` | kernel/loader/pe.c:355-365 | each module enters the order at most once, after its dependencies unless they form a cycle |
| `PeModules.PeProcess.InitAll` | kernel/loader/pe.c:366-385 | the order lists exactly the DLLs with an entry point; without cycles every one after all it depends on, directly or not |
| `PeModules.CompleteKept` | kernel/loader/pe.c:164-236 | a complete module stays complete while others are loaded |
| `PeModules.LoadProcess` | kernel/loader/pe.c:393-470 | in a loaded process every import of every module is loaded, no two modules overlap or share a name, and each DLL is initialised once, after all that it depends on if there is no cycle |
| `Paths.RenderUnique` | kernel/arch/syscall.c:1266-1340 | a normal path determines its components |
| `Paths.ResolveTwice` | kernel/arch/syscall.c:1303-1340 | resolving the result again gives itself |
| `Paths.AppendComponent` | kernel/arch/syscall.c:1266-1298 | one folding step in the buffer; fails exactly when the result does not fit |
| `Paths.Resolve` | kernel/arch/syscall.c:1303-1340 | the buffer holds the fold of the components over the base; fails exactly when some intermediate path does not fit |
| `Paths.FailsOnResult` | kernel/arch/syscall.c:1300-1340 | without ".." a path fails exactly when its result does not fit |
| `Paths.FailsInBetween` | kernel/arch/syscall.c:1300-1340 | with ".." it can fail although the result fits |
| `Paths.Files.ResolveAt` | kernel/arch/syscall.c:1362-1386 | answers an absolute normal path that fits, equal to the start folded with the components, or the error exactly in its case; nothing is cut off |
| `Paths.Files.Enter` | kernel/arch/syscall.c:2740-2764 | the working directory becomes the resolved path, whole |
| `Paths.Files.Inherit` | kernel/sched/sched.c:81-100 | a child starts in the directory of its parent |
| `Paths.Files.SetDirPath` | kernel/sched/sched.c:425-441 | a directory descriptor keeps the resolved path, whole |
| `Paths.Run` | kernel/arch/syscall.c:2721-2764 | after any chdir, fchdir, open, dup and close calls the working directory and all directory descriptors are absolute normal paths that fit |
| `Display.UnionCovers` | kernel/display/framebuffer.c:164-176 | a merged rectangle covers both |
| `Display.UnionLeast` | kernel/display/framebuffer.c:164-176 | and is the least rectangle that does |
| `Display.SwapCovers` | kernel/display/framebuffer.c:226-240 | making room in a full table loses no pixel |
| `Display.Damage.BestMerge` | kernel/display/framebuffer.c:203-213 | the pending rectangle that wastes least, if it wastes little enough |
| `Display.Damage.LeastPair` | kernel/display/framebuffer.c:226-237 | the cheapest pair to merge |
| `Display.Damage.MarkDamage` | kernel/display/framebuffer.c:186-242 | exactly the in-bounds pixels are added to what is marked and everything marked stays covered by at most eight in-bounds rectangles; the rectangle is merged where that wastes least and at most 8192 pixels, else appended, else two others make room that waste least |
| `Display.DamageIsTight` | kernel/display/framebuffer.c:186-242 | unless the table is full, a mark makes the flush larger by at most its own area and 8192 pixels |
| `Display.Damage.MarkAll` | kernel/display/framebuffer.c:244-254 | the whole screen |
| `Display.Damage.Snapshot` | kernel/display/framebuffer.c:1108-1125 | the rectangles flushed cover everything marked since the last snapshot |
| `Display.Scanout.Draw` | kernel/display/framebuffer.c:186-242 | drawing marks every pixel the display does not show yet |
| `Display.Scanout.Present` | kernel/display/framebuffer.c:1108-1143 | a complete flush shows everything drawn; after a failed one the damage still covers what is missing if and only if the flushed part covered all of it |
| `Display.CopyBatch.Turn` | kernel/display/framebuffer.c:458-479 | one turn of one lane copies its next row or moves on; a row that cannot be read is copied in part and fails the batch, which copies no more |
| `Display.RunLanes` | kernel/display/framebuffer.c:458-575 | any schedule of any number of lanes ends with exactly the covered pixels copied, or fails exactly when a covered pixel cannot be read; every pixel is then the old one or the source |
| `Display.SamePicture` | kernel/display/framebuffer.c:458-575 | so every schedule and lane count gives the picture of the single-lane copy |
| `Checksum.FoldedUnique` | kernel/net/inet.c:19-38 | end-around folding is the residue modulo 65535, with zero only for zero |
| `Checksum.InetChecksum` | kernel/net/inet.c:19-38 | the loop with its 32-bit accumulator computes the one's complement sum, odd lengths included |
| `Checksum.StoredVerifies` | kernel/net/inet.c:19-38 | a checksum stored in a zeroed aligned field makes the buffer sum to zero (section 2 of RFC 1071) |
| `Checksum.TcpSum` | kernel/net/tcp.c:27-34 | the big-endian sum of a span, added to a running sum |
| `Checksum.TcpChecksum` | kernel/net/tcp.c:36-51 | the byte swap of the other checksum over pseudo-header and segment |
| `Checksum.ChecksumsAgree` | kernel/net/tcp.c:27-51 | big-endian and little-endian sums agree up to a byte swap for any bytes |

## Left out

- VmRuns.Session: all processes are created before their calls are interleaved; they may end at any time.
- Uvm.TaskVm.Lend: the target lies in the share area below the user limit; the code never checks that its next share address stays there, which takes millions of shares.
- AddressSpaces.LifeCycle: requests map unmapped pages, as the loader and demand paging do.
- KernelHalf.Boot: the no-execute bits and the parsing of the multiboot tags are not modelled; the memory map, the modules and the place of the boot tables are parameters.
- BootMemory.Init: addresses are unbounded integers, so sums of base and length do not wrap.
- Scheduler.Scheduler.constructor: the idle task could be spawned; the kernel does not run otherwise.
- Scheduler.Scheduler.MarkExited: exit records, IPC, audio, input and framebuffer cleanup of a dying task are not modelled; closing its pipes is the list of wait queues woken.
- Scheduler.Scheduler.ReapUnclaimed: no close sleeps inside the loop; `ReapClaim` and `ReapFree` are the two halves between which other steps may run.
- Scheduler.Scheduler.Spawn: all spawn paths are one operation whose allocations may fail; stack contents are not modelled.
- Scheduler.Scheduler.Yield: pids and the burst counter are unbounded integers.
- Loader.Loads.LoadDone: what loading an image does is one answer; its memory is in `AddressSpaces` and `PeModules`.
- Heap.Heap.Grow: the frame allocator may refuse at any page, without a reason; payload bytes are not modelled, and `large_alloc` is not part of this model.
- Heap.Heap.Free: a pointer is null or live, as callers must pass; the allocated bit and bad pointers are not diagnosed.
- Pipe.Pipe.Unref: freeing the pipe with its last reference is in `Descriptors`.
- Signals.Task.Deliver: user memory is a store of typed objects at addresses and masks are sets of signal numbers; siginfo, sigaltstack and sigpending are not modelled.
- Signals.Task.SigReturn: validation of rip and rsp on the way out (`syscall_prepare_return`) is not part of this model.
- Sharing.Spaces.Share: allocation failures before the record is counted change nothing and are left out.
- Descriptors.Table.Release: what closing a file, directory or socket does inside the VFS or the network stack is one event.
- PeModules.PeProcess.Discover: an image is abstract (size, base, imports, entry point, whether it relocates); parsing, relocation, export lookup and forwarders are not modelled, and which imports resolve is read off the modules it loaded.
- PeModules.LoadProcess: linking, mapping and the thread block are one answer; modules loaded at run time are visited by the same code later.
- Paths.Files.ResolveAt: bad user pointers, and which error a descriptor that is no directory gives, are left out.
- Display.CopyBatch.Turn: a lane advances row by row, and areas beyond 64 bits are not modelled.
- Checksum.TcpChecksum: TCP options and segment handling are not modelled.
- Hardware: context switches, TLB invalidation, FXSAVE, MSRs and interrupts.
- File systems, sockets, drivers, ELF loading and user space.
- `wait4`, exit records and process groups.
