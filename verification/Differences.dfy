/** Where the memory code does less than its comments promise, shown on runs from
    boot.  Each run ends in the state that the exact condition of the call names. */
module Differences {
  import opened PageTables
  import opened Ownership
  import opened Vmm
  import opened AddressSpaces
  import opened Reservations
  import opened Uvm
  import opened VmRuns
  import BootMemory
  import KernelHalf
  import Pmm

  const READ_WRITE := NO_FLAGS.(present := true, write := true, user := true)
  const SOURCE: nat := 0x1_0000_0000

  // ---- a machine with two processes ------------------------------------------------

  lemma {:induction false} SubsetSize(a: set<nat>, b: set<nat>)
    requires a <= b
    ensures |a| <= |b|
    decreases a
  {
    if a != {} {
      var x :| x in a;
      SubsetSize(a - {x}, b - {x});
    }
  }

  /** A free run bounds the number of free frames. */
  lemma RunCounted(used: set<nat>, frames: nat, s: nat, n: nat)
    requires Pmm.GENERAL_FIRST <= s && s + n <= frames && forall g: nat :: s <= g < s + n ==> g !in used
    ensures Pmm.FreeCount(used, frames) >= n
  {
    SubsetSize(Pmm.Run(s, n), Pmm.FreeSet(used, frames));
  }

  function OneRegion(): seq<BootMemory.MapEntry>
  {
    [BootMemory.MapEntry(Pmm.Region(0x10_0000, 0x400_0000), 1)]
  }

  const KERNEL := Pmm.Region(0x10_0000, 0x10_0000)
  const INFO := Pmm.Region(0x20_0000, 0x1000)

  lemma Placed(highest: nat, bitmap: Pmm.Region)
    requires BootMemory.Highest(OneRegion(), highest) && bitmap.len == (highest / Pmm.FRAME_SIZE + 7) / 8
    requires bitmap.base == 0 || BootMemory.FirstFit(OneRegion(), bitmap.len, BootMemory.LeastPlace(KERNEL, INFO, []), bitmap.base)
    ensures highest == 0x410_0000 && KernelHalf.Loaded(OneRegion(), KERNEL, 256)
    ensures bitmap.base != 0 ==> bitmap == Pmm.Region(0x20_1000, 2080)
    ensures !BootMemory.NoFit(OneRegion(), bitmap.len, BootMemory.LeastPlace(KERNEL, INFO, []))
  {
    assert OneRegion()[0].kind == 1;
    assert highest == 0x410_0000;
    assert BootMemory.LeastPlace(KERNEL, INFO, []) == 0x20_1000;
    assert BootMemory.Fits(OneRegion()[0], 2080, 0x20_1000, 0x20_1000);
  }

  /** 64 MiB above the first, a kernel of 1 MiB, one page of boot information. */
  method Allocator() returns (pmm: Pmm.FrameAllocator)
    ensures fresh(pmm) && fresh(pmm.bitmap) && pmm.Valid() && pmm.frames == 0x4100
    ensures (forall k: nat :: 256 <= k < 264 ==> k in pmm.used) && Pmm.FreeCount(pmm.used, 0x4100) >= 16_000
  {
    hide BootMemory.Highest, BootMemory.FirstFit, BootMemory.FreeIs, BootMemory.NoFit, BootMemory.Needed, BootMemory.LeastPlace,
         Pmm.FreeCount, Pmm.Represents, KernelHalf.Loaded;
    var got, bitmap, highest := BootMemory.Init(OneRegion(), KERNEL, INFO, []);
    Placed(highest, bitmap);
    pmm := got;
    ghost var kept := BootMemory.Kept(KERNEL, bitmap, INFO, []);
    KernelHalf.LoadedUsed(OneRegion(), KERNEL, 256, kept, pmm.used, highest);
    UpperFree(pmm.used, kept);
  }

  method Power() returns (m: Memory)
    ensures fresh(m) && fresh(m.pmm) && fresh(m.pmm.bitmap) && m.Valid()
    ensures KernelReady(m.mem, m.lay, 256) && KernelLow(m.mem, 256) && Pmm.FreeCount(m.pmm.used, m.pmm.frames) >= 10_000
  {
    hide Pmm.FreeCount, Pmm.Represents, SameLeaves, KernelReady, KernelLow, KernelHalf.HalfOk, Owned;
    var pmm := Allocator();
    ghost var used0 := pmm.used;
    var ok, pds := KernelHalf.ExtendDirect(pmm, 0x410_0000);
    assert pds == [];
    assert pmm.used == used0;
    m, ok := KernelHalf.Start(pmm, 256, pds);
    BootLow(256, pds, pmm.frames, m.mem);
  }

  lemma UpperFree(used: set<nat>, kept: seq<Pmm.Region>)
    requires kept == BootMemory.Kept(KERNEL, Pmm.Region(0x20_1000, 2080), INFO, [])
    requires BootMemory.FreeIs(used, 0x4100, OneRegion(), kept)
    ensures Pmm.FreeCount(used, 0x4100) >= 16_000
  {
    forall g: nat | 0x202 <= g < 0x4100
      ensures g !in used
    {
      assert Pmm.EndsIn(g, OneRegion()[0].region);
      assert BootMemory.Usable(OneRegion(), g);
      assert !BootMemory.Touched(kept, g);
    }
    RunCounted(used, 0x4100, 0x202, 0x4100 - 0x202);
  }

  lemma BlankKept(mem: Ram, mem': Ram, lay: Layout, used: set<nat>, frames: nat, root: nat, a: nat)
    requires Owned(mem, lay, used, frames) && IsRoot(lay, root, a) && SameLeaves(mem, mem', lay.lvl) && Blank(mem, root)
    ensures Blank(mem', root)
  {
    RootLevel(mem, lay, used, frames, root, a);
  }

  /** Two processes that have done nothing yet. */
  method Machine() returns (m: Memory, a: TaskVm, b: TaskVm)
    ensures fresh(m) && fresh(m.pmm) && fresh(m.pmm.bitmap) && fresh(a) && fresh(b) && fresh(a.table) && fresh(b.table)
    ensures a.memory == m && b.memory == m && a.Valid() && b.Valid() && a.pml4 != 0 && b.pml4 != 0
    ensures a.space != b.space && a.table != b.table && NewBorn(m.mem, a) && NewBorn(m.mem, b)
    ensures Pmm.FreeCount(m.pmm.used, m.pmm.frames) >= 100
  {
    hide KernelReady, KernelLow, Owned, SpaceOk, SameLeaves, Pmm.FreeCount, Pmm.Represents, Blank;
    m := Power();
    var one := Spawn(m, 256, []);
    a := one[0];
    ghost var mem0, lay0, u0 := m.mem, m.lay, m.pmm.used;
    SpaceParts(mem0, lay0, a.pml4, a.space, a.table.vmas, a.table.holes, a.table.nextVa, a.sound);
    var two := Spawn(m, 256, one);
    b := two[1];
    assert two[0] == a;
    BlankKept(mem0, m.mem, lay0, u0, m.pmm.frames, a.pml4, a.space);
  }

  // ---- the arena hands out one page twice ------------------------------------------

  /** Without reservations every record is free. */
  lemma AllFree(vmas: seq<Vma>)
    requires TableForm(vmas) && forall p: nat, f :: !Reserved(vmas, p, f)
    ensures forall k :: 0 <= k < MAX_VMAS ==> !vmas[k].used
  {
    forall k | 0 <= k < MAX_VMAS
      ensures !vmas[k].used
    {
      assert VmaOk(vmas[k]);
      assert vmas[k].used ==> Reserved(vmas, vmas[k].start, vmas[k].flags);
    }
  }

  lemma NoneReserved(vmas: seq<Vma>)
    requires forall p :: !Taken(vmas, p)
    ensures forall p: nat, f :: !Reserved(vmas, p, f)
  {
    forall p: nat, f | Reserved(vmas, p, f)
      ensures Taken(vmas, p)
    {
    }
  }

  /** The arena of a new process after its first page was released. */
  lemma FirstHole(h0: seq<Hole>, h1: seq<Hole>, next: nat) returns (k: nat)
    requires |h0| == MAX_HOLES && (forall i :: 0 <= i < MAX_HOLES ==> h0[i] == NO_HOLE)
    requires HoleRecorded(h0, h1, MMAP_BASE, PAGE) && ArenaForm(h1, next)
    ensures k < |h1| && h1[k] == Hole(MMAP_BASE, PAGE) && FirstFit(h1, PAGE, k) && !NoFit(h1, PAGE)
    ensures NoFit(h1[k := Hole(MMAP_BASE + PAGE, 0)], PAGE)
  {
    assert h0[0].len == 0;
    assert Storable(h0, MMAP_BASE, PAGE);
    assert forall p :: !InHole(h0, p);
    k := OnlyHole(h1, MMAP_BASE, PAGE);
  }

  lemma PickedHole(h1: seq<Hole>, next: nat, h2: seq<Hole>, next': nat, base: nat, k: nat)
    requires ArenaPick(h1, next, h2, next', PAGE, base) && FirstFit(h1, PAGE, k) && h1[k] == Hole(MMAP_BASE, PAGE)
    ensures base == MMAP_BASE && h2 == h1[k := Hole(MMAP_BASE + PAGE, 0)] && next' == next
  {
    var i: nat :| FirstFit(h1, PAGE, i) && base == h1[i].base && h2 == h1[i := Hole(base + PAGE, h1[i].len - PAGE)];
    assert i == k;
  }

  lemma PickedNext(h: seq<Hole>, next: nat, h': seq<Hole>, next': nat, base: nat)
    requires ArenaPick(h, next, h', next', PAGE, base) && NoFit(h, PAGE)
    ensures base == next
  {
  }

  lemma StillSlot(v0: seq<Vma>, v1: seq<Vma>)
    requires |v0| == MAX_VMAS && SpendsOne(v0, v1) && forall k :: 0 <= k < MAX_VMAS ==> !v0[k].used
    ensures HasSlot(v1)
  {
    var s: nat :| OthersUnused(v0, v1, s);
    assert !v1[if s == 0 then 1 else 0].used;
  }

  /** Releasing the first arena page of a new process, which nothing ever reserved,
      makes two reservations return it. */
  method SamePageTwice() returns (first: nat, second: nat)
    ensures first == second == MMAP_BASE
  {
    hide SpaceOk, Owned, Blank, Pmm.FreeCount, Pmm.Represents, Lookup, Cleared, Conserves, Uvm.Kept, HoleRecorded,
         ArenaPick, Reserved, Taken, ArenaOk,
         Vacant, ClearOfArena, Storable, StrictlyInside, SpendsOne, FirstFit, NoFit, TableForm, ArenaForm;
    var m, a, b := Machine();
    ghost var h0 := a.table.holes;
    NoneReserved(a.table.vmas);
    var ok := a.Release(MMAP_BASE, PAGE);
    SpaceParts(m.mem, m.lay, a.pml4, a.space, a.table.vmas, a.table.holes, a.table.nextVa, a.sound);
    AllFree(a.table.vmas);
    ghost var v1, h1 := a.table.vmas, a.table.holes;
    ghost var k := FirstHole(h0, h1, MMAP_BASE);
    assert !v1[0].used;
    first := a.Reserve(0, PAGE, READ_WRITE, false);
    StillSlot(v1, a.table.vmas);
    PickedHole(h1, MMAP_BASE, a.table.holes, a.table.nextVa, first, k);
    ghost var h2 := a.table.holes;
    second := a.Reserve(0, PAGE, READ_WRITE, false);
    PickedNext(h2, MMAP_BASE, a.table.holes, a.table.nextVa, second);
  }

  // ---- one page of a new process -----------------------------------------------------

  /** A page of a new process can be committed with four frames at hand. */
  lemma BlankPage(mem: Ram, lay: Layout, used: set<nat>, frames: nat, root: nat, a: nat, p: nat)
    requires Owned(mem, lay, used, frames) && IsRoot(lay, root, a) && Blank(mem, root) && GIB <= p < USER_VA_MAX
    ensures Lookup(mem, root, VaSplit(p)) == None && HugeEntry(mem, root, VaSplit(p)) == None
    ensures Translation(mem, root, p) == 0
    ensures Need(mem, root, VaSplit(p)).Some? && Need(mem, root, VaSplit(p)).value <= 3
  {
    RootLevel(mem, lay, used, frames, root, a);
    assert p / 0x80_0000_0000 < 256;
    assert p / 0x80_0000_0000 % 512 == p / 0x80_0000_0000;
    assert p / 0x4000_0000 == p / 0x80_0000_0000 * 512 + p / 0x4000_0000 % 512;
    assert VaSplit(p)[0] < 256 && (VaSplit(p)[0] != 0 || VaSplit(p)[1] != 0);
    NeedHuge(mem, lay.lvl, root, VaSplit(p));
  }

  /** A page reserved once is governed by a record with those permissions. */
  lemma {:induction false} Governed(vmas: seq<Vma>, p: nat, k: nat) returns (v: Vma)
    requires Taken(vmas, p) && k <= |vmas| && forall i :: 0 <= i < k ==> !Covers(vmas[i], p)
    ensures Governs(vmas, p, v) && Reserved(vmas, p, v.flags)
    decreases |vmas| - k
  {
    assert k < |vmas|;
    if Covers(vmas[k], p) {
      v := vmas[k];
    } else {
      v := Governed(vmas, p, k + 1);
    }
  }

  ghost predicate OnlyPageOf(vmas: seq<Vma>, at: nat)
  {
    forall p: nat, f {:trigger Reserved(vmas, p, f)} :: Reserved(vmas, p, f) <==> at <= p < at + PAGE && f == READ_WRITE
  }

  lemma PermitsPage(vmas: seq<Vma>, at: nat, writable: bool)
    requires OnlyPageOf(vmas, at)
    ensures Permits(vmas, at, writable) && !Taken(vmas, at + PAGE)
  {
    assert Reserved(vmas, at, READ_WRITE);
    var v := Governed(vmas, at, 0);
    if Taken(vmas, at + PAGE) {
      var w := Governed(vmas, at + PAGE, 0);
    }
  }

  /** Reserve one page at a fixed place of a new process. */
  method ReservePage(vm: TaskVm, at: nat)
    requires vm.Valid() && vm.pml4 != 0 && NewBorn(vm.memory.mem, vm) && GIB <= at < USER_VA_MAX && at % PAGE == 0
    requires RangeOk(at, PAGE)
    modifies vm.table, vm`sound
    ensures vm.Valid() && OnlyPageOf(vm.table.vmas, at)
  {
    hide SpaceOk, Owned, Blank, VaSplit, Lookup, HugeEntry, Translation, Reserved, Taken, ArenaOk, ArenaPick, Vacant,
         ClearOfArena, SpendsOne, RangeOk,
         Pmm.Represents;
    ghost var m := vm.memory;
    SpaceParts(m.mem, m.lay, vm.pml4, vm.space, vm.table.vmas, vm.table.holes, vm.table.nextVa, vm.sound);
    BlankPage(m.mem, m.lay, m.pmm.used, m.pmm.frames, vm.pml4, vm.space, at);
    NoneReserved(vm.table.vmas);
    assert forall k: nat :: k < PAGE / PAGE ==> at + k * PAGE == at;
    var base := vm.Reserve(at, PAGE, READ_WRITE, true);
    assert base == at;
  }

  // ---- a failed call that changed a page ---------------------------------------------

  lemma ChangedThere(mem: Ram, mem': Ram, lvl: map<nat, nat>, root: nat, vmas: seq<Vma>, at: nat)
    requires Committed(mem, mem', lvl, root, vmas, at, at + 2 * PAGE) && OnlyPageOf(vmas, at)
    requires !SameLeaves(mem, mem', lvl)
    requires at % PAGE == 0 && at < USER_VA_MAX
    ensures Lookup(mem', root, VaSplit(at)).Some?
  {
    var r, q :| r in lvl && lvl[r] == 4 && IsPage(q) &&
                !(Lookup(mem', r, q) == Lookup(mem, r, q) && HugeEntry(mem', r, q) == HugeEntry(mem, r, q));
    assert LazyEntry(Lookup(mem', r, q), vmas, VaJoin(q));
    JoinedPage(q, at);
  }

  lemma JoinedPage(q: seq<nat>, at: nat)
    requires IsPage(q) && at % PAGE == 0 && at <= VaJoin(q) < at + PAGE && at < USER_VA_MAX
    ensures q == VaSplit(at)
  {
    hide VaSplit, VaJoin;
    JoinSplit(q);
    SamePage(VaJoin(q), at);
  }

  lemma SamePage(x: nat, y: nat)
    requires x % PAGE == 0 && y % PAGE == 0 && y <= x < y + PAGE
    ensures x == y
  {
  }

  /** The first page is reserved and the second is not: the call fails after it has
      filled in the first. */
  method ProtectHalfway() returns (m: Memory, a: TaskVm, ok: bool, ghost before: Ram)
    ensures a.memory == m && a.Valid() && !ok
    ensures Lookup(before, a.pml4, VaSplit(SOURCE)).None? && Lookup(m.mem, a.pml4, VaSplit(SOURCE)).Some?
  {
    hide SpaceOk, Owned, Blank, VaSplit, Lookup, HugeEntry, Translation, Reserved, Taken, Committed, CommitThenProtect,
         Conserves, SameLeaves,
         FirstRefused, Refuses, LevelsKept, NewBorn, OnlyPageOf, Need, Pmm.FreeCount, Pmm.Represents;
    var b;
    m, a, b := Machine();
    BornBlankNow(m.mem, a);
    ReservePage(a, SOURCE);
    before := m.mem;
    ghost var lay0, u0, frames, vmas := m.lay, m.pmm.used, m.pmm.frames, a.table.vmas;
    SpaceParts(m.mem, m.lay, a.pml4, a.space, vmas, a.table.holes, a.table.nextVa, a.sound);
    RootLevel(m.mem, m.lay, m.pmm.used, m.pmm.frames, a.pml4, a.space);
    FirstGranted(m.mem, m.lay, u0, frames, a.pml4, a.space, vmas);
    ok := a.Protect(SOURCE, 2 * PAGE, READ_WRITE);
    if ok {
      ProtectedHad(before, lay0.lvl, m.mem, m.lay.lvl, a.pml4, vmas, READ_WRITE, SOURCE, SOURCE + 2 * PAGE,
                   SOURCE + PAGE);
    } else {
      ChangedThere(before, m.mem, lay0.lvl, a.pml4, vmas, SOURCE);
    }
  }

  lemma BornBlankNow(mem: Ram, vm: TaskVm)
    requires NewBorn(mem, vm)
    ensures Blank(mem, vm.pml4)
  {
  }

  lemma FirstIsZero(mem: Ram, root: nat, at: nat, k: nat, writable: bool)
    requires !Usable(Lookup(mem, root, VaSplit(at)), writable)
    ensures FirstAt(mem, root, at, k, writable) ==> k == 0
  {
    assert !Usable(Lookup(mem, root, VaSplit(at + 0 * PAGE)), writable);
  }

  lemma FirstGranted(mem: Ram, lay: Layout, used: set<nat>, frames: nat, root: nat, a: nat, vmas: seq<Vma>)
    requires Owned(mem, lay, used, frames) && IsRoot(lay, root, a) && Blank(mem, root) && OnlyPageOf(vmas, SOURCE)
    requires Pmm.FreeCount(used, frames) >= 4
    ensures !FirstRefused(mem, used, frames, vmas, root, SOURCE, 2, false)
    ensures Lookup(mem, root, VaSplit(SOURCE)).None? && Lookup(mem, root, VaSplit(SOURCE + PAGE)).None?
    ensures !Taken(vmas, SOURCE + PAGE)
  {
    hide Blank, VaSplit, Lookup, HugeEntry, Need, Pmm.FreeCount, Owned, OnlyPageOf;
    BlankPage(mem, lay, used, frames, root, a, SOURCE);
    BlankPage(mem, lay, used, frames, root, a, SOURCE + PAGE);
    PermitsPage(vmas, SOURCE, false);
    hide Permits;
    assert !Refuses(mem, used, frames, vmas, root, SOURCE, false);
    forall k: nat
      ensures FirstAt(mem, root, SOURCE, k, false) ==> k == 0
    {
      FirstIsZero(mem, root, SOURCE, k, false);
    }
  }

  // ---- sharing ------------------------------------------------------------------------

  ghost predicate Private(mem: Ram, root: nat, at: nat)
  {
    Lookup(mem, root, VaSplit(at)).Some? && !Lookup(mem, root, VaSplit(at)).value.bits.shared
  }

  lemma LeavesAt(mem: Ram, mem': Ram, lvl: map<nat, nat>, root: nat, at: nat)
    requires SameLeaves(mem, mem', lvl) && root in lvl && lvl[root] == 4
    ensures Lookup(mem', root, VaSplit(at)) == Lookup(mem, root, VaSplit(at))
  {
  }

  lemma FilledIn(mem: Ram, mem': Ram, lvl: map<nat, nat>, root: nat, vmas: seq<Vma>, at: nat)
    requires Faulted(mem, mem', lvl, root, vmas, at) && OnlyPageOf(vmas, at) && root in lvl && lvl[root] == 4
    requires Lookup(mem, root, VaSplit(at)).None? && Lookup(mem', root, VaSplit(at)).Some?
    ensures Private(mem', root, at) && OthersSame(mem, mem', lvl, root)
  {
    FaultedOthers(mem, mem', lvl, root, vmas, at);
    hide VaSplit, OthersSame;
    if SameLeaves(mem, mem', lvl) {
      LeavesAt(mem, mem', lvl, root, at);
      assert false;
    }
    var f: nat, flags :| Fresh(mem, mem', lvl, root, vmas, at, f, flags);
    FreshEntry(mem, mem', lvl, root, vmas, at, f, flags);
    assert flags == READ_WRITE;
  }

  /** A new process reserves one page and touches it. */
  method TouchPage(vm: TaskVm, at: nat)
    requires vm.Valid() && vm.pml4 != 0 && NewBorn(vm.memory.mem, vm) && GIB <= at < USER_VA_MAX && at % PAGE == 0
    requires RangeOk(at, PAGE)
    requires Pmm.FreeCount(vm.memory.pmm.used, vm.memory.pmm.frames) >= 4
    modifies vm.memory, vm.memory.pmm, vm.memory.pmm.bitmap, vm.table, vm`sound
    ensures vm.Valid() && Private(vm.memory.mem, vm.pml4, at) && OnlyPageOf(vm.table.vmas, at)
    ensures Effect(old(vm.memory.mem), old(vm.memory.lay), old(vm.memory.pmm.used),
                   vm.memory.mem, vm.memory.lay, vm.memory.pmm.used, vm.pml4, vm.space, true)
    ensures Pmm.FreeCount(vm.memory.pmm.used, vm.memory.pmm.frames) >= Pmm.FreeCount(old(vm.memory.pmm.used), vm.memory.pmm.frames) - 4
  {
    hide SpaceOk, Owned, Blank, VaSplit, Lookup, HugeEntry, Translation, Faulted, Conserves, SameLeaves, Refuses,
         Permits, Usable, LevelsKept, NewBorn,
         OnlyPageOf, Need, RangeOk, Effect, OthersSame, Private, Pmm.FreeCount, Pmm.Represents;
    BornBlankNow(vm.memory.mem, vm);
    ReservePage(vm, at);
    var m := vm.memory;
    ghost var mem0, lay0, u0, frames, vmas := m.mem, m.lay, m.pmm.used, m.pmm.frames, vm.table.vmas;
    SpaceParts(mem0, lay0, vm.pml4, vm.space, vmas, vm.table.holes, vm.table.nextVa, vm.sound);
    RootLevel(mem0, lay0, u0, frames, vm.pml4, vm.space);
    BlankPage(mem0, lay0, u0, frames, vm.pml4, vm.space, at);
    Granted(mem0, u0, frames, vm.pml4, vmas, at);
    var r := vm.FaultIn(at, true);
    UsableThere(Lookup(m.mem, vm.pml4, VaSplit(at)));
    FilledIn(mem0, m.mem, lay0.lvl, vm.pml4, vmas, at);
    Conserved(mem0, lay0, u0, m.mem, m.lay, m.pmm.used, vm.pml4, vm.space);
  }

  lemma UsableThere(e: Option<Entry>)
    requires Usable(e, true)
    ensures e.Some?
  {
  }

  lemma Granted(mem: Ram, used: set<nat>, frames: nat, root: nat, vmas: seq<Vma>, at: nat)
    requires OnlyPageOf(vmas, at) && Lookup(mem, root, VaSplit(at)).None? && Pmm.FreeCount(used, frames) >= 4
    requires Need(mem, root, VaSplit(at)).Some? && Need(mem, root, VaSplit(at)).value <= 3
    ensures !Refuses(mem, used, frames, vmas, root, at, true)
  {
    hide VaSplit, Lookup, Need, Pmm.FreeCount, OnlyPageOf;
    PermitsPage(vmas, at, true);
  }

  /** The other process after a page of this one was touched. */
  lemma OtherBorn(mem0: Ram, lay0: Layout, u0: set<nat>, mem1: Ram, lay1: Layout, u1: set<nat>, frames: nat, root: nat,
                  a: nat, other: TaskVm)
    requires Owned(mem0, lay0, u0, frames) && Owned(mem1, lay1, u1, frames)
    requires Effect(mem0, lay0, u0, mem1, lay1, u1, root, a, true)
    requires IsRoot(lay0, root, a) && other.space != a && NewBorn(mem0, other)
    requires SpaceOk(mem0, lay0, other.pml4, other.space, other.table.vmas, other.table.holes, other.table.nextVa,
                     other.sound)
    ensures SpaceOk(mem1, lay1, other.pml4, other.space, other.table.vmas, other.table.holes, other.table.nextVa,
                    other.sound)
    ensures NewBorn(mem1, other)
  {
    OtherSpace(mem0, lay0, u0, mem1, lay1, u1, frames, root, a, true,
               other.pml4, other.space, other.table.vmas, other.table.holes, other.table.nextVa, other.sound);
    SpaceParts(mem0, lay0, other.pml4, other.space, other.table.vmas, other.table.holes, other.table.nextVa,
               other.sound);
    RootLevel(mem0, lay0, u0, frames, other.pml4, other.space);
    OtherReads(mem0, mem1, lay0.lvl, root, other.pml4);
  }

  /** Two processes; the first has touched SOURCE. */
  method Lender() returns (m: Memory, a: TaskVm, b: TaskVm)
    ensures fresh(m) && fresh(m.pmm) && fresh(m.pmm.bitmap) && fresh(a) && fresh(b) && fresh(a.table) && fresh(b.table)
    ensures a.memory == m && b.memory == m && a.Valid() && b.Valid() && a.pml4 != 0 && b.pml4 != 0 && a != b
    ensures a.space != b.space && a.table != b.table && NewBorn(m.mem, b) && Private(m.mem, a.pml4, SOURCE)
    ensures OnlyPageOf(a.table.vmas, SOURCE)
    ensures Pmm.FreeCount(m.pmm.used, m.pmm.frames) >= 90
  {
    hide SpaceOk, Owned, NewBorn, OnlyPageOf, Effect, Private, RangeOk, Pmm.FreeCount, Pmm.Represents;
    m, a, b := Machine();
    ghost var mem0, lay0, u0 := m.mem, m.lay, m.pmm.used;
    SpaceParts(mem0, lay0, a.pml4, a.space, a.table.vmas, a.table.holes, a.table.nextVa, a.sound);
    SourceOk();
    TouchPage(a, SOURCE);
    OtherBorn(mem0, lay0, u0, m.mem, m.lay, m.pmm.used, m.pmm.frames, a.pml4, a.space, b);
  }

  lemma SourceOk()
    ensures RangeOk(SOURCE, PAGE) && RangeOk(SHMEM_BASE, PAGE)
  {
  }

  /** No record reaches beyond the only page. */
  lemma NotInside(vmas: seq<Vma>, at: nat)
    requires TableForm(vmas) && OnlyPageOf(vmas, at)
    ensures forall k :: 0 <= k < MAX_VMAS ==> !StrictlyInside(vmas[k], at, at + PAGE)
  {
    forall k | 0 <= k < MAX_VMAS
      ensures !StrictlyInside(vmas[k], at, at + PAGE)
    {
      assert VmaOk(vmas[k]);
      assert vmas[k].used ==> Reserved(vmas, vmas[k].start, vmas[k].flags);
    }
  }

  /** The lender releases a page it has lent: the receiver still maps its frame, and
      the allocator may give that frame to anyone. */
  method FreedUnderReceiver() returns (m: Memory, b: TaskVm)
    ensures b.memory == m && m.Valid() && Lookup(m.mem, b.pml4, VaSplit(SHMEM_BASE)).Some?
    ensures Lookup(m.mem, b.pml4, VaSplit(SHMEM_BASE)).value.frame !in m.pmm.used
  {
    hide SpaceOk, Owned, NewBorn, OnlyPageOf, Blank, VaSplit, Lookup, HugeEntry, Translation, RangeOk, Need,
         StrictlyInside, TableForm,
         Pmm.FreeCount, Pmm.Represents;
    var a;
    m, a, b := Lender();
    SpaceParts(m.mem, m.lay, a.pml4, a.space, a.table.vmas, a.table.holes, a.table.nextVa, a.sound);
    SpaceParts(m.mem, m.lay, b.pml4, b.space, b.table.vmas, b.table.holes, b.table.nextVa, b.sound);
    BornBlankNow(m.mem, b);
    BlankPage(m.mem, m.lay, m.pmm.used, m.pmm.frames, b.pml4, b.space, SHMEM_BASE);
    NotInside(a.table.vmas, SOURCE);
    SourceOk();
    var ok := a.LendThenRelease(SOURCE, b.pml4, SHMEM_BASE, b.space);
  }

  /** The lender is reaped while its page is lent: the receiver maps a free frame. */
  method ReapedUnderReceiver() returns (m: Memory, b: TaskVm)
    ensures b.memory == m && m.Valid() && Lookup(m.mem, b.pml4, VaSplit(SHMEM_BASE)).Some?
    ensures Lookup(m.mem, b.pml4, VaSplit(SHMEM_BASE)).value.frame !in m.pmm.used
  {
    hide SpaceOk, Owned, NewBorn, OnlyPageOf, Blank, VaSplit, Lookup, HugeEntry, Translation, RangeOk, Need, TableForm,
         MapsOnePage, SameLeaves, Private,
         Effect, Frames, LevelsKept, Conserves, Replaced, Borrowable, Pmm.FreeCount, Pmm.Represents;
    var a;
    m, a, b := Lender();
    ghost var mem0, lay0, u0, frames := m.mem, m.lay, m.pmm.used, m.pmm.frames;
    SpaceParts(mem0, lay0, a.pml4, a.space, a.table.vmas, a.table.holes, a.table.nextVa, a.sound);
    SpaceParts(mem0, lay0, b.pml4, b.space, b.table.vmas, b.table.holes, b.table.nextVa, b.sound);
    RootLevel(mem0, lay0, u0, frames, a.pml4, a.space);
    RootLevel(mem0, lay0, u0, frames, b.pml4, b.space);
    BornBlankNow(mem0, b);
    BlankPage(mem0, lay0, u0, frames, b.pml4, b.space, SHMEM_BASE);
    MappedPage(mem0, lay0, u0, frames, a.pml4, a.space, a.table.vmas, a.table.holes, a.table.nextVa, a.sound, SOURCE);
    var ok := a.Lend(SOURCE, b.pml4, SHMEM_BASE, b.space);
    Lent(mem0, m.mem, lay0.lvl, a.pml4, b.pml4, SOURCE, SHMEM_BASE);
    StillPrivate(mem0, m.mem, a.pml4, SOURCE);
    MappedPage(m.mem, m.lay, m.pmm.used, frames, a.pml4, a.space, a.table.vmas, a.table.holes, a.table.nextVa, a.sound,
               SOURCE);
    OwnFrame(m.lay, a.space, Lookup(m.mem, a.pml4, VaSplit(SOURCE)).value.frame);
    ExitProcess(a);
  }

  lemma StillPrivate(mem: Ram, mem': Ram, root: nat, at: nat)
    requires Private(mem, root, at) && Lookup(mem', root, VaSplit(at)) == Lookup(mem, root, VaSplit(at))
    ensures Private(mem', root, at)
  {
  }

  lemma OwnFrame(lay: Layout, a: nat, f: nat)
    requires f in lay.own && lay.own[f].space == a
    ensures f in Frames(lay, a)
  {
  }

  lemma OtherPrivate(mem0: Ram, lay0: Layout, u0: set<nat>, mem1: Ram, lay1: Layout, u1: set<nat>, frames: nat,
                     root: nat, a: nat,
                     other: nat, b: nat, at: nat)
    requires Owned(mem0, lay0, u0, frames) && Effect(mem0, lay0, u0, mem1, lay1, u1, root, a, true)
    requires IsRoot(lay0, root, a) && IsRoot(lay0, other, b) && a != b && Private(mem0, other, at)
    ensures Private(mem1, other, at)
  {
    RootLevel(mem0, lay0, u0, frames, other, b);
    OtherReads(mem0, mem1, lay0.lvl, root, other);
    hide VaSplit, Lookup, HugeEntry, OthersSame;
    assert HugeEntry(mem1, other, VaSplit(at)) == HugeEntry(mem0, other, VaSplit(at));
  }

  /** A mapped page needs no table, and its address can be shared. */
  lemma MappedPage(mem: Ram, lay: Layout, used: set<nat>, frames: nat, root: nat, a: nat, vmas: seq<Vma>,
                   holes: seq<Hole>, next: nat, sound: bool, at: nat)
    requires Owned(mem, lay, used, frames) && frames <= MAX_FRAMES
    requires SpaceOk(mem, lay, root, a, vmas, holes, next, sound)
    requires Private(mem, root, at) && at % PAGE == 0 && GIB <= at < USER_VA_MAX
    ensures 0 < Translation(mem, root, at) < 0x8000_0000_0000 && Affordable(mem, used, frames, root, VaSplit(at))
    ensures Lookup(mem, root, VaSplit(at)).Some?
    ensures var f := Lookup(mem, root, VaSplit(at)).value.frame;
            Replaced(mem, root, at) == {f} && !Borrowable(mem, root, at) && f in lay.own && lay.own[f].space == a
  {
    PrivateAddress(mem, lay, used, frames, root, a, vmas, holes, next, sound, at);
    PresentUser(mem, lay, root, a, at);
    PageSlot(mem, lay, used, frames, root, a, VaSplit(at));
    RootLevel(mem, lay, used, frames, root, a);
    NeedHuge(mem, lay.lvl, root, VaSplit(at));
    assert SlotOK(mem, lay, Slot(a, VaSplit(at)));
    hide VaSplit, Need, HugeEntry;
  }

  lemma NobodyOwns(lay0: Layout, lay1: Layout, u0: set<nat>, u1: set<nat>, b: nat, lost: nat)
    requires (forall c :: c != b ==> Frames(lay1, c) == Frames(lay0, c))
    requires u1 - Frames(lay1, b) == u0 - Frames(lay0, b) + {lost}
    requires lost in lay0.own && lay0.own[lost].space == b
    ensures lost in Unheld(lay1, u1)
  {
    assert lost in u1 - Frames(lay1, b);
    assert lost in lay1.own ==> lost in Frames(lay1, lay1.own[lost].space);
    assert forall c :: c != b ==> lost !in Frames(lay0, c);
  }

  /** The receiver had a private page where the share lands: its frame stays allocated,
      even after both processes have exited. */
  method FrameLost() returns (m: Memory, a: TaskVm, b: TaskVm, ghost lost: nat)
    ensures a.memory == m && b.memory == m && m.Valid() && a.pml4 == 0 && b.pml4 == 0
    ensures lost in m.pmm.used && lost !in m.lay.own
  {
    m, a, b, lost := CoverPrivate();
    hide SpaceOk, Owned, Effect, Frames, Unheld, Pmm.Represents;
    ghost var mem0, lay0, u0, frames := m.mem, m.lay, m.pmm.used, m.pmm.frames;
    ghost var root := a.pml4;
    SpaceParts(mem0, lay0, root, a.space, a.table.vmas, a.table.holes, a.table.nextVa, a.sound);
    ExitProcess(a);
    EffectUnheld(mem0, lay0, u0, m.mem, m.lay, m.pmm.used, root, a.space, true);
    OtherSpace(mem0, lay0, u0, m.mem, m.lay, m.pmm.used, frames, root, a.space, true,
               b.pml4, b.space, b.table.vmas, b.table.holes, b.table.nextVa, b.sound);
    ghost var mem1, lay1, u1, root1 := m.mem, m.lay, m.pmm.used, b.pml4;
    ExitProcess(b);
    EffectUnheld(mem1, lay1, u1, m.mem, m.lay, m.pmm.used, root1, b.space, true);
    assert lost in Unheld(m.lay, m.pmm.used);
    UnheldMeans(m.lay, m.pmm.used, lost);
  }

  lemma UnheldMeans(lay: Layout, used: set<nat>, f: nat)
    requires f in Unheld(lay, used)
    ensures f in used && f !in lay.own
  {
  }

  /** The share itself. */
  method CoverPrivate() returns (m: Memory, a: TaskVm, b: TaskVm, ghost lost: nat)
    ensures fresh(m) && fresh(m.pmm) && fresh(m.pmm.bitmap) && fresh(a) && fresh(b)
    ensures a.memory == m && b.memory == m && a.Valid() && b.Valid() && a.pml4 != 0 && b.pml4 != 0 && a != b
    ensures a.space != b.space
    ensures lost in Unheld(m.lay, m.pmm.used)
  {
    hide SpaceOk, Owned, NewBorn, OnlyPageOf, VaSplit, Lookup, Translation, RangeOk, Effect, Frames, Private,
         Borrowable, Affordable, Conserves,
         Replaced, MapsOnePage, SameLeaves, LevelsKept, Unheld, Pmm.FreeCount, Pmm.Represents;
    m, a, b := Lender();
    SourceOk();
    ghost var mem0, lay0, u0, frames := m.mem, m.lay, m.pmm.used, m.pmm.frames;
    SpaceParts(mem0, lay0, b.pml4, b.space, b.table.vmas, b.table.holes, b.table.nextVa, b.sound);
    SpaceParts(mem0, lay0, a.pml4, a.space, a.table.vmas, a.table.holes, a.table.nextVa, a.sound);
    TouchPage(b, SHMEM_BASE);
    ghost var mem1, lay1, u1 := m.mem, m.lay, m.pmm.used;
    OtherSpace(mem0, lay0, u0, mem1, lay1, u1, frames, b.pml4, b.space, true,
               a.pml4, a.space, a.table.vmas, a.table.holes, a.table.nextVa, a.sound);
    OtherPrivate(mem0, lay0, u0, mem1, lay1, u1, frames, b.pml4, b.space, a.pml4, a.space, SOURCE);
    SpaceParts(mem1, lay1, b.pml4, b.space, b.table.vmas, b.table.holes, b.table.nextVa, b.sound);
    MappedPage(mem1, lay1, u1, frames, a.pml4, a.space, a.table.vmas, a.table.holes, a.table.nextVa, a.sound, SOURCE);
    MappedPage(mem1, lay1, u1, frames, b.pml4, b.space, b.table.vmas, b.table.holes, b.table.nextVa, b.sound,
               SHMEM_BASE);
    lost := Lookup(mem1, b.pml4, VaSplit(SHMEM_BASE)).value.frame;
    var ok := a.Lend(SOURCE, b.pml4, SHMEM_BASE, b.space);
    BorrowerKept(mem1, lay1, u1, m.mem, m.lay, frames, b.pml4, b.space, b.table.vmas, b.table.holes, b.table.nextVa,
                 b.sound, SHMEM_BASE,
                 MapEntry(Translation(mem1, a.pml4, SOURCE), SHARE_FLAGS), ok);
    NobodyOwns(lay1, m.lay, u1, m.pmm.used, b.space, lost);
  }
}
