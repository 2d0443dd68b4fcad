/** Any interleaving of address-space calls by any number of processes over one
    physical memory (kernel/memory/uvm.c, kernel/arch/syscall.c). */
module VmRuns {
  import opened PageTables
  import opened Ownership
  import opened Vmm
  import opened AddressSpaces
  import opened Reservations
  import opened Uvm
  import BootMemory
  import KernelHalf
  import Pmm

  datatype Op =
    | Reserve(who: nat, addr: nat, bytes: nat, flags: Flags, fixed: bool)
    | Fault(who: nat, addr: nat, writable: bool)
    | CheckBuffer(who: nat, addr: nat, bytes: nat, writable: bool)
    | Protect(who: nat, addr: nat, bytes: nat, flags: Flags)
    | Release(who: nat, addr: nat, bytes: nat)
    | Discard(who: nat, addr: nat, bytes: nat)
    | Share(who: nat, addr: nat, to: nat, target: nat)
    | Unshare(who: nat, addr: nat)
    | LowElf(who: nat)
    | Exit(who: nat)

  // ---- what one call of one process does to the others ---------------------------

  /** Only space a changed: every other space reads and owns as before, and no frame
      outside a was taken or freed.  `exact`: none was lost by a either. */
  ghost predicate Effect(mem0: Ram, lay0: Layout, u0: set<nat>, mem1: Ram, lay1: Layout, u1: set<nat>, root: nat,
                         a: nat, exact: bool)
  {
    && OthersSame(mem0, mem1, lay0.lvl, root) && LevelsElse(lay0, lay1, a)
    && (forall b :: b != a ==> (b in lay1.priv <==> b in lay0.priv))
    && (forall b :: b != a ==> Frames(lay1, b) == Frames(lay0, b))
    && u0 - Frames(lay0, a) <= u1 - Frames(lay1, a)
    && (exact ==> u1 - Frames(lay1, a) == u0 - Frames(lay0, a))
  }

  ghost predicate LevelsElse(lay0: Layout, lay1: Layout, a: nat)
  {
    forall f :: f in lay0.lvl && f !in Frames(lay0, a) ==> f in lay1.lvl && lay1.lvl[f] == lay0.lvl[f]
  }

  lemma NoEffect(mem: Ram, lay: Layout, used: set<nat>, root: nat, a: nat)
    ensures Effect(mem, lay, used, mem, lay, used, root, a, true)
  {
  }

  lemma Conserved(mem0: Ram, lay0: Layout, u0: set<nat>, mem1: Ram, lay1: Layout, u1: set<nat>, root: nat, a: nat)
    requires OthersSame(mem0, mem1, lay0.lvl, root) && LevelsKept(lay0.lvl, lay1.lvl) && lay1.priv == lay0.priv
    requires Conserves(lay0, u0, lay1, u1, a)
    ensures Effect(mem0, lay0, u0, mem1, lay1, u1, root, a, true)
  {
    hide OthersSame, Frames;
  }

  lemma FaultedOthers(mem: Ram, mem': Ram, lvl: map<nat, nat>, root: nat, vmas: seq<Vma>, page: nat)
    requires Faulted(mem, mem', lvl, root, vmas, page)
    ensures OthersSame(mem, mem', lvl, root)
  {
  }

  lemma ClearedOthers(mem: Ram, mem': Ram, lvl: map<nat, nat>, root: nat, lo: nat, hi: nat)
    requires Cleared(mem, mem', lvl, root, lo, hi)
    ensures OthersSame(mem, mem', lvl, root)
  {
  }

  lemma CommittedOthers(mem: Ram, mem': Ram, lvl: map<nat, nat>, root: nat, vmas: seq<Vma>, lo: nat, hi: nat)
    requires Committed(mem, mem', lvl, root, vmas, lo, hi)
    ensures OthersSame(mem, mem', lvl, root)
  {
  }

  lemma ProtectedOthers(mem0: Ram, lvl0: map<nat, nat>, mem1: Ram, lvl1: map<nat, nat>, root: nat, vmas: seq<Vma>,
                        flags: Flags, lo: nat, hi: nat)
    requires CommitThenProtect(mem0, lvl0, mem1, lvl1, root, vmas, flags, lo, hi) && LevelsKept(lvl0, lvl1)
    ensures OthersSame(mem0, mem1, lvl0, root)
  {
    var mid: Ram :| Committed(mem0, mid, lvl0, root, vmas, lo, hi) && Repermissioned(mid, mem1, lvl1, root, flags, lo, hi);
    CommittedOthers(mem0, mid, lvl0, root, vmas, lo, hi);
    assert OthersSame(mid, mem1, lvl1, root);
    OthersTrans(mem0, mid, mem1, lvl0, lvl1, root);
  }

  /** A call of space a keeps the invariant of every other space. */
  lemma OtherSpace(mem0: Ram, lay0: Layout, u0: set<nat>, mem1: Ram, lay1: Layout, u1: set<nat>, frames: nat, root: nat,
                   a: nat, exact: bool,
                   other: nat, b: nat, vmas: seq<Vma>, holes: seq<Hole>, next: nat, sound: bool)
    requires Owned(mem0, lay0, u0, frames) && Owned(mem1, lay1, u1, frames)
    requires Effect(mem0, lay0, u0, mem1, lay1, u1, root, a, exact)
    requires (root in lay0.own ==> lay0.own[root].space == a) && b != a
    requires SpaceOk(mem0, lay0, other, b, vmas, holes, next, sound)
    ensures SpaceOk(mem1, lay1, other, b, vmas, holes, next, sound)
  {
    hide Owned, SpaceOk, OthersSame;
    SpaceParts(mem0, lay0, other, b, vmas, holes, next, sound);
    RootLevel(mem0, lay0, u0, frames, other, b);
    assert other in Frames(lay0, b) && other in Frames(lay1, b);
    RootSlot(mem1, lay1, u1, frames, other);
    OtherReads(mem0, mem1, lay0.lvl, root, other);
    SpaceSame(mem0, lay0, mem1, lay1, other, b, vmas, holes, next, sound);
  }

  /** Frames that are allocated and belong to no process. */
  ghost function Unheld(lay: Layout, used: set<nat>): set<nat>
  {
    used - lay.own.Keys
  }

  lemma EffectUnheld(mem0: Ram, lay0: Layout, u0: set<nat>, mem1: Ram, lay1: Layout, u1: set<nat>, root: nat, a: nat,
                     exact: bool)
    requires Effect(mem0, lay0, u0, mem1, lay1, u1, root, a, exact)
    ensures Unheld(lay0, u0) <= Unheld(lay1, u1)
    ensures exact ==> Unheld(lay1, u1) == Unheld(lay0, u0)
  {
    hide OthersSame, LevelsElse;
    forall f
      ensures f in Unheld(lay0, u0) ==> f in Unheld(lay1, u1)
      ensures exact && f in Unheld(lay1, u1) ==> f in Unheld(lay0, u0)
    {
      assert f in lay1.own ==> f in Frames(lay1, lay1.own[f].space);
      assert f in lay0.own ==> f in Frames(lay0, lay0.own[f].space);
      assert f in u0 - Frames(lay0, a) ==> f in u1 - Frames(lay1, a);
      assert exact && f in u1 - Frames(lay1, a) ==> f in u0 - Frames(lay0, a);
      assert forall b :: b != a ==> (f in Frames(lay1, b) <==> f in Frames(lay0, b));
    }
  }

  lemma OtherReads(mem0: Ram, mem1: Ram, lvl: map<nat, nat>, root: nat, other: nat)
    requires OthersSame(mem0, mem1, lvl, root) && other in lvl && lvl[other] == 4 && other != root
    ensures forall q {:trigger Lookup(mem1, other, q)} {:trigger HugeEntry(mem1, other, q)} :: IsPage(q) ==>
              Lookup(mem1, other, q) == Lookup(mem0, other, q) && HugeEntry(mem1, other, q) == HugeEntry(mem0, other, q)
  {
  }

  // ---- one call ------------------------------------------------------------------

  /** Arguments are 64-bit, and callers cannot ask for a borrowed page. */
  predicate WellFormed(op: Op)
  {
    match op
    case Reserve(_, addr, bytes, flags, _) => addr < U64 && bytes < U64 && !flags.shared
    case Protect(_, addr, bytes, flags) => addr < U64 && bytes < U64 && !flags.shared
    case CheckBuffer(_, addr, bytes, _) => addr < U64 && bytes < U64
    case Release(_, addr, bytes) => addr < U64 && bytes < U64
    case Discard(_, addr, bytes) => addr < U64 && bytes < U64
    case Fault(_, _, _) => true
    case Share(_, _, _, _) => true
    case Unshare(_, _) => true
    case LowElf(_) => true
    case Exit(_) => true
  }

  /** A call of one process on its own space. */
  method Act(vm: TaskVm, op: Op)
    requires vm.Valid() && vm.pml4 != 0 && !op.Share? && !op.Unshare? && !op.LowElf? && !op.Exit? && WellFormed(op)
    modifies vm.memory, vm.memory.pmm, vm.memory.pmm.bitmap, vm.table, vm`sound
    ensures vm.Valid()
    ensures Effect(old(vm.memory.mem), old(vm.memory.lay), old(vm.memory.pmm.used),
                   vm.memory.mem, vm.memory.lay, vm.memory.pmm.used, vm.pml4, vm.space, true)
  {
    hide Owned, SpaceOk, Effect, OthersSame, LevelsKept, Conserves, Frames, Faulted, Cleared, Committed,
         CommitThenProtect, Kept, Refuses,
         FirstRefused, HasRoom, HasSlot, ClearOfArena, ArenaPick, HoleRecorded, Usable, Vacant, Lookup, VaSplit,
             Reserved, Taken, ArenaOk,
         ArenaAbove, Storable, StrictlyInside, Discardable, BufferInRange, PageIn, RangeOk, Pmm.Represents;
    ghost var mem0, lay0, u0, root := vm.memory.mem, vm.memory.lay, vm.memory.pmm.used, vm.pml4;
    NoEffect(mem0, lay0, u0, root, vm.space);
    match op {
      case Reserve(_, addr, bytes, flags, fixed) =>
        var _ := vm.Reserve(addr, bytes, flags, fixed);
      case Fault(_, addr, writable) =>
        var _ := vm.FaultIn(addr, writable);
        FaultedOthers(mem0, vm.memory.mem, lay0.lvl, root, vm.table.vmas, addr - addr % PAGE);
        Conserved(mem0, lay0, u0, vm.memory.mem, vm.memory.lay, vm.memory.pmm.used, root, vm.space);
      case CheckBuffer(_, addr, bytes, writable) =>
        var _ := vm.BufferOk(addr, bytes, writable);
        CommittedOthers(mem0, vm.memory.mem, lay0.lvl, root, vm.table.vmas, addr - addr % PAGE, addr + bytes);
        Conserved(mem0, lay0, u0, vm.memory.mem, vm.memory.lay, vm.memory.pmm.used, root, vm.space);
      case Protect(_, addr, bytes, flags) =>
        var ok := vm.Protect(addr, bytes, flags);
        if ok {
          ProtectedOthers(mem0, lay0.lvl, vm.memory.mem, vm.memory.lay.lvl, root, vm.table.vmas, flags, addr,
                          addr + bytes);
        } else {
          CommittedOthers(mem0, vm.memory.mem, lay0.lvl, root, vm.table.vmas, addr, addr + bytes);
        }
        Conserved(mem0, lay0, u0, vm.memory.mem, vm.memory.lay, vm.memory.pmm.used, root, vm.space);
      case Release(_, addr, bytes) =>
        var ok := vm.Release(addr, bytes);
        if ok {
          ClearedEffect(mem0, lay0, u0, vm.memory.mem, vm.memory.lay, vm.memory.pmm.used, root, vm.space, addr,
                        addr + bytes);
        }
      case Discard(_, addr, bytes) =>
        var ok := vm.Discard(addr, bytes);
        if ok {
          ClearedEffect(mem0, lay0, u0, vm.memory.mem, vm.memory.lay, vm.memory.pmm.used, root, vm.space, addr,
                        addr + bytes);
        }
    }
  }

  lemma ClearedEffect(mem0: Ram, lay0: Layout, u0: set<nat>, mem1: Ram, lay1: Layout, u1: set<nat>, root: nat, a: nat,
                      lo: nat, hi: nat)
    requires Cleared(mem0, mem1, lay1.lvl, root, lo, hi) && lay1.lvl == lay0.lvl && lay1.priv == lay0.priv
    requires Conserves(lay0, u0, lay1, u1, a)
    ensures Effect(mem0, lay0, u0, mem1, lay1, u1, root, a, true)
  {
    ClearedOthers(mem0, mem1, lay0.lvl, root, lo, hi);
    Conserved(mem0, lay0, u0, mem1, lay1, u1, root, a);
  }

  /** The receiving side of one lent page. */
  lemma BorrowerKept(mem0: Ram, lay0: Layout, u0: set<nat>, mem1: Ram, lay1: Layout, frames: nat, root: nat, b: nat,
                     vmas: seq<Vma>, holes: seq<Hole>, next: nat, sound: bool, target: nat, e: Entry, ok: bool)
    requires Owned(mem0, lay0, u0, frames) && SpaceOk(mem0, lay0, root, b, vmas, holes, next, sound)
    requires IsRoot(lay1, root, b) && lay1.priv == lay0.priv && target % PAGE == 0 && SHMEM_BASE <= target < USER_VA_MAX
    requires if ok then MapsOnePage(mem0, mem1, lay0.lvl, root, VaSplit(target), e)
        else SameLeaves(mem0, mem1, lay0.lvl)
    ensures SpaceOk(mem1, lay1, root, b, vmas, holes, next, sound) && OthersSame(mem0, mem1, lay0.lvl, root)
  {
    hide Owned, SpaceOk;
    SpaceParts(mem0, lay0, root, b, vmas, holes, next, sound);
    RootLevel(mem0, lay0, u0, frames, root, b);
    if ok {
      SpaceKept(mem0, lay0, mem1, lay1, root, b, vmas, holes, next, sound, target, e);
    } else {
      SpaceSame(mem0, lay0, mem1, lay1, root, b, vmas, holes, next, sound);
    }
  }

  lemma LentEffect(mem0: Ram, lay0: Layout, u0: set<nat>, mem1: Ram, lay1: Layout, u1: set<nat>, root: nat, b: nat,
                   lost: set<nat>, exact: bool)
    requires OthersSame(mem0, mem1, lay0.lvl, root) && LevelsKept(lay0.lvl, lay1.lvl) && lay1.priv == lay0.priv
    requires forall c :: c != b ==> Frames(lay1, c) == Frames(lay0, c)
    requires u1 - Frames(lay1, b) == u0 - Frames(lay0, b) + lost && (exact ==> Conserves(lay0, u0, lay1, u1, b))
    ensures Effect(mem0, lay0, u0, mem1, lay1, u1, root, b, exact)
  {
    hide OthersSame, Frames;
  }

  /** One page of sys_shmem_share, aimed at the receiver's share area; the receiver
      may be the caller.  A frame is lost exactly when a private page is covered. */
  method Lend(vm: TaskVm, to: TaskVm, src: nat, target: nat)
    requires vm.Valid() && to.Valid() && vm.memory == to.memory && vm.pml4 != 0 && to.pml4 != 0
    modifies vm.memory, vm.memory.pmm, vm.memory.pmm.bitmap
    ensures vm.Valid() && to.Valid()
    ensures Effect(old(vm.memory.mem), old(vm.memory.lay), old(vm.memory.pmm.used),
                   vm.memory.mem, vm.memory.lay, vm.memory.pmm.used, to.pml4, to.space, Borrowable(old(vm.memory.mem), to.pml4, target))
  {
    hide Owned, SpaceOk, Effect, OthersSame, LevelsKept, Conserves, Frames, SameLeaves, MapsOnePage, Lookup, VaSplit,
         Translation, Affordable,
         Borrowable, Replaced, Pmm.Represents;
    ghost var mem0, lay0, u0, frames, root, b := vm.memory.mem, vm.memory.lay, vm.memory.pmm.used, vm.memory.pmm.frames,
        to.pml4, to.space;
    ghost var exact := Borrowable(mem0, root, target);
    NoEffect(mem0, lay0, u0, root, b);
    WeakEffect(mem0, lay0, u0, mem0, lay0, u0, root, b, exact);
    if src % PAGE != 0 || target % PAGE != 0 || target < SHMEM_BASE || target >= USER_VA_MAX {
      return;
    }
    SpaceParts(mem0, lay0, root, b, to.table.vmas, to.table.holes, to.table.nextVa, to.sound);
    var ok := vm.Lend(src, to.pml4, target, b);
    BorrowerKept(mem0, lay0, u0, vm.memory.mem, vm.memory.lay, frames, root, b, to.table.vmas, to.table.holes,
                 to.table.nextVa, to.sound, target,
                 MapEntry(Translation(mem0, vm.pml4, src), SHARE_FLAGS), ok);
    LentEffect(mem0, lay0, u0, vm.memory.mem, vm.memory.lay, vm.memory.pmm.used, root, b,
               if ok then Replaced(mem0, root, target) else {}, exact);
  }

  lemma WeakEffect(mem0: Ram, lay0: Layout, u0: set<nat>, mem1: Ram, lay1: Layout, u1: set<nat>, root: nat, b: nat,
                   exact: bool)
    requires Effect(mem0, lay0, u0, mem1, lay1, u1, root, b, true)
    ensures Effect(mem0, lay0, u0, mem1, lay1, u1, root, b, exact)
  {
    hide OthersSame, LevelsElse, Frames;
  }

  /** One page of sys_shmem_unshare: only borrowed pages are taken away. */
  method Unshare(vm: TaskVm, va: nat)
    requires vm.Valid() && vm.pml4 != 0
    modifies vm.memory, vm.memory.pmm, vm.memory.pmm.bitmap
    ensures vm.Valid()
    ensures Effect(old(vm.memory.mem), old(vm.memory.lay), old(vm.memory.pmm.used),
                   vm.memory.mem, vm.memory.lay, vm.memory.pmm.used, vm.pml4, vm.space, true)
  {
    hide Owned, SpaceOk, Effect, OthersSame, LevelsKept, Conserves, Frames, MapsOnePage, Lookup, VaSplit, UserPage,
         Returned, Pmm.Represents;
    ghost var mem0, lay0, u0, frames, root, a := vm.memory.mem, vm.memory.lay, vm.memory.pmm.used, vm.memory.pmm.frames,
        vm.pml4, vm.space;
    NoEffect(mem0, lay0, u0, root, a);
    if va % PAGE != 0 || va < SHMEM_BASE || va >= USER_VA_MAX {
      return;
    }
    SpaceParts(mem0, lay0, root, a, vm.table.vmas, vm.table.holes, vm.table.nextVa, vm.sound);
    RootLevel(mem0, lay0, u0, frames, root, a);
    var e := vm.memory.EntryIn(vm.pml4, va);
    if e.None? || !e.value.bits.shared {
      return;
    }
    SharePage(lay0, a, va);
    vm.DropLeaf(va);
    BorrowerKept(mem0, lay0, u0, vm.memory.mem, vm.memory.lay, frames, root, a, vm.table.vmas, vm.table.holes,
                 vm.table.nextVa, vm.sound, va,
                 ZERO_ENTRY, true);
    SameLevels(lay0, vm.memory.lay);
    Conserved(mem0, lay0, u0, vm.memory.mem, vm.memory.lay, vm.memory.pmm.used, root, a);
  }

  lemma SameLevels(lay0: Layout, lay1: Layout)
    requires lay1.lvl == lay0.lvl
    ensures LevelsKept(lay0.lvl, lay1.lvl)
  {
  }

  lemma SharePage(lay: Layout, a: nat, va: nat)
    requires SHMEM_BASE <= va < USER_VA_MAX
    ensures UserPage(lay, a, VaSplit(va))
  {
    UserAddrPage(lay, a, va);
  }

  /** process_pml4_enable_low_elf of one process. */
  method LowElf(vm: TaskVm)
    requires vm.Valid() && vm.pml4 != 0
    modifies vm.memory
    ensures vm.Valid()
    ensures Effect(old(vm.memory.mem), old(vm.memory.lay), old(vm.memory.pmm.used),
                   vm.memory.mem, vm.memory.lay, vm.memory.pmm.used, vm.pml4, vm.space, true)
  {
    hide Owned, SpaceOk, Effect, LowCut, Pmm.Represents;
    ghost var mem0, lay0, u0, root, a := vm.memory.mem, vm.memory.lay, vm.memory.pmm.used, vm.pml4, vm.space;
    SpaceParts(mem0, lay0, root, a, vm.table.vmas, vm.table.holes, vm.table.nextVa, vm.sound);
    RootLevel(mem0, lay0, u0, vm.memory.pmm.frames, root, a);
    EnableLowElf(vm.memory, vm.pml4, vm.space);
    LowElfEffect(mem0, lay0, u0, vm.memory.mem, root, a, vm.table.vmas, vm.table.holes, vm.table.nextVa, vm.sound);
  }

  lemma LowElfEffect(mem0: Ram, lay0: Layout, used: set<nat>, mem1: Ram, root: nat, a: nat, vmas: seq<Vma>,
                     holes: seq<Hole>, next: nat, sound: bool)
    requires SpaceOk(mem0, lay0, root, a, vmas, holes, next, sound) && root in lay0.lvl && lay0.lvl[root] == 4
    requires LowCut(mem0, mem1, lay0.lvl, root, a !in lay0.priv)
    ensures var lay1 := lay0.(priv := lay0.priv + {a});
            SpaceOk(mem1, lay1, root, a, vmas, holes, next, sound) && Effect(mem0, lay0, used, mem1, lay1, used, root, a, true)
  {
    forall p: nat {:trigger Taken(vmas, p)} | MMAP_BASE <= p < MMAP_LIMIT && p % PAGE == 0 && Lookup(mem1, root, VaSplit(p)).Some?
      ensures Lookup(mem0, root, VaSplit(p)).Some?
    {
      assert VaSplit(p)[0] == 0 && VaSplit(p)[1] == 1;
    }
  }

  /** The last reference to a process's memory is dropped: all its frames are free,
      those it has lent included, and no page of another process changes. */
  method ExitProcess(vm: TaskVm)
    requires vm.Valid() && vm.pml4 != 0
    modifies vm.memory, vm.memory.pmm, vm.memory.pmm.bitmap, vm`pml4
    ensures vm.Valid() && vm.pml4 == 0 && Frames(vm.memory.lay, vm.space) == {} && vm.memory.mem == old(vm.memory.mem)
    ensures vm.memory.pmm.used == old(vm.memory.pmm.used) - Frames(old(vm.memory.lay), vm.space)
    ensures Effect(old(vm.memory.mem), old(vm.memory.lay), old(vm.memory.pmm.used),
                   vm.memory.mem, vm.memory.lay, vm.memory.pmm.used, old(vm.pml4), vm.space, true)
  {
    hide Owned, SpaceOk, Effect, Frames, DropSpace, Pmm.Represents;
    ghost var mem0, lay0, u0, root, a := vm.memory.mem, vm.memory.lay, vm.memory.pmm.used, vm.pml4, vm.space;
    SpaceParts(mem0, lay0, root, a, vm.table.vmas, vm.table.holes, vm.table.nextVa, vm.sound);
    FreeUserPml4(vm.memory, vm.pml4, vm.space);
    ExitEffect(mem0, lay0, u0, root, a);
    vm.pml4 := 0;
  }

  lemma ExitEffect(mem: Ram, lay: Layout, used: set<nat>, root: nat, a: nat)
    ensures Frames(DropSpace(lay, a), a) == {}
    ensures Effect(mem, lay, used, mem, DropSpace(lay, a), used - Frames(lay, a), root, a, true)
  {
    forall b
      ensures Frames(DropSpace(lay, a), b) == if b == a then {} else Frames(lay, b)
    {
    }
  }

  // ---- every run -----------------------------------------------------------------

  ghost predicate Members(m: Memory, vms: seq<TaskVm>)
    reads vms
  {
    && (forall i :: 0 <= i < |vms| ==> vms[i].memory == m)
    && (forall i, j :: 0 <= i < j < |vms| ==> vms[i].space != vms[j].space && vms[i].table != vms[j].table)
  }

  ghost predicate Alive(vms: seq<TaskVm>)
    reads vms
  {
    forall i :: 0 <= i < |vms| ==> vms[i].pml4 != 0
  }

  ghost function Tables(vms: seq<TaskVm>): set<object>
  {
    set i | 0 <= i < |vms| :: vms[i].table
  }

  /** The invariant of every process that has not exited. */
  ghost predicate AllOk(m: Memory, vms: seq<TaskVm>)
    reads m, m.pmm, m.pmm.bitmap, vms, Tables(vms)
  {
    && m.Valid()
    && forall i :: 0 <= i < |vms| && vms[i].pml4 != 0 ==>
         SpaceOk(m.mem, m.lay, vms[i].pml4, vms[i].space, vms[i].table.vmas, vms[i].table.holes, vms[i].table.nextVa,
                 vms[i].sound)
  }

  /** One call of one process; `to` is the receiver of a share. */
  method Call(vm: TaskVm, to: TaskVm, op: Op)
    requires vm.Valid() && to.Valid() && vm.memory == to.memory && vm.pml4 != 0 && to.pml4 != 0 && WellFormed(op)
    requires op.Share? || to == vm
    modifies vm.memory, vm.memory.pmm, vm.memory.pmm.bitmap, vm.table, vm`sound, vm`pml4
    ensures vm.Valid() && to.Valid()
    ensures Effect(old(vm.memory.mem), old(vm.memory.lay), old(vm.memory.pmm.used), vm.memory.mem, vm.memory.lay,
                   vm.memory.pmm.used,
                   old(to.pml4), to.space, op.Share? ==> Borrowable(old(vm.memory.mem), old(to.pml4), op.target))
  {
    hide Owned, SpaceOk, Effect, Frames, Pmm.Represents, Borrowable, WellFormed;
    match op {
      case Share(_, addr, _, target) => Lend(vm, to, addr, target);
      case Unshare(_, addr) => Unshare(vm, addr);
      case LowElf(_) => LowElf(vm);
      case Exit(_) => ExitProcess(vm);
      case _ => Act(vm, op);
    }
  }

  /** One call: of process `who`, which must not have exited. */
  method Step(m: Memory, vms: seq<TaskVm>, op: Op)
    requires Members(m, vms) && AllOk(m, vms) && WellFormed(op)
    modifies m, m.pmm, m.pmm.bitmap, Tables(vms), vms
    ensures Members(m, vms) && AllOk(m, vms)
    ensures Unheld(old(m.lay), old(m.pmm.used)) <= Unheld(m.lay, m.pmm.used)
    ensures !op.Share? ==> Unheld(m.lay, m.pmm.used) == Unheld(old(m.lay), old(m.pmm.used))
  {
    hide Owned, SpaceOk, Effect, Pmm.Represents, Borrowable, Unheld, WellFormed, Frames;
    if op.who >= |vms| || vms[op.who].pml4 == 0 || (op.Share? && (op.to >= |vms| || vms[op.to].pml4 == 0)) {
      return;
    }
    ghost var mem0, lay0, u0, frames := m.mem, m.lay, m.pmm.used, m.pmm.frames;
    var vm := vms[op.who];
    var to := if op.Share? then vms[op.to] else vm;
    ghost var root, exact := to.pml4, op.Share? ==> Borrowable(mem0, to.pml4, op.target);
    SpaceParts(mem0, lay0, root, to.space, to.table.vmas, to.table.holes, to.table.nextVa, to.sound);
    Call(vm, to, op);
    EffectUnheld(mem0, lay0, u0, m.mem, m.lay, m.pmm.used, root, to.space, exact);
    forall i | 0 <= i < |vms| && vms[i].pml4 != 0
      ensures SpaceOk(m.mem, m.lay, vms[i].pml4, vms[i].space, vms[i].table.vmas, vms[i].table.holes,
                      vms[i].table.nextVa, vms[i].sound)
    {
      if vms[i] != to && vms[i] != vm {
        OtherSpace(mem0, lay0, u0, m.mem, m.lay, m.pmm.used, frames, root, to.space, exact,
                   vms[i].pml4, vms[i].space, vms[i].table.vmas, vms[i].table.holes, vms[i].table.nextVa, vms[i].sound);
      }
    }
  }

  /** Process `root` has a frame of its own at p, the user stack included. */
  ghost predicate PrivateAt(mem: Ram, root: nat, p: nat)
  {
    && p % PAGE == 0 && USER_VA_MIN <= p < 0x8000_0000_0000
    && Lookup(mem, root, VaSplit(p)).Some? && !Lookup(mem, root, VaSplit(p)).value.bits.shared
  }

  ghost function FrameOf(mem: Ram, root: nat, p: nat): nat
    requires PrivateAt(mem, root, p)
  {
    Lookup(mem, root, VaSplit(p)).value.frame
  }

  lemma PrivatePage(mem: Ram, lay: Layout, root: nat, a: nat, p: nat)
    requires LowShared(mem, root, a in lay.priv) && PrivateAt(mem, root, p)
    ensures UserPage(lay, a, VaSplit(p))
  {
    if p < GIB {
      PresentUser(mem, lay, root, a, p);
    } else {
      assert p / 0x80_0000_0000 < 256;
      assert p / 0x80_0000_0000 % 512 == p / 0x80_0000_0000;
      if VaSplit(p)[0] == 0 {
        assert p / 0x4000_0000 == p / 0x80_0000_0000 * 512 + p / 0x4000_0000 % 512;
      }
    }
  }

  /** What one process holds privately is marked used and nobody else's, and no
      other page of its own. */
  ghost predicate Apart(mem: Ram, used: set<nat>, ra: nat, p: nat, rb: nat, q: nat)
  {
    PrivateAt(mem, ra, p) && PrivateAt(mem, rb, q) ==>
      FrameOf(mem, ra, p) in used && (FrameOf(mem, ra, p) == FrameOf(mem, rb, q) ==> ra == rb && p == q)
  }

  lemma PrivateApart(mem: Ram, lay: Layout, used: set<nat>, frames: nat, ra: nat, a: nat, p: nat, rb: nat, b: nat,
                     q: nat)
    requires Owned(mem, lay, used, frames) && IsRoot(lay, ra, a) && IsRoot(lay, rb, b)
    requires LowShared(mem, ra, a in lay.priv) && LowShared(mem, rb, b in lay.priv)
    ensures Apart(mem, used, ra, p, rb, q)
  {
    hide Owned, LowShared, Lookup;
    if PrivateAt(mem, ra, p) && PrivateAt(mem, rb, q) {
      PrivatePage(mem, lay, ra, a, p);
      PrivatePage(mem, lay, rb, b, q);
      PrivateLeaf(mem, lay, used, frames, ra, a, VaSplit(p), rb, b, VaSplit(q));
      SplitJoin(p);
      SplitJoin(q);
    }
  }

  /** After any interleaving of reserve, fault, buffer check, protect, release,
      discard, share, unshare, low-ELF and exit calls by any processes, no two pages
      anywhere privately hold the same frame and every private frame is still
      allocated: nothing was freed under a page that uses it.  No call frees a frame
      that belongs to no process, and without sharing none is lost either. */
  method Run(m: Memory, vms: seq<TaskVm>, ops: seq<Op>)
    requires Members(m, vms) && AllOk(m, vms) && forall k :: 0 <= k < |ops| ==> WellFormed(ops[k])
    modifies m, m.pmm, m.pmm.bitmap, Tables(vms), vms
    ensures Members(m, vms) && AllOk(m, vms)
    ensures forall i, j, p: nat, q: nat {:trigger Apart(m.mem, m.pmm.used, vms[i].pml4, p, vms[j].pml4, q)} ::
              0 <= i < |vms| && 0 <= j < |vms| && vms[i].pml4 != 0 && vms[j].pml4 != 0 ==>
                Apart(m.mem, m.pmm.used, vms[i].pml4, p, vms[j].pml4, q)
    ensures Unheld(old(m.lay), old(m.pmm.used)) <= Unheld(m.lay, m.pmm.used)
    ensures (forall k :: 0 <= k < |ops| ==> !ops[k].Share?) ==>
              Unheld(m.lay, m.pmm.used) == Unheld(old(m.lay), old(m.pmm.used))
  {
    hide Owned, SpaceOk, Apart, Pmm.Represents, Unheld, WellFormed;
    var k := 0;
    while k < |ops|
      invariant 0 <= k <= |ops| && Members(m, vms) && AllOk(m, vms)
      invariant Unheld(old(m.lay), old(m.pmm.used)) <= Unheld(m.lay, m.pmm.used)
      invariant (forall i :: 0 <= i < k ==> !ops[i].Share?) ==>
                  Unheld(m.lay, m.pmm.used) == Unheld(old(m.lay), old(m.pmm.used))
    {
      Step(m, vms, ops[k]);
      k := k + 1;
    }
    forall i, j, p: nat, q: nat | 0 <= i < |vms| && 0 <= j < |vms| && vms[i].pml4 != 0 && vms[j].pml4 != 0
      ensures Apart(m.mem, m.pmm.used, vms[i].pml4, p, vms[j].pml4, q)
    {
      SpaceLow(m.mem, m.lay, vms[i].pml4, vms[i].space, vms[i].table.vmas, vms[i].table.holes, vms[i].table.nextVa,
               vms[i].sound);
      SpaceLow(m.mem, m.lay, vms[j].pml4, vms[j].space, vms[j].table.vmas, vms[j].table.holes, vms[j].table.nextVa,
               vms[j].sound);
      PrivateApart(m.mem, m.lay, m.pmm.used, m.pmm.frames, vms[i].pml4, vms[i].space, p, vms[j].pml4, vms[j].space, q);
    }
  }

  lemma SpaceLow(mem: Ram, lay: Layout, root: nat, a: nat, vmas: seq<Vma>, holes: seq<Hole>, next: nat, sound: bool)
    requires SpaceOk(mem, lay, root, a, vmas, holes, next, sound)
    ensures IsRoot(lay, root, a) && LowShared(mem, root, a in lay.priv)
  {
  }

  // ---- from boot -------------------------------------------------------------------

  /** The kernel maps the first gigabyte with huge pages. */
  ghost predicate KernelLow(mem: Ram, kroot: nat)
  {
    forall p: nat {:trigger LowClosed(mem, kroot, p)} :: USER_VA_MIN <= p < GIB && p % PAGE == 0 ==> LowClosed(mem, kroot, p)
  }

  lemma BootLow(base: nat, pds: seq<nat>, frames: nat, mem: Ram)
    requires KernelHalf.Booted(mem, base, pds, frames)
    ensures KernelLow(mem, base)
  {
    var image := KernelHalf.BootImage(base, pds, frames);
    forall p: nat | USER_VA_MIN <= p < GIB && p % PAGE == 0
      ensures LowClosed(mem, base, p)
    {
      BootNoLeaf(base, pds, frames, p);
      KernelHalf.BootIdentity(base, pds, frames, p);
      assert Lookup(mem, base, VaSplit(p)) == Lookup(image, base, VaSplit(p));
      assert HugeEntry(mem, base, VaSplit(p)) == HugeEntry(image, base, VaSplit(p));
    }
  }

  lemma BootNoLeaf(base: nat, pds: seq<nat>, frames: nat, p: nat)
    requires base + 8 <= frames && p < GIB
    ensures Lookup(KernelHalf.BootImage(base, pds, frames), base, VaSplit(p)).None?
  {
    var mem, va := KernelHalf.BootImage(base, pds, frames), VaSplit(p);
    assert va[0] == 0 && va[1] == 0;
    DescendSteps(mem, base, va);
  }

  /** A new process has the invariant, with nothing reserved. */
  lemma NewSpaceOk(mem: Ram, lay: Layout, kroot: nat, root: nat, a: nat, vmas: seq<Vma>, holes: seq<Hole>, next: nat)
    requires KernelLow(mem, kroot) && SeesKernel(mem, root, kroot) && IsRoot(lay, root, a)
    requires TableOk(vmas) && ArenaOk(vmas, holes, next) && forall p :: !Taken(vmas, p)
    ensures SpaceOk(mem, lay, root, a, vmas, holes, next, true)
  {
    ArenaFormed(vmas, holes, next);
    forall p: nat {:trigger LowClosed(mem, root, p)} | USER_VA_MIN <= p < GIB && p % PAGE == 0
      ensures LowClosed(mem, root, p)
    {
      assert LowClosed(mem, kroot, p);
      assert VaSplit(p)[0] == 0 && VaSplit(p)[1] == 0;
      assert Lookup(mem, root, VaSplit(p)) == Lookup(mem, kroot, VaSplit(p));
      assert HugeEntry(mem, root, VaSplit(p)) == HugeEntry(mem, kroot, VaSplit(p));
    }
    forall p: nat | MMAP_BASE <= p < MMAP_LIMIT && p % PAGE == 0
      ensures Lookup(mem, root, VaSplit(p)).None?
    {
      assert VaSplit(p)[0] == 0 && VaSplit(p)[1] == 1;
    }
  }

  lemma CreatedEffect(mem0: Ram, lay0: Layout, u0: set<nat>, frames: nat, mem1: Ram, lay1: Layout, u1: set<nat>, a: nat,
                      root: nat)
    requires Owned(mem0, lay0, u0, frames) && Created(lay0, u0, lay1, u1, a, root) && FreshSpace(lay0, a)
    requires SameLeaves(mem0, mem1, lay0.lvl)
    ensures Effect(mem0, lay0, u0, mem1, lay1, u1, root, a, true)
  {
    hide Owned, SameLeaves, OthersSame, Frames, FreshSpace;
    FreshHeld(mem0, lay0, u0, frames, a);
    LeavesOthers(mem0, mem1, lay0.lvl, root);
    var pdpt :| lay1 == NewSpace(lay0, a, root, pdpt) && root != pdpt && root !in u0 && pdpt !in u0 && u1 == u0 + {root, pdpt};
    CreatedFrames(lay0, u0, a, root, pdpt);
    Conserved(mem0, lay0, u0, mem1, lay1, u1, root, a);
  }

  lemma FreshHeld(mem: Ram, lay: Layout, used: set<nat>, frames: nat, a: nat)
    requires Owned(mem, lay, used, frames) && FreshSpace(lay, a)
    ensures forall f :: f in lay.own ==> lay.own[f].space != a && f in used
    ensures forall f :: f in lay.lvl ==> f in used
  {
    forall f
      ensures f in lay.own ==> lay.own[f].space != a && f in used
      ensures f in lay.lvl ==> f in used
    {
      assert FrameOK(lay, used, frames, f);
    }
  }

  lemma CreatedFrames(lay: Layout, used: set<nat>, a: nat, root: nat, pdpt: nat)
    requires forall f :: f in lay.own ==> lay.own[f].space != a && f in used
    requires root !in used && pdpt !in used && root != pdpt
    ensures Conserves(lay, used, NewSpace(lay, a, root, pdpt), used + {root, pdpt}, a)
  {
    var lay' := NewSpace(lay, a, root, pdpt);
    assert Frames(lay, a) == {};
    assert Frames(lay', a) == {root, pdpt};
    forall b | b != a
      ensures Frames(lay', b) == Frames(lay, b)
    {
      assert root !in lay.own && pdpt !in lay.own;
    }
  }

  lemma NotFresh(mem: Ram, lay: Layout, used: set<nat>, frames: nat, root: nat, b: nat, a: nat)
    requires Owned(mem, lay, used, frames) && IsRoot(lay, root, b) && FreshSpace(lay, a)
    ensures b != a
  {
    assert FrameOK(lay, used, frames, root);
  }

  lemma ZeroUnowned(mem: Ram, lay: Layout, used: set<nat>, frames: nat)
    requires Owned(mem, lay, used, frames)
    ensures 0 !in lay.own && forall f :: f in lay.own || f in lay.lvl ==> f in used
  {
    assert FrameOK(lay, used, frames, 0);
    forall f
      ensures f in lay.own || f in lay.lvl ==> f in used
    {
      assert FrameOK(lay, used, frames, f);
    }
  }

  /** The kernel's own tables and its view of low memory outlive a creation. */
  lemma KernelKept(mem0: Ram, lay0: Layout, mem1: Ram, lay1: Layout, kroot: nat)
    requires KernelReady(mem0, lay0, kroot) && KernelLow(mem0, kroot) && SameLeaves(mem0, mem1, lay0.lvl)
    requires Stratified(mem0, lay0.lvl)
    requires forall g :: g in lay0.lvl ==> g in mem1 && g in mem0 && mem1[g] == mem0[g]
    requires kroot in lay1.lvl && lay1.lvl[kroot] == 4 && kroot !in lay1.own
    ensures KernelReady(mem1, lay1, kroot) && KernelLow(mem1, kroot)
  {
    assert LinkDown(mem0, lay0.lvl, kroot, 0);
    forall p: nat | USER_VA_MIN <= p < GIB && p % PAGE == 0
      ensures LowClosed(mem1, kroot, p)
    {
      assert LowClosed(mem0, kroot, p);
      assert Lookup(mem1, kroot, VaSplit(p)) == Lookup(mem0, kroot, VaSplit(p));
      assert HugeEntry(mem1, kroot, VaSplit(p)) == HugeEntry(mem0, kroot, VaSplit(p));
    }
  }

  lemma CreatedKernel(lay0: Layout, u0: set<nat>, lay1: Layout, u1: set<nat>, a: nat, root: nat, kroot: nat)
    requires Created(lay0, u0, lay1, u1, a, root) && kroot in lay0.lvl && kroot !in lay0.own && kroot in u0
    ensures kroot in lay1.lvl && lay1.lvl[kroot] == lay0.lvl[kroot] && kroot !in lay1.own
  {
  }

  /** No page is mapped in the lower half above the shared gigabyte. */
  ghost predicate Blank(mem: Ram, root: nat)
  {
    forall q {:trigger Lookup(mem, root, q)} {:trigger HugeEntry(mem, root, q)} ::
      IsPage(q) && q[0] < 256 && (q[0] != 0 || q[1] != 0) ==> Lookup(mem, root, q) == None && HugeEntry(mem, root, q) == None
  }

  ghost predicate NewBorn(mem: Ram, vm: TaskVm)
    reads vm, vm.table
  {
    && Blank(mem, vm.pml4) && vm.sound && |vm.table.vmas| == MAX_VMAS && !vm.table.vmas[0].used
    && (forall p :: !Taken(vm.table.vmas, p))
    && vm.table.nextVa == MMAP_BASE && |vm.table.holes| == MAX_HOLES
    && forall i :: 0 <= i < MAX_HOLES ==> vm.table.holes[i] == NO_HOLE
  }

  lemma BornBlank(mem: Ram, root: nat, kroot: nat)
    requires SeesKernel(mem, root, kroot)
    ensures Blank(mem, root)
  {
  }

  lemma TwoCounted(used: set<nat>, frames: nat)
    ensures NoTwoFree(used, frames) <==> Pmm.FreeCount(used, frames) < 2
  {
    var free := Pmm.FreeSet(used, frames);
    if free != {} {
      var f :| f in free;
      var rest := free - {f};
      if rest != {} {
        var g :| g in rest;
        assert |rest - {g}| == |free| - 2;
      } else {
        assert free == {f};
        forall x, y | Pmm.GENERAL_FIRST <= x < frames && Pmm.GENERAL_FIRST <= y < frames && x != y
          ensures x in used || y in used
        {
          assert x in free <==> x !in used;
          assert y in free <==> y !in used;
        }
      }
    } else {
      assert forall x: nat :: Pmm.GENERAL_FIRST <= x < frames ==> (x in free <==> x !in used);
    }
  }

  /** Give a new process its page tables and an empty reservation table: it takes two
      frames, and fails exactly when there are not two. */
  method Spawn(m: Memory, kroot: nat, vms: seq<TaskVm>) returns (vms': seq<TaskVm>)
    requires Members(m, vms) && Alive(vms) && AllOk(m, vms) && KernelReady(m.mem, m.lay, kroot)
    requires KernelLow(m.mem, kroot)
    modifies m, m.pmm, m.pmm.bitmap
    ensures Members(m, vms') && Alive(vms') && AllOk(m, vms') && KernelReady(m.mem, m.lay, kroot)
    ensures KernelLow(m.mem, kroot)
    ensures vms <= vms'
    ensures forall i :: |vms| <= i < |vms'| ==> fresh(vms'[i]) && fresh(vms'[i].table) && NewBorn(m.mem, vms'[i])
    ensures |vms'| == if Pmm.FreeCount(old(m.pmm.used), m.pmm.frames) < 2 then |vms| else |vms| + 1
    ensures Pmm.FreeCount(m.pmm.used, m.pmm.frames) + 2 * (|vms'| - |vms|) == Pmm.FreeCount(old(m.pmm.used), m.pmm.frames)
    ensures SameLeaves(old(m.mem), m.mem, old(m.lay).lvl)
  {
    hide Owned, KernelReady, KernelLow, SeesKernel, SpaceOk, SameLeaves, NoTwoFree, Pmm.Represents, Pmm.FreeCount,
         Blank;
    var root;
    ghost var a;
    root, a := Grow(m, kroot, vms);
    TwoCounted(old(m.pmm.used), m.pmm.frames);
    vms' := vms;
    if root != 0 {
      BornBlank(m.mem, root, kroot);
      var table := new ReservationTable();
      TableLength(table.vmas, table.holes, table.nextVa);
      hide TableOk, ArenaOk, Taken;
      NewSpaceOk(m.mem, m.lay, kroot, root, a, table.vmas, table.holes, table.nextVa);
      var vm := new TaskVm(m, table, root, a);
      vms' := vms + [vm];
    }
  }

  lemma TableLength(vmas: seq<Vma>, holes: seq<Hole>, next: nat)
    requires TableOk(vmas) && ArenaOk(vmas, holes, next)
    ensures |vmas| == MAX_VMAS && |holes| == MAX_HOLES
  {
  }

  /** process_pml4_create beside the processes that exist. */
  method Grow(m: Memory, kroot: nat, vms: seq<TaskVm>) returns (root: nat, ghost a: nat)
    requires Members(m, vms) && Alive(vms) && AllOk(m, vms) && KernelReady(m.mem, m.lay, kroot)
    requires KernelLow(m.mem, kroot)
    modifies m, m.pmm, m.pmm.bitmap
    ensures AllOk(m, vms) && KernelReady(m.mem, m.lay, kroot) && KernelLow(m.mem, kroot)
    ensures root != 0 ==>
              IsRoot(m.lay, root, a) && SeesKernel(m.mem, root, kroot) && forall i :: 0 <= i < |vms| ==> vms[i].space != a
    ensures root == 0 <==> NoTwoFree(old(m.pmm.used), m.pmm.frames)
    ensures Pmm.FreeCount(m.pmm.used, m.pmm.frames) == Pmm.FreeCount(old(m.pmm.used), m.pmm.frames) - (if root == 0 then 0 else 2)
    ensures SameLeaves(old(m.mem), m.mem, old(m.lay).lvl)
  {
    ghost var mem0, lay0, u0, frames := m.mem, m.lay, m.pmm.used, m.pmm.frames;
    a := KernelHalf.FreshName(m.lay);
    assert Stratified(mem0, lay0.lvl);
    ZeroUnowned(mem0, lay0, u0, frames);
    assert kroot in lay0.lvl && kroot !in lay0.own && lay0.lvl[kroot] == 4;
    hide Owned, SpaceOk, KernelReady, KernelLow, FreshSpace, SameLeaves, SeesKernel, NoTwoFree, Created, KernelShared,
         Pmm.Represents, Pmm.FreeCount, Stratified, Effect;
    root := Pml4Create(m, kroot, a);
    if root == 0 {
      SameEffect(mem0, m.mem, lay0, u0, a);
    } else {
      CreatedEffect(mem0, lay0, u0, frames, m.mem, m.lay, m.pmm.used, a, root);
      CreatedKernel(lay0, u0, m.lay, m.pmm.used, a, root, kroot);
      CreatedFresh(lay0, u0, m.lay, m.pmm.used, a, root);
    }
    KernelKept(mem0, lay0, m.mem, m.lay, kroot);
    forall i | 0 <= i < |vms|
      ensures SpaceOk(m.mem, m.lay, vms[i].pml4, vms[i].space, vms[i].table.vmas, vms[i].table.holes,
                      vms[i].table.nextVa, vms[i].sound)
      ensures vms[i].space != a
    {
      SpaceParts(mem0, lay0, vms[i].pml4, vms[i].space, vms[i].table.vmas, vms[i].table.holes, vms[i].table.nextVa,
                 vms[i].sound);
      NotFresh(mem0, lay0, u0, frames, vms[i].pml4, vms[i].space, a);
      OtherSpace(mem0, lay0, u0, m.mem, m.lay, m.pmm.used, frames, root, a, true,
                 vms[i].pml4, vms[i].space, vms[i].table.vmas, vms[i].table.holes, vms[i].table.nextVa, vms[i].sound);
    }
  }

  lemma SameEffect(mem0: Ram, mem1: Ram, lay: Layout, used: set<nat>, a: nat)
    requires SameLeaves(mem0, mem1, lay.lvl)
    ensures Effect(mem0, lay, used, mem1, lay, used, 0, a, true)
  {
  }

  lemma CreatedFresh(lay0: Layout, u0: set<nat>, lay1: Layout, u1: set<nat>, a: nat, root: nat)
    requires Created(lay0, u0, lay1, u1, a, root) && forall f :: f in lay0.own || f in lay0.lvl ==> f in u0
    ensures root !in lay0.own
  {
  }

  /** The whole story: from the memory map of the boot loader, n processes (fewer if
      memory runs out) and any interleaving of their calls. */
  method Session(entries: seq<BootMemory.MapEntry>, kernel: Pmm.Region, info: Pmm.Region, modules: seq<Pmm.Region>,
                 base: nat,
                 n: nat, ops: seq<Op>)
    returns (m: Memory?, vms: seq<TaskVm>)
    requires KernelHalf.Loaded(entries, kernel, base) && forall k :: 0 <= k < |ops| ==> WellFormed(ops[k])
    ensures m == null ==> vms == []
    ensures m != null ==> AllOk(m, vms) && |vms| <= n
    ensures m != null ==>
              forall i, j, p: nat, q: nat {:trigger Apart(m.mem, m.pmm.used, vms[i].pml4, p, vms[j].pml4, q)} ::
                0 <= i < |vms| && 0 <= j < |vms| && vms[i].pml4 != 0 && vms[j].pml4 != 0 ==>
                  Apart(m.mem, m.pmm.used, vms[i].pml4, p, vms[j].pml4, q)
  {
    var ok;
    ghost var pds;
    m, ok, pds := KernelHalf.Boot(entries, kernel, info, modules, base);
    vms := [];
    if !ok {
      return;
    }
    BootLow(base, pds, m.pmm.frames, m.mem);
    hide Owned, KernelReady, KernelLow, SpaceOk, SameLeaves, Apart, Pmm.Represents, KernelHalf.Booted,
         KernelHalf.HalfOk, Unheld, WellFormed;
    var k := 0;
    while k < n
      invariant 0 <= k <= n && |vms| <= k && m != null && Members(m, vms) && Alive(vms) && AllOk(m, vms)
      invariant KernelReady(m.mem, m.lay, base) && KernelLow(m.mem, base)
      invariant fresh(m) && fresh(m.pmm) && fresh(m.pmm.bitmap)
      invariant forall i :: 0 <= i < |vms| ==> fresh(vms[i]) && fresh(vms[i].table)
    {
      vms := Spawn(m, base, vms);
      k := k + 1;
    }
    Run(m, vms, ops);
  }
}
