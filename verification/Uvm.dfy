/** The user address space (kernel/memory/uvm.c): reservations, demand paging
    and the return of frames, over real page tables. */
module Uvm {
  import opened PageTables
  import opened Ownership
  import opened Vmm
  import opened AddressSpaces
  import opened Reservations
  import Pmm

  const GIB: nat := 0x4000_0000
  const SHARE_FLAGS := NO_FLAGS.(present := true, write := true, user := true, shared := true)

  /** Frames in use outside space a's ownership, and everyone else's frames,
      stay what they were: whatever a's operations take they own, and whatever
      they return they owned. */
  ghost predicate Conserves(l0: Layout, u0: set<nat>, l1: Layout, u1: set<nat>, a: nat)
  {
    && u1 - Frames(l1, a) == u0 - Frames(l0, a)
    && forall b :: b != a ==> Frames(l1, b) == Frames(l0, b)
  }

  lemma ConservesTrans(l0: Layout, u0: set<nat>, l1: Layout, u1: set<nat>, l2: Layout, u2: set<nat>, a: nat)
    requires Conserves(l0, u0, l1, u1, a) && Conserves(l1, u1, l2, u2, a)
    ensures Conserves(l0, u0, l2, u2, a)
  {
    forall b | b != a
      ensures Frames(l2, b) == Frames(l0, b)
    {
      assert Frames(l1, b) == Frames(l0, b);
    }
  }

  /** Conservation is the bookkeeping relation with nothing in hand. */
  lemma ConservesAccounted(mem: Ram, l0: Layout, u0: set<nat>, frames: nat, a: nat)
    requires Owned(mem, l0, u0, frames)
    ensures Accounted(l0, u0, l0, u0 - Frames(l0, a), a, {})
    ensures forall l1, u1 :: Accounted(l1, u1, l0, u0 - Frames(l0, a), a, {}) ==> Conserves(l0, u0, l1, u1, a)
  {
    OwnedUsed(mem, l0, u0, frames, a);
  }

  // ---- which addresses belong to the process ---------------------------------

  predicate UserAddr(priv: bool, p: nat)
  {
    p < USER_VA_MAX && (p < GIB ==> priv)
  }

  lemma UserAddrPage(lay: Layout, a: nat, p: nat)
    requires UserAddr(a in lay.priv, p)
    ensures UserPage(lay, a, VaSplit(p))
  {
    assert p / 0x80_0000_0000 < 256;
    assert p / 0x80_0000_0000 % 512 == p / 0x80_0000_0000;
    if VaSplit(p)[0] == 0 && VaSplit(p)[1] == 0 {
      assert p / 0x4000_0000 == p / 0x80_0000_0000 * 512 + p / 0x4000_0000 % 512;
      assert p < GIB;
    }
  }

  /** A low page of a space that still shares the identity map: it has no leaf
      entry of its own, and a huge page translates it. */
  ghost predicate LowClosed(mem: Ram, root: nat, p: nat)
  {
    Lookup(mem, root, VaSplit(p)).None? && Translation(mem, root, p) != 0
  }

  ghost predicate LowShared(mem: Ram, root: nat, priv: bool)
  {
    !priv ==> forall p: nat {:trigger LowClosed(mem, root, p)} ::
                USER_VA_MIN <= p < GIB && p % PAGE == 0 ==> LowClosed(mem, root, p)
  }

  /** Arena pages are mapped only inside reservations. */
  ghost predicate ArenaMapped(mem: Ram, root: nat, vmas: seq<Vma>)
  {
    forall p: nat {:trigger Taken(vmas, p)} {:trigger VaSplit(p)} ::
      MMAP_BASE <= p < MMAP_LIMIT && p % PAGE == 0 && Lookup(mem, root, VaSplit(p)).Some? ==> Taken(vmas, p)
  }

  /** The invariant that ties the table to the page tables of space a.  No call can
      break the first part.  `sound` is the rest: records are disjoint, the arena's
      free list is free, and arena pages are mapped only inside reservations. */
  ghost predicate SpaceOk(mem: Ram, lay: Layout, root: nat, a: nat, vmas: seq<Vma>, holes: seq<Hole>, next: nat,
                          sound: bool)
  {
    && IsRoot(lay, root, a)
    && TableForm(vmas) && ArenaForm(holes, next)
    && (forall p: nat {:trigger Taken(vmas, p)} :: Taken(vmas, p) ==> UserAddr(a in lay.priv, p))
    && LowShared(mem, root, a in lay.priv)
    && (sound ==> TableOk(vmas) && ArenaOk(vmas, holes, next) && ArenaMapped(mem, root, vmas))
  }

  class TaskVm {
    const memory: Memory
    const table: ReservationTable
    var pml4: nat
    ghost var space: nat
    /** Has the arena kept its promise so far? */
    ghost var sound: bool

    ghost predicate Valid()
      reads this, memory, memory.pmm, memory.pmm.bitmap, table
    {
      && memory.Valid()
      && (pml4 != 0 ==> SpaceOk(memory.mem, memory.lay, pml4, space, table.vmas, table.holes, table.nextVa, sound))
    }

    constructor (memory: Memory, table: ReservationTable, pml4: nat, ghost space: nat)
      requires memory.Valid()
      requires pml4 != 0 ==> SpaceOk(memory.mem, memory.lay, pml4, space, table.vmas, table.holes, table.nextVa, true)
      ensures Valid() && this.memory == memory && this.table == table && this.pml4 == pml4 && this.space == space
      ensures sound
    {
      this.memory := memory;
      this.table := table;
      this.pml4 := pml4;
      this.space := space;
      this.sound := true;
    }

    /** uvm_fault_in: the answer is decided by the state before the call, and true
        exactly when the page is usable afterwards.  At most this page changes, from
        unmapped to a zeroed private frame with the permissions of its record. */
    method FaultIn(addr: nat, writable: bool) returns (r: bool)
      requires Valid()
      modifies memory, memory.pmm, memory.pmm.bitmap
      ensures Valid()
      ensures pml4 == 0 ==> !r && memory.mem == old(memory.mem) && memory.lay == old(memory.lay)
      ensures pml4 != 0 ==>
                && (r <==> Usable(Lookup(memory.mem, pml4, VaSplit(addr - addr % PAGE)), writable))
                && (r <==> !Refuses(old(memory.mem), old(memory.pmm.used), memory.pmm.frames, table.vmas,
                                    pml4, addr - addr % PAGE, writable))
                && Faulted(old(memory.mem), memory.mem, old(memory.lay).lvl, pml4, table.vmas, addr - addr % PAGE)
                && Conserves(old(memory.lay), old(memory.pmm.used), memory.lay, memory.pmm.used, space)
      ensures Lookup(old(memory.mem), pml4, VaSplit(addr - addr % PAGE)).Some? ==>
                memory.mem == old(memory.mem) && memory.lay == old(memory.lay) && memory.pmm.used == old(memory.pmm.used)
      // the processor can use what was answered for
      ensures r && writable ==> CpuWrites(memory.mem, pml4, VaSplit(addr - addr % PAGE))
      // an absent page costs one frame and the tables missing on the way
      ensures r && Lookup(old(memory.mem), pml4, VaSplit(addr - addr % PAGE)).None? ==>
                CommitSpent(old(memory.mem), old(memory.pmm.used), memory.pmm.used, memory.pmm.frames, pml4,
                            VaSplit(addr - addr % PAGE))
      // a refusal changes no page, and would be repeated
      ensures !r && pml4 != 0 ==>
                && SameLeaves(old(memory.mem), memory.mem, old(memory.lay).lvl)
                && Refuses(memory.mem, memory.pmm.used, memory.pmm.frames, table.vmas, pml4, addr - addr % PAGE,
                           writable)
      ensures LevelsKept(old(memory.lay).lvl, memory.lay.lvl) && memory.lay.priv == old(memory.lay).priv
    {
      hide VaSplit, Owned, MapsOnePage, SameLeaves, Pmm.Represents, SpaceOk, Conserves, Lookup, TableForm, Faulted,
           IsRoot, CanCommit, Permits, CpuWrites;
      if pml4 == 0 {
        return false;
      }
      SpaceParts(memory.mem, memory.lay, pml4, space, table.vmas, table.holes, table.nextVa, sound);
      var page := addr - addr % PAGE;
      RootLevel(memory.mem, memory.lay, memory.pmm.used, memory.pmm.frames, pml4, space);
      var e := memory.EntryIn(pml4, page);
      if e.Some? {
        LeavesSelf(memory.mem, memory.lay.lvl);
        ConservesSame(memory.lay, memory.pmm.used, space);
        FaultedSame(memory.mem, memory.mem, memory.lay.lvl, pml4, table.vmas, page);
        r := e.value.bits.user && (!writable || e.value.bits.write);
      } else {
        r := FaultAbsent(page, writable);
      }
      if r {
        SpaceParts(memory.mem, memory.lay, pml4, space, table.vmas, table.holes, table.nextVa, sound);
        RootLevel(memory.mem, memory.lay, memory.pmm.used, memory.pmm.frames, pml4, space);
        UsableWrites(memory.mem, memory.lay, memory.pmm.used, memory.pmm.frames, pml4, VaSplit(page), writable);
      }
    }

    /** uvm_fault_in on an unmapped page. */
    method FaultAbsent(page: nat, writable: bool) returns (r: bool)
      requires Valid() && pml4 != 0 && page % PAGE == 0 && Lookup(memory.mem, pml4, VaSplit(page)).None?
      modifies memory, memory.pmm, memory.pmm.bitmap
      ensures Valid()
      ensures r <==> Usable(Lookup(memory.mem, pml4, VaSplit(page)), writable)
      ensures Faulted(old(memory.mem), memory.mem, old(memory.lay).lvl, pml4, table.vmas, page)
      ensures Conserves(old(memory.lay), old(memory.pmm.used), memory.lay, memory.pmm.used, space)
      ensures r <==>
              !Refuses(old(memory.mem), old(memory.pmm.used), memory.pmm.frames, table.vmas, pml4, page, writable)
      ensures r ==>
                CommitSpent(old(memory.mem), old(memory.pmm.used), memory.pmm.used, memory.pmm.frames, pml4,
                            VaSplit(page))
      ensures !r ==> && SameLeaves(old(memory.mem), memory.mem, old(memory.lay).lvl)
                     && Refuses(memory.mem, memory.pmm.used, memory.pmm.frames, table.vmas, pml4, page, writable)
      ensures LevelsKept(old(memory.lay).lvl, memory.lay.lvl) && memory.lay.priv == old(memory.lay).priv
    {
      hide VaSplit, Owned, MapsOnePage, SameLeaves, Pmm.Represents, SpaceOk, Conserves, Lookup, TableForm, Faulted,
           Fresh, Reserved, Taken, Governs,
           IsRoot, CanCommit, CommitSpent, Permits;
      SpaceParts(memory.mem, memory.lay, pml4, space, table.vmas, table.holes, table.nextVa, sound);
      RootLevel(memory.mem, memory.lay, memory.pmm.used, memory.pmm.frames, pml4, space);
      ghost var mem0, lvl0 := memory.mem, memory.lay.lvl;
      var v := table.VmaAt(page);
      if v.None? || !v.value.flags.user || (writable && !v.value.flags.write) {
        LeavesSelf(mem0, lvl0);
        ConservesSame(memory.lay, memory.pmm.used, space);
        FaultedSame(mem0, mem0, lvl0, pml4, table.vmas, page);
        NotPermitted(table.vmas, page, v, writable);
        return false;
      }
      ReservedOk(table.vmas, page, v.value.flags);
      Permitted(table.vmas, page, v.value, writable);
      r := MapFresh(page, v.value.flags);
      if r {
        ghost var f: nat :| Fresh(mem0, memory.mem, lvl0, pml4, table.vmas, page, f, v.value.flags);
        FreshEntry(mem0, memory.mem, lvl0, pml4, table.vmas, page, f, v.value.flags);
      } else {
        StillNone(mem0, memory.mem, lvl0, pml4, page);
        FaultedSame(mem0, memory.mem, lvl0, pml4, table.vmas, page);
      }
    }

    /** The allocating half of uvm_fault_in: zero a frame, map it, and give it
        back if the mapping fails. */
    method MapFresh(page: nat, flags: Flags) returns (ok: bool)
      requires Valid() && pml4 != 0 && page % PAGE == 0 && Reserved(table.vmas, page, flags) && !flags.shared
      requires Lookup(memory.mem, pml4, VaSplit(page)).None?
      modifies memory, memory.pmm, memory.pmm.bitmap
      ensures Valid()
      ensures if ok then exists f: nat :: Fresh(old(memory.mem), memory.mem, old(memory.lay).lvl, pml4, table.vmas,
                                                page, f, flags)
              else SameLeaves(old(memory.mem), memory.mem, old(memory.lay).lvl)
      ensures ok <==> CanCommit(old(memory.mem), old(memory.pmm.used), memory.pmm.frames, pml4, VaSplit(page))
      ensures ok ==>
                CommitSpent(old(memory.mem), old(memory.pmm.used), memory.pmm.used, memory.pmm.frames, pml4,
                            VaSplit(page))
      ensures !ok ==> !CanCommit(memory.mem, memory.pmm.used, memory.pmm.frames, pml4, VaSplit(page))
      ensures Conserves(old(memory.lay), old(memory.pmm.used), memory.lay, memory.pmm.used, space)
      ensures LevelsKept(old(memory.lay).lvl, memory.lay.lvl) && memory.lay.priv == old(memory.lay).priv
    {
      hide VaSplit, Frames, Owned, SameLeaves, Pmm.Represents, SpaceOk, Lookup, Conserves, Pmm.NoneFree, CanCommit,
           CommitSpent, Fresh;
      ghost var mem0, lay0, u0, frames := memory.mem, memory.lay, memory.pmm.used, memory.pmm.frames;
      var f := memory.AllocZeroed();
      if f == 0 {
        LeavesSelf(mem0, lay0.lvl);
        ConservesSame(lay0, u0, space);
        NoFrame(mem0, u0, frames, pml4, VaSplit(page));
        return false;
      }
      ok := CommitFrame(page, flags, f, mem0, u0);
    }

    /** Map the zeroed frame f, taken in the state (mem0, u0), or give it back. */
    method CommitFrame(page: nat, flags: Flags, f: nat, ghost mem0: Ram, ghost u0: set<nat>) returns (ok: bool)
      requires memory.Valid() && pml4 != 0 && page % PAGE == 0 && Reserved(table.vmas, page, flags) && !flags.shared
      requires memory.mem == mem0[f := ZeroTable()] && memory.pmm.used == u0 + {f} && f !in u0
      requires Pmm.GENERAL_FIRST <= f < memory.pmm.frames
      requires f !in memory.lay.own && f !in memory.lay.lvl && Owned(mem0, memory.lay, u0, memory.pmm.frames)
      requires SpaceOk(mem0, memory.lay, pml4, space, table.vmas, table.holes, table.nextVa, sound)
      requires Lookup(mem0, pml4, VaSplit(page)).None?
      modifies memory, memory.pmm, memory.pmm.bitmap
      ensures Valid()
      ensures if ok then exists g: nat :: Fresh(mem0, memory.mem, old(memory.lay).lvl, pml4, table.vmas, page, g, flags)
              else SameLeaves(mem0, memory.mem, old(memory.lay).lvl)
      ensures ok <==> CanCommit(mem0, u0, memory.pmm.frames, pml4, VaSplit(page))
      ensures ok ==> CommitSpent(mem0, u0, memory.pmm.used, memory.pmm.frames, pml4, VaSplit(page))
      ensures !ok ==> !CanCommit(memory.mem, memory.pmm.used, memory.pmm.frames, pml4, VaSplit(page))
      ensures Conserves(old(memory.lay), u0, memory.lay, memory.pmm.used, space)
      ensures LevelsKept(old(memory.lay).lvl, memory.lay.lvl) && memory.lay.priv == old(memory.lay).priv
    {
      hide VaSplit, Frames, Owned, MapsPage, MapsOnePage, SameLeaves, Pmm.Represents, SpaceOk, Translation, Lookup,
           UserPath, Accounted,
           Conserves, Pmm.NoneFree, HugeEntry, Affordable, CanCommit, CommitSpent, Spent, Need;
      ghost var lay0, frames, mem1, u1 := memory.lay, memory.pmm.frames, memory.mem, memory.pmm.used;
      ghost var va := VaSplit(page);
      OpenSpace(mem0, lay0, u0, frames, pml4, space, table.vmas, table.holes, table.nextVa, sound, page, flags);
      OwnedLooseWrite(mem0, lay0, u0, frames, f, ZeroTable());
      CommitNeed(mem0, lay0, u0, frames, pml4, va, f);
      ok := memory.MapIn(pml4, page, f * 4096, flags, space);
      ghost var mem2, lay2, u2 := memory.mem, memory.lay, memory.pmm.used;
      RootKept(mem1, lay0, u1, mem2, lay2, u2, frames, space, pml4);
      SamePriv(lay0, u1, lay2, u2, space);
      if ok {
        FrameMapped(mem0, lay0, u0, mem1, mem2, lay2, u2, frames, pml4, space, table.vmas, table.holes, table.nextVa,
                    sound, page, flags, f);
      } else {
        FrameKept(mem0, lay0, u0, mem1, mem2, lay2, u2, frames, pml4, space, table.vmas, table.holes, table.nextVa,
                  sound, page, f);
        ReturnLoose(memory, f);
      }
    }

    /** Unmap one page and return its frame unless it is borrowed (the loop body
        of uvm_release and uvm_discard). */
    method DropLeaf(virt: nat)
      requires memory.Valid() && IsRoot(memory.lay, pml4, space)
      requires UserPage(memory.lay, space, VaSplit(virt)) || Lookup(memory.mem, pml4, VaSplit(virt)).None?
      modifies memory, memory.pmm, memory.pmm.bitmap
      ensures memory.Valid() && IsRoot(memory.lay, pml4, space)
      ensures memory.lay.lvl == old(memory.lay).lvl && memory.lay.priv == old(memory.lay).priv
      ensures MapsOnePage(old(memory.mem), memory.mem, memory.lay.lvl, pml4, VaSplit(virt), ZERO_ENTRY)
      ensures memory.pmm.used == old(memory.pmm.used) - Returned(Lookup(old(memory.mem), pml4, VaSplit(virt)))
      ensures Returned(Lookup(old(memory.mem), pml4, VaSplit(virt))) <= old(memory.pmm.used)
      ensures Conserves(old(memory.lay), old(memory.pmm.used), memory.lay, memory.pmm.used, space)
    {
      hide VaSplit, Frames, Owned, MapsPage, Pmm.Represents, Conserves, Accounted;
      ghost var mem0, lay0, u0, frames, va := memory.mem, memory.lay, memory.pmm.used, memory.pmm.frames, VaSplit(virt);
      RootLevel(mem0, lay0, u0, frames, pml4, space);
      ConservesSame(lay0, u0, space);
      var e := memory.EntryIn(pml4, virt);
      if e.None? {
        NothingMapped(mem0, lay0.lvl, pml4, va);
        return;
      }
      PageSlot(mem0, lay0, u0, frames, pml4, space, va);
      var _ := memory.UnmapIn(pml4, virt);
      ghost var mem1, lay1 := memory.mem, memory.lay;
      RootKeptPlain(mem0, lay0, u0, mem1, lay1, frames, space, pml4);
      Unlinked(mem0, lay0, u0, mem1, lay1, frames, space, va, e.value);
      if !e.value.bits.shared {
        ReturnLoose(memory, e.value.frame);
      }
    }

    /** Drop every page of [addr, addr + n pages). */
    method DropRange(addr: nat, n: nat)
      requires memory.Valid() && IsRoot(memory.lay, pml4, space)
      requires addr % PAGE == 0 && addr + n * PAGE <= USER_VA_MAX
      requires forall k: nat :: k < n ==> Droppable(memory.mem, memory.lay.priv, pml4, space, addr + k * PAGE)
      modifies memory, memory.pmm, memory.pmm.bitmap
      ensures memory.Valid() && IsRoot(memory.lay, pml4, space)
      ensures memory.lay.lvl == old(memory.lay).lvl && memory.lay.priv == old(memory.lay).priv
      ensures Cleared(old(memory.mem), memory.mem, memory.lay.lvl, pml4, addr, addr + n * PAGE)
      ensures Conserves(old(memory.lay), old(memory.pmm.used), memory.lay, memory.pmm.used, space)
      ensures Kept(old(memory.mem), old(memory.pmm.used), memory.pmm.used, pml4, addr, addr + n * PAGE)
    {
      hide VaSplit, Frames, Owned, Pmm.Represents, Conserves, Cleared, MapsOnePage, Lookup, Droppable, Releases, Kept;
      ghost var mem0, lay0, u0 := memory.mem, memory.lay, memory.pmm.used;
      ClearedNone(mem0, lay0.lvl, pml4, addr);
      KeptAll(mem0, u0, pml4, addr);
      ConservesSame(lay0, u0, space);
      var k := 0;
      while k < n
        invariant 0 <= k <= n
        invariant memory.Valid() && IsRoot(memory.lay, pml4, space)
        invariant memory.lay.lvl == lay0.lvl && memory.lay.priv == lay0.priv
        invariant Cleared(mem0, memory.mem, lay0.lvl, pml4, addr, addr + k * PAGE)
        invariant Conserves(lay0, u0, memory.lay, memory.pmm.used, space)
        invariant Kept(mem0, u0, memory.pmm.used, pml4, addr, addr + k * PAGE)
      {
        ghost var lay1, u1, mem1, virt := memory.lay, memory.pmm.used, memory.mem, addr + k * PAGE;
        RootLevel(mem1, lay1, u1, memory.pmm.frames, pml4, space);
        assert Droppable(mem0, lay0.priv, pml4, space, virt);
        BeforeDrop(mem0, mem1, lay1, pml4, space, addr, k);
        DropLeaf(addr + k * PAGE);
        ClearedStep(mem0, mem1, memory.mem, lay0.lvl, pml4, addr, k);
        ConservesTrans(lay0, u0, lay1, u1, memory.lay, memory.pmm.used, space);
        KeptStep(mem0, u0, u1, memory.pmm.used, pml4, addr, k);
        k := k + 1;
      }
    }

    /** uvm_release: drop a reservation and return its private frames.  Refused
        (and then nothing changes) for an illegal range, or when splitting a
        record needs a slot the full table does not have. */
    method Release(addr: nat, bytes: nat) returns (ok: bool)
      requires Valid() && addr < U64 && bytes < U64
      modifies memory, memory.pmm, memory.pmm.bitmap, table, this`sound
      ensures Valid() && memory.lay.lvl == old(memory.lay).lvl && memory.lay.priv == old(memory.lay).priv
      ensures table.nextVa == old(table.nextVa)
      // the arena stays sound unless a hole above its bump pointer is recorded
      ensures sound == (old(sound) && !(ok && ArenaAbove(addr, bytes, old(table.nextVa)) && Storable(old(table.holes), addr, bytes)))
      ensures pml4 != 0 && old(sound) ==> (sound <==> ArenaOk(table.vmas, table.holes, table.nextVa))
      ensures !ok ==> && memory.mem == old(memory.mem) && memory.lay == old(memory.lay)
                      && memory.pmm.used == old(memory.pmm.used)
                      && table.vmas == old(table.vmas) && table.holes == old(table.holes)
      ensures ok <==> && pml4 != 0 && addr % PAGE == 0 && bytes % PAGE == 0 && RangeOk(addr, bytes)
                      && !((forall k :: 0 <= k < MAX_VMAS ==> old(table.vmas)[k].used) &&
                           exists k :: 0 <= k < MAX_VMAS && StrictlyInside(old(table.vmas)[k], addr, addr + bytes))
      ensures ok ==> forall p: nat, f {:trigger Reserved(table.vmas, p, f)} ::
                && (Reserved(table.vmas, p, f) ==> Reserved(old(table.vmas), p, f) && !(addr <= p < addr + bytes))
                && (old(sound) && Reserved(old(table.vmas), p, f) && !(addr <= p < addr + bytes) ==> Reserved(table.vmas, p, f))
      ensures ok ==> && Cleared(old(memory.mem), memory.mem, memory.lay.lvl, pml4, addr, addr + bytes)
                     && Conserves(old(memory.lay), old(memory.pmm.used), memory.lay, memory.pmm.used, space)
                     && Kept(old(memory.mem), old(memory.pmm.used), memory.pmm.used, pml4, addr, addr + bytes)
                     && HoleRecorded(old(table.holes), table.holes, addr, bytes)
    {
      if pml4 == 0 || addr % PAGE != 0 || bytes % PAGE != 0 {
        return false;
      }
      if !RangeOk(addr, bytes) {
        return false;
      }
      RangeOkMeans(addr, bytes);
      AlignedSum(addr, bytes);
      RootLevel(memory.mem, memory.lay, memory.pmm.used, memory.pmm.frames, pml4, space);
      ghost var v0 := table.vmas;
      ok := table.RemoveRange(addr, addr + bytes);
      if !ok {
        return;
      }
      ghost var n := bytes / PAGE;
      assert bytes == n * PAGE;
      RangeDroppable(memory.mem, memory.lay, pml4, space, addr, n);
      ghost var mem0, lay0, h0 := memory.mem, memory.lay, table.holes;
      DropRange(addr, bytes / PAGE);
      if addr >= MMAP_BASE && addr + bytes <= MMAP_LIMIT {
        ghost var stored := table.HoleAdd(addr, bytes);
      }
      ReleasedSpace(mem0, lay0, v0, h0, memory.mem, memory.lay, table.vmas, table.holes, table.nextVa, pml4, space,
                    addr, bytes, sound);
      sound := sound && !(ArenaAbove(addr, bytes, table.nextVa) && Storable(h0, addr, bytes));
    }

    /** uvm_discard: drop the contents of a reserved range, keep the reservation.
        All-or-nothing: every page must be reserved and none borrowed. */
    method Discard(addr: nat, bytes: nat) returns (ok: bool)
      requires Valid() && addr < U64 && bytes < U64
      modifies memory, memory.pmm, memory.pmm.bitmap
      ensures Valid() && memory.lay.lvl == old(memory.lay).lvl && memory.lay.priv == old(memory.lay).priv
      ensures !ok ==>
                memory.mem == old(memory.mem) && memory.lay == old(memory.lay) && memory.pmm.used == old(memory.pmm.used)
      ensures ok <==> && pml4 != 0 && addr % PAGE == 0 && bytes % PAGE == 0 && RangeOk(addr, bytes)
                      && forall k: nat :: k < bytes / PAGE ==> Discardable(old(memory.mem), pml4, table.vmas,
                                                                           addr + k * PAGE)
      ensures ok ==> && Cleared(old(memory.mem), memory.mem, memory.lay.lvl, pml4, addr, addr + bytes)
                     && Conserves(old(memory.lay), old(memory.pmm.used), memory.lay, memory.pmm.used, space)
                     && Kept(old(memory.mem), old(memory.pmm.used), memory.pmm.used, pml4, addr, addr + bytes)
    {
      if pml4 == 0 || addr % PAGE != 0 || bytes % PAGE != 0 {
        return false;
      }
      if !RangeOk(addr, bytes) {
        return false;
      }
      RangeOkMeans(addr, bytes);
      RootLevel(memory.mem, memory.lay, memory.pmm.used, memory.pmm.frames, pml4, space);
      var n := bytes / PAGE;
      ok := AllDiscardable(addr, n);
      if !ok {
        return;
      }
      ghost var mem0, lay0 := memory.mem, memory.lay;
      RangeDroppable(mem0, lay0, pml4, space, addr, n);
      DropRange(addr, n);
      ClearedSpace(mem0, lay0, memory.mem, memory.lay, table.vmas, table.holes, table.nextVa, sound, pml4, space, addr,
                   addr + bytes);
    }

    /** The validating loop of uvm_discard. */
    method AllDiscardable(addr: nat, n: nat) returns (ok: bool)
      requires Valid() && pml4 != 0
      ensures ok <==> forall k: nat :: k < n ==> Discardable(memory.mem, pml4, table.vmas, addr + k * PAGE)
    {
      hide VaSplit, Owned, Pmm.Represents, SpaceOk, Lookup, Taken, IsRoot;
      SpaceParts(memory.mem, memory.lay, pml4, space, table.vmas, table.holes, table.nextVa, sound);
      RootLevel(memory.mem, memory.lay, memory.pmm.used, memory.pmm.frames, pml4, space);
      var k := 0;
      while k < n
        invariant 0 <= k <= n
        invariant forall j: nat :: j < k ==> Discardable(memory.mem, pml4, table.vmas, addr + j * PAGE)
      {
        var v := table.VmaAt(addr + k * PAGE);
        if v.None? {
          assert !Discardable(memory.mem, pml4, table.vmas, addr + k * PAGE);
          return false;
        }
        var e := memory.EntryIn(pml4, addr + k * PAGE);
        if e.Some? && e.value.bits.shared {
          assert !Discardable(memory.mem, pml4, table.vmas, addr + k * PAGE);
          return false;
        }
        k := k + 1;
      }
      ok := true;
    }

    /** range_is_unmapped: no record and no translation anywhere in the range. */
    method RangeIsUnmapped(base: nat, bytes: nat) returns (ok: bool)
      requires Valid() && pml4 != 0 && bytes > 0 && bytes % PAGE == 0
      ensures ok <==> && (forall p: nat :: base <= p < base + bytes ==> !Taken(table.vmas, p))
                      && (forall k: nat :: k < bytes / PAGE ==> Translation(memory.mem, pml4, base + k * PAGE) == 0)
    {
      hide VaSplit, Owned, Pmm.Represents, SpaceOk, Lookup, Translation, Taken, IsRoot;
      SpaceParts(memory.mem, memory.lay, pml4, space, table.vmas, table.holes, table.nextVa, sound);
      RootLevel(memory.mem, memory.lay, memory.pmm.used, memory.pmm.frames, pml4, space);
      var hit := table.Overlaps(base, bytes);
      if hit {
        return false;
      }
      var k := 0;
      while k < bytes / PAGE
        invariant 0 <= k <= bytes / PAGE
        invariant forall j: nat :: j < k ==> Translation(memory.mem, pml4, base + j * PAGE) == 0
      {
        var t := memory.TranslateIn(pml4, base + k * PAGE);
        if t != 0 {
          return false;
        }
        k := k + 1;
      }
      ok := true;
    }

    /** uvm_reserve: record a range, at a fixed address or wherever the arena has
        room.  Nothing is mapped; a range from the arena holds no reservation and
        no page before. */
    method Reserve(addr: nat, bytes: nat, flags: Flags, fixed: bool) returns (base: nat)
      requires Valid() && addr < U64 && bytes < U64 && !flags.shared
      modifies table, this`sound
      ensures Valid()
      // the arena stays sound unless a fixed range takes what it may still hand out
      ensures sound == (old(sound) && (base != 0 && fixed ==> ClearOfArena(old(table.holes), old(table.nextVa), addr, bytes)))
      ensures pml4 != 0 && old(sound) ==> (sound <==> ArenaOk(table.vmas, table.holes, table.nextVa))
      ensures base == 0 ==>
                table.vmas == old(table.vmas) && table.holes == old(table.holes) && table.nextVa == old(table.nextVa)
      ensures base != 0 <==>
              && pml4 != 0 && 0 < bytes && bytes % PAGE == 0 && flags != NO_FLAGS && HasSlot(old(table.vmas))
                             && HasRoom(memory.mem, pml4, old(table.vmas), old(table.holes), old(table.nextVa), addr,
                                        bytes, fixed)
      ensures base != 0 ==>
                && (if fixed then base == addr && table.holes == old(table.holes) && table.nextVa == old(table.nextVa)
                    else ArenaPick(old(table.holes), old(table.nextVa), table.holes, table.nextVa, bytes, base))
                && base % PAGE == 0
                && (old(sound) || fixed ==>
                      && (forall p: nat :: base <= p < base + bytes ==> !Taken(old(table.vmas), p))
                      && (forall k: nat :: k < bytes / PAGE ==> Vacant(memory.mem, pml4, base + k * PAGE, fixed)))
                && (forall p: nat, f {:trigger Reserved(table.vmas, p, f)} ::
                      Reserved(table.vmas, p, f) <==> Reserved(old(table.vmas), p, f) || (base <= p < base + bytes && f == flags))
                && SpendsOne(old(table.vmas), table.vmas)
    {
      hide Translation, VaSplit, Lookup, Owned, Reserved, Taken, InHole, Pmm.Represents, RangeOk, Separate, HoleOk,
           Vacant, SpaceOk, TableOk,
           ArenaOk, ArenaForm, ClearOfArena, HasRoom, UserAddr, ArenaPick, SpendsOne;
      if pml4 == 0 || bytes == 0 || bytes % PAGE != 0 || flags == NO_FLAGS {
        SoundNow(memory.mem, memory.lay, pml4, space, table.vmas, table.holes, table.nextVa, sound);
        return 0;
      }
      SpaceParts(memory.mem, memory.lay, pml4, space, table.vmas, table.holes, table.nextVa, sound);
      SoundNow(memory.mem, memory.lay, pml4, space, table.vmas, table.holes, table.nextVa, sound);
      var slot := table.FreeSlot();
      if slot.None? {
        return 0;
      }
      ghost var v0 := table.vmas;
      base := Place(addr, bytes, fixed);
      if base == 0 {
        return 0;
      }
      AlignedSum(base, bytes);
      table.Insert(base, bytes, flags, slot.value);
      SpentOne(v0, table.vmas, slot.value);
      ReservedSpace(memory.mem, memory.lay, v0, table.vmas, table.holes, table.nextVa, pml4, space, base, bytes, flags,
                    sound);
      sound := sound && ClearOfArena(table.holes, table.nextVa, base, bytes);
    }

    /** Where uvm_reserve puts a range. */
    method Place(addr: nat, bytes: nat, fixed: bool) returns (base: nat)
      requires Valid() && pml4 != 0 && addr < U64 && 0 < bytes < U64 && bytes % PAGE == 0
      modifies table`holes, table`nextVa
      ensures Valid()
      ensures base == 0 || fixed ==> table.holes == old(table.holes) && table.nextVa == old(table.nextVa)
      ensures base != 0 <==>
              HasRoom(memory.mem, pml4, table.vmas, old(table.holes), old(table.nextVa), addr, bytes, fixed)
      ensures base != 0 ==>
                && (if fixed then base == addr && table.holes == old(table.holes) && table.nextVa == old(table.nextVa)
                    else ArenaPick(old(table.holes), old(table.nextVa), table.holes, table.nextVa, bytes, base))
                && base % PAGE == 0
                && (sound && !fixed ==> ClearOfArena(table.holes, table.nextVa, base, bytes))
                && (forall p: nat :: base <= p < base + bytes ==> UserAddr(space in memory.lay.priv, p))
                && (sound || fixed ==>
                      && (forall p: nat :: base <= p < base + bytes ==> !Taken(table.vmas, p))
                      && (forall k: nat :: k < bytes / PAGE ==> Vacant(memory.mem, pml4, base + k * PAGE, fixed)))
    {
      hide Translation, VaSplit, Lookup, Owned, Taken, InHole, Pmm.Represents, RangeOk, Separate, HoleOk, Vacant,
           TableOk, TableForm, ArenaForm;
      if fixed {
        if addr % PAGE != 0 || !RangeOk(addr, bytes) {
          return 0;
        }
        RangeOkMeans(addr, bytes);
        var free := RangeIsUnmapped(addr, bytes);
        if !free {
          return 0;
        }
        base := addr;
        FixedUser(memory.mem, memory.lay, pml4, space, addr, bytes);
        FixedVacant(memory.mem, pml4, base, bytes);
      } else {
        ghost var h0, n0 := table.holes, table.nextVa;
        FormParts(h0, n0);
        base := table.ArenaAlloc(bytes);
        Picked(h0, n0, table.holes, table.nextVa, bytes, base);
        if base == 0 {
          return 0;
        }
        if sound {
          ReservedUnmapped(memory.mem, pml4, table.vmas, base, bytes);
        }
      }
    }

    /** The committing loop of uvm_protect (and of uvm_buffer_ok): touch every
        page.  Pages that were present keep their entries whatever happens.  A call
        that fails has changed nothing exactly when it stopped at the first page that
        was not usable before; it stops there if that page was refused. */
    method CommitRange(addr: nat, n: nat, writable: bool) returns (ok: bool)
      requires Valid() && pml4 != 0 && addr % PAGE == 0 && addr + n * PAGE <= 0x1_0000_0000_0000
      modifies memory, memory.pmm, memory.pmm.bitmap
      ensures Valid()
      ensures LevelsKept(old(memory.lay).lvl, memory.lay.lvl) && memory.lay.priv == old(memory.lay).priv
      ensures Committed(old(memory.mem), memory.mem, old(memory.lay).lvl, pml4, table.vmas, addr, addr + n * PAGE)
      ensures Conserves(old(memory.lay), old(memory.pmm.used), memory.lay, memory.pmm.used, space)
      ensures ok ==> forall k: nat :: k < n ==> Usable(Lookup(memory.mem, pml4, VaSplit(addr + k * PAGE)), writable)
      ensures !ok ==>
                exists k: nat ::
                  k < n && Refuses(memory.mem, memory.pmm.used, memory.pmm.frames, table.vmas, pml4, addr + k * PAGE,
                                   writable)
      ensures FirstRefused(old(memory.mem), old(memory.pmm.used), memory.pmm.frames, table.vmas, pml4, addr, n,
                           writable) ==>
                !ok
      ensures !ok ==>
                (SameLeaves(old(memory.mem), memory.mem, old(memory.lay).lvl) <==>
                 FirstRefused(old(memory.mem), old(memory.pmm.used), memory.pmm.frames, table.vmas, pml4, addr, n,
                              writable))
    {
      hide VaSplit, Owned, Pmm.Represents, SpaceOk, Conserves, Lookup, Committed, Faulted, IsRoot, Usable, Refuses,
           FirstRefused, FirstAt, SameLeaves;
      ghost var mem0, lay0, u0, frames := memory.mem, memory.lay, memory.pmm.used, memory.pmm.frames;
      SpaceParts(memory.mem, memory.lay, pml4, space, table.vmas, table.holes, table.nextVa, sound);
      RootLevel(memory.mem, memory.lay, memory.pmm.used, memory.pmm.frames, pml4, space);
      ConservesSame(lay0, u0, space);
      CommittedSelf(mem0, lay0.lvl, pml4, table.vmas, addr, addr + n * PAGE);
      ghost var first: Option<nat> := None;
      var k := 0;
      while k < n
        invariant 0 <= k <= n && Valid()
        invariant LevelsKept(lay0.lvl, memory.lay.lvl) && memory.lay.priv == lay0.priv
        invariant Committed(mem0, memory.mem, lay0.lvl, pml4, table.vmas, addr, addr + n * PAGE)
        invariant Conserves(lay0, u0, memory.lay, memory.pmm.used, space)
        invariant forall j: nat :: j < k ==> Usable(Lookup(memory.mem, pml4, VaSplit(addr + j * PAGE)), writable)
        invariant first.None? ==> memory.mem == mem0 && memory.lay == lay0 && memory.pmm.used == u0
        invariant first.Some? ==>
                    && first.value < k && FirstAt(mem0, pml4, addr, first.value, writable)
                    && !Refuses(mem0, u0, frames, table.vmas, pml4, addr + first.value * PAGE, writable)
      {
        ghost var mem1, lay1, u1 := memory.mem, memory.lay, memory.pmm.used;
        PageAligned(addr, k);
        ok := FaultIn(addr + k * PAGE, writable);
        ConservesTrans(lay0, u0, lay1, u1, memory.lay, memory.pmm.used, space);
        CommittedStep(mem0, mem1, memory.mem, lay0.lvl, lay1.lvl, pml4, table.vmas, addr, n, k);
        UsableKept(mem1, memory.mem, lay1.lvl, pml4, table.vmas, addr, k, writable);
        if first.None? {
          FirstHere(mem0, u0, frames, table.vmas, pml4, addr, k, writable);
        }
        if !ok {
          if first.None? {
            FirstStops(mem0, u0, frames, table.vmas, pml4, addr, n, k, writable);
          } else {
            FirstDecides(mem0, u0, frames, table.vmas, pml4, addr, n, first.value, writable);
            FirstChanged(mem0, u0, frames, memory.mem, lay0.lvl, table.vmas, pml4, addr, first.value, writable);
          }
          return;
        }
        if first.None? && !Usable(Lookup(mem0, pml4, VaSplit(addr + k * PAGE)), writable) {
          first := Some(k);
        }
        k := k + 1;
      }
      if first.None? {
        NoneFirst(mem0, u0, frames, table.vmas, pml4, addr, n, writable);
      } else {
        FirstDecides(mem0, u0, frames, table.vmas, pml4, addr, n, first.value, writable);
      }
      ok := true;
    }

    /** uvm_buffer_ok: true only if every byte of the buffer can be accessed
        afterwards.  Whatever the answer, no present page changed. */
    method BufferOk(base: nat, bytes: nat, writable: bool) returns (ok: bool)
      requires Valid() && base < U64 && bytes < U64
      modifies memory, memory.pmm, memory.pmm.bitmap
      ensures Valid()
      ensures LevelsKept(old(memory.lay).lvl, memory.lay.lvl) && memory.lay.priv == old(memory.lay).priv
      ensures bytes == 0 ==> ok
      ensures ok && bytes > 0 ==>
                && pml4 != 0 && USER_VA_MIN <= base
                && (base + bytes <= USER_VA_MAX || (USER_STACK_LOW <= base && base + bytes <= USER_STACK_TOP))
                && forall x: nat :: base <= x < base + bytes ==> Usable(Lookup(memory.mem, pml4, VaSplit(x)), writable)
      ensures !ok && pml4 != 0 && BufferInRange(base, bytes) ==>
                exists p: nat :: PageIn(p, base, bytes) && Refuses(memory.mem, memory.pmm.used, memory.pmm.frames,
                                                                   table.vmas, pml4, p, writable)
      ensures pml4 != 0 ==>
                && Committed(old(memory.mem), memory.mem, old(memory.lay).lvl, pml4, table.vmas, base - base % PAGE,
                             base + bytes)
                && Conserves(old(memory.lay), old(memory.pmm.used), memory.lay, memory.pmm.used, space)
    {
      hide VaSplit, Owned, Pmm.Represents, SpaceOk, Conserves, Lookup, IsRoot, Committed, Usable, Refuses, FirstRefused,
           SameLeaves;
      ConservesSame(memory.lay, memory.pmm.used, space);
      CommittedSelf(memory.mem, memory.lay.lvl, pml4, table.vmas, base - base % PAGE, base + bytes);
      if bytes == 0 {
        return true;
      }
      if pml4 == 0 {
        return false;
      }
      var end := (base + bytes) % U64;
      Wrap(base, bytes);
      if base < USER_VA_MIN || end < base {
        return false;
      }
      var inGeneralRange := end <= USER_VA_MAX;
      var inStack := base >= USER_STACK_LOW && end <= USER_STACK_TOP;
      if !inGeneralRange && !inStack {
        return false;
      }
      var page := base - base % PAGE;
      var last := (end - 1) - (end - 1) % PAGE;
      PageCount(base, end);
      ghost var mem0, lvl0 := memory.mem, memory.lay.lvl;
      ok := CommitRange(page, (last - page) / PAGE + 1, writable);
      CommittedWithin(mem0, memory.mem, lvl0, pml4, table.vmas, page, last + PAGE, end);
      if ok {
        BufferUsable(memory.mem, pml4, page, (last - page) / PAGE + 1, base, end, writable);
      } else {
        BufferRefuses(memory.mem, memory.pmm.used, memory.pmm.frames, table.vmas, pml4, page, (last - page) / PAGE + 1,
                      base, bytes, writable);
      }
    }

    /** vmm_protect_in on a present page of the space. */
    method ProtectLeaf(virt: nat, flags: Flags)
      requires Valid() && pml4 != 0 && virt % PAGE == 0 && virt < USER_VA_MAX && virt >= USER_VA_MIN && !flags.shared
      requires Lookup(memory.mem, pml4, VaSplit(virt)).Some?
      modifies memory
      ensures Valid() && memory.lay.lvl == old(memory.lay).lvl && memory.lay.priv == old(memory.lay).priv
      ensures MapsOnePage(old(memory.mem), memory.mem, memory.lay.lvl, pml4, VaSplit(virt),
                          ProtectEntry(Lookup(old(memory.mem), pml4, VaSplit(virt)).value, flags))
      ensures Conserves(old(memory.lay), memory.pmm.used, memory.lay, memory.pmm.used, space)
    {
      ghost var mem0, lay0, u0, frames, va := memory.mem, memory.lay, memory.pmm.used, memory.pmm.frames, VaSplit(virt);
      PresentUser(mem0, lay0, pml4, space, virt);
      hide VaSplit, Frames, Owned, MapsPage, MapsOnePage, Pmm.Represents, Conserves, SpaceOk, Lookup, PageSet;
      SpaceParts(mem0, lay0, pml4, space, table.vmas, table.holes, table.nextVa, sound);
      RootLevel(mem0, lay0, u0, frames, pml4, space);
      PageSlot(mem0, lay0, u0, frames, pml4, space, va);
      ghost var e := ProtectEntry(Lookup(mem0, pml4, va).value, flags);
      var _ := memory.ProtectIn(pml4, virt, flags);
      RootKeptPlain(mem0, lay0, u0, memory.mem, memory.lay, frames, space, pml4);
      Reprotected(mem0, lay0, u0, memory.mem, memory.lay, frames, space, va, e);
      SpaceKept(mem0, lay0, memory.mem, memory.lay, pml4, space, table.vmas, table.holes, table.nextVa, sound, virt, e);
    }

    /** The second loop of uvm_protect. */
    method ProtectRange(addr: nat, n: nat, flags: Flags)
      requires Valid() && pml4 != 0 && addr % PAGE == 0 && USER_VA_MIN <= addr && addr + n * PAGE <= USER_VA_MAX
      requires !flags.shared
      requires forall k: nat :: k < n ==> Lookup(memory.mem, pml4, VaSplit(addr + k * PAGE)).Some?
      modifies memory
      ensures Valid() && memory.lay.lvl == old(memory.lay).lvl && memory.lay.priv == old(memory.lay).priv
      ensures Repermissioned(old(memory.mem), memory.mem, memory.lay.lvl, pml4, flags, addr, addr + n * PAGE)
      ensures Conserves(old(memory.lay), memory.pmm.used, memory.lay, memory.pmm.used, space)
    {
      hide VaSplit, Owned, Pmm.Represents, SpaceOk, Conserves, Lookup, IsRoot, MapsOnePage, Repermissioned;
      ghost var mem0, lay0, u0 := memory.mem, memory.lay, memory.pmm.used;
      SpaceParts(memory.mem, memory.lay, pml4, space, table.vmas, table.holes, table.nextVa, sound);
      RootLevel(memory.mem, memory.lay, memory.pmm.used, memory.pmm.frames, pml4, space);
      ConservesSame(lay0, u0, space);
      RepermissionedNone(mem0, lay0.lvl, pml4, flags, addr);
      var k := 0;
      while k < n
        invariant 0 <= k <= n && Valid()
        invariant memory.lay.lvl == lay0.lvl && memory.lay.priv == lay0.priv && memory.pmm.used == u0
        invariant Repermissioned(mem0, memory.mem, lay0.lvl, pml4, flags, addr, addr + k * PAGE)
        invariant Conserves(lay0, u0, memory.lay, u0, space)
      {
        ghost var mem1, lay1 := memory.mem, memory.lay;
        PageAligned(addr, k);
        RepermissionedAt(mem0, mem1, lay0.lvl, pml4, flags, addr, k);
        ProtectLeaf(addr + k * PAGE, flags);
        ConservesTrans(lay0, u0, lay1, u0, memory.lay, u0, space);
        RepermissionedStep(mem0, mem1, memory.mem, lay0.lvl, pml4, flags, addr, k);
        k := k + 1;
      }
    }

    /** uvm_protect: commit every page, then change permissions.  On failure no
        present entry has changed (pages committed on the way stay committed);
        on success every page of the range carries the new permissions on the
        frame it had or was just given, and nothing outside changed. */
    method Protect(addr: nat, bytes: nat, flags: Flags) returns (ok: bool)
      requires Valid() && addr < U64 && bytes < U64 && !flags.shared
      modifies memory, memory.pmm, memory.pmm.bitmap
      ensures Valid()
      ensures LevelsKept(old(memory.lay).lvl, memory.lay.lvl) && memory.lay.priv == old(memory.lay).priv
      ensures ok ==> pml4 != 0 && addr % PAGE == 0 && bytes % PAGE == 0 && RangeOk(addr, bytes) && flags != NO_FLAGS
      ensures !ok && pml4 != 0 ==>
                Committed(old(memory.mem), memory.mem, old(memory.lay).lvl, pml4, table.vmas, addr, addr + bytes)
      // a failed call changed nothing exactly when the first page that was not usable was refused
      ensures !ok && pml4 != 0 && addr % PAGE == 0 && bytes % PAGE == 0 && RangeOk(addr, bytes) && flags != NO_FLAGS ==>
                && (exists k: nat ::
                      k < bytes / PAGE && Refuses(memory.mem, memory.pmm.used, memory.pmm.frames, table.vmas, pml4,
                                                  addr + k * PAGE, false))
                && (SameLeaves(old(memory.mem), memory.mem, old(memory.lay).lvl) <==>
                    FirstRefused(old(memory.mem), old(memory.pmm.used), memory.pmm.frames, table.vmas, pml4, addr,
                                 bytes / PAGE, false))
      ensures FirstRefused(old(memory.mem), old(memory.pmm.used), memory.pmm.frames, table.vmas, pml4, addr,
                           bytes / PAGE, false) ==>
                !ok
      ensures ok ==>
                CommitThenProtect(old(memory.mem), old(memory.lay).lvl, memory.mem, memory.lay.lvl, pml4, table.vmas,
                                  flags, addr, addr + bytes)
      // every page keeps its frame, or has a fresh one, and has the permissions asked for
      ensures ok ==>
                forall k: nat :: k < bytes / PAGE ==> PageProtected(old(memory.mem), memory.mem, pml4, addr + k * PAGE, flags)
      ensures Conserves(old(memory.lay), old(memory.pmm.used), memory.lay, memory.pmm.used, space)
    {
      hide VaSplit, Owned, Pmm.Represents, SpaceOk, Conserves, Lookup, IsRoot, Committed, Repermissioned, Refuses,
           FirstRefused, SameLeaves, PageProtected;
      ghost var mem0, lay0, u0 := memory.mem, memory.lay, memory.pmm.used;
      ConservesSame(lay0, u0, space);
      CommittedSelf(mem0, lay0.lvl, pml4, table.vmas, addr, addr + bytes);
      if pml4 == 0 || addr % PAGE != 0 || bytes % PAGE != 0 || flags == NO_FLAGS {
        return false;
      }
      if !RangeOk(addr, bytes) {
        return false;
      }
      RangeOkMeans(addr, bytes);
      var n := bytes / PAGE;
      assert bytes == n * PAGE;
      ok := CommitRange(addr, n, false);
      if !ok {
        return;
      }
      ghost var mid, lay1, u1 := memory.mem, memory.lay, memory.pmm.used;
      ProtectRange(addr, n, flags);
      ConservesTrans(lay0, u0, lay1, u1, memory.lay, memory.pmm.used, space);
      SpaceParts(mem0, lay0, pml4, space, table.vmas, table.holes, table.nextVa, sound);
      RootLevel(mem0, lay0, u0, memory.pmm.frames, pml4, space);
      AllProtected(mem0, lay0, mid, memory.mem, memory.lay, memory.pmm.used, memory.pmm.frames, pml4, table.vmas, flags,
                   addr, n);
    }

    /** One page of sys_shmem_share: lend the frame behind `src` to the space of
        `borrower` (which may be the caller's own), where it will be mapped without
        being owned.  A page that stood at the target is replaced, so frames are
        conserved exactly when no private page stood there. */
    method Lend(src: nat, borrower: nat, target: nat, ghost b: nat) returns (ok: bool)
      requires Valid() && pml4 != 0 && src % PAGE == 0
      requires IsRoot(memory.lay, borrower, b) && SHMEM_BASE <= target < USER_VA_MAX && target % PAGE == 0
      modifies memory, memory.pmm, memory.pmm.bitmap
      ensures Valid() && memory.lay.priv == old(memory.lay).priv && LevelsKept(old(memory.lay).lvl, memory.lay.lvl)
      ensures IsRoot(memory.lay, borrower, b) && old(memory.pmm.used) <= memory.pmm.used
      ensures if ok then
                MapsOnePage(old(memory.mem), memory.mem, old(memory.lay).lvl, borrower, VaSplit(target),
                            MapEntry(Translation(old(memory.mem), pml4, src), SHARE_FLAGS))
              else SameLeaves(old(memory.mem), memory.mem, old(memory.lay).lvl)
      // readable, writable and borrowed
      ensures ok ==> Carries(Lookup(memory.mem, borrower, VaSplit(target)), Translation(old(memory.mem), pml4, src) / 4096,
                             Flags(true, true, true, false, true, false, 0), true)
      ensures ok <==> var phys := Translation(old(memory.mem), pml4, src);
                0 < phys < 0x8000_0000_0000 && Affordable(old(memory.mem), old(memory.pmm.used), memory.pmm.frames,
                                                          borrower, VaSplit(target))
      ensures forall c :: c != b ==> Frames(memory.lay, c) == Frames(old(memory.lay), c)
      ensures memory.pmm.used - Frames(memory.lay, b) ==
                old(memory.pmm.used) - Frames(old(memory.lay), b) + (if ok then Replaced(old(memory.mem), borrower, target) else {})
      ensures Conserves(old(memory.lay), old(memory.pmm.used), memory.lay, memory.pmm.used, b) <==>
              !ok || Borrowable(old(memory.mem), borrower, target)
    {
      hide VaSplit, Frames, Owned, MapsPage, MapsOnePage, SameLeaves, Pmm.Represents, SpaceOk, Translation, Lookup,
           UserPath, Conserves,
           Affordable, Need, Spent, Borrowable, Replaced, PageSet, PagesKept, TablesGrown, NewOwned, Grown, DataKept, TopsKept,
           LinksKept, CpuWrites;
      ghost var mem0, lay0, u0, frames := memory.mem, memory.lay, memory.pmm.used, memory.pmm.frames;
      ghost var va := VaSplit(target);
      SpaceParts(mem0, lay0, pml4, space, table.vmas, table.holes, table.nextVa, sound);
      RootLevel(mem0, lay0, u0, frames, pml4, space);
      RootLevel(mem0, lay0, u0, frames, borrower, b);
      UserAddrPage(lay0, b, target);
      LeavesSelf(mem0, lay0.lvl);
      var phys := memory.TranslateIn(pml4, src);
      if phys == 0 {
        ConservesSame(lay0, u0, b);
        LendNothing(lay0, u0, b);
        return false;
      }
      ok := memory.MapIn(borrower, target, phys, SHARE_FLAGS, b);
      ghost var e := MapEntry(phys, SHARE_FLAGS);
      SamePriv(lay0, u0, memory.lay, memory.pmm.used, b);
      LendBooks(mem0, lay0, u0, memory.mem, memory.lay, memory.pmm.used, frames, borrower, b, target, e, ok);
      RootKept(mem0, lay0, u0, memory.mem, memory.lay, memory.pmm.used, frames, b, borrower);
      LendKept(mem0, lay0, u0, memory.mem, memory.lay, memory.pmm.used, frames, pml4, space, borrower, b, table.vmas,
               table.holes, table.nextVa,
               sound, target, e, ok);
    }

    /** Lending a private page and releasing it afterwards leaves the borrower
        with a page whose frame is back in the allocator: uvm_release does not
        look at shmem_shared_out.  It happens whenever both calls succeed. */
    method LendThenRelease(src: nat, borrower: nat, target: nat, ghost b: nat) returns (ok: bool)
      requires Valid() && pml4 != 0 && src % PAGE == 0 && src < U64 && RangeOk(src, PAGE)
      requires Lookup(memory.mem, pml4, VaSplit(src)).Some? && !Lookup(memory.mem, pml4, VaSplit(src)).value.bits.shared
      requires IsRoot(memory.lay, borrower, b) && b != space && SHMEM_BASE <= target < USER_VA_MAX && target % PAGE == 0
      modifies memory, memory.pmm, memory.pmm.bitmap, table, this`sound
      ensures Valid()
      ensures ok <==> && Affordable(old(memory.mem), old(memory.pmm.used), memory.pmm.frames, borrower, VaSplit(target))
                      && !((forall k :: 0 <= k < MAX_VMAS ==> old(table.vmas)[k].used) &&
                           exists k :: 0 <= k < MAX_VMAS && StrictlyInside(old(table.vmas)[k], src, src + PAGE))
      ensures ok ==> && Lookup(memory.mem, borrower, VaSplit(target)).Some?
                     && Lookup(memory.mem, borrower, VaSplit(target)).value.frame !in memory.pmm.used
    {
      hide Frames, Owned, Pmm.Represents, SpaceOk, Conserves, Reserved, TableOk, ArenaOk, StrictlyInside, Kept, Cleared,
           MapsOnePage, Storable,
           ArenaAbove, Affordable, Lookup, Translation, VaSplit, SameLeaves, UserAddr, Borrowable, Replaced, HoleRecorded, RangeOk;
      ghost var mem0, lay0, u0 := memory.mem, memory.lay, memory.pmm.used;
      SpaceParts(mem0, lay0, pml4, space, table.vmas, table.holes, table.nextVa, sound);
      RootLevel(mem0, lay0, u0, memory.pmm.frames, pml4, space);
      RootLevel(mem0, lay0, u0, memory.pmm.frames, borrower, b);
      RangeOkMeans(src, PAGE);
      PrivateAddress(mem0, lay0, u0, memory.pmm.frames, pml4, space, table.vmas, table.holes, table.nextVa, sound, src);
      ok := Lend(src, borrower, target, b);
      if !ok {
        return;
      }
      ghost var mem1, u1, lay1 := memory.mem, memory.pmm.used, memory.lay;
      Lent(mem0, mem1, lay0.lvl, pml4, borrower, src, target);
      ok := Release(src, PAGE);
      if ok {
        LentFreed(mem1, memory.mem, u1, memory.pmm.used, lay1.lvl, pml4, borrower, src, target);
      }
    }
  }

  /** The frame of the private page that a mapping at p would replace. */
  ghost function Replaced(mem: Ram, root: nat, p: nat): set<nat>
  {
    var e := Lookup(mem, root, VaSplit(p));
    if e.Some? && !e.value.bits.shared then {e.value.frame} else {}
  }

  lemma LendNothing(lay: Layout, used: set<nat>, b: nat)
    ensures used - Frames(lay, b) == used - Frames(lay, b) + {}
  {
  }

  /** Whose frames move when a borrowed entry is stored. */
  lemma LendBooks(mem0: Ram, lay0: Layout, u0: set<nat>, mem1: Ram, lay1: Layout, u1: set<nat>, frames: nat,
                  root: nat, b: nat, target: nat, e: Entry, ok: bool)
    requires Owned(mem0, lay0, u0, frames) && Owned(mem1, lay1, u1, frames) && IsRoot(lay0, root, b)
    requires UserPage(lay0, b, VaSplit(target))
    requires TablesGrown(lay0, u0, lay1, u1, b) && NewOwned(lay0, lay1) && !Owns(1, e)
    requires if ok then PageSet(lay0, lay1, Slot(b, VaSplit(target)), e) else PagesKept(lay0, lay1)
    ensures u0 <= u1 && forall c :: c != b ==> Frames(lay1, c) == Frames(lay0, c)
    ensures u1 - Frames(lay1, b) == u0 - Frames(lay0, b) + (if ok then Replaced(mem0, root, target) else {})
    ensures Conserves(lay0, u0, lay1, u1, b) <==> !ok || Borrowable(mem0, root, target)
  {
    forall f
      ensures f in lay0.own ==> f in u0
    {
      assert FrameOK(lay0, u0, frames, f);
    }
    ReplacedSlot(mem0, lay0, u0, frames, root, b, target);
    assert u0 <= u1;
    if ok {
      FramesMapped(mem0, lay0, u0, mem1, lay1, u1, frames, b, Slot(b, VaSplit(target)), e);
    } else {
      FramesGrown(mem0, lay0, u0, mem1, lay1, u1, frames, b);
    }
    hide Owned, TablesGrown, NewOwned, PageSet, PagesKept, UserPage, VaSplit;
    BooksBalance(lay0, u0, lay1, u1, b, if ok then Replaced(mem0, root, target) else {});
  }

  lemma ReplacedSlot(mem: Ram, lay: Layout, used: set<nat>, frames: nat, root: nat, b: nat, target: nat)
    requires Owned(mem, lay, used, frames) && IsRoot(lay, root, b) && UserPage(lay, b, VaSplit(target))
    ensures Replaced(mem, root, target) == if Slot(b, VaSplit(target)) in lay.at then {lay.at[Slot(b, VaSplit(target))]}
        else {}
    ensures Replaced(mem, root, target) <= Frames(lay, b)
    ensures (Replaced(mem, root, target) == {} <==> Borrowable(mem, root, target))
  {
    if Lookup(mem, root, VaSplit(target)).None? {
      UnmappedSlot(mem, lay, used, frames, root, b, VaSplit(target));
    } else {
      PageSlot(mem, lay, used, frames, root, b, VaSplit(target));
      assert SlotOK(mem, lay, Slot(b, VaSplit(target)));
    }
  }

  lemma BooksBalance(lay0: Layout, u0: set<nat>, lay1: Layout, u1: set<nat>, b: nat, lost: set<nat>)
    requires u0 <= u1 && Frames(lay0, b) <= u0 && lost <= Frames(lay0, b)
    requires Frames(lay1, b) == Frames(lay0, b) - lost + (u1 - u0)
    requires forall c :: c != b ==> Frames(lay1, c) == Frames(lay0, c)
    ensures u1 - Frames(lay1, b) == u0 - Frames(lay0, b) + lost
    ensures Conserves(lay0, u0, lay1, u1, b) <==> lost == {}
  {
    hide Frames;
    assert u1 - Frames(lay1, b) == u0 - Frames(lay0, b) + lost;
    if lost != {} {
      var f :| f in lost;
      assert f in u1 - Frames(lay1, b) && f !in u0 - Frames(lay0, b);
    }
  }

  /** The lender's own invariant, also when it lends to itself. */
  lemma LendKept(mem0: Ram, lay0: Layout, u0: set<nat>, mem1: Ram, lay1: Layout, u1: set<nat>, frames: nat, root: nat,
                 a: nat, borrower: nat, b: nat,
                 vmas: seq<Vma>, holes: seq<Hole>, next: nat, sound: bool, target: nat, e: Entry, ok: bool)
    requires Owned(mem0, lay0, u0, frames) && Owned(mem1, lay1, u1, frames) && TablesGrown(lay0, u0, lay1, u1, b)
    requires SpaceOk(mem0, lay0, root, a, vmas, holes, next, sound) && IsRoot(lay0, borrower, b)
    requires SHMEM_BASE <= target < USER_VA_MAX && target % PAGE == 0
    requires if ok then MapsOnePage(mem0, mem1, lay0.lvl, borrower, VaSplit(target), e)
        else SameLeaves(mem0, mem1, lay0.lvl)
    ensures SpaceOk(mem1, lay1, root, a, vmas, holes, next, sound)
  {
    hide Owned, SpaceOk, TablesGrown, MapsOnePage, SameLeaves, VaSplit, Lookup;
    SpaceParts(mem0, lay0, root, a, vmas, holes, next, sound);
    RootLevel(mem0, lay0, u0, frames, root, a);
    OtherRootKept(mem0, lay0, u0, mem1, lay1, u1, frames, b, a, root);
    SamePriv(lay0, u0, lay1, u1, b);
    if ok && borrower == root {
      SpaceKept(mem0, lay0, mem1, lay1, root, a, vmas, holes, next, sound, target, e);
    } else {
      RootReads(mem0, mem1, lay0.lvl, root, borrower, VaSplit(target), e);
      SpaceSame(mem0, lay0, mem1, lay1, root, a, vmas, holes, next, sound);
    }
  }

  lemma SamePriv(lay0: Layout, u0: set<nat>, lay1: Layout, u1: set<nat>, b: nat)
    requires TablesGrown(lay0, u0, lay1, u1, b)
    ensures lay1.priv == lay0.priv
  {
  }

  /** A private page has a frame, and its address fits an entry. */
  lemma PrivateAddress(mem: Ram, lay: Layout, used: set<nat>, frames: nat, root: nat, a: nat, vmas: seq<Vma>,
                       holes: seq<Hole>, next: nat, sound: bool, p: nat)
    requires Owned(mem, lay, used, frames) && frames <= MAX_FRAMES
    requires SpaceOk(mem, lay, root, a, vmas, holes, next, sound)
    requires p % PAGE == 0 && USER_VA_MIN <= p < USER_VA_MAX && Lookup(mem, root, VaSplit(p)).Some?
    requires !Lookup(mem, root, VaSplit(p)).value.bits.shared
    ensures 0 < Translation(mem, root, p) < 0x8000_0000_0000
  {
    PresentUser(mem, lay, root, a, p);
    PageSlot(mem, lay, used, frames, root, a, VaSplit(p));
    assert SlotOK(mem, lay, Slot(a, VaSplit(p)));
    assert FrameOK(lay, used, frames, Lookup(mem, root, VaSplit(p)).value.frame);
    TranslatedFrame(mem, root, p);
  }

  /** The page is unmapped, or borrowed already. */
  ghost predicate Borrowable(mem: Ram, root: nat, p: nat)
  {
    var e := Lookup(mem, root, VaSplit(p));
    e.Some? ==> e.value.bits.shared
  }

  lemma Lent(mem0: Ram, mem1: Ram, lvl: map<nat, nat>, root: nat, borrower: nat, src: nat, target: nat)
    requires root in lvl && lvl[root] == 4 && borrower in lvl && lvl[borrower] == 4 && root != borrower
    requires src % PAGE == 0 && Lookup(mem0, root, VaSplit(src)).Some?
    requires MapsOnePage(mem0, mem1, lvl, borrower, VaSplit(target),
                         MapEntry(Translation(mem0, root, src), SHARE_FLAGS))
    ensures Lookup(mem1, root, VaSplit(src)) == Lookup(mem0, root, VaSplit(src))
    ensures Lookup(mem1, borrower, VaSplit(target)).Some?
    ensures Lookup(mem1, borrower, VaSplit(target)).value.frame == Lookup(mem0, root, VaSplit(src)).value.frame
  {
    TranslatedFrame(mem0, root, src);
  }

  lemma LentFreed(mem1: Ram, mem2: Ram, u1: set<nat>, u2: set<nat>, lvl: map<nat, nat>, root: nat, borrower: nat,
                  src: nat, target: nat)
    requires root in lvl && lvl[root] == 4 && borrower in lvl && lvl[borrower] == 4 && root != borrower
    requires src % PAGE == 0 && src < USER_VA_MAX
    requires Lookup(mem1, root, VaSplit(src)).Some? && !Lookup(mem1, root, VaSplit(src)).value.bits.shared
    requires Cleared(mem1, mem2, lvl, root, src, src + PAGE) && Kept(mem1, u1, u2, root, src, src + PAGE)
    ensures Lookup(mem2, borrower, VaSplit(target)) == Lookup(mem1, borrower, VaSplit(target))
    ensures Lookup(mem1, root, VaSplit(src)).value.frame !in u2
  {
    SplitJoin(src);
    assert Releases(mem1, root, src, src + PAGE, Lookup(mem1, root, VaSplit(src)).value.frame);
  }

  lemma SpaceParts(mem: Ram, lay: Layout, root: nat, a: nat, vmas: seq<Vma>, holes: seq<Hole>, next: nat, sound: bool)
    requires SpaceOk(mem, lay, root, a, vmas, holes, next, sound)
    ensures IsRoot(lay, root, a) && TableForm(vmas) && |vmas| == MAX_VMAS && ArenaForm(holes, next)
  {
  }

  lemma ReservedOk(vmas: seq<Vma>, p: nat, f: Flags)
    requires TableForm(vmas) && Reserved(vmas, p, f)
    ensures !f.shared
  {
  }

  lemma FreshEntry(mem: Ram, mem': Ram, lvl: map<nat, nat>, root: nat, vmas: seq<Vma>, page: nat, f: nat, flags: Flags)
    requires Fresh(mem, mem', lvl, root, vmas, page, f, flags) && root in lvl && lvl[root] == 4
    ensures Lookup(mem', root, VaSplit(page)) == Some(MapEntry(f * 4096, flags))
    ensures Faulted(mem, mem', lvl, root, vmas, page)
  {
  }

  lemma FaultedSame(mem: Ram, mem': Ram, lvl: map<nat, nat>, root: nat, vmas: seq<Vma>, page: nat)
    requires SameLeaves(mem, mem', lvl)
    ensures Faulted(mem, mem', lvl, root, vmas, page)
  {
  }

  lemma StillNone(mem: Ram, mem': Ram, lvl: map<nat, nat>, root: nat, page: nat)
    requires SameLeaves(mem, mem', lvl) && root in lvl && lvl[root] == 4 && Lookup(mem, root, VaSplit(page)).None?
    ensures Lookup(mem', root, VaSplit(page)).None?
  {
  }

  // ---- lemmas about one mapping ------------------------------------------------

  lemma RootLevel(mem: Ram, lay: Layout, used: set<nat>, frames: nat, root: nat, a: nat)
    requires Owned(mem, lay, used, frames) && IsRoot(lay, root, a)
    ensures root in lay.lvl && lay.lvl[root] == 4 && root in mem
  {
    assert FrameOK(lay, used, frames, root) && SlotOK(mem, lay, Slot(a, []));
  }

  lemma OpenSpace(mem: Ram, lay: Layout, used: set<nat>, frames: nat, root: nat, a: nat,
                  vmas: seq<Vma>, holes: seq<Hole>, next: nat, sound: bool, page: nat, flags: Flags)
    requires Owned(mem, lay, used, frames) && SpaceOk(mem, lay, root, a, vmas, holes, next, sound)
    requires Reserved(vmas, page, flags)
    ensures IsRoot(lay, root, a) && root in lay.lvl && lay.lvl[root] == 4
    ensures Taken(vmas, page) && UserAddr(a in lay.priv, page) && UserPage(lay, a, VaSplit(page))
  {
    RootLevel(mem, lay, used, frames, root, a);
    var i :| 0 <= i < |vmas| && Covers(vmas[i], page) && vmas[i].flags == flags;
    assert Taken(vmas, page);
    UserAddrPage(lay, a, page);
  }

  lemma TakeFrame(mem: Ram, lay: Layout, used: set<nat>, frames: nat, a: nat, f: nat)
    requires Owned(mem, lay, used, frames) && f !in used
    ensures Accounted(lay, used + {f}, lay, used - Frames(lay, a), a, {f})
  {
    OwnedUsed(mem, lay, used, frames, a);
  }

  lemma GiveBack(lay: Layout, used: set<nat>, l0: Layout, base: set<nat>, a: nat, f: nat)
    requires Accounted(lay, used, l0, base, a, {f})
    ensures Accounted(lay, used - {f}, l0, base, a, {})
  {
  }

  lemma LeavesSelf(mem: Ram, lvl: map<nat, nat>)
    ensures SameLeaves(mem, mem, lvl)
  {
  }

  lemma LeavesTrans(m0: Ram, m1: Ram, m2: Ram, lvl: map<nat, nat>)
    requires SameLeaves(m0, m1, lvl) && SameLeaves(m1, m2, lvl)
    ensures SameLeaves(m0, m2, lvl)
  {
    forall r, va | r in lvl && lvl[r] == 4 && IsPage(va)
      ensures Lookup(m2, r, va) == Lookup(m0, r, va) && HugeEntry(m2, r, va) == HugeEntry(m0, r, va)
    {
      assert Lookup(m1, r, va) == Lookup(m0, r, va) && HugeEntry(m1, r, va) == HugeEntry(m0, r, va);
    }
  }

  /** Two page addresses below 2^48 have different indices. */
  lemma PagesDiffer(p: nat, q: nat)
    requires p < 0x1_0000_0000_0000 && q < 0x1_0000_0000_0000 && p % PAGE == 0 && q % PAGE == 0
    ensures VaSplit(p) == VaSplit(q) <==> p == q
  {
    SplitJoin(p);
    SplitJoin(q);
  }

  lemma SpaceKept(mem: Ram, lay: Layout, mem': Ram, lay': Layout, root: nat, a: nat,
                  vmas: seq<Vma>, holes: seq<Hole>, next: nat, sound: bool, page: nat, e: Entry)
    requires SpaceOk(mem, lay, root, a, vmas, holes, next, sound) && root in lay.lvl && lay.lvl[root] == 4
    requires IsRoot(lay', root, a) && lay'.priv == lay.priv
    requires MapsOnePage(mem, mem', lay.lvl, root, VaSplit(page), e)
    requires UserAddr(a in lay.priv, page) && page % PAGE == 0
    requires e.bits.present ==>
               Taken(vmas, page) || Lookup(mem, root, VaSplit(page)).Some? || !(MMAP_BASE <= page < MMAP_LIMIT)
    ensures SpaceOk(mem', lay', root, a, vmas, holes, next, sound)
  {
    if a !in lay.priv {
      forall p: nat {:trigger LowClosed(mem', root, p)} | USER_VA_MIN <= p < GIB && p % PAGE == 0
        ensures LowClosed(mem', root, p)
      {
        assert LowClosed(mem, root, p);
        PagesDiffer(p, page);
        assert HugeEntry(mem', root, VaSplit(p)) == HugeEntry(mem, root, VaSplit(p));
      }
    }
    forall p: nat | sound && MMAP_BASE <= p < MMAP_LIMIT && p % PAGE == 0 && Lookup(mem', root, VaSplit(p)).Some?
      ensures Taken(vmas, p)
    {
      PagesDiffer(p, page);
    }
  }

  /** A space whose own flat map reads as before keeps its invariant: nothing
      another process does can break it. */
  lemma SpaceSame(mem: Ram, lay: Layout, mem': Ram, lay': Layout, root: nat, a: nat,
                  vmas: seq<Vma>, holes: seq<Hole>, next: nat, sound: bool)
    requires SpaceOk(mem, lay, root, a, vmas, holes, next, sound) && root in lay.lvl && lay.lvl[root] == 4
    requires IsRoot(lay', root, a) && (a in lay'.priv <==> a in lay.priv)
    requires forall q {:trigger Lookup(mem', root, q)} {:trigger HugeEntry(mem', root, q)} :: IsPage(q) ==>
               Lookup(mem', root, q) == Lookup(mem, root, q) && HugeEntry(mem', root, q) == HugeEntry(mem, root, q)
    ensures SpaceOk(mem', lay', root, a, vmas, holes, next, sound)
  {
    if a !in lay.priv {
      forall p: nat {:trigger LowClosed(mem', root, p)} | USER_VA_MIN <= p < GIB && p % PAGE == 0
        ensures LowClosed(mem', root, p)
      {
        assert LowClosed(mem, root, p);
        assert HugeEntry(mem', root, VaSplit(p)) == HugeEntry(mem, root, VaSplit(p));
      }
    }
  }

  /** The flat map of `root` when no leaf changed, or only one of another root. */
  lemma RootReads(mem: Ram, mem': Ram, lvl: map<nat, nat>, root: nat, other: nat, va: seq<nat>, e: Entry)
    requires root in lvl && lvl[root] == 4 && IsPage(va)
    requires SameLeaves(mem, mem', lvl) || (other != root && MapsOnePage(mem, mem', lvl, other, va, e))
    ensures forall q {:trigger Lookup(mem', root, q)} {:trigger HugeEntry(mem', root, q)} :: IsPage(q) ==>
              Lookup(mem', root, q) == Lookup(mem, root, q) && HugeEntry(mem', root, q) == HugeEntry(mem, root, q)
  {
  }

  /** The frame that dropping a leaf returns. */
  function Returned(e: Option<Entry>): set<nat>
  {
    if e.Some? && !e.value.bits.shared then {e.value.frame} else {}
  }

  lemma ConservesSame(lay: Layout, used: set<nat>, a: nat)
    ensures Conserves(lay, used, lay, used, a)
  {
  }

  lemma NothingMapped(mem: Ram, lvl: map<nat, nat>, root: nat, va: seq<nat>)
    requires IsPage(va) && Lookup(mem, root, va).None?
    ensures MapsOnePage(mem, mem, lvl, root, va, ZERO_ENTRY)
  {
  }

  /** A mapped user page has a leaf table, and owns its frame iff not borrowed. */
  lemma PageSlot(mem: Ram, lay: Layout, used: set<nat>, frames: nat, root: nat, a: nat, va: seq<nat>)
    requires Owned(mem, lay, used, frames) && IsRoot(lay, root, a) && IsPage(va) && UserPage(lay, a, va)
    requires Lookup(mem, root, va).Some?
    ensures var e := Lookup(mem, root, va).value;
            && (Slot(a, va) in lay.at <==> !e.bits.shared)
            && (Slot(a, va) in lay.at ==> lay.at[Slot(a, va)] == e.frame)
  {
    RootLevel(mem, lay, used, frames, root, a);
    LeafTableSlot(mem, lay, used, frames, root, va);
    assert CellOK(mem, lay, LeafTable(mem, root, va).value, va[3]);
    assert va == va[..3] + [va[3]];
  }

  lemma OtherRootKept(mem0: Ram, lay0: Layout, u0: set<nat>, mem1: Ram, lay1: Layout, u1: set<nat>, frames: nat, b: nat,
                      a: nat, root: nat)
    requires Owned(mem0, lay0, u0, frames) && Owned(mem1, lay1, u1, frames)
    requires TablesGrown(lay0, u0, lay1, u1, b) && IsRoot(lay0, root, a)
    ensures IsRoot(lay1, root, a)
  {
    assert FrameOK(lay0, u0, frames, root) && SlotOK(mem1, lay1, Slot(a, []));
  }

  lemma TranslatedFrame(mem: Ram, root: nat, virt: nat)
    requires virt % PAGE == 0 && Lookup(mem, root, VaSplit(virt)).Some?
    ensures Translation(mem, root, virt) / 4096 == Lookup(mem, root, VaSplit(virt)).value.frame
  {
  }

  lemma RootKeptPlain(mem0: Ram, lay0: Layout, u0: set<nat>, mem1: Ram, lay1: Layout, frames: nat, a: nat, root: nat)
    requires Owned(mem0, lay0, u0, frames) && Owned(mem1, lay1, u0, frames)
    requires TablesGrown(lay0, u0, lay1, u0, 0) && IsRoot(lay0, root, a)
    ensures IsRoot(lay1, root, a)
  {
    assert FrameOK(lay0, u0, frames, root) && SlotOK(mem1, lay1, Slot(a, []));
  }

  /** After an unmap the private frame belongs to nobody, and returning it is
      conservative. */
  lemma Unlinked(mem0: Ram, lay0: Layout, u0: set<nat>, mem1: Ram, lay1: Layout, frames: nat, a: nat, va: seq<nat>,
                 e: Entry)
    requires Owned(mem0, lay0, u0, frames) && Owned(mem1, lay1, u0, frames) && IsPage(va)
    requires lay1.lvl == lay0.lvl && TablesGrown(lay0, u0, lay1, u0, 0)
    requires PageSet(lay0, lay1, Slot(a, va), ZERO_ENTRY)
    requires Slot(a, va) in lay0.at <==> !e.bits.shared
    requires Slot(a, va) in lay0.at ==> lay0.at[Slot(a, va)] == e.frame
    ensures !e.bits.shared ==> Loose(lay1, u0, frames, e.frame)
    ensures Conserves(lay0, u0, lay1, u0 - Returned(Some(e)), a)
  {
    var c := Slot(a, va);
    forall s: Slot | |s.path| < 4 && s in lay1.at
      ensures s in lay0.at
    {
      assert SlotOK(mem1, lay1, s) && FrameOK(lay1, u0, frames, lay1.at[s]);
    }
    FramesMapped(mem0, lay0, u0, mem1, lay1, u0, frames, a, c, ZERO_ENTRY);
    OwnedUsed(mem0, lay0, u0, frames, a);
    if c in lay0.at {
      assert SlotOK(mem0, lay0, c) && FrameOK(lay0, u0, frames, e.frame) && FrameOK(lay1, u0, frames, e.frame);
      assert e.frame in Frames(lay0, a) && e.frame !in Frames(lay1, a);
      assert forall b :: b != a ==> e.frame !in Frames(lay1, b);
      assert e.frame in lay1.own ==> e.frame in Frames(lay1, lay1.own[e.frame].space);
    }
  }

  // ---- committing pages ------------------------------------------------------------

  /** What a lazily filled page holds. */
  ghost predicate LazyEntry(e: Option<Entry>, vmas: seq<Vma>, p: nat)
  {
    e.Some? && !e.value.bits.shared
    && exists f :: Reserved(vmas, p, f) && e.value.bits == f.(present := true)
  }

  /** Nothing changed except that unmapped pages of [lo, hi) may have been filled
      in from their reservations. */
  ghost predicate Committed(mem: Ram, mem': Ram, lvl: map<nat, nat>, root: nat, vmas: seq<Vma>, lo: nat, hi: nat)
  {
    && SameHuge(mem, mem', lvl)
    && forall r, q {:trigger Lookup(mem', r, q)} :: r in lvl && lvl[r] == 4 && IsPage(q) ==>
         || Lookup(mem', r, q) == Lookup(mem, r, q)
         || (r == root && lo <= VaJoin(q) < hi && Lookup(mem, r, q).None? && LazyEntry(Lookup(mem', r, q), vmas, VaJoin(q)))
  }

  lemma CommittedSelf(mem: Ram, lvl: map<nat, nat>, root: nat, vmas: seq<Vma>, lo: nat, hi: nat)
    ensures Committed(mem, mem, lvl, root, vmas, lo, hi)
  {
  }

  lemma PageAligned(addr: nat, k: nat)
    requires addr % PAGE == 0
    ensures (addr + k * PAGE) % PAGE == 0
  {
  }

  /** One fault changes at most its own page. */
  lemma FaultedAt(mem: Ram, mem': Ram, lvl: map<nat, nat>, root: nat, vmas: seq<Vma>, page: nat, r: nat, q: seq<nat>)
    requires Faulted(mem, mem', lvl, root, vmas, page) && page % PAGE == 0 && page < 0x1_0000_0000_0000
    requires TableForm(vmas)
    requires r in lvl && lvl[r] == 4 && IsPage(q)
    ensures HugeEntry(mem', r, q) == HugeEntry(mem, r, q)
    ensures || Lookup(mem', r, q) == Lookup(mem, r, q)
            || (r == root && VaJoin(q) == page && Lookup(mem, r, q).None? && LazyEntry(Lookup(mem', r, q), vmas, page))
  {
    SplitJoin(page);
    if !SameLeaves(mem, mem', lvl) {
      var f: nat, flags :| Fresh(mem, mem', lvl, root, vmas, page, f, flags);
      ReservedOk(vmas, page, flags);
    }
  }

  /** Page k of the range is the first that is not usable. */
  ghost predicate FirstAt(mem: Ram, root: nat, addr: nat, k: nat, writable: bool)
  {
    && !Usable(Lookup(mem, root, VaSplit(addr + k * PAGE)), writable)
    && forall j: nat :: j < k ==> Usable(Lookup(mem, root, VaSplit(addr + j * PAGE)), writable)
  }

  /** The first page of the range that is not usable will be refused. */
  ghost predicate FirstRefused(mem: Ram, used: set<nat>, frames: nat, vmas: seq<Vma>, root: nat, addr: nat, n: nat,
                               writable: bool)
  {
    exists k: nat :: k < n && FirstAt(mem, root, addr, k, writable) && Refuses(mem, used, frames, vmas, root, addr + k * PAGE, writable)
  }

  lemma FirstHere(mem: Ram, used: set<nat>, frames: nat, vmas: seq<Vma>, root: nat, addr: nat, k: nat, writable: bool)
    requires forall j: nat :: j < k ==> Usable(Lookup(mem, root, VaSplit(addr + j * PAGE)), writable)
    ensures !Usable(Lookup(mem, root, VaSplit(addr + k * PAGE)), writable) ==> FirstAt(mem, root, addr, k, writable)
    ensures Usable(Lookup(mem, root, VaSplit(addr + k * PAGE)), writable) ==>
              !Refuses(mem, used, frames, vmas, root, addr + k * PAGE, writable) && Lookup(mem, root, VaSplit(addr + k * PAGE)).Some?
  {
  }

  lemma FirstStops(mem: Ram, used: set<nat>, frames: nat, vmas: seq<Vma>, root: nat, addr: nat, n: nat, k: nat,
                   writable: bool)
    requires k < n && FirstAt(mem, root, addr, k, writable)
    requires Refuses(mem, used, frames, vmas, root, addr + k * PAGE, writable)
    ensures FirstRefused(mem, used, frames, vmas, root, addr, n, writable)
  {
  }

  lemma FirstDecides(mem: Ram, used: set<nat>, frames: nat, vmas: seq<Vma>, root: nat, addr: nat, n: nat, k: nat,
                     writable: bool)
    requires FirstAt(mem, root, addr, k, writable) && !Refuses(mem, used, frames, vmas, root, addr + k * PAGE, writable)
    ensures !FirstRefused(mem, used, frames, vmas, root, addr, n, writable)
  {
    hide Refuses, Usable;
    forall j: nat | FirstAt(mem, root, addr, j, writable)
      ensures j == k
    {
    }
  }

  lemma NoneFirst(mem: Ram, used: set<nat>, frames: nat, vmas: seq<Vma>, root: nat, addr: nat, n: nat, writable: bool)
    requires forall j: nat :: j < n ==> Usable(Lookup(mem, root, VaSplit(addr + j * PAGE)), writable)
    ensures !FirstRefused(mem, used, frames, vmas, root, addr, n, writable)
  {
  }

  /** A page that was not usable and not refused was absent, and now is there. */
  lemma FirstChanged(mem: Ram, used: set<nat>, frames: nat, mem': Ram, lvl: map<nat, nat>, vmas: seq<Vma>, root: nat,
                     addr: nat, k: nat, writable: bool)
    requires root in lvl && lvl[root] == 4 && FirstAt(mem, root, addr, k, writable)
    requires !Refuses(mem, used, frames, vmas, root, addr + k * PAGE, writable)
    requires Usable(Lookup(mem', root, VaSplit(addr + k * PAGE)), writable)
    ensures !SameLeaves(mem, mem', lvl)
  {
    assert Lookup(mem, root, VaSplit(addr + k * PAGE)) != Lookup(mem', root, VaSplit(addr + k * PAGE));
  }

  lemma CommittedStep(mem0: Ram, mem1: Ram, mem2: Ram, lvl0: map<nat, nat>, lvl1: map<nat, nat>, root: nat,
                      vmas: seq<Vma>, addr: nat, n: nat, k: nat)
    requires Committed(mem0, mem1, lvl0, root, vmas, addr, addr + n * PAGE) && LevelsKept(lvl0, lvl1)
    requires addr % PAGE == 0 && k < n && addr + n * PAGE <= 0x1_0000_0000_0000 && TableForm(vmas)
    requires Faulted(mem1, mem2, lvl1, root, vmas, addr + k * PAGE)
    ensures Committed(mem0, mem2, lvl0, root, vmas, addr, addr + n * PAGE)
  {
    PageAligned(addr, k);
    forall r, q | r in lvl0 && lvl0[r] == 4 && IsPage(q)
      ensures HugeEntry(mem2, r, q) == HugeEntry(mem0, r, q)
      ensures || Lookup(mem2, r, q) == Lookup(mem0, r, q)
              || (&& r == root && addr <= VaJoin(q) < addr + n * PAGE
                  && Lookup(mem0, r, q).None? && LazyEntry(Lookup(mem2, r, q), vmas, VaJoin(q)))
    {
      FaultedAt(mem1, mem2, lvl1, root, vmas, addr + k * PAGE, r, q);
      assert HugeEntry(mem1, r, q) == HugeEntry(mem0, r, q);
      assert Lookup(mem1, r, q) == Lookup(mem0, r, q) || LazyEntry(Lookup(mem1, r, q), vmas, VaJoin(q));
    }
  }

  lemma UsableKept(mem1: Ram, mem2: Ram, lvl: map<nat, nat>, root: nat, vmas: seq<Vma>, addr: nat, k: nat,
                   writable: bool)
    requires addr % PAGE == 0 && addr + k * PAGE < 0x1_0000_0000_0000 && TableForm(vmas)
    requires Faulted(mem1, mem2, lvl, root, vmas, addr + k * PAGE) && root in lvl && lvl[root] == 4
    ensures forall j: nat :: j < k && Usable(Lookup(mem1, root, VaSplit(addr + j * PAGE)), writable) ==>
              Usable(Lookup(mem2, root, VaSplit(addr + j * PAGE)), writable)
  {
    PageAligned(addr, k);
    forall j: nat | j < k
      ensures Usable(Lookup(mem1, root, VaSplit(addr + j * PAGE)), writable) ==>
              Usable(Lookup(mem2, root, VaSplit(addr + j * PAGE)), writable)
    {
      FaultedAt(mem1, mem2, lvl, root, vmas, addr + k * PAGE, root, VaSplit(addr + j * PAGE));
    }
  }

  /** The pages of a byte range. */
  lemma PageCount(base: nat, end: nat)
    requires base < end
    ensures var page, last := base - base % PAGE, (end - 1) - (end - 1) % PAGE;
            page % PAGE == 0 && page <= last && page + ((last - page) / PAGE + 1) * PAGE == last + PAGE
  {
  }

  /** Committed pages start below the end of the range. */
  lemma CommittedWithin(mem: Ram, mem': Ram, lvl: map<nat, nat>, root: nat, vmas: seq<Vma>, lo: nat, hi: nat, end: nat)
    requires hi % PAGE == 0 && hi - PAGE < end && Committed(mem, mem', lvl, root, vmas, lo, hi)
    ensures Committed(mem, mem', lvl, root, vmas, lo, end)
  {
    hide VaJoin, VaSplit, Lookup, HugeEntry, LazyEntry;
    forall q | IsPage(q)
      ensures VaJoin(q) < hi ==> VaJoin(q) < end
    {
      JoinSplit(q);
      LastPageOf(VaJoin(q), hi, end);
    }
  }

  lemma LastPageOf(p: nat, hi: nat, end: nat)
    requires p % PAGE == 0 && hi % PAGE == 0 && hi - PAGE < end
    ensures p < hi ==> p < end
  {
  }

  /** An address splits like the page it is on. */
  lemma PageOf(page: nat, x: nat)
    requires page % PAGE == 0 && page <= x
    ensures VaSplit(page + (x - page) / PAGE * PAGE) == VaSplit(x)
  {
    var p := page + (x - page) / PAGE * PAGE;
    assert p <= x < p + PAGE && p % PAGE == 0;
    assert p / 0x1000 == x / 0x1000;
    assert p / 0x20_0000 == p / 0x1000 / 512 && x / 0x20_0000 == x / 0x1000 / 512;
    assert p / 0x4000_0000 == p / 0x1000 / 512 / 512 && x / 0x4000_0000 == x / 0x1000 / 512 / 512;
    assert p / 0x80_0000_0000 == p / 0x4000_0000 / 512 && x / 0x80_0000_0000 == x / 0x4000_0000 / 512;
  }

  // ---- changing permissions --------------------------------------------------------

  /** A present leaf cannot be in the shared low 1 GiB. */
  lemma PresentUser(mem: Ram, lay: Layout, root: nat, a: nat, virt: nat)
    requires LowShared(mem, root, a in lay.priv) && virt % PAGE == 0 && USER_VA_MIN <= virt < USER_VA_MAX
    requires Lookup(mem, root, VaSplit(virt)).Some?
    ensures UserAddr(a in lay.priv, virt) && UserPage(lay, a, VaSplit(virt))
  {
    if a !in lay.priv {
      assert virt < GIB ==> LowClosed(mem, root, virt);
    }
    UserAddrPage(lay, a, virt);
  }

  /** Same frame, same ownership bit: nothing moves. */
  lemma Reprotected(mem0: Ram, lay0: Layout, u0: set<nat>, mem1: Ram, lay1: Layout, frames: nat, a: nat, va: seq<nat>,
                    e: Entry)
    requires Owned(mem0, lay0, u0, frames) && Owned(mem1, lay1, u0, frames) && IsPage(va) && e.bits.present
    requires lay1.lvl == lay0.lvl && TablesGrown(lay0, u0, lay1, u0, 0)
    requires PageSet(lay0, lay1, Slot(a, va), e)
    requires Slot(a, va) in lay0.at <==> !e.bits.shared
    requires Slot(a, va) in lay0.at ==> lay0.at[Slot(a, va)] == e.frame
    ensures Conserves(lay0, u0, lay1, u0, a)
  {
    var c := Slot(a, va);
    forall s: Slot | |s.path| < 4 && s in lay1.at
      ensures s in lay0.at
    {
      assert SlotOK(mem1, lay1, s) && FrameOK(lay1, u0, frames, lay1.at[s]);
    }
    FramesMapped(mem0, lay0, u0, mem1, lay1, u0, frames, a, c, e);
    assert SlotOK(mem0, lay0, c);
    assert Frames(lay1, a) == Frames(lay0, a);
  }

  /** The pages of [lo, hi) keep their frames and get the permissions `flags`. */
  ghost predicate Repermissioned(mem: Ram, mem': Ram, lvl: map<nat, nat>, root: nat, flags: Flags, lo: nat, hi: nat)
  {
    && SameHuge(mem, mem', lvl)
    && forall r, q {:trigger Lookup(mem', r, q)} :: r in lvl && lvl[r] == 4 && IsPage(q) ==>
         if r == root && lo <= VaJoin(q) < hi
         then Lookup(mem, r, q).Some? && Lookup(mem', r, q) == Some(ProtectEntry(Lookup(mem, r, q).value, flags))
         else Lookup(mem', r, q) == Lookup(mem, r, q)
  }

  /** Both phases of uvm_protect: no present page loses its frame, every page of
      [lo, hi) ends present with the new permissions. */
  ghost predicate CommitThenProtect(mem0: Ram, lvl0: map<nat, nat>, mem1: Ram, lvl1: map<nat, nat>,
                                    root: nat, vmas: seq<Vma>, flags: Flags, lo: nat, hi: nat)
  {
    exists mid: Ram :: Committed(mem0, mid, lvl0, root, vmas, lo, hi) && Repermissioned(mid, mem1, lvl1, root, flags, lo, hi)
  }

  /** The page at p, with the permissions asked for: on its old frame and borrowed if it
      was, or private on a new one. */
  ghost predicate PageProtected(mem: Ram, mem': Ram, root: nat, p: nat, flags: Flags)
  {
    var e, e' := Lookup(mem, root, VaSplit(p)), Lookup(mem', root, VaSplit(p));
    && e'.Some? && Carries(e', if e.Some? then e.value.frame else e'.value.frame, flags, e.Some? && e.value.bits.shared)
    && (CpuWrites(mem', root, VaSplit(p)) <==> flags.write)
  }

  /** A page that is usable for writing can be written: no table stands in the way. */
  lemma UsableWrites(mem: Ram, lay: Layout, used: set<nat>, frames: nat, root: nat, va: seq<nat>, writable: bool)
    requires Owned(mem, lay, used, frames) && root in lay.lvl && lay.lvl[root] == 4 && IsPage(va)
    requires Usable(Lookup(mem, root, va), writable)
    ensures writable ==> CpuWrites(mem, root, va)
  {
    PathWritable(mem, lay.lvl, root, va);
  }

  lemma AllProtected(mem0: Ram, lay0: Layout, mid: Ram, mem1: Ram, lay1: Layout, used: set<nat>, frames: nat,
                       root: nat, vmas: seq<Vma>, flags: Flags, addr: nat, n: nat)
    requires Committed(mem0, mid, lay0.lvl, root, vmas, addr, addr + n * PAGE) && LevelsKept(lay0.lvl, lay1.lvl)
    requires Repermissioned(mid, mem1, lay1.lvl, root, flags, addr, addr + n * PAGE) && !flags.shared
    requires Owned(mem1, lay1, used, frames) && root in lay0.lvl && lay0.lvl[root] == 4
    requires addr % PAGE == 0 && addr + n * PAGE <= USER_VA_MAX
    ensures forall k: nat :: k < n ==> PageProtected(mem0, mem1, root, addr + k * PAGE, flags)
  {
    hide Committed, Repermissioned, PageProtected, Owned;
    forall k: nat | k < n
      ensures PageProtected(mem0, mem1, root, addr + k * PAGE, flags)
    {
      PageAligned(addr, k);
      PageInside(addr, k, n);
      OneProtected(mem0, lay0, mid, mem1, lay1, used, frames, root, vmas, flags, addr, addr + n * PAGE, addr + k * PAGE);
    }
  }

  lemma PageInside(addr: nat, k: nat, n: nat)
    requires k < n
    ensures addr <= addr + k * PAGE < addr + n * PAGE
  {
  }

  lemma OneProtected(mem0: Ram, lay0: Layout, mid: Ram, mem1: Ram, lay1: Layout, used: set<nat>, frames: nat,
                       root: nat, vmas: seq<Vma>, flags: Flags, lo: nat, hi: nat, p: nat)
    requires Committed(mem0, mid, lay0.lvl, root, vmas, lo, hi) && LevelsKept(lay0.lvl, lay1.lvl)
    requires Repermissioned(mid, mem1, lay1.lvl, root, flags, lo, hi) && !flags.shared
    requires Owned(mem1, lay1, used, frames) && root in lay0.lvl && lay0.lvl[root] == 4
    requires lo <= p < hi <= USER_VA_MAX && p % PAGE == 0
    ensures PageProtected(mem0, mem1, root, p, flags)
  {
    var q := VaSplit(p);
    SplitJoin(p);
    hide VaSplit, VaJoin;
    assert Lookup(mem1, root, q).Some? && (Lookup(mid, root, q) == Lookup(mem0, root, q) || Lookup(mem0, root, q).None?);
    PathWritable(mem1, lay1.lvl, root, q);
  }

  /** A successful uvm_protect had a record or a page everywhere in its range. */
  lemma ProtectedHad(mem0: Ram, lvl0: map<nat, nat>, mem1: Ram, lvl1: map<nat, nat>, root: nat, vmas: seq<Vma>,
                     flags: Flags,
                     lo: nat, hi: nat, p: nat)
    requires CommitThenProtect(mem0, lvl0, mem1, lvl1, root, vmas, flags, lo, hi) && LevelsKept(lvl0, lvl1)
    requires root in lvl0 && lvl0[root] == 4 && lo <= p < hi && p % PAGE == 0 && p < USER_VA_MAX
    ensures Lookup(mem0, root, VaSplit(p)).Some? || Taken(vmas, p)
  {
    var mid: Ram :| Committed(mem0, mid, lvl0, root, vmas, lo, hi) && Repermissioned(mid, mem1, lvl1, root, flags, lo, hi);
    var q := VaSplit(p);
    SplitJoin(p);
    hide VaSplit, VaJoin;
    assert Lookup(mem1, root, q) == Lookup(mem1, root, q);
    assert Lookup(mid, root, q).Some?;
    if Lookup(mem0, root, q).None? {
      assert LazyEntry(Lookup(mid, root, q), vmas, p);
      var f :| Reserved(vmas, p, f);
    }
  }

  lemma RepermissionedNone(mem: Ram, lvl: map<nat, nat>, root: nat, flags: Flags, lo: nat)
    ensures Repermissioned(mem, mem, lvl, root, flags, lo, lo)
  {
  }

  lemma RepermissionedAt(mem0: Ram, mem1: Ram, lvl: map<nat, nat>, root: nat, flags: Flags, addr: nat, k: nat)
    requires Repermissioned(mem0, mem1, lvl, root, flags, addr, addr + k * PAGE) && root in lvl && lvl[root] == 4
    requires addr % PAGE == 0 && addr + k * PAGE < USER_VA_MAX
    ensures Lookup(mem1, root, VaSplit(addr + k * PAGE)) == Lookup(mem0, root, VaSplit(addr + k * PAGE))
  {
    PageAligned(addr, k);
    SplitJoin(addr + k * PAGE);
  }

  lemma RepermissionedStep(mem0: Ram, mem1: Ram, mem2: Ram, lvl: map<nat, nat>, root: nat, flags: Flags, addr: nat,
                           k: nat)
    requires Repermissioned(mem0, mem1, lvl, root, flags, addr, addr + k * PAGE) && root in lvl && lvl[root] == 4
    requires addr % PAGE == 0 && addr + k * PAGE < USER_VA_MAX
    requires Lookup(mem1, root, VaSplit(addr + k * PAGE)).Some?
    requires MapsOnePage(mem1, mem2, lvl, root, VaSplit(addr + k * PAGE),
                         ProtectEntry(Lookup(mem1, root, VaSplit(addr + k * PAGE)).value, flags))
    ensures Repermissioned(mem0, mem2, lvl, root, flags, addr, addr + (k + 1) * PAGE)
  {
    var virt := addr + k * PAGE;
    PageAligned(addr, k);
    SplitJoin(virt);
    RepermissionedAt(mem0, mem1, lvl, root, flags, addr, k);
    forall r, q | r in lvl && lvl[r] == 4 && IsPage(q)
      ensures HugeEntry(mem2, r, q) == HugeEntry(mem0, r, q)
      ensures if r == root && addr <= VaJoin(q) < addr + (k + 1) * PAGE
              then Lookup(mem0, r, q).Some? && Lookup(mem2, r, q) == Some(ProtectEntry(Lookup(mem0, r, q).value, flags))
              else Lookup(mem2, r, q) == Lookup(mem0, r, q)
    {
      JoinSplit(q);
      NextPage(virt, VaJoin(q));
      assert HugeEntry(mem2, r, q) == HugeEntry(mem1, r, q) == HugeEntry(mem0, r, q);
      assert q == VaSplit(virt) <==> VaJoin(q) == virt;
      assert q != VaSplit(virt) ==> Lookup(mem2, r, q) == Lookup(mem1, r, q);
    }
  }

  // ---- ranges --------------------------------------------------------------------

  /** A page the process may drop: its own, or one without a leaf. */
  ghost predicate Droppable(mem: Ram, priv: set<nat>, root: nat, a: nat, p: nat)
  {
    UserAddr(a in priv, p) || Lookup(mem, root, VaSplit(p)).None?
  }

  /** Exactly the pages of [lo, hi) of `root` became unmapped. */
  ghost predicate Cleared(mem: Ram, mem': Ram, lvl: map<nat, nat>, root: nat, lo: nat, hi: nat)
  {
    && SameHuge(mem, mem', lvl)
    && forall r, q {:trigger Lookup(mem', r, q)} :: r in lvl && lvl[r] == 4 && IsPage(q) ==>
         Lookup(mem', r, q) == if r == root && lo <= VaJoin(q) < hi then None else Lookup(mem, r, q)
  }

  /** Frame g is the private leaf of a page of [lo, hi). */
  ghost predicate Releases(mem: Ram, root: nat, lo: nat, hi: nat, g: nat)
  {
    exists q :: IsPage(q) && lo <= VaJoin(q) < hi && g in Returned(Lookup(mem, root, q))
  }

  /** Exactly the private frames of the pages of [lo, hi) went back to the allocator. */
  ghost predicate Kept(mem: Ram, u0: set<nat>, u1: set<nat>, root: nat, lo: nat, hi: nat)
  {
    forall g {:trigger g in u1} {:trigger Releases(mem, root, lo, hi, g)} :: g in u1 <==> g in u0 && !Releases(mem, root, lo, hi, g)
  }

  lemma KeptAll(mem: Ram, u: set<nat>, root: nat, lo: nat)
    ensures Kept(mem, u, u, root, lo, lo)
  {
  }

  lemma KeptStep(mem: Ram, u0: set<nat>, u1: set<nat>, u2: set<nat>, root: nat, addr: nat, k: nat)
    requires addr % PAGE == 0 && addr + k * PAGE < USER_VA_MAX
    requires Kept(mem, u0, u1, root, addr, addr + k * PAGE)
    requires u2 == u1 - Returned(Lookup(mem, root, VaSplit(addr + k * PAGE)))
    ensures Kept(mem, u0, u2, root, addr, addr + (k + 1) * PAGE)
  {
    var virt := addr + k * PAGE;
    PageAligned(addr, k);
    SplitJoin(virt);
    forall g
      ensures Releases(mem, root, addr, addr + (k + 1) * PAGE, g) <==>
                Releases(mem, root, addr, virt, g) || g in Returned(Lookup(mem, root, VaSplit(virt)))
    {
      if Releases(mem, root, addr, addr + (k + 1) * PAGE, g) {
        var q :| IsPage(q) && addr <= VaJoin(q) < addr + (k + 1) * PAGE && g in Returned(Lookup(mem, root, q));
        JoinSplit(q);
        NextPage(virt, VaJoin(q));
      }
    }
  }

  // ---- no mapping outlives its frame ---------------------------------------------

  /** A private leaf of a user page maps a frame that is in use, and no other
      user page of any process owns that frame; no page table does either. */
  lemma PrivateLeaf(mem: Ram, lay: Layout, used: set<nat>, frames: nat, ra: nat, a: nat, va: seq<nat>, rb: nat, b: nat,
                    q: seq<nat>)
    requires Owned(mem, lay, used, frames) && IsRoot(lay, ra, a) && IsPage(va) && UserPage(lay, a, va)
    requires IsRoot(lay, rb, b) && IsPage(q) && UserPage(lay, b, q)
    requires Lookup(mem, ra, va).Some? && !Lookup(mem, ra, va).value.bits.shared
    requires Lookup(mem, rb, q).Some? && !Lookup(mem, rb, q).value.bits.shared
    ensures var f := Lookup(mem, ra, va).value.frame;
            && f in used && f !in lay.lvl
            && (Lookup(mem, rb, q).value.frame == f ==> rb == ra && q == va)
  {
    PageSlot(mem, lay, used, frames, ra, a, va);
    PageSlot(mem, lay, used, frames, rb, b, q);
    assert SlotOK(mem, lay, Slot(a, va)) && SlotOK(mem, lay, Slot(b, q));
    assert FrameOK(lay, used, frames, lay.at[Slot(a, va)]);
    assert FrameOK(lay, used, frames, ra) && FrameOK(lay, used, frames, rb);
  }

  /** After a release or discard of [lo, hi), no private leaf of any process maps
      a returned frame; a borrowed leaf does exactly when it borrowed the
      private frame of a page of the range. */
  lemma NoDangling(mem0: Ram, lay: Layout, u0: set<nat>, frames: nat, mem1: Ram, u1: set<nat>, ra: nat, a: nat, lo: nat,
                   hi: nat,
                   rb: nat, b: nat, q: seq<nat>)
    requires Owned(mem0, lay, u0, frames) && IsRoot(lay, ra, a) && IsRoot(lay, rb, b) && IsPage(q)
    requires UserPage(lay, b, q)
    requires LowShared(mem0, ra, a in lay.priv) && USER_VA_MIN <= lo && hi <= USER_VA_MAX
    requires Cleared(mem0, mem1, lay.lvl, ra, lo, hi) && Kept(mem0, u0, u1, ra, lo, hi)
    requires Lookup(mem1, rb, q).Some? && Lookup(mem1, rb, q).value.frame in u0
    ensures var e := Lookup(mem1, rb, q).value;
            && (!e.bits.shared ==> e.frame in u1)
            && (e.frame !in u1 <==> e.bits.shared && Releases(mem0, ra, lo, hi, e.frame))
  {
    RootLevel(mem0, lay, u0, frames, ra, a);
    RootLevel(mem0, lay, u0, frames, rb, b);
    var e := Lookup(mem1, rb, q).value;
    assert Lookup(mem0, rb, q) == Some(e) && (rb == ra ==> !(lo <= VaJoin(q) < hi));
    if Releases(mem0, ra, lo, hi, e.frame) && !e.bits.shared {
      var p :| IsPage(p) && lo <= VaJoin(p) < hi && e.frame in Returned(Lookup(mem0, ra, p));
      JoinSplit(p);
      PresentUser(mem0, lay, ra, a, VaJoin(p));
      PrivateLeaf(mem0, lay, u0, frames, ra, a, p, rb, b, q);
    }
  }

  lemma ClearedNone(mem: Ram, lvl: map<nat, nat>, root: nat, lo: nat)
    ensures Cleared(mem, mem, lvl, root, lo, lo)
  {
  }

  /** What the next page to drop looks like. */
  lemma BeforeDrop(mem0: Ram, mem1: Ram, lay: Layout, root: nat, a: nat, addr: nat, k: nat)
    requires Cleared(mem0, mem1, lay.lvl, root, addr, addr + k * PAGE) && root in lay.lvl && lay.lvl[root] == 4
    requires addr % PAGE == 0 && addr + k * PAGE < USER_VA_MAX
    requires Droppable(mem0, lay.priv, root, a, addr + k * PAGE)
    ensures UserPage(lay, a, VaSplit(addr + k * PAGE)) || Lookup(mem1, root, VaSplit(addr + k * PAGE)).None?
    ensures Lookup(mem1, root, VaSplit(addr + k * PAGE)) == Lookup(mem0, root, VaSplit(addr + k * PAGE))
  {
    hide VaSplit, Lookup, UserPage;
    PageAligned(addr, k);
    BeforeClear(mem0, mem1, lay, root, a, addr, addr + k * PAGE);
  }

  lemma BeforeClear(mem0: Ram, mem1: Ram, lay: Layout, root: nat, a: nat, lo: nat, virt: nat)
    requires Cleared(mem0, mem1, lay.lvl, root, lo, virt) && root in lay.lvl && lay.lvl[root] == 4
    requires virt % PAGE == 0 && virt < USER_VA_MAX && Droppable(mem0, lay.priv, root, a, virt)
    ensures UserPage(lay, a, VaSplit(virt)) || Lookup(mem1, root, VaSplit(virt)).None?
    ensures Lookup(mem1, root, VaSplit(virt)) == Lookup(mem0, root, VaSplit(virt))
  {
    hide VaSplit, VaJoin, Lookup, UserPage;
    SplitJoin(virt);
    if UserAddr(a in lay.priv, virt) {
      UserAddrPage(lay, a, virt);
    }
  }

  lemma ClearedStep(mem0: Ram, mem1: Ram, mem2: Ram, lvl: map<nat, nat>, root: nat, addr: nat, k: nat)
    requires Cleared(mem0, mem1, lvl, root, addr, addr + k * PAGE)
    requires addr % PAGE == 0 && addr + k * PAGE < USER_VA_MAX
    requires MapsOnePage(mem1, mem2, lvl, root, VaSplit(addr + k * PAGE), ZERO_ENTRY)
    ensures Cleared(mem0, mem2, lvl, root, addr, addr + (k + 1) * PAGE)
  {
    var virt := addr + k * PAGE;
    assert virt % PAGE == 0;
    SplitJoin(virt);
    forall r, q | r in lvl && lvl[r] == 4 && IsPage(q)
      ensures Lookup(mem2, r, q) == if r == root && addr <= VaJoin(q) < addr + (k + 1) * PAGE then None
          else Lookup(mem0, r, q)
      ensures HugeEntry(mem2, r, q) == HugeEntry(mem0, r, q)
    {
      JoinSplit(q);
      NextPage(virt, VaJoin(q));
      assert HugeEntry(mem2, r, q) == HugeEntry(mem1, r, q) == HugeEntry(mem0, r, q);
      assert Lookup(mem1, r, q) == if r == root && addr <= VaJoin(q) < virt then None else Lookup(mem0, r, q);
    }
  }

  lemma NextPage(virt: nat, p: nat)
    requires virt % PAGE == 0 && p % PAGE == 0
    ensures p < virt + PAGE <==> p < virt || p == virt
  {
  }

  lemma RangeDroppable(mem: Ram, lay: Layout, root: nat, a: nat, addr: nat, n: nat)
    requires LowShared(mem, root, a in lay.priv) && addr % PAGE == 0 && USER_VA_MIN <= addr
    requires addr + n * PAGE <= USER_VA_MAX
    ensures forall k: nat :: k < n ==> Droppable(mem, lay.priv, root, a, addr + k * PAGE)
  {
    forall k: nat | k < n
      ensures Droppable(mem, lay.priv, root, a, addr + k * PAGE)
    {
      var p := addr + k * PAGE;
      assert p % PAGE == 0 && p < USER_VA_MAX;
      if !UserAddr(a in lay.priv, p) {
        assert LowClosed(mem, root, p);
      }
    }
  }

  /** The invariant after a release. */
  lemma ReleasedSpace(mem0: Ram, lay0: Layout, v0: seq<Vma>, h0: seq<Hole>, mem1: Ram, lay1: Layout, v1: seq<Vma>,
                      h1: seq<Hole>,
                      next: nat, root: nat, a: nat, addr: nat, bytes: nat, sound: bool)
    requires SpaceOk(mem0, lay0, root, a, v0, h0, next, sound) && root in lay0.lvl && lay0.lvl[root] == 4
    requires IsRoot(lay1, root, a) && lay1.priv == lay0.priv && TableForm(v1) && (sound ==> TableOk(v1))
    requires addr % PAGE == 0 && bytes > 0 && (addr + bytes) % PAGE == 0
    requires forall p: nat, f {:trigger Reserved(v1, p, f)} ::
               && (Reserved(v1, p, f) ==> Reserved(v0, p, f) && !(addr <= p < addr + bytes))
               && (sound && Reserved(v0, p, f) && !(addr <= p < addr + bytes) ==> Reserved(v1, p, f))
    requires Cleared(mem0, mem1, lay0.lvl, root, addr, addr + bytes)
    requires AllSeparate(h1) && HoleRecorded(h0, h1, addr, bytes)
    requires h1 == h0 || forall n: nat {:trigger AllHoleOk(h1, n)} :: AllHoleOk(h0, n) && HoleOk(Hole(addr, bytes), n) ==>
               AllHoleOk(h1, n)
    ensures SpaceOk(mem1, lay1, root, a, v1, h1, next, sound && !(ArenaAbove(addr, bytes, next) && Storable(h0, addr, bytes)))
    ensures sound ==> (ArenaOk(v1, h1, next) <==> !(ArenaAbove(addr, bytes, next) && Storable(h0, addr, bytes)))
  {
    hide Reserved, Storable, AllHoleOk, Lookup, VaSplit, AllSeparate, TableOk;
    ReleasedForm(h0, h1, next, addr, bytes);
    ReleasedLow(mem0, mem1, lay0, root, a, addr, bytes);
    forall p: nat | Taken(v1, p)
      ensures Taken(v0, p)
    {
      TakenLess(v0, v1, addr, bytes, p);
    }
    if sound {
      ReleasedArena(v0, h0, v1, h1, next, addr, bytes);
      ReleasedMapped(mem0, mem1, lay0, root, v0, v1, addr, bytes);
    }
  }

  lemma ReleasedForm(h0: seq<Hole>, h1: seq<Hole>, next: nat, addr: nat, bytes: nat)
    requires ArenaForm(h0, next) && AllSeparate(h1) && HoleRecorded(h0, h1, addr, bytes)
    requires addr % PAGE == 0 && bytes > 0 && (addr + bytes) % PAGE == 0
    requires h1 == h0 || forall n: nat {:trigger AllHoleOk(h1, n)} :: AllHoleOk(h0, n) && HoleOk(Hole(addr, bytes), n) ==>
               AllHoleOk(h1, n)
    ensures ArenaForm(h1, next) && (AllHoleOk(h0, next) && HoleOk(Hole(addr, bytes), next) ==> AllHoleOk(h1, next))
  {
    assert h1 != h0 ==> HoleOk(Hole(addr, bytes), MMAP_LIMIT);
    assert h1 != h0 ==> AllHoleOk(h1, MMAP_LIMIT);
  }

  lemma ReleasedLow(mem0: Ram, mem1: Ram, lay: Layout, root: nat, a: nat, addr: nat, bytes: nat)
    requires LowShared(mem0, root, a in lay.priv) && root in lay.lvl && lay.lvl[root] == 4
    requires Cleared(mem0, mem1, lay.lvl, root, addr, addr + bytes)
    ensures LowShared(mem1, root, a in lay.priv)
  {
    if a !in lay.priv {
      forall p: nat {:trigger LowClosed(mem1, root, p)} | USER_VA_MIN <= p < GIB && p % PAGE == 0
        ensures LowClosed(mem1, root, p)
      {
        assert LowClosed(mem0, root, p);
        assert HugeEntry(mem1, root, VaSplit(p)) == HugeEntry(mem0, root, VaSplit(p));
      }
    }
  }

  lemma ReleasedMapped(mem0: Ram, mem1: Ram, lay: Layout, root: nat, v0: seq<Vma>, v1: seq<Vma>, addr: nat, bytes: nat)
    requires ArenaMapped(mem0, root, v0) && root in lay.lvl && lay.lvl[root] == 4
    requires Cleared(mem0, mem1, lay.lvl, root, addr, addr + bytes)
    requires forall p: nat, f {:trigger Reserved(v1, p, f)} ::
               Reserved(v1, p, f) <==> Reserved(v0, p, f) && !(addr <= p < addr + bytes)
    ensures ArenaMapped(mem1, root, v1)
  {
    hide Reserved, Taken;
    forall p: nat | MMAP_BASE <= p < MMAP_LIMIT && p % PAGE == 0 && Lookup(mem1, root, VaSplit(p)).Some?
      ensures Taken(v1, p)
    {
      SplitJoin(p);
      TakenReserved(v0, v1, addr, bytes, p);
    }
  }

  lemma TakenLess(v0: seq<Vma>, v1: seq<Vma>, addr: nat, bytes: nat, p: nat)
    requires forall f {:trigger Reserved(v1, p, f)} ::
               Reserved(v1, p, f) ==> Reserved(v0, p, f) && !(addr <= p < addr + bytes)
    requires Taken(v1, p)
    ensures Taken(v0, p)
  {
    var i :| 0 <= i < |v1| && Covers(v1[i], p);
    assert Reserved(v1, p, v1[i].flags);
  }

  /** The released range lies in the arena and ends above the bump pointer. */
  predicate ArenaAbove(addr: nat, bytes: nat, next: nat)
  {
    MMAP_BASE <= addr && addr + bytes <= MMAP_LIMIT && addr + bytes > next
  }

  /** What hole_add leaves: the arena range is free again, unless the list had
      no room for it; ranges outside the arena are not recorded. */
  ghost predicate HoleRecorded(h0: seq<Hole>, h1: seq<Hole>, addr: nat, bytes: nat)
  {
    if MMAP_BASE <= addr && addr + bytes <= MMAP_LIMIT && Storable(h0, addr, bytes) then
      forall p: nat :: InHole(h1, p) <==> InHole(h0, p) || addr <= p < addr + bytes
    else h1 == h0
  }

  /** Releasing keeps the arena sound exactly when no hole above the bump
      pointer was recorded. */
  lemma ReleasedArena(v0: seq<Vma>, h0: seq<Hole>, v1: seq<Vma>, h1: seq<Hole>, next: nat, addr: nat, bytes: nat)
    requires ArenaOk(v0, h0, next) && AllSeparate(h1)
    requires addr % PAGE == 0 && bytes > 0 && (addr + bytes) % PAGE == 0
    requires forall p: nat, f {:trigger Reserved(v1, p, f)} ::
               Reserved(v1, p, f) <==> Reserved(v0, p, f) && !(addr <= p < addr + bytes)
    requires HoleRecorded(h0, h1, addr, bytes)
    requires HoleOk(Hole(addr, bytes), next) ==> AllHoleOk(h1, next)
    ensures ArenaOk(v1, h1, next) <==> !(ArenaAbove(addr, bytes, next) && Storable(h0, addr, bytes))
  {
    forall p: nat
      ensures Taken(v1, p) <==> Taken(v0, p) && !(addr <= p < addr + bytes)
    {
      TakenReserved(v0, v1, addr, bytes, p);
    }
    assert ArenaAbove(addr, bytes, next) && Storable(h0, addr, bytes) ==> InHole(h1, addr + bytes - 1);
  }

  ghost predicate Discardable(mem: Ram, root: nat, vmas: seq<Vma>, p: nat)
  {
    Taken(vmas, p) && !(Lookup(mem, root, VaSplit(p)).Some? && Lookup(mem, root, VaSplit(p)).value.bits.shared)
  }

  /** Clearing pages keeps the invariant. */
  lemma ClearedSpace(mem0: Ram, lay0: Layout, mem1: Ram, lay1: Layout, vmas: seq<Vma>, holes: seq<Hole>,
                     next: nat, sound: bool, root: nat, a: nat, lo: nat, hi: nat)
    requires SpaceOk(mem0, lay0, root, a, vmas, holes, next, sound) && root in lay0.lvl && lay0.lvl[root] == 4
    requires IsRoot(lay1, root, a) && lay1.priv == lay0.priv
    requires Cleared(mem0, mem1, lay0.lvl, root, lo, hi)
    ensures SpaceOk(mem1, lay1, root, a, vmas, holes, next, sound)
  {
    if a !in lay0.priv {
      forall p: nat {:trigger LowClosed(mem1, root, p)} | USER_VA_MIN <= p < GIB && p % PAGE == 0
        ensures LowClosed(mem1, root, p)
      {
        assert LowClosed(mem0, root, p);
        assert HugeEntry(mem1, root, VaSplit(p)) == HugeEntry(mem0, root, VaSplit(p));
      }
    }
  }

  /** A fixed range the arena cannot collide with. */
  ghost predicate ClearOfArena(holes: seq<Hole>, next: nat, base: nat, bytes: nat)
  {
    forall p: nat {:trigger InHole(holes, p)} :: base <= p < base + bytes ==> !InHole(holes, p) && !(next <= p < MMAP_LIMIT)
  }

  /** The identity map keeps fixed reservations out of the shared low 1 GiB. */
  lemma FixedUser(mem: Ram, lay: Layout, root: nat, a: nat, addr: nat, bytes: nat)
    requires LowShared(mem, root, a in lay.priv) && addr % PAGE == 0 && bytes % PAGE == 0 && bytes > 0
    requires USER_VA_MIN <= addr && addr + bytes <= USER_VA_MAX
    requires forall k: nat :: k < bytes / PAGE ==> Translation(mem, root, addr + k * PAGE) == 0
    ensures forall p: nat :: addr <= p < addr + bytes ==> UserAddr(a in lay.priv, p)
  {
    hide Translation, VaSplit, Lookup;
    assert Translation(mem, root, addr + 0 * PAGE) == 0;
    if a !in lay.priv {
      assert addr < GIB ==> LowClosed(mem, root, addr);
    }
  }

  /** The invariant after a reservation. */
  lemma ReservedSpace(mem: Ram, lay: Layout, v0: seq<Vma>, v1: seq<Vma>, holes: seq<Hole>, next: nat,
                      root: nat, a: nat, base: nat, bytes: nat, flags: Flags, sound: bool)
    requires SpaceOk(mem, lay, root, a, v0, holes, next, sound) && TableForm(v1) && (sound ==> TableOk(v1))
    requires forall p: nat, f {:trigger Reserved(v1, p, f)} ::
               Reserved(v1, p, f) <==> Reserved(v0, p, f) || (base <= p < base + bytes && f == flags)
    requires forall p: nat :: base <= p < base + bytes ==> UserAddr(a in lay.priv, p)
    ensures SpaceOk(mem, lay, root, a, v1, holes, next, sound && ClearOfArena(holes, next, base, bytes))
    ensures sound ==> (ArenaOk(v1, holes, next) <==> ClearOfArena(holes, next, base, bytes))
  {
    hide Reserved, Taken, InHole, VaSplit, Lookup, Translation, TableForm, TableOk, ArenaForm;
    forall p: nat
      ensures Taken(v1, p) <==> Taken(v0, p) || base <= p < base + bytes
    {
      TakenInserted(v0, v1, base, bytes, flags, p);
    }
    if sound {
      FixedReserveIff(v0, v1, holes, next, base, bytes, flags);
    }
  }

  lemma SoundNow(mem: Ram, lay: Layout, root: nat, a: nat, vmas: seq<Vma>, holes: seq<Hole>, next: nat, sound: bool)
    requires root != 0 ==> SpaceOk(mem, lay, root, a, vmas, holes, next, sound)
    ensures root != 0 && sound ==> ArenaOk(vmas, holes, next) && TableOk(vmas)
  {
  }

  lemma FormParts(holes: seq<Hole>, next: nat)
    requires ArenaForm(holes, next)
    ensures |holes| == MAX_HOLES && next < U64
  {
  }

  /** The address arena_alloc must pick: the first hole that fits, else the bump
      pointer. */
  ghost predicate ArenaPick(holes: seq<Hole>, next: nat, holes': seq<Hole>, next': nat, bytes: nat, base: nat)
  {
    && MMAP_BASE <= base && base + bytes <= MMAP_LIMIT
    && (if NoFit(holes, bytes) then base == next && next' == next + bytes && holes' == holes
        else exists i: nat ::
          && FirstFit(holes, bytes, i) && base == holes[i].base
          && holes' == holes[i := Hole(base + bytes, holes[i].len - bytes)] && next' == next)
  }

  lemma Picked(holes: seq<Hole>, next: nat, holes': seq<Hole>, next': nat, bytes: nat, base: nat)
    requires forall i: nat {:trigger FirstFit(holes, bytes, i)} :: FirstFit(holes, bytes, i) ==>
               base == holes[i].base && holes' == holes[i := Hole(base + bytes, holes[i].len - bytes)] && next' == next
    requires NoFit(holes, bytes) && next + bytes <= MMAP_LIMIT ==>
               base == next && next' == next + bytes && holes' == holes
    requires base == 0 <==> NoFit(holes, bytes) && next + bytes > MMAP_LIMIT
    requires base != 0 ==> MMAP_BASE <= base && base + bytes <= MMAP_LIMIT
    ensures base != 0 ==> ArenaPick(holes, next, holes', next', bytes, base)
  {
    if !NoFit(holes, bytes) {
      var i := FirstOf(holes, bytes, 0);
    }
  }

  lemma FirstOf(holes: seq<Hole>, bytes: nat, k: nat) returns (i: nat)
    requires k <= |holes| && !NoFit(holes, bytes) && forall j :: 0 <= j < k ==> holes[j].len < bytes
    ensures FirstFit(holes, bytes, i)
    decreases |holes| - k
  {
    if k < |holes| && holes[k].len >= bytes {
      i := k;
    } else {
      i := FirstOf(holes, bytes, k + 1);
    }
  }

  lemma FixedVacant(mem: Ram, root: nat, base: nat, bytes: nat)
    requires base % PAGE == 0 && forall k: nat :: k < bytes / PAGE ==> Translation(mem, root, base + k * PAGE) == 0
    ensures forall k: nat :: k < bytes / PAGE ==> Vacant(mem, root, base + k * PAGE, true)
  {
    forall k: nat | k < bytes / PAGE
      ensures Vacant(mem, root, base + k * PAGE, true)
    {
      assert Translation(mem, root, base + k * PAGE) == 0;
      PageAligned(base, k);
    }
  }

  /** The arena never consults the table, so a fixed reservation keeps the arena
      sound exactly when it stays clear of what the arena may still hand out. */
  lemma FixedReserveIff(v0: seq<Vma>, v1: seq<Vma>, holes: seq<Hole>, next: nat, base: nat, bytes: nat, flags: Flags)
    requires ArenaFree(v0, holes, next)
    requires forall p: nat, f {:trigger Reserved(v1, p, f)} ::
               Reserved(v1, p, f) <==> Reserved(v0, p, f) || (base <= p < base + bytes && f == flags)
    ensures ArenaFree(v1, holes, next) <==> ClearOfArena(holes, next, base, bytes)
  {
    hide Taken, InHole, Reserved;
    forall p: nat
      ensures Taken(v1, p) <==> Taken(v0, p) || base <= p < base + bytes
    {
      TakenInserted(v0, v1, base, bytes, flags, p);
    }
    if ArenaFree(v1, holes, next) {
      forall p: nat | base <= p < base + bytes
        ensures !InHole(holes, p) && !(next <= p < MMAP_LIMIT)
      {
        assert Taken(v1, p);
      }
    }
  }

  lemma TakenInserted(v0: seq<Vma>, v1: seq<Vma>, base: nat, bytes: nat, flags: Flags, p: nat)
    requires forall q: nat, f {:trigger Reserved(v1, q, f)} ::
               Reserved(v1, q, f) <==> Reserved(v0, q, f) || (base <= q < base + bytes && f == flags)
    ensures Taken(v1, p) <==> Taken(v0, p) || base <= p < base + bytes
  {
    if Taken(v1, p) {
      var i :| 0 <= i < |v1| && Covers(v1[i], p);
      assert Reserved(v1, p, v1[i].flags);
    }
    if Taken(v0, p) {
      var i :| 0 <= i < |v0| && Covers(v0[i], p);
      assert Reserved(v1, p, v0[i].flags);
    }
    if base <= p < base + bytes {
      assert Reserved(v1, p, flags);
    }
  }

  lemma ReservedUnmapped(mem: Ram, root: nat, v0: seq<Vma>, base: nat, bytes: nat)
    requires ArenaMapped(mem, root, v0) && base % PAGE == 0 && bytes % PAGE == 0 && MMAP_BASE <= base
    requires base + bytes <= MMAP_LIMIT
    requires forall p: nat :: base <= p < base + bytes ==> !Taken(v0, p)
    ensures forall k: nat :: k < bytes / PAGE ==> Vacant(mem, root, base + k * PAGE, false)
  {
    forall k: nat | k < bytes / PAGE
      ensures Vacant(mem, root, base + k * PAGE, false)
    {
      var p := base + k * PAGE;
      assert base <= p < base + bytes && p % PAGE == 0;
      assert !Taken(v0, p);
    }
  }

  /** Unmapped; the translation test cannot tell a borrowed frame 0 from that. */
  ghost predicate Vacant(mem: Ram, root: nat, p: nat, fixed: bool)
  {
    var e := Lookup(mem, root, VaSplit(p));
    e.None? || (fixed && e.value.frame == 0)
  }

  lemma TakenReserved(v0: seq<Vma>, v1: seq<Vma>, addr: nat, bytes: nat, p: nat)
    requires forall q: nat, f {:trigger Reserved(v1, q, f)} ::
               Reserved(v1, q, f) <==> Reserved(v0, q, f) && !(addr <= q < addr + bytes)
    ensures Taken(v1, p) <==> Taken(v0, p) && !(addr <= p < addr + bytes)
  {
    if Taken(v1, p) {
      var i :| 0 <= i < |v1| && Covers(v1[i], p);
      assert Reserved(v1, p, v1[i].flags);
    }
    if Taken(v0, p) && !(addr <= p < addr + bytes) {
      var i :| 0 <= i < |v0| && Covers(v0[i], p);
      assert Reserved(v1, p, v0[i].flags);
    }
  }

  /** At most one free record was used up. */
  ghost predicate SpendsOne(v0: seq<Vma>, v1: seq<Vma>)
  {
    |v1| == |v0| && exists s: nat :: OthersUnused(v0, v1, s)
  }

  ghost predicate OthersUnused(v0: seq<Vma>, v1: seq<Vma>, s: nat)
    requires |v1| == |v0|
  {
    forall k :: 0 <= k < |v0| && k != s && !v0[k].used ==> !v1[k].used
  }

  lemma SpentOne(v0: seq<Vma>, v1: seq<Vma>, slot: nat)
    requires TableForm(v0) && TableForm(v1) && forall k :: 0 <= k < MAX_VMAS && k != slot && !v0[k].used ==> !v1[k].used
    ensures SpendsOne(v0, v1)
  {
    assert OthersUnused(v0, v1, slot);
  }

  ghost predicate HasSlot(vmas: seq<Vma>)
  {
    exists k :: 0 <= k < |vmas| && !vmas[k].used
  }

  /** Where uvm_reserve can put a range: a fixed one where no record and no
      page stands, any other in a hole or above the bump pointer. */
  ghost predicate HasRoom(mem: Ram, root: nat, vmas: seq<Vma>, holes: seq<Hole>, next: nat, addr: nat, bytes: nat,
                          fixed: bool)
  {
    if fixed then
      && addr % PAGE == 0 && RangeOk(addr, bytes)
      && (forall p: nat :: addr <= p < addr + bytes ==> !Taken(vmas, p))
      && (forall k: nat :: k < bytes / PAGE ==> Translation(mem, root, addr + k * PAGE) == 0)
    else
      || !NoFit(holes, bytes)
      || next + bytes <= MMAP_LIMIT
  }

  /** The record vma_at finds for `page` is a user one and allows the access. */
  ghost predicate Permits(vmas: seq<Vma>, page: nat, writable: bool)
  {
    exists v :: Governs(vmas, page, v) && v.flags.user && (writable ==> v.flags.write)
  }

  /** A page can be committed: no huge page covers it, and there is a frame for it
      and one for every table missing on the way. */
  ghost predicate CanCommit(mem: Ram, used: set<nat>, frames: nat, root: nat, va: seq<nat>)
    requires IsPage(va)
  {
    Need(mem, root, va).Some? && Need(mem, root, va).value < Pmm.FreeCount(used, frames)
  }

  ghost predicate CommitSpent(mem: Ram, u0: set<nat>, u1: set<nat>, frames: nat, root: nat, va: seq<nat>)
    requires IsPage(va)
  {
    Need(mem, root, va).Some? && Pmm.FreeCount(u1, frames) + Need(mem, root, va).value + 1 == Pmm.FreeCount(u0, frames)
  }

  /** When uvm_fault_in says no: the page is there without the permission, or it is
      absent and no record grants it or memory does not suffice. */
  ghost predicate Refuses(mem: Ram, used: set<nat>, frames: nat, vmas: seq<Vma>, root: nat, page: nat, writable: bool)
  {
    var e := Lookup(mem, root, VaSplit(page));
    if e.Some? then !Usable(e, writable)
    else !Permits(vmas, page, writable) || !CanCommit(mem, used, frames, root, VaSplit(page))
  }

  predicate PageIn(p: nat, base: nat, bytes: nat)
  {
    p % PAGE == 0 && base - base % PAGE <= p < base + bytes
  }

  lemma BufferUsable(mem: Ram, root: nat, page: nat, n: nat, base: nat, end: nat, writable: bool)
    requires page % PAGE == 0 && page <= base && end <= page + n * PAGE
    requires forall k: nat :: k < n ==> Usable(Lookup(mem, root, VaSplit(page + k * PAGE)), writable)
    ensures forall x: nat :: base <= x < end ==> Usable(Lookup(mem, root, VaSplit(x)), writable)
  {
    hide Lookup, Usable, VaSplit;
    forall x: nat | base <= x < end
      ensures Usable(Lookup(mem, root, VaSplit(x)), writable)
    {
      PageOf(page, x);
    }
  }

  lemma BufferRefuses(mem: Ram, used: set<nat>, frames: nat, vmas: seq<Vma>, root: nat, page: nat, n: nat, base: nat,
                      bytes: nat, writable: bool)
    requires page == base - base % PAGE && n > 0 && page + (n - 1) * PAGE < base + bytes
    requires exists k: nat :: k < n && Refuses(mem, used, frames, vmas, root, page + k * PAGE, writable)
    ensures exists p: nat :: PageIn(p, base, bytes) && Refuses(mem, used, frames, vmas, root, p, writable)
  {
    hide Refuses;
    var k: nat :| k < n && Refuses(mem, used, frames, vmas, root, page + k * PAGE, writable);
    PageAligned(page, k);
    assert PageIn(page + k * PAGE, base, bytes);
  }

  /** The address test of uvm_buffer_ok. */
  predicate BufferInRange(base: nat, bytes: nat)
  {
    && USER_VA_MIN <= base && base + bytes < U64
    && (base + bytes <= USER_VA_MAX || (USER_STACK_LOW <= base && base + bytes <= USER_STACK_TOP))
  }

  lemma NotPermitted(vmas: seq<Vma>, page: nat, v: Option<Vma>, writable: bool)
    requires (v.Some? <==> Taken(vmas, page)) && (v.Some? ==> Governs(vmas, page, v.value))
    requires v.None? || !v.value.flags.user || (writable && !v.value.flags.write)
    ensures !Permits(vmas, page, writable)
  {
    forall w | Governs(vmas, page, w)
      ensures v.Some? && w == v.value
    {
      assert Taken(vmas, page);
      GovernsUnique(vmas, page, w, v.value);
    }
  }

  lemma Permitted(vmas: seq<Vma>, page: nat, v: Vma, writable: bool)
    requires Governs(vmas, page, v) && v.flags.user && (writable ==> v.flags.write)
    ensures Permits(vmas, page, writable)
  {
  }

  lemma NoFrame(mem: Ram, used: set<nat>, frames: nat, root: nat, va: seq<nat>)
    requires IsPage(va) && Pmm.NoneFree(used, Pmm.GENERAL_FIRST, frames)
    ensures !CanCommit(mem, used, frames, root, va)
  {
    Pmm.NoneCounted(used, frames);
  }

  /** The space after its new frame was mapped. */
  lemma FrameMapped(mem0: Ram, lay0: Layout, u0: set<nat>, mem1: Ram, mem2: Ram, lay2: Layout, u2: set<nat>,
                    frames: nat, root: nat, a: nat,
                    vmas: seq<Vma>, holes: seq<Hole>, next: nat, sound: bool, page: nat, flags: Flags, f: nat)
    requires Owned(mem0, lay0, u0, frames) && Owned(mem1, lay0, u0 + {f}, frames) && Owned(mem2, lay2, u2, frames)
    requires mem1 == mem0[f := ZeroTable()]
    requires f !in u0 && Pmm.GENERAL_FIRST <= f < frames && f !in lay0.own && f !in lay0.lvl && page % PAGE == 0
    requires !flags.shared
    requires SpaceOk(mem0, lay0, root, a, vmas, holes, next, sound) && Reserved(vmas, page, flags)
    requires Lookup(mem0, root, VaSplit(page)).None?
    requires SameLeaves(mem0, mem1, lay0.lvl)
    requires MapsOnePage(mem1, mem2, lay0.lvl, root, VaSplit(page), MapEntry(f * 4096, flags))
    requires MapsPage(mem1, mem2, lay0.lvl, root, VaSplit(page), MapEntry(f * 4096, flags))
    requires TablesGrown(lay0, u0 + {f}, lay2, u2, a) && NewOwned(lay0, lay2)
    requires PageSet(lay0, lay2, Slot(a, VaSplit(page)), MapEntry(f * 4096, flags))
    requires IsRoot(lay2, root, a) && f in mem2 && mem2[f] == ZeroTable()
    requires Need(mem1, root, VaSplit(page)) == Need(mem0, root, VaSplit(page))
    requires Spent(Need(mem1, root, VaSplit(page)), u0 + {f}, u2, frames)
    ensures SpaceOk(mem2, lay2, root, a, vmas, holes, next, sound) && Conserves(lay0, u0, lay2, u2, a)
    ensures Fresh(mem0, mem2, lay0.lvl, root, vmas, page, f, flags)
    ensures CommitSpent(mem0, u0, u2, frames, root, VaSplit(page))
  {
    hide VaSplit, Frames, Owned, MapsPage, MapsOnePage, SameLeaves, SpaceOk, Lookup, Accounted, Conserves, Need, Spent,
         CommitSpent, TablesGrown,
         NewOwned, PageSet;
    var va, base, e := VaSplit(page), u0 - Frames(lay0, a), MapEntry(f * 4096, flags);
    ConservesAccounted(mem0, lay0, u0, frames, a);
    OpenSpace(mem0, lay0, u0, frames, root, a, vmas, holes, next, sound, page, flags);
    UnmappedSlot(mem0, lay0, u0, frames, root, a, va);
    TakeFrame(mem0, lay0, u0, frames, a, f);
    AccountMap(mem1, lay0, u0 + {f}, mem2, lay2, u2, frames, lay0, base, a, {f}, va, e);
    MapCompose(mem0, mem1, mem2, lay0.lvl, lay0.lvl, root, va, e);
    CommitTook(mem0, u0, mem1, u0 + {f}, u2, frames, root, va, f);
    SamePriv(lay0, u0 + {f}, lay2, u2, a);
    SpaceKept(mem0, lay0, mem2, lay2, root, a, vmas, holes, next, sound, page, e);
    AccountedConserves(lay0, u0, lay2, u2, a);
  }

  /** The space after the mapping failed, with the frame back in hand. */
  lemma FrameKept(mem0: Ram, lay0: Layout, u0: set<nat>, mem1: Ram, mem2: Ram, lay2: Layout, u2: set<nat>, frames: nat,
                  root: nat, a: nat,
                  vmas: seq<Vma>, holes: seq<Hole>, next: nat, sound: bool, page: nat, f: nat)
    requires Owned(mem0, lay0, u0, frames) && Owned(mem1, lay0, u0 + {f}, frames) && Owned(mem2, lay2, u2, frames)
    requires mem1 == mem0[f := ZeroTable()]
    requires f !in u0 && Pmm.GENERAL_FIRST <= f < frames && f !in lay0.own && f !in lay0.lvl && page % PAGE == 0
    requires SpaceOk(mem0, lay0, root, a, vmas, holes, next, sound) && Taken(vmas, page)
    requires Lookup(mem0, root, VaSplit(page)).None?
    requires SameLeaves(mem0, mem1, lay0.lvl) && SameLeaves(mem1, mem2, lay0.lvl) && IsRoot(lay2, root, a)
    requires Grown(lay0, u0 + {f}, lay2, u2, a) && NewOwned(lay0, lay2)
    requires !Affordable(mem2, u2, frames, root, VaSplit(page))
    ensures SpaceOk(mem2, lay2, root, a, vmas, holes, next, sound) && Conserves(lay0, u0, lay2, u2 - {f}, a)
    ensures SameLeaves(mem0, mem2, lay0.lvl) && Loose(lay2, u2, frames, f)
    ensures !CanCommit(mem2, u2 - {f}, frames, root, VaSplit(page))
  {
    hide VaSplit, Frames, Owned, SameLeaves, SpaceOk, Lookup, Accounted, Conserves, Affordable, CanCommit, NewOwned,
         PagesKept, TablesGrown;
    var va, base := VaSplit(page), u0 - Frames(lay0, a);
    SpaceParts(mem0, lay0, root, a, vmas, holes, next, sound);
    RootLevel(mem0, lay0, u0, frames, root, a);
    ConservesAccounted(mem0, lay0, u0, frames, a);
    SpaceUser(mem0, lay0, root, a, vmas, holes, next, sound, page);
    UnmappedSlot(mem0, lay0, u0, frames, root, a, va);
    TakeFrame(mem0, lay0, u0, frames, a, f);
    GrownTables(lay0, u0 + {f}, lay2, u2, a);
    AccountMap(mem1, lay0, u0 + {f}, mem2, lay2, u2, frames, lay0, base, a, {f}, va, ZERO_ENTRY);
    LeavesTrans(mem0, mem1, mem2, lay0.lvl);
    RootReads(mem0, mem2, lay0.lvl, root, root, va, ZERO_ENTRY);
    SamePriv(lay0, u0 + {f}, lay2, u2, a);
    SpaceSame(mem0, lay0, mem2, lay2, root, a, vmas, holes, next, sound);
    GiveBack(lay2, u2, lay0, base, a, f);
    CommitFails(mem2, u2, frames, root, va, f);
  }

  lemma SpaceUser(mem: Ram, lay: Layout, root: nat, a: nat, vmas: seq<Vma>, holes: seq<Hole>, next: nat, sound: bool,
                  page: nat)
    requires SpaceOk(mem, lay, root, a, vmas, holes, next, sound) && Taken(vmas, page)
    ensures UserPage(lay, a, VaSplit(page))
  {
    UserAddrPage(lay, a, page);
  }

  lemma AccountedConserves(lay0: Layout, u0: set<nat>, lay1: Layout, u1: set<nat>, a: nat)
    requires Frames(lay0, a) <= u0 && Accounted(lay1, u1, lay0, u0 - Frames(lay0, a), a, {})
    ensures Conserves(lay0, u0, lay1, u1, a)
  {
  }

  /** Taking the frame first: the tables still needed must fit what is left. */
  lemma CommitNeed(mem: Ram, lay: Layout, used: set<nat>, frames: nat, root: nat, va: seq<nat>, f: nat)
    requires Owned(mem, lay, used, frames) && root in lay.lvl && lay.lvl[root] == 4 && IsPage(va)
    requires f !in lay.lvl && f !in used && Pmm.GENERAL_FIRST <= f < frames
    ensures Need(mem[f := ZeroTable()], root, va) == Need(mem, root, va)
    ensures CanCommit(mem, used, frames, root, va) <==> Affordable(mem[f := ZeroTable()], used + {f}, frames, root, va)
  {
    assert LinkDown(mem, lay.lvl, root, va[0]);
    if mem[root][va[0]].bits.present {
      assert LinkDown(mem, lay.lvl, mem[root][va[0]].frame, va[1]);
    }
    Pmm.TakeCounted(used, frames, f);
  }

  lemma CommitTook(mem0: Ram, u0: set<nat>, mem1: Ram, u1: set<nat>, u2: set<nat>, frames: nat, root: nat, va: seq<nat>,
                   f: nat)
    requires IsPage(va) && Need(mem1, root, va) == Need(mem0, root, va) && Spent(Need(mem1, root, va), u1, u2, frames)
    requires u1 == u0 + {f} && f !in u0 && Pmm.GENERAL_FIRST <= f < frames
    ensures CommitSpent(mem0, u0, u2, frames, root, va)
  {
    Pmm.TakeCounted(u0, frames, f);
  }

  /** A failed commit gives its frame back and would fail again. */
  lemma CommitFails(mem: Ram, used: set<nat>, frames: nat, root: nat, va: seq<nat>, f: nat)
    requires IsPage(va) && f in used && Pmm.GENERAL_FIRST <= f < frames && !Affordable(mem, used, frames, root, va)
    ensures !CanCommit(mem, used - {f}, frames, root, va)
  {
    Pmm.TakeCounted(used - {f}, frames, f);
    assert used - {f} + {f} == used;
  }

  predicate Usable(e: Option<Entry>, writable: bool)
  {
    e.Some? && e.value.bits.user && (!writable || e.value.bits.write)
  }

  /** Every page of every space reads as before, except that `page` may have
      gained a zeroed private frame with its reservation's permissions. */
  ghost predicate Faulted(mem: Ram, mem': Ram, lvl: map<nat, nat>, root: nat, vmas: seq<Vma>, page: nat)
  {
    || SameLeaves(mem, mem', lvl)
    || exists f: nat, flags :: Fresh(mem, mem', lvl, root, vmas, page, f, flags)
  }

  ghost predicate Fresh(mem: Ram, mem': Ram, lvl: map<nat, nat>, root: nat, vmas: seq<Vma>, page: nat, f: nat,
                        flags: Flags)
  {
    && Reserved(vmas, page, flags) && Lookup(mem, root, VaSplit(page)).None?
    && f in mem' && mem'[f] == ZeroTable()
    && MapsOnePage(mem, mem', lvl, root, VaSplit(page), MapEntry(f * 4096, flags))
  }
}
