/** The kernel half of the address spaces (kernel/memory/vmm.c): every process
    reaches the kernel's tables through PML4 entries copied when it was created. */
module KernelHalf {
  import opened PageTables
  import opened Ownership
  import opened Vmm
  import opened AddressSpaces
  import BootMemory
  import Pmm

  /** Pages through shared entries read the same. */
  lemma SameKernel(mem: Ram, kroot: nat, root: nat, q: seq<nat>)
    requires KernelShared(mem, kroot, root) && IsPage(q) && q[0] >= 256
    ensures LeafTable(mem, root, q) == LeafTable(mem, kroot, q)
    ensures Lookup(mem, root, q) == Lookup(mem, kroot, q) && HugeEntry(mem, root, q) == HugeEntry(mem, kroot, q)
  {
    assert mem[root][q[0]] == mem[kroot][q[0]];
    DescendSteps(mem, root, q);
    DescendSteps(mem, kroot, q);
  }

  /** No upper entry of any PML4 changed. */
  ghost predicate HighKept(mem: Ram, mem': Ram, lvl: map<nat, nat>)
  {
    && (forall r :: r in lvl && lvl[r] == 4 ==> r in mem && r in mem')
    && (forall r, j {:trigger mem'[r][j]} :: r in lvl && lvl[r] == 4 && 256 <= j < 512 ==> mem'[r][j] == mem[r][j])
  }

  lemma HighShared(mem: Ram, mem': Ram, lvl: map<nat, nat>, kroot: nat, root: nat)
    requires HighKept(mem, mem', lvl) && KernelShared(mem, kroot, root)
    requires kroot in lvl && lvl[kroot] == 4 && root in lvl && lvl[root] == 4
    ensures KernelShared(mem', kroot, root)
  {
    forall i | 256 <= i < 512
      ensures mem'[root][i] == mem'[kroot][i] && mem'[kroot][i].bits.present
    {
      assert mem'[root][i] == mem[root][i] && mem'[kroot][i] == mem[kroot][i];
    }
  }

  lemma TopsHigh(mem: Ram, mem': Ram, lvl: map<nat, nat>, root: nat, i: nat, user: bool)
    requires TopsKept(mem, mem', lvl, root, i, user) && i < 512
    requires i < 256 || (root in mem && mem[root][i].bits.present && !user)
    ensures HighKept(mem, mem', lvl)
  {
  }

  lemma RootsHigh(mem: Ram, mem': Ram, lvl: map<nat, nat>)
    requires UppersSame(mem, mem', lvl)
    ensures HighKept(mem, mem', lvl)
  {
  }

  lemma TablesHigh(mem: Ram, mem': Ram, lvl: map<nat, nat>)
    requires forall g :: g in lvl ==> g in mem' && g in mem && mem'[g] == mem[g]
    ensures HighKept(mem, mem', lvl)
  {
  }

  /** A kernel PML4 never becomes part of a process. */
  lemma KernelStays(mem0: Ram, lay0: Layout, u0: set<nat>, mem1: Ram, lay1: Layout, u1: set<nat>, frames: nat, a: nat,
                    kroot: nat)
    requires Owned(mem0, lay0, u0, frames) && Owned(mem1, lay1, u1, frames) && TablesGrown(lay0, u0, lay1, u1, a)
    requires kroot in lay0.lvl && kroot !in lay0.own
    ensures kroot in lay1.lvl && lay1.lvl[kroot] == lay0.lvl[kroot] && kroot !in lay1.own
  {
    assert FrameOK(lay0, u0, frames, kroot) && FrameOK(lay1, u1, frames, kroot);
    assert kroot in lay1.own ==> SlotOK(mem1, lay1, lay1.own[kroot]) && SlotOK(mem0, lay0, lay1.own[kroot]);
  }

  /** How many entries from i on are absent. */
  ghost function Absent(t: Table, i: nat): nat
    decreases 512 - i
  {
    if i >= 512 then 0 else (if t[i].bits.present then 0 else 1) + Absent(t, i + 1)
  }

  /** One absent slot of reserve_kernel_pml4_entries. */
  method ReserveSlot(m: Memory, kroot: nat, i: nat, ghost mem0: Ram, ghost lvl0: map<nat, nat>) returns (ok: bool)
    requires m.Valid() && kroot in m.lay.lvl && m.lay.lvl[kroot] == 4 && kroot !in m.lay.own && kroot in m.mem
    requires 256 <= i < 512 && !m.mem[kroot][i].bits.present && SameLeaves(mem0, m.mem, lvl0)
    requires LevelsKept(lvl0, m.lay.lvl)
    modifies m, m.pmm, m.pmm.bitmap
    ensures m.Valid() && kroot in m.lay.lvl && m.lay.lvl[kroot] == 4 && kroot !in m.lay.own && kroot in m.mem
    ensures SameLeaves(mem0, m.mem, lvl0) && LevelsKept(old(m.lay).lvl, m.lay.lvl) && LevelsKept(lvl0, m.lay.lvl)
    ensures forall g :: g in old(m.lay).lvl && g != kroot ==> g in m.mem && g in old(m.mem) && m.mem[g] == old(m.mem)[g]
    ensures ok ==> m.mem[kroot][i].bits == KERNEL_LINK
    ensures forall k :: 0 <= k < 512 && k != i ==> m.mem[kroot][k] == old(m.mem)[kroot][k]
    ensures if ok then Pmm.FreeCount(m.pmm.used, m.pmm.frames) == Pmm.FreeCount(old(m.pmm.used), m.pmm.frames) - 1
            else m.mem == old(m.mem) && m.pmm.used == old(m.pmm.used) && Pmm.FreeCount(m.pmm.used, m.pmm.frames) == 0
  {
    hide Owned, SameLeaves, Grown, DataKept, NewOwned, Pmm.Represents, Pmm.NoneFree, Pmm.FreeCount, TookFor;
    ghost var mem1, lay1, u1 := m.mem, m.lay, m.pmm.used;
    var next;
    ok, next := m.MakeTable(kroot, i, false, 0);
    if !ok {
      Pmm.NoneCounted(m.pmm.used, m.pmm.frames);
      return;
    }
    Took(mem1[kroot][i], u1, m.pmm.used, m.pmm.frames, m.mem, next);
    GrownKernel(mem1, lay1, u1, m.mem, m.lay, m.pmm.used, m.pmm.frames, kroot);
    LeavesStep(mem0, mem1, m.mem, lvl0, lay1.lvl);
  }

  /** Present and writable, and not for users. */
  const KERNEL_LINK := Flags(true, true, false, false, false, false, 0)

  /** Slots 256..i-1 of the kernel PML4 were filled and nothing else was touched. */
  ghost predicate Filled(mem0: Ram, mem: Ram, lvl: map<nat, nat>, kroot: nat, i: nat)
  {
    && kroot in mem && kroot in mem0
    && (forall g :: g in lvl && g != kroot ==> g in mem && g in mem0 && mem[g] == mem0[g])
    && (forall k :: 256 <= k < i && k < 512 ==> mem[kroot][k].bits.present)
    && (forall k :: 256 <= k < i && k < 512 && !mem0[kroot][k].bits.present ==> mem[kroot][k].bits == KERNEL_LINK)
    && (forall k :: 0 <= k < 512 && (k < 256 || k >= i || mem0[kroot][k].bits.present) ==> mem[kroot][k] == mem0[kroot][k])
  }

  lemma FilledNext(mem0: Ram, mem1: Ram, mem2: Ram, lvl0: map<nat, nat>, lvl1: map<nat, nat>, kroot: nat, i: nat)
    requires Filled(mem0, mem1, lvl0, kroot, i) && LevelsKept(lvl0, lvl1) && 256 <= i < 512
    requires forall g :: g in lvl1 && g != kroot ==> g in mem2 && g in mem1 && mem2[g] == mem1[g]
    requires kroot in mem2 && mem2[kroot][i].bits.present
    requires forall k :: 0 <= k < 512 && k != i ==> mem2[kroot][k] == mem1[kroot][k]
    requires if mem1[kroot][i].bits.present then mem2[kroot][i] == mem1[kroot][i] else mem2[kroot][i].bits == KERNEL_LINK
    ensures Filled(mem0, mem2, lvl0, kroot, i + 1)
  {
    forall g | g in lvl0 && g != kroot
      ensures g in mem2 && g in mem0 && mem2[g] == mem0[g]
    {
      assert g in mem1 && mem1[g] == mem0[g];
    }
  }

  /** reserve_kernel_pml4_entries: a table for every absent kernel slot.  No page of
      any space reads differently; it fails exactly when there are fewer free frames
      than absent slots. */
  method ReserveKernel(m: Memory, kroot: nat) returns (ok: bool)
    requires m.Valid() && kroot in m.lay.lvl && m.lay.lvl[kroot] == 4 && kroot !in m.lay.own
    modifies m, m.pmm, m.pmm.bitmap
    ensures m.Valid() && kroot in m.lay.lvl && m.lay.lvl[kroot] == 4 && kroot !in m.lay.own && kroot in old(m.mem)
    ensures SameLeaves(old(m.mem), m.mem, old(m.lay).lvl) && LevelsKept(old(m.lay).lvl, m.lay.lvl)
    ensures exists i: nat :: i <= 512 && (ok ==> i == 512) && Filled(old(m.mem), m.mem, old(m.lay).lvl, kroot, i)
    ensures ok <==> Absent(old(m.mem)[kroot], 256) <= Pmm.FreeCount(old(m.pmm.used), m.pmm.frames)
    ensures ok ==>
              Pmm.FreeCount(m.pmm.used, m.pmm.frames) == Pmm.FreeCount(old(m.pmm.used), m.pmm.frames) - Absent(old(m.mem)[kroot], 256)
    ensures !ok ==> Pmm.FreeCount(m.pmm.used, m.pmm.frames) == 0
  {
    ghost var mem0, lay0, free0 := m.mem, m.lay, Pmm.FreeCount(m.pmm.used, m.pmm.frames);
    assert forall g :: g in lay0.lvl ==> g in mem0;
    RootSlot(m.mem, m.lay, m.pmm.used, m.pmm.frames, kroot);
    hide Owned, Pmm.Represents, Pmm.FreeCount;
    var i := 256;
    while i < 512
      invariant 256 <= i <= 512 && m.Valid() && kroot in m.lay.lvl && m.lay.lvl[kroot] == 4 && kroot !in m.lay.own
      invariant SameLeaves(mem0, m.mem, lay0.lvl) && LevelsKept(lay0.lvl, m.lay.lvl)
      invariant Filled(mem0, m.mem, lay0.lvl, kroot, i)
      invariant Pmm.FreeCount(m.pmm.used, m.pmm.frames) - Absent(mem0[kroot], i) == free0 - Absent(mem0[kroot], 256)
    {
      assert m.mem[kroot][i] == mem0[kroot][i];
      hide SameLeaves, LevelsKept, Filled;
      ghost var mem1, lay1 := m.mem, m.lay;
      if !m.mem[kroot][i].bits.present {
        ok := ReserveSlot(m, kroot, i, mem0, lay0.lvl);
        if !ok {
          return;
        }
        FilledNext(mem0, mem1, m.mem, lay0.lvl, lay1.lvl, kroot, i);
      } else {
        FilledStays(mem0, m.mem, lay0.lvl, kroot, i);
      }
      i := i + 1;
    }
    ok := true;
  }

  lemma FilledStays(mem0: Ram, mem: Ram, lvl: map<nat, nat>, kroot: nat, i: nat)
    requires Filled(mem0, mem, lvl, kroot, i) && 256 <= i < 512 && mem[kroot][i].bits.present
    ensures Filled(mem0, mem, lvl, kroot, i + 1)
  {
  }

  lemma Took(e: Entry, u0: set<nat>, u1: set<nat>, frames: nat, mem: Ram, next: nat)
    requires TookFor(e, u0, u1, frames, mem, next) && !e.bits.present
    ensures Pmm.FreeCount(u1, frames) == Pmm.FreeCount(u0, frames) - 1
  {
    Pmm.TakeCounted(u0, frames, next);
  }

  lemma GrownKernel(mem0: Ram, lay0: Layout, u0: set<nat>, mem1: Ram, lay1: Layout, u1: set<nat>, frames: nat,
                    kroot: nat)
    requires Owned(mem0, lay0, u0, frames) && Owned(mem1, lay1, u1, frames) && Grown(lay0, u0, lay1, u1, 0)
    requires kroot in lay0.lvl && kroot !in lay0.own
    ensures kroot in lay1.lvl && lay1.lvl[kroot] == lay0.lvl[kroot] && kroot !in lay1.own
    ensures LevelsKept(lay0.lvl, lay1.lvl)
  {
    GrownTables(lay0, u0, lay1, u1, 0);
    KernelStays(mem0, lay0, u0, mem1, lay1, u1, frames, 0, kroot);
  }

  lemma LeavesStep(mem0: Ram, mem1: Ram, mem2: Ram, lvl0: map<nat, nat>, lvl1: map<nat, nat>)
    requires SameLeaves(mem0, mem1, lvl0) && SameLeaves(mem1, mem2, lvl1) && LevelsKept(lvl0, lvl1)
    ensures SameLeaves(mem0, mem2, lvl0)
  {
    forall r, q | r in lvl0 && lvl0[r] == 4 && IsPage(q)
      ensures Lookup(mem2, r, q) == Lookup(mem0, r, q) && HugeEntry(mem2, r, q) == HugeEntry(mem0, r, q)
    {
      assert Lookup(mem1, r, q) == Lookup(mem0, r, q) && HugeEntry(mem1, r, q) == HugeEntry(mem0, r, q);
    }
  }

  // ---- every run -----------------------------------------------------------------

  /** Every process shares the kernel half. */
  ghost predicate HalfOk(mem: Ram, lay: Layout, kroot: nat, roots: seq<nat>, spaces: seq<nat>)
  {
    && kroot in lay.lvl && lay.lvl[kroot] == 4 && kroot !in lay.own && kroot in mem
    && (forall i :: 256 <= i < 512 ==> mem[kroot][i].bits.present)
    && |roots| == |spaces|
    && forall k :: 0 <= k < |roots| ==> IsRoot(lay, roots[k], spaces[k]) && KernelShared(mem, kroot, roots[k])
  }

  lemma RootStays(mem0: Ram, lay0: Layout, u0: set<nat>, mem1: Ram, lay1: Layout, u1: set<nat>, frames: nat, a: nat,
                  root: nat, b: nat)
    requires Owned(mem0, lay0, u0, frames) && Owned(mem1, lay1, u1, frames) && TablesGrown(lay0, u0, lay1, u1, a)
    requires IsRoot(lay0, root, b)
    ensures IsRoot(lay1, root, b) && root in lay0.lvl && lay0.lvl[root] == 4
  {
    assert FrameOK(lay0, u0, frames, root) && SlotOK(mem0, lay0, Slot(b, [])) && SlotOK(mem1, lay1, Slot(b, []));
  }

  lemma HalfKept(mem0: Ram, lay0: Layout, u0: set<nat>, mem1: Ram, lay1: Layout, u1: set<nat>, frames: nat, a: nat,
                 kroot: nat, roots: seq<nat>, spaces: seq<nat>)
    requires Owned(mem0, lay0, u0, frames) && Owned(mem1, lay1, u1, frames) && TablesGrown(lay0, u0, lay1, u1, a)
    requires HighKept(mem0, mem1, lay0.lvl) && HalfOk(mem0, lay0, kroot, roots, spaces)
    ensures HalfOk(mem1, lay1, kroot, roots, spaces)
  {
    hide Owned, TablesGrown, KernelShared;
    KernelStays(mem0, lay0, u0, mem1, lay1, u1, frames, a, kroot);
    forall i | 256 <= i < 512
      ensures mem1[kroot][i].bits.present
    {
      assert mem1[kroot][i] == mem0[kroot][i];
    }
    forall k | 0 <= k < |roots|
      ensures IsRoot(lay1, roots[k], spaces[k]) && KernelShared(mem1, kroot, roots[k])
    {
      RootStays(mem0, lay0, u0, mem1, lay1, u1, frames, a, roots[k], spaces[k]);
      HighShared(mem0, mem1, lay0.lvl, kroot, roots[k]);
    }
  }

  /** A kernel mapping, as vmm_map makes it: every process sees it at once, however
      long ago it was created. */
  method MapKernel(m: Memory, kroot: nat, roots: seq<nat>, ghost spaces: seq<nat>, virt: nat, phys: nat,
                   flags: Flags) returns (ok: bool)
    requires m.Valid() && HalfOk(m.mem, m.lay, kroot, roots, spaces) && VaSplit(virt)[0] >= 256 && !flags.user
    modifies m, m.pmm, m.pmm.bitmap
    ensures m.Valid() && HalfOk(m.mem, m.lay, kroot, roots, spaces)
    ensures ok ==>
              forall k :: 0 <= k < |roots| ==> Lookup(m.mem, roots[k], VaSplit(virt)) == Lookup(m.mem, kroot, VaSplit(virt))
    ensures ok ==>
              Lookup(m.mem, kroot, VaSplit(virt)) == if MapEntry(phys, flags).bits.present then Some(MapEntry(phys, flags)) else None
    ensures !ok ==> SameLeaves(old(m.mem), m.mem, old(m.lay).lvl)
  {
    ghost var mem0, lay0, u0 := m.mem, m.lay, m.pmm.used;
    hide Owned, VaSplit, Lookup, HalfOk, SameLeaves, TablesGrown, TopsKept, Grown, PagesKept, NewOwned, Affordable,
         Spent, Need, UserPath, DataKept, PageSet, Pmm.Represents;
    HalfParts(mem0, lay0, kroot, roots, spaces);
    ok := m.MapIn(kroot, virt, phys, flags, 0);
    TopsHigh(mem0, m.mem, lay0.lvl, kroot, VaSplit(virt)[0], false);
    HalfKept(mem0, lay0, u0, m.mem, m.lay, m.pmm.used, m.pmm.frames, 0, kroot, roots, spaces);
    HalfReads(m.mem, m.lay, kroot, roots, spaces);
  }

  lemma HalfParts(mem: Ram, lay: Layout, kroot: nat, roots: seq<nat>, spaces: seq<nat>)
    requires HalfOk(mem, lay, kroot, roots, spaces)
    ensures kroot in lay.lvl && lay.lvl[kroot] == 4 && kroot !in lay.own && kroot in mem && |roots| == |spaces|
    ensures forall i :: 256 <= i < 512 ==> mem[kroot][i].bits.present
    ensures forall k :: 0 <= k < |roots| ==> IsRoot(lay, roots[k], spaces[k])
  {
  }

  /** The common half: every kernel page reads the same in every process. */
  lemma HalfReads(mem: Ram, lay: Layout, kroot: nat, roots: seq<nat>, spaces: seq<nat>)
    requires HalfOk(mem, lay, kroot, roots, spaces)
    ensures forall k, q {:trigger Lookup(mem, roots[k], q)} {:trigger HugeEntry(mem, roots[k], q)} ::
              0 <= k < |roots| && IsPage(q) && q[0] >= 256 ==>
                Lookup(mem, roots[k], q) == Lookup(mem, kroot, q) && HugeEntry(mem, roots[k], q) == HugeEntry(mem, kroot, q)
  {
    forall k, q | 0 <= k < |roots| && IsPage(q) && q[0] >= 256
      ensures Lookup(mem, roots[k], q) == Lookup(mem, kroot, q)
      ensures HugeEntry(mem, roots[k], q) == HugeEntry(mem, kroot, q)
    {
      SameKernel(mem, kroot, roots[k], q);
    }
  }

  lemma {:induction false} Above(numbers: set<nat>) returns (b: nat)
    ensures forall x :: x in numbers ==> x < b
    decreases numbers
  {
    if numbers == {} {
      return 0;
    }
    var x :| x in numbers;
    var rest := numbers - {x};
    var c := Above(rest);
    b := if x < c then c else x + 1;
    assert forall y :: y in numbers ==> y == x || y in rest;
  }

  /** There is always an unused name for a new space. */
  lemma FreshName(lay: Layout) returns (a: nat)
    ensures FreshSpace(lay, a)
  {
    var taken := (set s | s in lay.at :: s.space) + lay.priv;
    a := Above(taken);
    assert forall s :: s in lay.at ==> s.space in taken;
  }

  lemma CreatedGrown(mem: Ram, l0: Layout, u0: set<nat>, frames: nat, lay: Layout, used: set<nat>, a: nat, root: nat)
    requires Owned(mem, l0, u0, frames) && Created(l0, u0, lay, used, a, root) && FreshSpace(l0, a)
    ensures TablesGrown(l0, u0, lay, used, a)
  {
    var pdpt :| lay == NewSpace(l0, a, root, pdpt) && root != pdpt && root !in u0 && pdpt !in u0 && used == u0 + {root, pdpt};
    assert FrameOK(l0, u0, frames, root) && FrameOK(l0, u0, frames, pdpt);
  }

  datatype Op =
    | MapKernel(virt: nat, phys: nat, flags: Flags) | UnmapKernel(virt: nat)
    | MapBorrowed(who: nat, virt: nat, phys: nat, flags: Flags) | MapPrivate(who: nat, virt: nat, flags: Flags)
    | UnmapUser(who: nat, virt: nat) | ProtectUser(who: nat, virt: nat, flags: Flags)
    | LowElf(who: nat) | Create

  /** What the callers pass: kernel mappings are not for user mode and lie in the
      kernel half, user mappings in the lower half. */
  predicate WellFormed(op: Op)
  {
    match op
    case MapKernel(virt, _, flags) => VaSplit(virt)[0] >= 256 && !flags.user
    case UnmapKernel(virt) => VaSplit(virt)[0] >= 256
    case MapBorrowed(_, virt, _, flags) => VaSplit(virt)[0] < 256 && flags.shared
    case MapPrivate(_, virt, flags) => VaSplit(virt)[0] < 256 && !flags.shared
    case UnmapUser(_, virt) => VaSplit(virt)[0] < 256
    case ProtectUser(_, virt, _) => VaSplit(virt)[0] < 256
    case LowElf(_) => true
    case Create => true
  }

  /** Map a page in the lower half of one process. */
  method MapUser(m: Memory, kroot: nat, roots: seq<nat>, ghost spaces: seq<nat>, who: nat, virt: nat, phys: nat,
                 flags: Flags) returns (ok: bool)
    requires m.Valid() && HalfOk(m.mem, m.lay, kroot, roots, spaces) && who < |roots| && VaSplit(virt)[0] < 256
    requires flags.shared || Loose(m.lay, m.pmm.used, m.pmm.frames, phys / 4096)
    modifies m, m.pmm, m.pmm.bitmap
    ensures m.Valid() && HalfOk(m.mem, m.lay, kroot, roots, spaces)
    ensures !ok && !flags.shared ==> Loose(m.lay, m.pmm.used, m.pmm.frames, phys / 4096)
  {
    ghost var mem0, lay0, u0 := m.mem, m.lay, m.pmm.used;
    hide Owned, VaSplit, Lookup, HalfOk, SameLeaves, TablesGrown, TopsKept, PagesKept, NewOwned, Affordable, Spent,
         Need, UserPath, DataKept, PageSet, Pmm.Represents;
    HalfParts(mem0, lay0, kroot, roots, spaces);
    RootLevels(mem0, lay0, m.pmm.used, m.pmm.frames, roots[who], spaces[who]);
    ok := m.MapIn(roots[who], virt, phys, flags, spaces[who]);
    TopsHigh(mem0, m.mem, lay0.lvl, roots[who], VaSplit(virt)[0], flags.user);
    HalfKept(mem0, lay0, u0, m.mem, m.lay, m.pmm.used, m.pmm.frames, spaces[who], kroot, roots, spaces);
  }

  lemma RootLevels(mem: Ram, lay: Layout, used: set<nat>, frames: nat, root: nat, a: nat)
    requires Owned(mem, lay, used, frames) && IsRoot(lay, root, a)
    ensures root in lay.lvl && lay.lvl[root] == 4 && root in mem
  {
    assert FrameOK(lay, used, frames, root) && SlotOK(mem, lay, Slot(a, []));
  }

  /** pmm_alloc_frame, vmm_map_in, and pmm_free_frame if that failed. */
  method MapPrivate(m: Memory, kroot: nat, roots: seq<nat>, ghost spaces: seq<nat>, who: nat, virt: nat, flags: Flags)
    requires m.Valid() && HalfOk(m.mem, m.lay, kroot, roots, spaces) && who < |roots| && VaSplit(virt)[0] < 256
    requires !flags.shared
    modifies m, m.pmm, m.pmm.bitmap
    ensures m.Valid() && HalfOk(m.mem, m.lay, kroot, roots, spaces)
  {
    ghost var mem0, lay0 := m.mem, m.lay;
    hide Owned, VaSplit, HalfOk, Pmm.NoneFree, Pmm.Represents;
    var f := m.AllocZeroed();
    if f == 0 {
      return;
    }
    HalfElsewhere(mem0, m.mem, lay0, m.pmm.used, m.pmm.frames, kroot, roots, spaces, f);
    var ok := MapUser(m, kroot, roots, spaces, who, virt, f * 4096, flags);
    if !ok {
      ReturnLoose(m, f);
    }
  }

  lemma HalfElsewhere(mem: Ram, mem': Ram, lay: Layout, used: set<nat>, frames: nat, kroot: nat, roots: seq<nat>,
                      spaces: seq<nat>, f: nat)
    requires HalfOk(mem, lay, kroot, roots, spaces) && Owned(mem', lay, used, frames) && f !in lay.lvl
    requires mem' == mem[f := ZeroTable()]
    ensures HalfOk(mem', lay, kroot, roots, spaces)
  {
    forall k | 0 <= k < |roots|
      ensures KernelShared(mem', kroot, roots[k])
    {
      RootLevels(mem', lay, used, frames, roots[k], spaces[k]);
      assert KernelShared(mem, kroot, roots[k]);
    }
  }

  lemma HalfMore(mem: Ram, lay: Layout, kroot: nat, roots: seq<nat>, spaces: seq<nat>, root: nat, a: nat)
    requires HalfOk(mem, lay, kroot, roots, spaces) && IsRoot(lay, root, a) && KernelShared(mem, kroot, root)
    ensures HalfOk(mem, lay, kroot, roots + [root], spaces + [a])
  {
  }

  /** process_pml4_create on a memory that still has its low identity map. */
  method CreateSpace(m: Memory, kroot: nat, roots: seq<nat>,
                     ghost spaces: seq<nat>) returns (roots': seq<nat>, ghost spaces': seq<nat>)
    requires m.Valid() && HalfOk(m.mem, m.lay, kroot, roots, spaces) && KernelReady(m.mem, m.lay, kroot)
    modifies m, m.pmm, m.pmm.bitmap
    ensures m.Valid() && HalfOk(m.mem, m.lay, kroot, roots', spaces') && roots <= roots'
  {
    ghost var mem0, lay0, u0 := m.mem, m.lay, m.pmm.used;
    roots', spaces' := roots, spaces;
    ghost var a := FreshName(m.lay);
    hide Owned, KernelReady, FreshSpace, SameLeaves, SeesKernel, NoTwoFree, Created, Pmm.Represents, TablesGrown,
         HighKept, KernelShared, HalfOk, IsRoot;
    var root := Pml4Create(m, kroot, a);
    TablesHigh(mem0, m.mem, lay0.lvl);
    if root == 0 {
      UnchangedGrown(mem0, lay0, u0, 0);
      HalfKept(mem0, lay0, u0, m.mem, m.lay, m.pmm.used, m.pmm.frames, 0, kroot, roots, spaces);
      return;
    }
    CreatedGrown(mem0, lay0, u0, m.pmm.frames, m.lay, m.pmm.used, a, root);
    HalfKept(mem0, lay0, u0, m.mem, m.lay, m.pmm.used, m.pmm.frames, a, kroot, roots, spaces);
    HalfMore(m.mem, m.lay, kroot, roots, spaces, root, a);
    roots', spaces' := roots + [root], spaces + [a];
  }

  /** One operation on the page tables. */
  method Act(m: Memory, kroot: nat, roots: seq<nat>, ghost spaces: seq<nat>,
             op: Op) returns (roots': seq<nat>, ghost spaces': seq<nat>)
    requires m.Valid() && HalfOk(m.mem, m.lay, kroot, roots, spaces) && WellFormed(op)
    modifies m, m.pmm, m.pmm.bitmap
    ensures m.Valid() && HalfOk(m.mem, m.lay, kroot, roots', spaces') && roots <= roots'
  {
    roots', spaces' := roots, spaces;
    if op.Create? {
      HalfParts(m.mem, m.lay, kroot, roots, spaces);
      assert LinkDown(m.mem, m.lay.lvl, kroot, 0);
      if m.mem[kroot][0].bits.present && m.mem[m.mem[kroot][0].frame][0].bits.present {
        roots', spaces' := CreateSpace(m, kroot, roots, spaces);
      }
    } else if op.MapKernel? {
      var _ := MapKernel(m, kroot, roots, spaces, op.virt, op.phys, op.flags);
    } else if op.UnmapKernel? {
      Unmap(m, kroot, roots, spaces, kroot, op.virt);
    } else if op.who < |roots| {
      HalfParts(m.mem, m.lay, kroot, roots, spaces);
      RootLevels(m.mem, m.lay, m.pmm.used, m.pmm.frames, roots[op.who], spaces[op.who]);
      match op {
        case MapBorrowed(who, virt, phys, flags) => var _ := MapUser(m, kroot, roots, spaces, who, virt, phys, flags);
        case MapPrivate(who, virt, flags) => MapPrivate(m, kroot, roots, spaces, who, virt, flags);
        case UnmapUser(who, virt) => Unmap(m, kroot, roots, spaces, roots[who], virt);
        case ProtectUser(who, virt, flags) => Protect(m, kroot, roots, spaces, roots[who], virt, flags);
        case LowElf(who) => CutLow(m, kroot, roots, spaces, who);
      }
    }
  }

  method Unmap(m: Memory, kroot: nat, roots: seq<nat>, ghost spaces: seq<nat>, root: nat, virt: nat)
    requires m.Valid() && HalfOk(m.mem, m.lay, kroot, roots, spaces) && root in m.lay.lvl && m.lay.lvl[root] == 4
    modifies m
    ensures m.Valid() && HalfOk(m.mem, m.lay, kroot, roots, spaces)
  {
    ghost var mem0, lay0, u0 := m.mem, m.lay, m.pmm.used;
    hide Owned, VaSplit, HalfOk, TablesGrown, PagesKept, PageSet, Pmm.Represents, MapsPage, MapsOnePage, LeafTable;
    var _ := m.UnmapIn(root, virt);
    RootsHigh(mem0, m.mem, lay0.lvl);
    HalfKept(mem0, lay0, u0, m.mem, m.lay, u0, m.pmm.frames, 0, kroot, roots, spaces);
  }

  method Protect(m: Memory, kroot: nat, roots: seq<nat>, ghost spaces: seq<nat>, root: nat, virt: nat, flags: Flags)
    requires m.Valid() && HalfOk(m.mem, m.lay, kroot, roots, spaces) && root in m.lay.lvl && m.lay.lvl[root] == 4
    modifies m
    ensures m.Valid() && HalfOk(m.mem, m.lay, kroot, roots, spaces)
  {
    ghost var mem0, lay0, u0 := m.mem, m.lay, m.pmm.used;
    hide Owned, VaSplit, HalfOk, TablesGrown, PagesKept, PageSet, Pmm.Represents, MapsPage, MapsOnePage, Lookup;
    var _ := m.ProtectIn(root, virt, flags);
    RootsHigh(mem0, m.mem, lay0.lvl);
    HalfKept(mem0, lay0, u0, m.mem, m.lay, u0, m.pmm.frames, 0, kroot, roots, spaces);
  }

  method CutLow(m: Memory, kroot: nat, roots: seq<nat>, ghost spaces: seq<nat>, who: nat)
    requires m.Valid() && HalfOk(m.mem, m.lay, kroot, roots, spaces) && who < |roots|
    modifies m
    ensures m.Valid() && HalfOk(m.mem, m.lay, kroot, roots, spaces)
  {
    ghost var mem0, lay0, u0 := m.mem, m.lay, m.pmm.used;
    HalfParts(mem0, lay0, kroot, roots, spaces);
    hide Owned, HalfOk, LowCut, Pmm.Represents, TablesGrown;
    EnableLowElf(m, roots[who], spaces[who]);
    CutKept(mem0, m.mem, lay0, spaces[who], u0, m.pmm.frames, kroot, roots, spaces);
  }

  lemma CutKept(mem: Ram, mem': Ram, lay: Layout, a: nat, used: set<nat>, frames: nat, kroot: nat, roots: seq<nat>,
                spaces: seq<nat>)
    requires HalfOk(mem, lay, kroot, roots, spaces) && Owned(mem, lay, used, frames) && HighKept(mem, mem', lay.lvl)
    ensures HalfOk(mem', lay.(priv := lay.priv + {a}), kroot, roots, spaces)
  {
    hide Owned, KernelShared;
    forall i | 256 <= i < 512
      ensures mem'[kroot][i].bits.present
    {
      assert mem'[kroot][i] == mem[kroot][i];
    }
    forall k | 0 <= k < |roots|
      ensures KernelShared(mem', kroot, roots[k])
    {
      RootLevels(mem, lay, used, frames, roots[k], spaces[k]);
      HighShared(mem, mem', lay.lvl, kroot, roots[k]);
    }
  }

  /** After any sequence of kernel mappings, user mappings, process creations and
      permission changes, the kernel half reads the same in every process: a
      process never misses a kernel page that was mapped after its creation. */
  method Run(m: Memory, kroot: nat, ops: seq<Op>) returns (roots: seq<nat>, ghost spaces: seq<nat>)
    requires m.Valid() && HalfOk(m.mem, m.lay, kroot, [], []) && forall k :: 0 <= k < |ops| ==> WellFormed(ops[k])
    modifies m, m.pmm, m.pmm.bitmap
    ensures m.Valid() && HalfOk(m.mem, m.lay, kroot, roots, spaces)
    ensures forall k, q {:trigger Lookup(m.mem, roots[k], q)} {:trigger HugeEntry(m.mem, roots[k], q)} ::
              0 <= k < |roots| && IsPage(q) && q[0] >= 256 ==>
                Lookup(m.mem, roots[k], q) == Lookup(m.mem, kroot, q) && HugeEntry(m.mem, roots[k], q) == HugeEntry(m.mem, kroot, q)
  {
    hide Owned, HalfOk, Lookup, HugeEntry, Pmm.Represents;
    roots, spaces := [], [];
    var k := 0;
    while k < |ops|
      invariant 0 <= k <= |ops| && m.Valid() && HalfOk(m.mem, m.lay, kroot, roots, spaces)
    {
      roots, spaces := Act(m, kroot, roots, spaces, ops[k]);
      k := k + 1;
    }
    HalfReads(m.mem, m.lay, kroot, roots, spaces);
  }

  // ---- the state after boot --------------------------------------------------------

  const HHDM_GIB: nat := 4
  const HHDM: nat := 0xFFFF_8000_0000_0000

  /** A 2 MiB page of the boot tables. */
  function BootHuge(i: nat): Entry
  {
    Entry(i * 512, NO_FLAGS.(present := true, write := true, ps := true))
  }

  /** The tables of main.asm, one after the other from frame `base`: PML4, the PDPT
      shared by its first and last slot, its directory, the PDPT of the direct map
      and its four directories; then the directories that hhdm_extend added. */
  function BootEntry(base: nat, pds: seq<nat>, f: nat, i: nat): Entry
  {
    if f == base then
      if i == 0 || i == 511 then LinkEntry(base + 1, false) else if i == 256 then LinkEntry(base + 3, false)
          else ZERO_ENTRY
    else if f == base + 1 then
      if i == 0 || i == 510 then LinkEntry(base + 2, false) else ZERO_ENTRY
    else if f == base + 2 then BootHuge(i)
    else if f == base + 3 then
      if i < HHDM_GIB then LinkEntry(base + 4 + i, false)
      else if i - HHDM_GIB < |pds| then LinkEntry(pds[i - HHDM_GIB], false) else ZERO_ENTRY
    else if base + 4 <= f < base + 4 + HHDM_GIB then BootHuge((f - base - 4) * 512 + i)
    else if f in pds then BootHuge((HHDM_GIB + IndexOf(pds, f)) * 512 + i)
    else ZERO_ENTRY
  }

  function IndexOf(s: seq<nat>, x: nat): (k: nat)
    requires x in s
    ensures k < |s| && s[k] == x
  {
    if s[0] == x then 0 else 1 + IndexOf(s[1..], x)
  }

  function BootTable(base: nat, pds: seq<nat>, f: nat): (t: Table)
    ensures forall i :: 0 <= i < 512 ==> t[i] == BootEntry(base, pds, f, i)
  {
    var t := seq(512, i requires 0 <= i < 512 => BootEntry(base, pds, f, i));
    t
  }

  function BootImage(base: nat, pds: seq<nat>, frames: nat): (mem: Ram)
    ensures forall f: nat :: f < frames ==> f in mem && mem[f] == BootTable(base, pds, f)
  {
    map f: nat | f < frames :: BootTable(base, pds, f)
  }

  function BootLevels(base: nat, pds: seq<nat>): (lvl: map<nat, nat>)
  {
    (map f: nat | f in pds :: 2) +
    map[base := 4, base + 1 := 3, base + 2 := 2, base + 3 := 3, base + 4 := 2, base + 5 := 2, base + 6 := 2,
        base + 7 := 2]
  }

  ghost function BootLayout(base: nat, pds: seq<nat>): Layout
  {
    Layout(BootLevels(base, pds), map[], map[], {})
  }

  /** The added directories are frames of their own. */
  ghost predicate Extra(base: nat, pds: seq<nat>, frames: nat)
  {
    && |pds| <= 512 - HHDM_GIB
    && (forall k :: 0 <= k < |pds| ==> pds[k] < frames && !(base <= pds[k] < base + 8))
    && (forall j, k :: 0 <= j < k < |pds| ==> pds[j] != pds[k])
  }

  lemma BootLink(base: nat, pds: seq<nat>, f: nat, i: nat)
    requires f in BootLevels(base, pds) && i < 512 && forall k :: 0 <= k < |pds| ==> !(base <= pds[k] < base + 8)
    ensures var e, level := BootEntry(base, pds, f, i), BootLevels(base, pds)[f];
            Links(level, e) && level >= 2 ==> e.frame in BootLevels(base, pds) && BootLevels(base, pds)[e.frame] == level - 1
  {
    assert f == base + 3 && i < HHDM_GIB ==> i == 0 || i == 1 || i == 2 || i == 3;
    if f == base + 3 && HHDM_GIB <= i < HHDM_GIB + |pds| {
      assert pds[i - HHDM_GIB] in pds;
    }
  }

  lemma BootFacts(base: nat, pds: seq<nat>, frames: nat)
    requires base + 8 <= frames
    ensures var mem, lay := BootImage(base, pds, frames), BootLayout(base, pds);
            && base in mem && base + 1 in mem && mem[base][0].bits.present && mem[base][0].frame == base + 1
            && mem[base + 1][0].bits.present
            && base in lay.lvl && lay.lvl[base] == 4 && base + 1 in lay.lvl && base !in lay.own
            && Absent(mem[base], 256) == 254
  {
    var mem := BootImage(base, pds, frames);
    assert mem[base][0] == BootEntry(base, pds, base, 0);
    assert mem[base + 1][0] == BootEntry(base, pds, base + 1, 0);
    assert mem[base][256] == BootEntry(base, pds, base, 256);
    assert mem[base][511] == BootEntry(base, pds, base, 511);
    forall i | 257 <= i < 511
      ensures !mem[base][i].bits.present
    {
      assert mem[base][i] == BootEntry(base, pds, base, i);
    }
    AbsentRun(mem[base], 257);
  }

  lemma {:induction false} AbsentRun(t: Table, i: nat)
    requires i <= 511 && t[511].bits.present && forall k :: i <= k < 511 ==> !t[k].bits.present
    ensures Absent(t, i) == 511 - i
    decreases 511 - i
  {
    if i < 511 {
      AbsentRun(t, i + 1);
    } else {
      assert Absent(t, 512) == 0;
    }
  }

  lemma BootOwned(base: nat, pds: seq<nat>, used: set<nat>, frames: nat)
    requires base > 0 && base + 8 <= frames && forall k: nat :: base <= k < base + 8 ==> k in used
    requires Extra(base, pds, frames) && forall f :: f in pds ==> f > 0 && f in used
    ensures Owned(BootImage(base, pds, frames), BootLayout(base, pds), used, frames)
  {
    var mem, lay := BootImage(base, pds, frames), BootLayout(base, pds);
    forall f: nat, i: nat
      ensures LinkDown(mem, lay.lvl, f, i) && CellOK(mem, lay, f, i)
    {
      if f in lay.lvl && i < 512 {
        BootLink(base, pds, f, i);
        assert mem[f][i] == BootEntry(base, pds, f, i);
      }
    }
  }

  /** The first gigabyte is mapped to itself. */
  lemma BootIdentity(base: nat, pds: seq<nat>, frames: nat, p: nat)
    requires base + 8 <= frames && 0 < p < 0x4000_0000
    ensures Translation(BootImage(base, pds, frames), base, p) == p
  {
    var mem, va := BootImage(base, pds, frames), VaSplit(p);
    assert va[0] == 0 && va[1] == 0 && va[2] == p / 0x20_0000;
    DescendSteps(mem, base, va);
    BootOffset(p / 0x20_0000, p % 0x20_0000);
  }

  /** The direct map covers the first four gigabytes and one more for every added
      directory. */
  lemma BootDirect(base: nat, pds: seq<nat>, frames: nat, p: nat)
    requires base + 8 <= frames && Extra(base, pds, frames) && 0 < p < (HHDM_GIB + |pds|) * 0x4000_0000
    ensures KernelMaps(BootImage(base, pds, frames), base, HHDM + p, p)
  {
    var mem, va := BootImage(base, pds, frames), VaSplit(HHDM + p);
    DirectSplit(p);
    var gib := va[1];
    assert gib < HHDM_GIB + |pds|;
    var pd := if gib < HHDM_GIB then base + 4 + gib else pds[gib - HHDM_GIB];
    if gib >= HHDM_GIB {
      assert pds[IndexOf(pds, pd)] == pds[gib - HHDM_GIB];
    }
    DescendSteps(mem, base, va);
    assert mem[base][256] == BootEntry(base, pds, base, 256);
    assert mem[base + 3][gib] == BootEntry(base, pds, base + 3, gib) == LinkEntry(pd, false);
    assert mem[pd][va[2]] == BootEntry(base, pds, pd, va[2]) == BootHuge(gib * 512 + va[2]);
    BootOffset(p / 0x20_0000, p % 0x20_0000);
  }

  /** The first gigabyte, where it is and at the address the kernel is linked for. */
  lemma BootAlias(base: nat, pds: seq<nat>, frames: nat, virt: nat, p: nat)
    requires base + 8 <= frames && Extra(base, pds, frames) && 0 < p < 0x4000_0000
    requires virt == p || virt == 0xFFFF_FFFF_8000_0000 + p
    ensures KernelMaps(BootImage(base, pds, frames), base, virt, p)
  {
    var mem, va := BootImage(base, pds, frames), VaSplit(virt);
    AliasSplit(virt, p);
    DescendSteps(mem, base, va);
    assert mem[base][va[0]] == BootEntry(base, pds, base, va[0]) == LinkEntry(base + 1, false);
    assert mem[base + 1][va[1]] == BootEntry(base, pds, base + 1, va[1]) == LinkEntry(base + 2, false);
    assert mem[base + 2][va[2]] == BootEntry(base, pds, base + 2, va[2]) == BootHuge(va[2]);
    BootOffset(p / 0x20_0000, p % 0x20_0000);
  }

  lemma AliasSplit(virt: nat, p: nat)
    requires p < 0x4000_0000 && (virt == p || virt == 0xFFFF_FFFF_8000_0000 + p)
    ensures VaSplit(virt)[2] == p / 0x20_0000 && virt % 0x20_0000 == p % 0x20_0000
    ensures VaSplit(virt)[..2] == if virt == p then [0, 0] else [511, 510]
  {
    var n := p / 0x20_0000;
    if virt != p {
      assert 0xFFFF_FFFF_8000_0000 == 0x7FF_FFFF_FC00 * 0x20_0000;
      assert virt / 0x20_0000 == 0x7FF_FFFF_FC00 + n;
      assert virt / 0x4000_0000 == 0x3_FFFF_FFFE;
      assert virt / 0x80_0000_0000 == 0x1FF_FFFF;
    }
  }

  lemma DirectSplit(p: nat)
    requires p < 512 * 0x4000_0000
    ensures var va := VaSplit(HHDM + p);
            && va[0] == 256 && va[1] == p / 0x4000_0000 && va[2] == p / 0x20_0000 % 512
            && va[1] * 512 + va[2] == p / 0x20_0000
    ensures (HHDM + p) % 0x20_0000 == p % 0x20_0000
  {
    DirectPage(p);
    DirectGib(p);
    DirectTop(p);
    Gigabyte(p);
  }

  lemma DirectPage(p: nat)
    ensures (HHDM + p) / 0x20_0000 == 0x7FF_FC00_0000 + p / 0x20_0000 && (HHDM + p) % 0x20_0000 == p % 0x20_0000
  {
    assert HHDM == 0x7FF_FC00_0000 * 0x20_0000;
  }

  lemma DirectGib(p: nat)
    ensures (HHDM + p) / 0x4000_0000 == 0x3_FFFE_0000 + p / 0x4000_0000
  {
    assert HHDM == 0x3_FFFE_0000 * 0x4000_0000;
  }

  lemma DirectTop(p: nat)
    requires p < 512 * 0x4000_0000
    ensures (HHDM + p) / 0x80_0000_0000 == 0x1FF_FF00
  {
  }

  lemma Gigabyte(p: nat)
    ensures p / 0x4000_0000 == p / 0x20_0000 / 512 && p / 0x4000_0000 * 512 + p / 0x20_0000 % 512 == p / 0x20_0000
  {
  }

  lemma {:induction false} ShlTimes(a: nat, k: nat)
    ensures Shl(a, k) == a * Shl(1, k)
  {
    if k > 0 {
      ShlTimes(a, k - 1);
    }
  }

  /** The address of a huge page joins the offset without overlap. */
  lemma BootOffset(i: nat, offset: nat)
    requires offset < 0x20_0000
    ensures BitOr(i * 512 * 4096, offset) == i * 0x20_0000 + offset
  {
    assert Shl(1, 4) == 16 && Shl(1, 8) == 256 && Shl(1, 12) == 4096 && Shl(1, 16) == 0x1_0000 && Shl(1, 20) == 0x10_0000 by {
      assert Shl(1, 2) == 4 && Shl(1, 6) == 64 && Shl(1, 10) == 1024 && Shl(1, 14) == 16384 && Shl(1, 18) == 262144;
    }
    ShlTimes(i, 21);
    OrDisjoint(i, offset, 21);
  }

  /** The frames pds are distinct general frames, and all that was taken. */
  ghost predicate TookFrames(u0: set<nat>, u1: set<nat>, frames: nat, pds: seq<nat>)
  {
    && (forall f :: f in u1 <==> f in u0 || f in pds) && (forall f :: f in pds ==> f !in u0)
    && (forall j, k :: 0 <= j < k < |pds| ==> pds[j] != pds[k])
    && (forall k :: 0 <= k < |pds| ==> Pmm.GENERAL_FIRST <= pds[k] < frames)
  }

  lemma TookOne(u0: set<nat>, u1: set<nat>, frames: nat, pds: seq<nat>, f: nat)
    requires TookFrames(u0, u1, frames, pds) && f !in u1 && Pmm.GENERAL_FIRST <= f < frames
    ensures TookFrames(u0, u1 + {f}, frames, pds + [f])
  {
    assert forall k :: 0 <= k < |pds| ==> pds[k] in pds;
  }

  /** hhdm_extend: one directory below 4 GiB for every further gigabyte of memory.
      It halts when memory does not fit one PDPT or no low frame is left. */
  method ExtendDirect(pmm: Pmm.FrameAllocator, highest: nat) returns (ok: bool, pds: seq<nat>)
    requires pmm.Valid()
    modifies pmm, pmm.bitmap
    ensures pmm.Valid() && TookFrames(old(pmm.used), pmm.used, pmm.frames, pds)
    ensures ok ==> |pds| <= 512 - HHDM_GIB && highest <= (HHDM_GIB + |pds|) * 0x4000_0000
    ensures ok ==> pds == [] || highest > (HHDM_GIB + |pds| - 1) * 0x4000_0000
    ensures !ok ==> || highest > 512 * 0x4000_0000
                    || (&& highest > (HHDM_GIB + |pds|) * 0x4000_0000 && |pds| < 512 - HHDM_GIB
                        && Pmm.NoneFree(pmm.used, Pmm.GENERAL_FIRST, pmm.EndBelow(BootMemory.DIRECT_LIMIT)))
  {
    pds := [];
    assert TookFrames(pmm.used, pmm.used, pmm.frames, pds);
    hide Pmm.Represents, Pmm.NoneFree, TookFrames;
    var needed := (highest + 0x3FFF_FFFF) / 0x4000_0000;
    if needed > 512 {
      return false, pds;
    }
    var gib := HHDM_GIB;
    while gib < needed
      invariant HHDM_GIB <= gib && gib == HHDM_GIB + |pds| && pmm.Valid()
      invariant pds == [] || gib <= needed
      invariant TookFrames(old(pmm.used), pmm.used, pmm.frames, pds)
    {
      var phys;
      ghost var u := pmm.used;
      ok, phys := pmm.AllocFrameBelow(BootMemory.DIRECT_LIMIT);
      if !ok {
        return;
      }
      TookOne(old(pmm.used), u, pmm.frames, pds, phys / Pmm.FRAME_SIZE);
      pds := pds + [phys / Pmm.FRAME_SIZE];
      gib := gib + 1;
    }
    ok := true;
  }

  /** The kernel, and only it, can read and write physical address p at `virt`, through a
      2 MiB page. */
  ghost predicate KernelMaps(mem: Ram, kroot: nat, virt: nat, p: nat)
  {
    && Translation(mem, kroot, virt) == p
    && match HugeEntry(mem, kroot, VaSplit(virt))
       case Some((e, span)) => span == 0x20_0000 && e.bits.write && !e.bits.user
       case None => false
  }

  ghost predicate DirectAt(mem: Ram, kroot: nat, p: nat)
  {
    KernelMaps(mem, kroot, 0xFFFF_8000_0000_0000 + p, p)
  }

  /** Every byte of memory up to `highest` is mapped in the kernel half. */
  ghost predicate DirectMap(mem: Ram, kroot: nat, highest: nat)
  {
    forall p: nat :: 0 < p < highest ==> DirectAt(mem, kroot, p)
  }

  ghost predicate AliasAt(mem: Ram, kroot: nat, p: nat)
  {
    KernelMaps(mem, kroot, p, p) && KernelMaps(mem, kroot, 0xFFFF_FFFF_8000_0000 + p, p)
  }

  /** The first gigabyte is also mapped where it is, and where the kernel is linked. */
  ghost predicate Aliased(mem: Ram, kroot: nat)
  {
    forall p: nat :: 0 < p < 0x4000_0000 ==> AliasAt(mem, kroot, p)
  }

  lemma KernelMapsKept(image: Ram, mem: Ram, lvl: map<nat, nat>, base: nat, virt: nat, p: nat)
    requires SameLeaves(image, mem, lvl) && base in lvl && lvl[base] == 4 && KernelMaps(image, base, virt, p)
    ensures KernelMaps(mem, base, virt, p)
  {
    assert Lookup(mem, base, VaSplit(virt)) == Lookup(image, base, VaSplit(virt));
    assert HugeEntry(mem, base, VaSplit(virt)) == HugeEntry(image, base, VaSplit(virt));
  }

  lemma DirectKept(base: nat, pds: seq<nat>, frames: nat, mem: Ram, highest: nat)
    requires base + 8 <= frames && Extra(base, pds, frames) && highest <= (HHDM_GIB + |pds|) * 0x4000_0000
    requires SameLeaves(BootImage(base, pds, frames), mem, BootLevels(base, pds))
    ensures DirectMap(mem, base, highest) && Aliased(mem, base)
  {
    hide Extra, SameLeaves, DirectAt, AliasAt;
    forall p: nat | 0 < p < highest
      ensures DirectAt(mem, base, p)
    {
      DirectAtKept(base, pds, frames, mem, p);
    }
    forall p: nat | 0 < p < 0x4000_0000
      ensures AliasAt(mem, base, p)
    {
      AliasAtKept(base, pds, frames, mem, p);
    }
  }

  lemma DirectAtKept(base: nat, pds: seq<nat>, frames: nat, mem: Ram, p: nat)
    requires base + 8 <= frames && Extra(base, pds, frames) && 0 < p < (HHDM_GIB + |pds|) * 0x4000_0000
    requires SameLeaves(BootImage(base, pds, frames), mem, BootLevels(base, pds))
    ensures DirectAt(mem, base, p)
  {
    assert base in BootLevels(base, pds) && BootLevels(base, pds)[base] == 4;
    hide Extra, KernelMaps, BootImage, BootLevels, SameLeaves;
    BootDirect(base, pds, frames, p);
    KernelMapsKept(BootImage(base, pds, frames), mem, BootLevels(base, pds), base, HHDM + p, p);
  }

  lemma AliasAtKept(base: nat, pds: seq<nat>, frames: nat, mem: Ram, p: nat)
    requires base + 8 <= frames && Extra(base, pds, frames) && 0 < p < 0x4000_0000
    requires SameLeaves(BootImage(base, pds, frames), mem, BootLevels(base, pds))
    ensures AliasAt(mem, base, p)
  {
    assert base in BootLevels(base, pds) && BootLevels(base, pds)[base] == 4;
    hide Extra, KernelMaps, BootImage, BootLevels, SameLeaves;
    var image, lvl := BootImage(base, pds, frames), BootLevels(base, pds);
    BootAlias(base, pds, frames, p, p);
    KernelMapsKept(image, mem, lvl, base, p, p);
    BootAlias(base, pds, frames, 0xFFFF_FFFF_8000_0000 + p, p);
    KernelMapsKept(image, mem, lvl, base, 0xFFFF_FFFF_8000_0000 + p, p);
  }

  /** What the boot loader hands over: the kernel image holds the boot tables and
      lies in memory that the map declares usable. */
  ghost predicate Loaded(entries: seq<BootMemory.MapEntry>, kernel: Pmm.Region, base: nat)
  {
    && kernel.base <= base * Pmm.FRAME_SIZE && (base + 8) * Pmm.FRAME_SIZE <= BootMemory.Top(kernel) && base > 0
    && exists k :: 0 <= k < |entries| && entries[k].kind == 1 && BootMemory.Top(kernel) <= BootMemory.Top(entries[k].region)
  }

  lemma LoadedUsed(entries: seq<BootMemory.MapEntry>, kernel: Pmm.Region, base: nat, kept: seq<Pmm.Region>,
                   used: set<nat>, highest: nat)
    requires Loaded(entries, kernel, base) && BootMemory.Highest(entries, highest) && |kept| > 2 && kept[2] == kernel
    requires BootMemory.FreeIs(used, highest / Pmm.FRAME_SIZE, entries, kept)
    ensures base + 8 <= highest / Pmm.FRAME_SIZE && forall k: nat :: base <= k < base + 8 ==> k in used
  {
    assert (base + 8) * Pmm.FRAME_SIZE <= highest;
    forall k: nat | base <= k < base + 8
      ensures k in used
    {
      assert k * Pmm.FRAME_SIZE / Pmm.FRAME_SIZE == k;
      BootMemory.NothingKeptIsFree(used, highest / Pmm.FRAME_SIZE, entries, kept, 2, k * Pmm.FRAME_SIZE);
    }
  }

  /** pmm_init: the allocator and the directories of the direct map. */
  method Prepare(entries: seq<BootMemory.MapEntry>, kernel: Pmm.Region, info: Pmm.Region, modules: seq<Pmm.Region>,
                 base: nat)
    returns (pmm: Pmm.FrameAllocator?, pds: seq<nat>, bitmap: Pmm.Region, highest: nat)
    requires Loaded(entries, kernel, base)
    ensures BootMemory.Highest(entries, highest)
    ensures BootMemory.Halts(entries, kernel, info, modules, bitmap, highest) ==> pmm == null
    ensures pmm == null ==>
              || BootMemory.Halts(entries, kernel, info, modules, bitmap, highest) || highest > 512 * 0x4000_0000
              || (highest > HHDM_GIB * 0x4000_0000 && |pds| < 512 - HHDM_GIB && highest > (HHDM_GIB + |pds|) * 0x4000_0000)
    ensures pmm != null ==>
              && fresh(pmm) && fresh(pmm.bitmap) && pmm.Valid() && pmm.frames == highest / Pmm.FRAME_SIZE <= MAX_FRAMES
              && base + 8 <= pmm.frames && (forall k: nat :: base <= k < base + 8 ==> k in pmm.used)
              && Extra(base, pds, pmm.frames) && (forall f :: f in pds ==> f > 0 && f in pmm.used)
              && highest <= (HHDM_GIB + |pds|) * 0x4000_0000
  {
    hide BootMemory.Highest, BootMemory.FreeIs, BootMemory.Halts, BootMemory.FirstFit, BootMemory.Needed, Loaded, Pmm.Represents,
         Pmm.NoneFree;
    pds := [];
    pmm, bitmap, highest := BootMemory.Init(entries, kernel, info, modules);
    if pmm == null {
      return;
    }
    LoadedUsed(entries, kernel, base, BootMemory.Kept(kernel, bitmap, info, modules), pmm.used, highest);
    var ok;
    ok, pds := ExtendDirect(pmm, highest);
    if !ok {
      pmm := null;
    }
    assert forall k :: 0 <= k < |pds| ==> pds[k] in pds;
  }

  /** The memory the boot code leaves, up to tables that hold no page. */
  ghost predicate Booted(mem: Ram, base: nat, pds: seq<nat>, frames: nat)
  {
    && base + 8 <= frames && Extra(base, pds, frames)
    && SameLeaves(BootImage(base, pds, frames), mem, BootLevels(base, pds))
  }

  /** From the boot loader's memory map to the first process: all memory is mapped
      directly, free frames are usable memory, and once the kernel slots are reserved
      the invariants of the whole memory stack hold.  Null is where the kernel halts. */
  method Boot(entries: seq<BootMemory.MapEntry>, kernel: Pmm.Region, info: Pmm.Region, modules: seq<Pmm.Region>,
              base: nat)
    returns (m: Memory?, ok: bool, ghost pds: seq<nat>)
    requires Loaded(entries, kernel, base)
    ensures m != null ==>
              && fresh(m) && fresh(m.pmm) && fresh(m.pmm.bitmap) && m.Valid() && Booted(m.mem, base, pds, m.pmm.frames)
              && (forall highest :: BootMemory.Highest(entries, highest) ==> DirectMap(m.mem, base, highest))
              && Aliased(m.mem, base)
    ensures ok ==> m != null && KernelReady(m.mem, m.lay, base) && HalfOk(m.mem, m.lay, base, [], [])
    ensures m != null && !ok ==> Pmm.FreeCount(m.pmm.used, m.pmm.frames) == 0
  {
    hide BootMemory.Highest, BootMemory.Halts, Owned, SameLeaves, KernelReady, HalfOk, Pmm.Represents, Pmm.FreeCount,
         DirectMap, Aliased, Extra;
    var pmm, dirs, bitmap, highest := Prepare(entries, kernel, info, modules, base);
    m, ok, pds := null, false, dirs;
    if pmm != null {
      m, ok := Start(pmm, base, dirs);
      DirectKept(base, dirs, pmm.frames, m.mem, highest);
      OneHighest(entries, highest);
    }
  }

  lemma OneHighest(entries: seq<BootMemory.MapEntry>, highest: nat)
    requires BootMemory.Highest(entries, highest)
    ensures forall h :: BootMemory.Highest(entries, h) ==> h == highest
  {
  }

  /** The first page tables, and reserve_kernel_pml4_entries over them. */
  method Start(pmm: Pmm.FrameAllocator, base: nat, pds: seq<nat>) returns (m: Memory, ok: bool)
    requires pmm.Valid() && base > 0 && base + 8 <= pmm.frames
    requires forall k: nat :: base <= k < base + 8 ==> k in pmm.used
    requires pmm.frames <= MAX_FRAMES && Extra(base, pds, pmm.frames) && forall f :: f in pds ==> f > 0 && f in pmm.used
    modifies pmm, pmm.bitmap
    ensures fresh(m) && m.pmm == pmm && m.Valid()
    ensures SameLeaves(BootImage(base, pds, pmm.frames), m.mem, BootLevels(base, pds))
    ensures ok ==> KernelReady(m.mem, m.lay, base) && HalfOk(m.mem, m.lay, base, [], [])
    ensures ok <==> Pmm.FreeCount(old(pmm.used), pmm.frames) >= 254
    ensures Pmm.FreeCount(pmm.used, pmm.frames) == if ok then Pmm.FreeCount(old(pmm.used), pmm.frames) - 254 else 0
  {
    BootOwned(base, pds, pmm.used, pmm.frames);
    BootFacts(base, pds, pmm.frames);
    hide Owned, SameLeaves, Pmm.Represents, Pmm.NoneFree, Pmm.FreeCount, BootTable, BootEntry, BootLevels, BootLayout,
         LinkEntry, Absent;
    m := new Memory(pmm, BootImage(base, pds, pmm.frames), BootLayout(base, pds));
    ok := ReserveKernel(m, base);
  }
}
