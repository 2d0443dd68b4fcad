/** Creating and tearing down process page tables (kernel/loader/process.c).

    A process PML4 owns its lower half and links the kernel's tables; tearing it
    down returns every frame it owns exactly once and nothing else. */
module AddressSpaces {
  import opened PageTables
  import opened Ownership
  import opened Vmm
  import Pmm

  /** The frames at or below slot s. */
  ghost function Under(lay: Layout, s: Slot): set<nat>
  {
    set f | f in lay.own && lay.own[f].space == s.space && s.path <= lay.own[f].path
  }

  /** Those strictly below s, under its entries [0, k). */
  ghost function UnderEntries(lay: Layout, s: Slot, k: nat): set<nat>
  {
    set f | f in lay.own && lay.own[f].space == s.space && s.path < lay.own[f].path && lay.own[f].path[|s.path|] < k
  }

  /** Every frame an address space owns. */
  ghost function Frames(lay: Layout, a: nat): set<nat>
  {
    set f | f in lay.own && lay.own[f].space == a
  }

  lemma UnderStep(mem: Ram, lay: Layout, used: set<nat>, frames: nat, s: Slot, k: nat)
    requires Owned(mem, lay, used, frames)
    ensures UnderEntries(lay, s, k + 1) == UnderEntries(lay, s, k) + Under(lay, Child(s, k))
    ensures UnderEntries(lay, s, k) !! Under(lay, Child(s, k))
    ensures Child(s, k) !in lay.at ==> Under(lay, Child(s, k)) == {}
  {
    forall f | f in lay.own && lay.own[f].space == s.space
      ensures Child(s, k).path <= lay.own[f].path <==> s.path < lay.own[f].path && lay.own[f].path[|s.path|] == k
      ensures Child(s, k).path <= lay.own[f].path ==> Child(s, k) in lay.at
    {
      var p := lay.own[f].path;
      if s.path < p && p[|s.path|] == k {
        assert p[..|s.path| + 1] == s.path + [k];
      }
      if Child(s, k).path <= p {
        assert FrameOK(lay, used, frames, f);
        AncestorAt(mem, lay, used, frames, lay.own[f], |s.path| + 1);
        assert p[..|s.path| + 1] == Child(s, k).path;
      }
    }
  }

  lemma UnderAll(mem: Ram, lay: Layout, used: set<nat>, frames: nat, s: Slot)
    requires Owned(mem, lay, used, frames) && s in lay.at
    ensures Under(lay, s) == UnderEntries(lay, s, 512) + {lay.at[s]}
    ensures lay.at[s] !in UnderEntries(lay, s, 512)
    ensures UnderEntries(lay, s, 0) == {}
    ensures |s.path| == 4 ==> Under(lay, s) == {lay.at[s]}
    ensures Under(lay, s) <= used
  {
    assert SlotOK(mem, lay, s);
    forall f | f in lay.own
      ensures f in used && |lay.own[f].path| <= 4
      ensures forall k :: 0 <= k < |lay.own[f].path| ==> lay.own[f].path[k] < 512
      ensures lay.own[f] == s <==> f == lay.at[s]
    {
      assert FrameOK(lay, used, frames, f) && SlotOK(mem, lay, lay.own[f]);
    }
  }

  lemma Minus(u: set<nat>, a: set<nat>, b: set<nat>)
    ensures u - a - b == u - (a + b)
  {
  }

  /** What the entry k of an owned table adds to the frames below it. */
  lemma EntryFrames(mem: Ram, lay: Layout, used: set<nat>, frames: nat, s: Slot, k: nat)
    requires Owned(mem, lay, used, frames) && s in lay.at && |s.path| < 4 && k < 512
    ensures lay.at[s] in lay.lvl && lay.lvl[lay.at[s]] == 4 - |s.path| && lay.at[s] in mem
    ensures var e := mem[lay.at[s]][k];
            if !Border(lay, s, k) && Owns(4 - |s.path|, e) then
              && Child(s, k) in lay.at && lay.at[Child(s, k)] == e.frame
              && (|s.path| == 3 ==> Under(lay, Child(s, k)) == {e.frame})
            else
              Under(lay, Child(s, k)) == {}
    ensures UnderEntries(lay, s, k + 1) == UnderEntries(lay, s, k) + Under(lay, Child(s, k))
    ensures UnderEntries(lay, s, k) !! Under(lay, Child(s, k))
    ensures Under(lay, Child(s, k)) <= Under(lay, s) && |Child(s, k).path| == |s.path| + 1
  {
    assert SlotOK(mem, lay, s) && CellOK(mem, lay, lay.at[s], k);
    UnderStep(mem, lay, used, frames, s, k);
    if Child(s, k) in lay.at {
      UnderAll(mem, lay, used, frames, Child(s, k));
    }
  }

  /** pmm_free_frame on a frame that really is in use: no double free. */
  method ReturnFrame(m: Memory, f: nat)
    requires m.pmm.Valid() && f in m.pmm.used
    modifies m.pmm, m.pmm.bitmap
    ensures m.pmm.Valid() && m.pmm.used == old(m.pmm.used) - {f}
  {
    m.pmm.FreeFrame(f * Pmm.FRAME_SIZE);
  }

  /** Innermost loop of free_pdpt_subtree: the private pages of one leaf table,
      then the table.  Borrowed pages are skipped. */
  method FreePt(m: Memory, pt: nat, ghost s: Slot, ghost used0: set<nat>)
    requires m.pmm.Valid() && Owned(m.mem, m.lay, used0, m.pmm.frames)
    requires s in m.lay.at && m.lay.at[s] == pt && |s.path| == 3 && Under(m.lay, s) <= m.pmm.used
    modifies m.pmm, m.pmm.bitmap
    ensures m.pmm.Valid() && m.pmm.used == old(m.pmm.used) - Under(m.lay, s)
  {
    hide Under, UnderEntries, Owned, Child, Pmm.Represents;
    ghost var mem, lay, frames := m.mem, m.lay, m.pmm.frames;
    ghost var start := m.pmm.used;
    UnderAll(mem, lay, used0, frames, s);
    EntryFrames(mem, lay, used0, frames, s, 0);
    var k := 0;
    while k < 512
      invariant 0 <= k <= 512
      invariant m.pmm.Valid() && m.pmm.used == start - UnderEntries(lay, s, k)
    {
      EntryFrames(mem, lay, used0, frames, s, k);
      Minus(start, UnderEntries(lay, s, k), Under(lay, Child(s, k)));
      var e := m.mem[pt][k];
      if e.bits.present && !e.bits.shared {
          ReturnFrame(m, e.frame);
      }
      k := k + 1;
    }
    Minus(start, UnderEntries(lay, s, 512), {lay.at[s]});
    ReturnFrame(m, pt);
  }

  /** Middle loop: every leaf table of one page directory, then the directory. */
  method FreePd(m: Memory, pd: nat, ghost s: Slot, ghost used0: set<nat>)
    requires m.pmm.Valid() && Owned(m.mem, m.lay, used0, m.pmm.frames)
    requires s in m.lay.at && m.lay.at[s] == pd && |s.path| == 2 && Under(m.lay, s) <= m.pmm.used
    modifies m.pmm, m.pmm.bitmap
    ensures m.pmm.Valid() && m.pmm.used == old(m.pmm.used) - Under(m.lay, s)
  {
    hide Under, UnderEntries, Owned, Child, Pmm.Represents;
    ghost var mem, lay, frames := m.mem, m.lay, m.pmm.frames;
    ghost var start := m.pmm.used;
    UnderAll(mem, lay, used0, frames, s);
    EntryFrames(mem, lay, used0, frames, s, 0);
    var j := 0;
    while j < 512
      invariant 0 <= j <= 512
      invariant m.pmm.Valid() && m.pmm.used == start - UnderEntries(lay, s, j)
    {
      EntryFrames(mem, lay, used0, frames, s, j);
      Minus(start, UnderEntries(lay, s, j), Under(lay, Child(s, j)));
      var e := m.mem[pd][j];
      if e.bits.present && !e.bits.ps {
        FreePt(m, e.frame, Child(s, j), used0);
      }
      j := j + 1;
    }
    Minus(start, UnderEntries(lay, s, 512), {lay.at[s]});
    ReturnFrame(m, pd);
  }

  /** free_pdpt_subtree.  startIdx 1 skips the shared low 1 GiB entry. */
  method FreePdptSubtree(m: Memory, pdpt: nat, startIdx: nat, ghost s: Slot, ghost used0: set<nat>)
    requires m.pmm.Valid() && Owned(m.mem, m.lay, used0, m.pmm.frames)
    requires s in m.lay.at && m.lay.at[s] == pdpt && |s.path| == 1 && Under(m.lay, s) <= m.pmm.used
    requires startIdx == if Border(m.lay, s, 0) then 1 else 0
    modifies m.pmm, m.pmm.bitmap
    ensures m.pmm.Valid() && m.pmm.used == old(m.pmm.used) - Under(m.lay, s)
  {
    hide Under, UnderEntries, Owned, Child, Pmm.Represents;
    ghost var mem, lay, frames := m.mem, m.lay, m.pmm.frames;
    ghost var start := m.pmm.used;
    UnderAll(mem, lay, used0, frames, s);
    EntryFrames(mem, lay, used0, frames, s, 0);
    var i := startIdx;
    while i < 512
      invariant startIdx <= i <= 512
      invariant m.pmm.Valid() && m.pmm.used == start - UnderEntries(lay, s, i)
    {
      EntryFrames(mem, lay, used0, frames, s, i);
      Minus(start, UnderEntries(lay, s, i), Under(lay, Child(s, i)));
      var e := m.mem[pdpt][i];
      if e.bits.present && !e.bits.ps {
        FreePd(m, e.frame, Child(s, i), used0);
      }
      i := i + 1;
    }
    Minus(start, UnderEntries(lay, s, 512), {lay.at[s]});
    ReturnFrame(m, pdpt);
  }

  // ---- free_user_pml4 ------------------------------------------------------

  /** Layout once space `a` is gone. */
  ghost function DropSpace(lay: Layout, a: nat): Layout
  {
    Layout(lay.lvl - Frames(lay, a),
           map s | s in lay.at && s.space != a :: lay.at[s],
           lay.own - Frames(lay, a),
           lay.priv - {a})
  }

  lemma DropSpaceOK(mem: Ram, lay: Layout, used: set<nat>, frames: nat, a: nat)
    requires Owned(mem, lay, used, frames)
    ensures Owned(mem, DropSpace(lay, a), used - Frames(lay, a), frames)
  {
    var lay', used' := DropSpace(lay, a), used - Frames(lay, a);
    forall f: nat, i: nat
      ensures LinkDown(mem, lay'.lvl, f, i) && CellOK(mem, lay', f, i)
    {
      DropSpaceCell(mem, lay, used, frames, a, f, i);
    }
    forall s
      ensures SlotOK(mem, lay', s)
    {
      assert SlotOK(mem, lay, s);
    }
    forall f
      ensures FrameOK(lay', used', frames, f)
    {
      assert FrameOK(lay, used, frames, f);
    }
  }

  lemma DropSpaceCell(mem: Ram, lay: Layout, used: set<nat>, frames: nat, a: nat, f: nat, i: nat)
    requires Owned(mem, lay, used, frames)
    ensures LinkDown(mem, DropSpace(lay, a).lvl, f, i) && CellOK(mem, DropSpace(lay, a), f, i)
  {
    assert LinkDown(mem, lay.lvl, f, i) && CellOK(mem, lay, f, i) && FrameOK(lay, used, frames, f);
    if f in lay.lvl && i < 512 && f in lay.own {
      assert SlotOK(mem, lay, lay.own[f]) && SlotOK(mem, lay, Child(lay.own[f], i));
    }
  }

  /** The lower-half entries of a process PML4. */
  lemma RootEntry(mem: Ram, lay: Layout, used: set<nat>, frames: nat, a: nat, p: nat)
    requires Owned(mem, lay, used, frames) && Slot(a, []) in lay.at && p < 256
    ensures lay.at[Slot(a, [])] in mem
    ensures var e := mem[lay.at[Slot(a, [])]][p];
            && (if e.bits.present then Slot(a, [p]) in lay.at && lay.at[Slot(a, [p])] == e.frame
                else Under(lay, Slot(a, [p])) == {})
            && (p == 0 ==> e.bits.present)
            && (Border(lay, Slot(a, [p]), 0) <==> p == 0 && !e.bits.privateLow)
    ensures UnderEntries(lay, Slot(a, []), p + 1) == UnderEntries(lay, Slot(a, []), p) + Under(lay, Slot(a, [p]))
    ensures UnderEntries(lay, Slot(a, []), p) !! Under(lay, Slot(a, [p]))
    ensures UnderEntries(lay, Slot(a, []), 0) == {} && Under(lay, Slot(a, [p])) <= used
  {
    var s := Slot(a, []);
    assert SlotOK(mem, lay, s) && Child(s, p) == Slot(a, [p]) && Child(s, 0) == Slot(a, [0]);
    assert CellOK(mem, lay, lay.at[s], p);
    EntryFrames(mem, lay, used, frames, s, p);
    UnderAll(mem, lay, used, frames, s);
  }

  /** The root and everything below it is all the space owns. */
  lemma SpaceFrames(mem: Ram, lay: Layout, used: set<nat>, frames: nat, a: nat)
    requires Owned(mem, lay, used, frames) && Slot(a, []) in lay.at
    ensures Frames(lay, a) == UnderEntries(lay, Slot(a, []), 256) + {lay.at[Slot(a, [])]}
    ensures lay.at[Slot(a, [])] !in UnderEntries(lay, Slot(a, []), 256)
    ensures Frames(lay, a) <= used
  {
    assert Under(lay, Slot(a, [])) == Frames(lay, a);
    UnderAll(mem, lay, used, frames, Slot(a, []));
    NothingHigh(mem, lay, used, frames, a, 512);
  }

  /** free_user_pml4: every frame of the space is returned, each exactly once (a
      frame is marked used when it is freed, and nothing is allocated on the
      way), and no other frame is. */
  method FreeUserPml4(m: Memory, pml4: nat, ghost a: nat)
    requires m.Valid() && (pml4 == 0 || IsRoot(m.lay, pml4, a))
    modifies m, m.pmm, m.pmm.bitmap
    ensures m.Valid() && m.mem == old(m.mem)
    ensures pml4 == 0 ==> m.lay == old(m.lay) && m.pmm.used == old(m.pmm.used)
    ensures pml4 != 0 ==> m.lay == DropSpace(old(m.lay), a) && m.pmm.used == old(m.pmm.used) - Frames(old(m.lay), a)
    ensures pml4 != 0 ==> Frames(old(m.lay), a) <= old(m.pmm.used)
  {
    if pml4 == 0 {
      return;
    }
    ghost var lay, used0, s := m.lay, m.pmm.used, Slot(a, []);
    assert FrameOK(lay, used0, m.pmm.frames, pml4);
    hide Under, UnderEntries, Frames, Owned, DropSpace, Pmm.Represents;
    FreeLowerHalf(m, pml4, a, used0);
    SpaceFrames(m.mem, lay, used0, m.pmm.frames, a);
    Minus(used0, UnderEntries(lay, s, 256), {pml4});
    ReturnFrame(m, pml4);
    DropSpaceOK(m.mem, lay, used0, m.pmm.frames, a);
    m.lay := DropSpace(m.lay, a);
  }

  /** Its two walks: PML4[0] first, then PML4[1..255]. */
  method FreeLowerHalf(m: Memory, pml4: nat, ghost a: nat, ghost used0: set<nat>)
    requires m.pmm.Valid() && used0 == m.pmm.used && Owned(m.mem, m.lay, used0, m.pmm.frames)
    requires Slot(a, []) in m.lay.at && m.lay.at[Slot(a, [])] == pml4
    modifies m.pmm, m.pmm.bitmap
    ensures m.pmm.Valid() && m.pmm.used == used0 - UnderEntries(m.lay, Slot(a, []), 256)
  {
    hide Under, UnderEntries, Owned, Border, Pmm.Represents;
    ghost var mem, lay, frames, s := m.mem, m.lay, m.pmm.frames, Slot(a, []);
    RootEntry(mem, lay, used0, frames, a, 0);
    Minus(used0, {}, Under(lay, Slot(a, [0])));
    var e := m.mem[pml4][0];
    if e.bits.present {
      FreePdptSubtree(m, e.frame, if e.bits.privateLow then 0 else 1, Slot(a, [0]), used0);
    }
    var p := 1;
    while p < 256
      invariant 1 <= p <= 256
      invariant m.pmm.Valid() && m.pmm.used == used0 - UnderEntries(lay, s, p)
    {
      RootEntry(mem, lay, used0, frames, a, p);
      Minus(used0, UnderEntries(lay, s, p), Under(lay, Slot(a, [p])));
      e := m.mem[pml4][p];
      if e.bits.present {
        FreePdptSubtree(m, e.frame, 0, Slot(a, [p]), used0);
      }
      p := p + 1;
    }
  }

  /** The kernel half owns nothing for a process. */
  lemma NothingHigh(mem: Ram, lay: Layout, used: set<nat>, frames: nat, a: nat, k: nat)
    requires Owned(mem, lay, used, frames) && Slot(a, []) in lay.at && 256 <= k <= 512
    ensures UnderEntries(lay, Slot(a, []), k) == UnderEntries(lay, Slot(a, []), 256)
    decreases k
  {
    if k > 256 {
      NothingHigh(mem, lay, used, frames, a, k - 1);
      EntryFrames(mem, lay, used, frames, Slot(a, []), k - 1);
    }
  }

  // ---- process_pml4_create ---------------------------------------------------

  /** What vmm_init leaves behind: every kernel-half slot present, and the low
      identity map reachable through PML4[0]. */
  ghost predicate KernelReady(mem: Ram, lay: Layout, kroot: nat)
  {
    && kroot in lay.lvl && lay.lvl[kroot] == 4 && kroot !in lay.own && kroot in mem
    && (forall i :: 256 <= i < 512 ==> mem[kroot][i].bits.present)
    && mem[kroot][0].bits.present
    && var kpdpt := mem[kroot][0].frame;
    && kpdpt in mem && mem[kpdpt][0].bits.present
  }

  ghost predicate FreshSpace(lay: Layout, a: nat)
  {
    a !in lay.priv && forall s :: s in lay.at ==> s.space != a
  }

  function RootTable(kernel: Table, pdpt: nat): Table
  {
    seq(512, i requires 0 <= i < 512 =>
      if i == 0 then LinkEntry(pdpt, true) else if i >= 256 then kernel[i] else ZERO_ENTRY)
  }

  function LowPdpt(kernelLow: Entry): Table
  {
    ZeroTable()[0 := kernelLow]
  }

  ghost function NewSpace(lay: Layout, a: nat, root: nat, pdpt: nat): Layout
  {
    Layout(lay.lvl[root := 4][pdpt := 3],
           lay.at[Slot(a, []) := root][Slot(a, [0]) := pdpt],
           lay.own[root := Slot(a, [])][pdpt := Slot(a, [0])],
           lay.priv)
  }

  lemma NewSpaceCell(mem: Ram, lay: Layout, used: set<nat>, frames: nat, kroot: nat, a: nat, root: nat, pdpt: nat,
                     f: nat, i: nat)
    requires Owned(mem, lay, used, frames) && KernelReady(mem, lay, kroot) && FreshSpace(lay, a)
    requires Loose(lay, used, frames, root) && Loose(lay, used, frames, pdpt) && root != pdpt
    ensures var mem' := mem[root := RootTable(mem[kroot], pdpt)][pdpt := LowPdpt(mem[mem[kroot][0].frame][0])];
            LinkDown(mem', NewSpace(lay, a, root, pdpt).lvl, f, i) && CellOK(mem', NewSpace(lay, a, root, pdpt), f, i)
  {
    assert LinkDown(mem, lay.lvl, f, i) && CellOK(mem, lay, f, i) && FrameOK(lay, used, frames, f);
    var kpdpt := mem[kroot][0].frame;
    assert LinkDown(mem, lay.lvl, kroot, 0) && CellOK(mem, lay, kroot, 0);
    assert LinkDown(mem, lay.lvl, kpdpt, 0) && CellOK(mem, lay, kpdpt, 0);
    if f == root {
      assert LinkDown(mem, lay.lvl, kroot, i) && CellOK(mem, lay, kroot, i);
      assert Child(Slot(a, []), i) == Slot(a, [i]);
    } else if f in lay.own {
      assert SlotOK(mem, lay, lay.own[f]) && Child(lay.own[f], i).space == lay.own[f].space;
    }
  }

  lemma NewSpaceOK(mem: Ram, lay: Layout, used: set<nat>, frames: nat, kroot: nat, a: nat, root: nat, pdpt: nat)
    requires Owned(mem, lay, used, frames) && KernelReady(mem, lay, kroot) && FreshSpace(lay, a)
    requires Loose(lay, used, frames, root) && Loose(lay, used, frames, pdpt) && root != pdpt
    ensures var mem' := mem[root := RootTable(mem[kroot], pdpt)][pdpt := LowPdpt(mem[mem[kroot][0].frame][0])];
            Owned(mem', NewSpace(lay, a, root, pdpt), used, frames)
  {
    var mem' := mem[root := RootTable(mem[kroot], pdpt)][pdpt := LowPdpt(mem[mem[kroot][0].frame][0])];
    var lay' := NewSpace(lay, a, root, pdpt);
    forall f: nat, i: nat
      ensures LinkDown(mem', lay'.lvl, f, i) && CellOK(mem', lay', f, i)
    {
      NewSpaceCell(mem, lay, used, frames, kroot, a, root, pdpt, f, i);
    }
    forall s
      ensures SlotOK(mem', lay', s)
    {
      assert SlotOK(mem, lay, s);
      assert [0][..0] == [];
    }
    forall f
      ensures FrameOK(lay', used, frames, f)
    {
      assert FrameOK(lay, used, frames, f);
    }
  }

  /** A walk that starts outside two frames never meets them. */
  lemma {:induction false} DescendApart(mem: Ram, mem': Ram, lvl: map<nat, nat>, f: nat, path: seq<nat>)
    requires Stratified(mem, lvl) && f in lvl && |path| < lvl[f]
    requires forall g :: g in lvl ==> g in mem' && mem'[g] == mem[g]
    ensures Descend(mem', f, lvl[f], path) == Descend(mem, f, lvl[f], path)
    decreases |path|
  {
    if path != [] && path[0] < 512 {
      assert LinkDown(mem, lvl, f, path[0]);
      if Links(lvl[f], mem[f][path[0]]) {
        DescendApart(mem, mem', lvl, mem[f][path[0]].frame, path[1..]);
      }
    }
  }

  lemma TablesSameLeaves(mem: Ram, mem': Ram, lvl: map<nat, nat>)
    requires Stratified(mem, lvl) && forall g :: g in lvl ==> g in mem' && mem'[g] == mem[g]
    ensures SameLeaves(mem, mem', lvl)
  {
    forall r, va | r in lvl && lvl[r] == 4 && IsPage(va)
      ensures Lookup(mem', r, va) == Lookup(mem, r, va) && HugeEntry(mem', r, va) == HugeEntry(mem, r, va)
    {
      HugeSteps(mem, lvl, r, va);
      DescendApart(mem, mem', lvl, r, va[..1]);
      DescendApart(mem, mem', lvl, r, va[..2]);
      DescendApart(mem, mem', lvl, r, va[..3]);
      DescendLevel(mem, lvl, r, va[..3]);
    }
  }

  /** What a new process sees: the kernel's pages where it links kernel tables,
      nothing elsewhere. */
  ghost predicate SeesKernel(mem: Ram, root: nat, kroot: nat)
  {
    forall q {:trigger Lookup(mem, root, q)} {:trigger HugeEntry(mem, root, q)} :: IsPage(q) ==>
      if q[0] >= 256 || (q[0] == 0 && q[1] == 0) then
        Lookup(mem, root, q) == Lookup(mem, kroot, q) && HugeEntry(mem, root, q) == HugeEntry(mem, kroot, q)
      else Lookup(mem, root, q) == None && HugeEntry(mem, root, q) == None
  }

  /** The process links the kernel's own tables: its upper PML4 entries are the
      kernel's, and all of them are there. */
  ghost predicate KernelShared(mem: Ram, kroot: nat, root: nat)
  {
    && kroot in mem && root in mem
    && forall i {:trigger mem[root][i]} :: 256 <= i < 512 ==> mem[root][i] == mem[kroot][i] && mem[kroot][i].bits.present
  }

  lemma NewSpaceView(mem: Ram, lvl: map<nat, nat>, kroot: nat, root: nat, pdpt: nat, mem': Ram)
    requires Stratified(mem, lvl) && kroot in lvl && lvl[kroot] == 4
    requires mem[kroot][0].bits.present
    requires root !in lvl && pdpt !in lvl && root != pdpt && mem[kroot][0].frame in mem
    requires mem' == mem[root := RootTable(mem[kroot], pdpt)][pdpt := LowPdpt(mem[mem[kroot][0].frame][0])]
    ensures SeesKernel(mem', root, kroot)
  {
    assert LinkDown(mem, lvl, kroot, 0);
    var kpdpt := mem[kroot][0].frame;
    assert mem'[kpdpt] == mem[kpdpt] && mem'[kroot] == mem[kroot];
    forall q | IsPage(q)
      ensures if q[0] >= 256 || (q[0] == 0 && q[1] == 0) then
                Lookup(mem', root, q) == Lookup(mem', kroot, q) && HugeEntry(mem', root, q) == HugeEntry(mem', kroot, q)
              else Lookup(mem', root, q) == None && HugeEntry(mem', root, q) == None
    {
      DescendSteps(mem', root, q);
      DescendSteps(mem', kroot, q);
      assert mem'[root][q[0]] == if q[0] == 0 then LinkEntry(pdpt, true) else if q[0] >= 256 then mem[kroot][q[0]]
          else ZERO_ENTRY;
      assert mem'[pdpt][q[1]] == if q[1] == 0 then mem[kpdpt][0] else ZERO_ENTRY;
    }
  }

  /** Fewer than two free general frames. */
  ghost predicate NoTwoFree(used: set<nat>, frames: nat)
  {
    forall f, g :: Pmm.GENERAL_FIRST <= f < frames && Pmm.GENERAL_FIRST <= g < frames && f != g ==> f in used || g in used
  }

  /** Two frames were taken: the PML4 and the PDPT of its low half. */
  ghost predicate Created(l0: Layout, u0: set<nat>, lay: Layout, used: set<nat>, a: nat, root: nat)
  {
    exists pdpt :: lay == NewSpace(l0, a, root, pdpt) && root != pdpt && root !in u0 && pdpt !in u0 && used == u0 + {root, pdpt}
  }

  lemma CreatedWith(l0: Layout, u0: set<nat>, used: set<nat>, a: nat, root: nat, pdpt: nat)
    requires root != pdpt && root !in u0 && pdpt !in u0 && used == u0 + {root} + {pdpt}
    ensures Created(l0, u0, NewSpace(l0, a, root, pdpt), used, a, root) && IsRoot(NewSpace(l0, a, root, pdpt), root, a)
  {
    assert used == u0 + {root, pdpt};
  }

  /** Ring 3 may pass the first entry, and it allows writing. */
  ghost predicate FirstLink(mem: Ram, root: nat)
  {
    root in mem && mem[root][0].bits == Flags(true, true, true, false, false, false, 0)
  }

  /** process_pml4_create: takes exactly two frames, shares the kernel's tables,
      starts with no private page; out of memory changes nothing. */
  method Pml4Create(m: Memory, kroot: nat, ghost a: nat) returns (root: nat)
    requires m.Valid() && KernelReady(m.mem, m.lay, kroot) && FreshSpace(m.lay, a)
    modifies m, m.pmm, m.pmm.bitmap
    ensures m.Valid() && SameLeaves(old(m.mem), m.mem, old(m.lay).lvl)
    ensures forall g :: g in old(m.lay).lvl ==> g in m.mem && g in old(m.mem) && m.mem[g] == old(m.mem)[g]
    ensures root == 0 <==> NoTwoFree(old(m.pmm.used), m.pmm.frames)
    ensures root == 0 ==> m.lay == old(m.lay) && m.pmm.used == old(m.pmm.used)
    ensures root != 0 ==>
              && IsRoot(m.lay, root, a)
              && Pmm.FreeCount(m.pmm.used, m.pmm.frames) == Pmm.FreeCount(old(m.pmm.used), m.pmm.frames) - 2
              && Created(old(m.lay), old(m.pmm.used), m.lay, m.pmm.used, a, root)
              && SeesKernel(m.mem, root, kroot) && KernelShared(m.mem, kroot, root) && FirstLink(m.mem, root)
  {
    ghost var mem0, used0 := m.mem, m.pmm.used;
    assert LinkDown(mem0, m.lay.lvl, kroot, 0);
    assert Stratified(mem0, m.lay.lvl) && forall g :: g in m.lay.lvl ==> g in mem0;
    hide Owned, Pmm.Represents, SeesKernel, SameLeaves, Stratified, NoTwoFree, NewSpace, Created, IsRoot, Pmm.NoneFree,
         Pmm.FreeCount, KernelShared;
    root := m.AllocZeroed();
    if root == 0 {
      OneLeft(used0, m.pmm.frames);
      TablesSameLeaves(mem0, m.mem, m.lay.lvl);
      return;
    }
    var pdpt := m.AllocZeroed();
    if pdpt == 0 {
      NoneLeft(used0, m.pmm.frames, root);
      ReturnLoose(m, root);
      assert m.pmm.used == used0;
      TablesSameLeaves(mem0, m.mem, m.lay.lvl);
      return 0;
    }
    TwoLeft(used0, m.pmm.frames, root, pdpt);
    FillSpace(m, kroot, root, pdpt, a, mem0, used0);
  }

  /** The rest of process_pml4_create, with both frames in hand. */
  method FillSpace(m: Memory, kroot: nat, root: nat, pdpt: nat, ghost a: nat, ghost mem0: Ram, ghost used0: set<nat>)
    requires m.Valid() && KernelReady(m.mem, m.lay, kroot) && FreshSpace(m.lay, a) && root != pdpt
    requires Loose(m.lay, m.pmm.used, m.pmm.frames, root) && Loose(m.lay, m.pmm.used, m.pmm.frames, pdpt)
    requires m.mem[root] == ZeroTable() && m.mem[pdpt] == ZeroTable()
    requires m.pmm.used == used0 + {root} + {pdpt} && root !in used0 && pdpt !in used0 && Stratified(mem0, m.lay.lvl)
    requires forall g :: g in m.lay.lvl ==> g in m.mem && g in mem0 && m.mem[g] == mem0[g]
    modifies m
    ensures m.Valid() && SameLeaves(mem0, m.mem, old(m.lay).lvl)
    ensures forall g :: g in old(m.lay).lvl ==> g in m.mem && g in mem0 && m.mem[g] == mem0[g]
    ensures IsRoot(m.lay, root, a) && Created(old(m.lay), used0, m.lay, m.pmm.used, a, root)
    ensures SeesKernel(m.mem, root, kroot) && KernelShared(m.mem, kroot, root) && m.pmm.used == used0 + {root, pdpt}
    ensures FirstLink(m.mem, root)
  {
    hide Owned, Pmm.Represents, SeesKernel, SameLeaves, Stratified, NewSpace, Created, IsRoot, KernelShared, KernelReady;
    BuildSpace(m, kroot, root, pdpt, a);
    TablesSameLeaves(mem0, m.mem, old(m.lay).lvl);
    assert m.pmm.used == used0 + {root, pdpt};
    CreatedWith(old(m.lay), used0, m.pmm.used, a, root, pdpt);
  }

  lemma OneLeft(used: set<nat>, frames: nat)
    requires Pmm.NoneFree(used, Pmm.GENERAL_FIRST, frames)
    ensures NoTwoFree(used, frames)
  {
  }

  lemma NoneLeft(used: set<nat>, frames: nat, f: nat)
    requires Pmm.NoneFree(used + {f}, Pmm.GENERAL_FIRST, frames)
    ensures NoTwoFree(used, frames)
  {
    forall x, y | Pmm.GENERAL_FIRST <= x < frames && Pmm.GENERAL_FIRST <= y < frames && x != y
      ensures x in used || y in used
    {
      assert x in used + {f} && y in used + {f};
    }
  }

  lemma TwoLeft(used: set<nat>, frames: nat, f: nat, g: nat)
    requires f !in used && g !in used && f != g && Pmm.GENERAL_FIRST <= f < frames && Pmm.GENERAL_FIRST <= g < frames
    ensures !NoTwoFree(used, frames) && Pmm.FreeCount(used + {f, g}, frames) == Pmm.FreeCount(used, frames) - 2
  {
    Pmm.TakeCounted(used, frames, f);
    Pmm.TakeCounted(used + {f}, frames, g);
    assert used + {f} + {g} == used + {f, g};
  }

  /** Return a frame nobody owns. */
  method ReturnLoose(m: Memory, f: nat)
    requires m.Valid() && Loose(m.lay, m.pmm.used, m.pmm.frames, f)
    modifies m.pmm, m.pmm.bitmap
    ensures m.Valid() && m.pmm.used == old(m.pmm.used) - {f}
  {
    ReturnFrame(m, f);
    forall g
      ensures FrameOK(m.lay, m.pmm.used, m.pmm.frames, g)
    {
      assert FrameOK(m.lay, old(m.pmm.used), m.pmm.frames, g);
    }
  }

  /** Fill the two zeroed tables of a new process, kernel half by a loop. */
  method BuildSpace(m: Memory, kroot: nat, root: nat, pdpt: nat, ghost a: nat)
    requires m.Valid() && KernelReady(m.mem, m.lay, kroot) && FreshSpace(m.lay, a) && root != pdpt
    requires Loose(m.lay, m.pmm.used, m.pmm.frames, root) && Loose(m.lay, m.pmm.used, m.pmm.frames, pdpt)
    requires m.mem[root] == ZeroTable() && m.mem[pdpt] == ZeroTable()
    modifies m
    ensures m.Valid() && m.lay == NewSpace(old(m.lay), a, root, pdpt)
    ensures forall g :: g in old(m.lay).lvl ==> g in m.mem && m.mem[g] == old(m.mem)[g]
    ensures SeesKernel(m.mem, root, kroot) && KernelShared(m.mem, kroot, root) && FirstLink(m.mem, root)
  {
    ghost var mem0, lay0 := m.mem, m.lay;
    assert LinkDown(mem0, lay0.lvl, kroot, 0);
    var kernel0 := m.mem[kroot][0];
    if kernel0.bits.present {
      m.mem := Store(m.mem, pdpt, 0, m.mem[kernel0.frame][0]);
    }
    m.mem := Store(m.mem, root, 0, LinkEntry(pdpt, true));
    var i := 256;
    while i < 512
      invariant 256 <= i <= 512 && m.lay == lay0 && root in m.mem
      invariant m.mem == mem0[pdpt := LowPdpt(mem0[kernel0.frame][0])][root := m.mem[root]]
      invariant forall k :: 0 <= k < 512 ==>
                  m.mem[root][k] == if k == 0 then LinkEntry(pdpt, true)
                                    else if 256 <= k < i then mem0[kroot][k] else ZERO_ENTRY
    {
      m.mem := Store(m.mem, root, i, m.mem[kroot][i]);
      i := i + 1;
    }
    assert m.mem[root] == RootTable(mem0[kroot], pdpt);
    assert m.mem == mem0[root := RootTable(mem0[kroot], pdpt)][pdpt := LowPdpt(mem0[kernel0.frame][0])];
    NewSpaceOK(mem0, lay0, m.pmm.used, m.pmm.frames, kroot, a, root, pdpt);
    NewSpaceView(mem0, lay0.lvl, kroot, root, pdpt, m.mem);
    m.lay := NewSpace(lay0, a, root, pdpt);
  }

  // ---- process_pml4_enable_low_elf -------------------------------------------

  lemma LowPrivateOK(mem: Ram, lay: Layout, used: set<nat>, frames: nat, a: nat, root: nat, pdpt: nat)
    requires Owned(mem, lay, used, frames) && IsRoot(lay, root, a) && a !in lay.priv
    requires Slot(a, [0]) in lay.at && lay.at[Slot(a, [0])] == pdpt && root in mem && pdpt in mem && root != pdpt
    ensures var e := mem[root][0];
            Owned(Store(Store(mem, pdpt, 0, ZERO_ENTRY), root, 0, e.(bits := e.bits.(privateLow := true))),
                  lay.(priv := lay.priv + {a}), used, frames)
  {
    var e := mem[root][0];
    var mem1 := Store(mem, pdpt, 0, ZERO_ENTRY);
    var mem2 := Store(mem1, root, 0, e.(bits := e.bits.(privateLow := true)));
    var lay2 := lay.(priv := lay.priv + {a});
    assert FrameOK(lay, used, frames, root) && SlotOK(mem, lay, Slot(a, [])) && SlotOK(mem, lay, Slot(a, [0]));
    assert CellOK(mem, lay, pdpt, 0) && CellOK(mem, lay, root, 0);
    forall f: nat, i: nat
      ensures LinkDown(mem2, lay.lvl, f, i) && CellOK(mem2, lay2, f, i)
    {
      assert LinkDown(mem, lay.lvl, f, i) && CellOK(mem, lay, f, i) && FrameOK(lay, used, frames, f);
      if f in lay.own {
        assert SlotOK(mem, lay, lay.own[f]);
      }
    }
    forall s
      ensures SlotOK(mem2, lay2, s)
    {
      assert SlotOK(mem, lay, s);
    }
    forall f
      ensures FrameOK(lay2, used, frames, f)
    {
      assert FrameOK(lay, used, frames, f);
    }
  }

  /** The low 1 GiB of `root` becomes empty (when `cut`), all else reads the same. */
  ghost predicate LowCut(mem: Ram, mem': Ram, lvl: map<nat, nat>, root: nat, cut: bool)
  {
    forall r, q {:trigger Lookup(mem', r, q)} {:trigger HugeEntry(mem', r, q)} ::
      r in lvl && lvl[r] == 4 && IsPage(q) ==>
        if cut && r == root && q[0] == 0 && q[1] == 0
        then Lookup(mem', r, q) == None && HugeEntry(mem', r, q) == None
        else Lookup(mem', r, q) == Lookup(mem, r, q) && HugeEntry(mem', r, q) == HugeEntry(mem, r, q)
  }

  /** Cutting the low entry changes the low 1 GiB of this space only. */
  lemma LowCutView(mem: Ram, lay: Layout, used: set<nat>, frames: nat, a: nat, root: nat, pdpt: nat, mem2: Ram, r: nat,
                   q: seq<nat>)
    requires Owned(mem, lay, used, frames) && IsRoot(lay, root, a)
    requires Slot(a, [0]) in lay.at && lay.at[Slot(a, [0])] == pdpt && root in mem && pdpt in mem && root != pdpt
    requires var e := mem[root][0];
             mem2 == Store(Store(mem, pdpt, 0, ZERO_ENTRY), root, 0, e.(bits := e.bits.(privateLow := true)))
    requires r in lay.lvl && lay.lvl[r] == 4 && IsPage(q)
    ensures Lookup(mem2, r, q) == if r == root && q[0] == 0 && q[1] == 0 then None else Lookup(mem, r, q)
    ensures HugeEntry(mem2, r, q) == if r == root && q[0] == 0 && q[1] == 0 then None else HugeEntry(mem, r, q)
  {
    assert FrameOK(lay, used, frames, root) && SlotOK(mem, lay, Slot(a, [])) && SlotOK(mem, lay, Slot(a, [0]));
    assert CellOK(mem, lay, root, 0) && Child(Slot(a, []), 0) == Slot(a, [0]);
    DescendSteps(mem, r, q);
    DescendSteps(mem2, r, q);
    DescendLevel(mem, lay.lvl, r, q[..3]);
    if Links(4, mem[r][q[0]]) {
      StepSlot(mem, lay, used, frames, r, q[0]);
      var g := mem[r][q[0]].frame;
      if g == pdpt {
        assert FrameOK(lay, used, frames, r);
        ChildInjective(lay.own[r], q[0], Slot(a, []), 0);
      }
      if Links(3, mem[g][q[1]]) {
        assert LinkDown(mem, lay.lvl, g, q[1]);
      }
    }
  }

  /** process_pml4_enable_low_elf: replaces the shared low 1 GiB of one space by
      an empty private one; idempotent, and invisible to every other space. */
  method EnableLowElf(m: Memory, root: nat, ghost a: nat)
    requires m.Valid() && IsRoot(m.lay, root, a)
    modifies m
    ensures m.Valid() && m.lay == old(m.lay).(priv := old(m.lay).priv + {a})
    ensures LowCut(old(m.mem), m.mem, m.lay.lvl, root, a !in old(m.lay).priv)
    ensures a in old(m.lay).priv ==> m.mem == old(m.mem)
    ensures forall r :: r in m.lay.lvl ==> r in m.mem && r in old(m.mem)
    ensures forall r, j {:trigger m.mem[r][j]} ::
              r in m.lay.lvl && m.lay.lvl[r] == 4 && 256 <= j < 512 ==> m.mem[r][j] == old(m.mem)[r][j]
    // only the mark on the first entry and the low entry below it change
    ensures root in m.mem && root in old(m.mem)
    ensures var e := old(m.mem)[root][0];
            && m.mem[root][0] == Entry(e.frame, e.bits.(privateLow := true))
            && forall r, j {:trigger m.mem[r][j]} ::
                 r in m.lay.lvl && 0 <= j < 512 && !(r == root && j == 0) && !(r == e.frame && j == 0) ==>
                   m.mem[r][j] == old(m.mem)[r][j]
  {
    ghost var mem, lay, used, frames := m.mem, m.lay, m.pmm.used, m.pmm.frames;
    assert FrameOK(lay, used, frames, root) && SlotOK(mem, lay, Slot(a, [])) && SlotOK(mem, lay, Slot(a, [0]));
    assert CellOK(mem, lay, root, 0) && Child(Slot(a, []), 0) == Slot(a, [0]);
    if m.mem[root][0].bits.privateLow {
      assert lay.priv == lay.priv + {a};
      return;
    }
    var pdpt := m.mem[root][0].frame;
    LowPrivateOK(mem, lay, used, frames, a, root, pdpt);
    m.mem := Store(m.mem, pdpt, 0, ZERO_ENTRY);
    var e := m.mem[root][0];
    m.mem := Store(m.mem, root, 0, e.(bits := e.bits.(privateLow := true)));
    m.lay := lay.(priv := lay.priv + {a});
    forall r, q | r in lay.lvl && lay.lvl[r] == 4 && IsPage(q)
      ensures Lookup(m.mem, r, q) == if r == root && q[0] == 0 && q[1] == 0 then None else Lookup(mem, r, q)
      ensures HugeEntry(m.mem, r, q) == if r == root && q[0] == 0 && q[1] == 0 then None else HugeEntry(mem, r, q)
    {
      LowCutView(mem, lay, used, frames, a, root, pdpt, m.mem, r, q);
    }
  }

  // ---- frames of every space across a mapping --------------------------------

  /** How ownership of one frame moves when tables grow and one page slot is
      rewritten. */
  lemma FrameMove(mem0: Ram, l0: Layout, u0: set<nat>, mem1: Ram, l1: Layout, u1: set<nat>, frames: nat,
                  a: nat, c: Slot, e: Entry, f: nat, b: nat)
    requires Owned(mem0, l0, u0, frames) && Owned(mem1, l1, u1, frames)
    requires TablesGrown(l0, u0, l1, u1, a) && NewOwned(l0, l1) && PageSet(l0, l1, c, e)
    requires c.space == a && |c.path| == 4
    ensures f in Frames(l1, b) <==>
              || (f in Frames(l0, b) && !(c in l0.at && l0.at[c] == f))
              || (b == a && f in u1 && f !in u0)
              || (b == a && Owns(1, e) && f == e.frame)
  {
    assert FrameOK(l0, u0, frames, f) && FrameOK(l1, u1, frames, f);
    if f in l1.own {
      assert SlotOK(mem1, l1, l1.own[f]) && SlotOK(mem0, l0, l1.own[f]);
    }
    if f in l0.own {
      assert SlotOK(mem0, l0, l0.own[f]) && SlotOK(mem1, l1, l0.own[f]);
    }
    assert SlotOK(mem0, l0, c) && SlotOK(mem1, l1, c);
  }

  lemma FramesMapped(mem0: Ram, l0: Layout, u0: set<nat>, mem1: Ram, l1: Layout, u1: set<nat>, frames: nat,
                     a: nat, c: Slot, e: Entry)
    requires Owned(mem0, l0, u0, frames) && Owned(mem1, l1, u1, frames)
    requires TablesGrown(l0, u0, l1, u1, a) && NewOwned(l0, l1) && PageSet(l0, l1, c, e)
    requires c.space == a && |c.path| == 4
    ensures Frames(l1, a) == Frames(l0, a) - (if c in l0.at then {l0.at[c]} else {}) + (u1 - u0)
                             + (if Owns(1, e) then {e.frame} else {})
    ensures forall b :: b != a ==> Frames(l1, b) == Frames(l0, b)
  {
    assert SlotOK(mem0, l0, c);
    forall f
      ensures f in Frames(l1, a) <==>
              || (f in Frames(l0, a) && !(c in l0.at && l0.at[c] == f))
              || (f in u1 && f !in u0) || (Owns(1, e) && f == e.frame)
    {
      FrameMove(mem0, l0, u0, mem1, l1, u1, frames, a, c, e, f, a);
    }
    forall b | b != a
      ensures Frames(l1, b) == Frames(l0, b)
    {
      FramesElsewhere(mem0, l0, u0, mem1, l1, u1, frames, a, c, e, b);
    }
  }

  lemma FramesElsewhere(mem0: Ram, l0: Layout, u0: set<nat>, mem1: Ram, l1: Layout, u1: set<nat>, frames: nat,
                        a: nat, c: Slot, e: Entry, b: nat)
    requires Owned(mem0, l0, u0, frames) && Owned(mem1, l1, u1, frames)
    requires TablesGrown(l0, u0, l1, u1, a) && NewOwned(l0, l1) && PageSet(l0, l1, c, e)
    requires c.space == a != b && |c.path| == 4
    ensures Frames(l1, b) == Frames(l0, b)
  {
    assert c in l0.at ==> l0.at[c] !in Frames(l0, b) by {
      assert SlotOK(mem0, l0, c);
    }
    hide Owned, TablesGrown, NewOwned, PageSet, Frames;
    forall f
      ensures f in Frames(l1, b) <==> f in Frames(l0, b)
    {
      FrameMove(mem0, l0, u0, mem1, l1, u1, frames, a, c, e, f, b);
    }
  }

  /** The same when no page slot changed. */
  lemma FramesGrown(mem0: Ram, l0: Layout, u0: set<nat>, mem1: Ram, l1: Layout, u1: set<nat>, frames: nat, a: nat)
    requires Owned(mem0, l0, u0, frames) && Owned(mem1, l1, u1, frames)
    requires TablesGrown(l0, u0, l1, u1, a) && NewOwned(l0, l1) && PagesKept(l0, l1)
    ensures Frames(l1, a) == Frames(l0, a) + (u1 - u0)
    ensures forall b :: b != a ==> Frames(l1, b) == Frames(l0, b)
  {
    forall f, b
      ensures f in Frames(l1, b) <==> f in Frames(l0, b) || (b == a && f in u1 && f !in u0)
    {
      assert FrameOK(l0, u0, frames, f) && FrameOK(l1, u1, frames, f);
      if f in l1.own {
        assert SlotOK(mem1, l1, l1.own[f]) && SlotOK(mem0, l0, l1.own[f]);
      }
      if f in l0.own {
        assert SlotOK(mem0, l0, l0.own[f]) && SlotOK(mem1, l1, l0.own[f]);
      }
    }
  }

  // ---- whole life cycles -----------------------------------------------------

  /** Map a zeroed private frame, or a frame borrowed from someone else. */
  datatype Request = Private(virt: nat, flags: Flags) | Borrow(virt: nat, flags: Flags, phys: nat)

  /** Since `base`, the allocator handed out what space `a` owns and the frames
      in `hand`; the other spaces own what they owned under `l0`. */
  ghost predicate Accounted(lay: Layout, used: set<nat>, l0: Layout, base: set<nat>, a: nat, hand: set<nat>)
  {
    && used == base + Frames(lay, a) + hand
    && base !! Frames(lay, a) && hand !! base && hand !! Frames(lay, a)
    && forall b :: b != a ==> Frames(lay, b) == Frames(l0, b)
  }

  /** Address spaces other than `root` read as before. */
  ghost predicate OthersSame(mem: Ram, mem': Ram, lvl: map<nat, nat>, root: nat)
  {
    forall r, q {:trigger Lookup(mem', r, q)} {:trigger HugeEntry(mem', r, q)} ::
      r in lvl && lvl[r] == 4 && r != root && IsPage(q) ==>
        Lookup(mem', r, q) == Lookup(mem, r, q) && HugeEntry(mem', r, q) == HugeEntry(mem, r, q)
  }

  ghost predicate LevelsKept(lvl: map<nat, nat>, lvl': map<nat, nat>)
  {
    forall f :: f in lvl ==> f in lvl' && lvl'[f] == lvl[f]
  }

  lemma OthersTrans(m0: Ram, m1: Ram, m2: Ram, lvl0: map<nat, nat>, lvl1: map<nat, nat>, root: nat)
    requires OthersSame(m0, m1, lvl0, root) && OthersSame(m1, m2, lvl1, root) && LevelsKept(lvl0, lvl1)
    ensures OthersSame(m0, m2, lvl0, root)
  {
    forall r, q | r in lvl0 && lvl0[r] == 4 && r != root && IsPage(q)
      ensures Lookup(m2, r, q) == Lookup(m0, r, q) && HugeEntry(m2, r, q) == HugeEntry(m0, r, q)
    {
      assert Lookup(m1, r, q) == Lookup(m0, r, q) && HugeEntry(m1, r, q) == HugeEntry(m0, r, q);
    }
  }

  lemma LeavesOthers(m0: Ram, m1: Ram, lvl: map<nat, nat>, root: nat)
    requires SameLeaves(m0, m1, lvl)
    ensures OthersSame(m0, m1, lvl, root)
  {
  }

  /** An unmapped user page owns nothing. */
  lemma UnmappedSlot(mem: Ram, lay: Layout, used: set<nat>, frames: nat, root: nat, a: nat, va: seq<nat>)
    requires Owned(mem, lay, used, frames) && IsRoot(lay, root, a) && IsPage(va) && UserPage(lay, a, va)
    requires Lookup(mem, root, va).None?
    ensures Slot(a, va) !in lay.at
  {
    assert FrameOK(lay, used, frames, root) && SlotOK(mem, lay, Slot(a, []));
    assert va[0..3] == va[..3] && va[..0] == [] && va == va[..3] + [va[3]];
    DescendInside(mem, lay, used, frames, root, va, 0);
    if LeafTable(mem, root, va).Some? {
      LeafTableSlot(mem, lay, used, frames, root, va);
      assert CellOK(mem, lay, LeafTable(mem, root, va).value, va[3]);
    } else if Slot(a, va) in lay.at {
      AncestorAt(mem, lay, used, frames, Slot(a, va), 3);
    }
  }

  /** Bookkeeping of one mapping. */
  lemma AccountMap(mem0: Ram, lay0: Layout, u0: set<nat>, mem1: Ram, lay1: Layout, u1: set<nat>, frames: nat,
                   l0: Layout, base: set<nat>, a: nat, hand: set<nat>, va: seq<nat>, e: Entry)
    requires Owned(mem0, lay0, u0, frames) && Owned(mem1, lay1, u1, frames) && IsPage(va)
    requires TablesGrown(lay0, u0, lay1, u1, a) && NewOwned(lay0, lay1)
    requires Accounted(lay0, u0, l0, base, a, hand) && Slot(a, va) !in lay0.at
    ensures PagesKept(lay0, lay1) ==> Accounted(lay1, u1, l0, base, a, hand)
    ensures PageSet(lay0, lay1, Slot(a, va), e) && hand == (if Owns(1, e) then {e.frame} else {}) ==>
              Accounted(lay1, u1, l0, base, a, {})
  {
    forall f
      ensures f in lay0.own ==> f in u0
    {
      assert FrameOK(lay0, u0, frames, f);
    }
    if PagesKept(lay0, lay1) {
      FramesGrown(mem0, lay0, u0, mem1, lay1, u1, frames, a);
    }
    if PageSet(lay0, lay1, Slot(a, va), e) {
      FramesMapped(mem0, lay0, u0, mem1, lay1, u1, frames, a, Slot(a, va), e);
    }
  }

  /** vmm_map_in on an unmapped user page: what is in hand ends up owned, or
      stays in hand when the mapping fails. */
  method ServeMap(m: Memory, root: nat, virt: nat, phys: nat, flags: Flags,
                  ghost a: nat, ghost l0: Layout, ghost base: set<nat>) returns (ok: bool)
    requires m.Valid() && IsRoot(m.lay, root, a) && UserPage(m.lay, a, VaSplit(virt))
    requires root in m.lay.lvl && m.lay.lvl[root] == 4 && Slot(a, VaSplit(virt)) !in m.lay.at
    requires !flags.shared ==> Loose(m.lay, m.pmm.used, m.pmm.frames, phys / 4096)
    requires Accounted(m.lay, m.pmm.used, l0, base, a, if flags.shared then {} else {phys / 4096})
    modifies m, m.pmm, m.pmm.bitmap
    ensures m.Valid() && IsRoot(m.lay, root, a) && m.lay.priv == old(m.lay).priv
    ensures Accounted(m.lay, m.pmm.used, l0, base, a, if ok || flags.shared then {} else {phys / 4096})
    ensures !ok && !flags.shared ==> Loose(m.lay, m.pmm.used, m.pmm.frames, phys / 4096)
    ensures OthersSame(old(m.mem), m.mem, old(m.lay).lvl, root) && LevelsKept(old(m.lay).lvl, m.lay.lvl)
  {
    hide VaSplit, Owned, MapsPage, MapsOnePage, SameLeaves, Frames, UserPath, LinksKept, CpuWrites, Carries, Pmm.Represents,
         TablesGrown, PageSet, PagesKept, NewOwned, DataKept, TopsKept, Grown, Affordable, Need, Spent, Accounted, OthersSame,
         LevelsKept, Loose, UserPage, Lookup;
    ghost var mem0, lay0, u0 := m.mem, m.lay, m.pmm.used;
    ghost var hand := if flags.shared then {} else {phys / 4096};
    ok := m.MapIn(root, virt, phys, flags, a);
    AccountMap(mem0, lay0, u0, m.mem, m.lay, m.pmm.used, m.pmm.frames, l0, base, a, hand, VaSplit(virt),
               MapEntry(phys, flags));
    RootKept(mem0, lay0, u0, m.mem, m.lay, m.pmm.used, m.pmm.frames, a, root);
    MapKeepsOthers(mem0, m.mem, lay0.lvl, root, VaSplit(virt), MapEntry(phys, flags), ok);
    if !ok && !flags.shared {
      LooseKept(mem0, lay0, u0, m.mem, m.lay, m.pmm.used, m.pmm.frames, a, phys / 4096);
    }
  }

  lemma MapKeepsOthers(mem0: Ram, mem1: Ram, lvl: map<nat, nat>, root: nat, va: seq<nat>, e: Entry, ok: bool)
    requires IsPage(va) && if ok then MapsOnePage(mem0, mem1, lvl, root, va, e) else SameLeaves(mem0, mem1, lvl)
    ensures OthersSame(mem0, mem1, lvl, root)
  {
  }

  lemma LooseKept(mem0: Ram, lay0: Layout, u0: set<nat>, mem1: Ram, lay1: Layout, u1: set<nat>, frames: nat, a: nat, f: nat)
    requires Owned(mem0, lay0, u0, frames) && Owned(mem1, lay1, u1, frames)
    requires TablesGrown(lay0, u0, lay1, u1, a) && PagesKept(lay0, lay1) && Loose(lay0, u0, frames, f)
    ensures Loose(lay1, u1, frames, f)
  {
    assert FrameOK(lay1, u1, frames, f);
    assert f in lay1.own ==> SlotOK(mem1, lay1, lay1.own[f]) && SlotOK(mem0, lay0, lay1.own[f]);
  }

  lemma RootKept(mem0: Ram, lay0: Layout, u0: set<nat>, mem1: Ram, lay1: Layout, u1: set<nat>, frames: nat, a: nat,
                 root: nat)
    requires Owned(mem0, lay0, u0, frames) && Owned(mem1, lay1, u1, frames)
    requires TablesGrown(lay0, u0, lay1, u1, a) && IsRoot(lay0, root, a)
    ensures IsRoot(lay1, root, a) && LevelsKept(lay0.lvl, lay1.lvl) && lay1.priv == lay0.priv
  {
    assert FrameOK(lay0, u0, frames, root) && SlotOK(mem1, lay1, Slot(a, []));
  }

  /** pmm_alloc_frame, vmm_map_in, and pmm_free_frame if that failed. */
  method ServePrivate(m: Memory, root: nat, virt: nat, flags: Flags, ghost a: nat, ghost l0: Layout,
                      ghost base: set<nat>)
    requires m.Valid() && IsRoot(m.lay, root, a) && UserPage(m.lay, a, VaSplit(virt)) && !flags.shared
    requires root in m.lay.lvl && m.lay.lvl[root] == 4 && Slot(a, VaSplit(virt)) !in m.lay.at
    requires Accounted(m.lay, m.pmm.used, l0, base, a, {})
    modifies m, m.pmm, m.pmm.bitmap
    ensures m.Valid() && IsRoot(m.lay, root, a) && m.lay.priv == old(m.lay).priv
    ensures Accounted(m.lay, m.pmm.used, l0, base, a, {})
    ensures OthersSame(old(m.mem), m.mem, old(m.lay).lvl, root) && LevelsKept(old(m.lay).lvl, m.lay.lvl)
  {
    hide VaSplit, Frames, SameLeaves, OthersSame, Pmm.Represents;
    ghost var mem0, lay0, u0 := m.mem, m.lay, m.pmm.used;
    OwnedUsed(mem0, lay0, u0, m.pmm.frames, a);
    var f := m.AllocZeroed();
    TablesSameLeaves(mem0, m.mem, lay0.lvl);
    LeavesOthers(mem0, m.mem, lay0.lvl, root);
    if f == 0 {
      return;
    }
    ghost var mem1 := m.mem;
    assert f * 4096 / 4096 == f;
    var ok := ServeMap(m, root, virt, f * 4096, flags, a, l0, base);
    OthersTrans(mem0, mem1, m.mem, lay0.lvl, lay0.lvl, root);
    if !ok {
      ReturnLoose(m, f);
    }
  }

  lemma OwnedUsed(mem: Ram, lay: Layout, used: set<nat>, frames: nat, a: nat)
    requires Owned(mem, lay, used, frames)
    ensures Frames(lay, a) <= used
  {
    forall f | f in lay.own
      ensures f in used
    {
      assert FrameOK(lay, used, frames, f);
    }
  }

  /** Serve one request; a page that is already mapped is left alone, as demand
      paging does. */
  method Serve(m: Memory, root: nat, req: Request, ghost a: nat, ghost l0: Layout, ghost base: set<nat>)
    requires m.Valid() && IsRoot(m.lay, root, a) && UserPage(m.lay, a, VaSplit(req.virt))
    requires Accounted(m.lay, m.pmm.used, l0, base, a, {})
    modifies m, m.pmm, m.pmm.bitmap
    ensures m.Valid() && IsRoot(m.lay, root, a) && m.lay.priv == old(m.lay).priv
    ensures Accounted(m.lay, m.pmm.used, l0, base, a, {})
    ensures OthersSame(old(m.mem), m.mem, old(m.lay).lvl, root) && LevelsKept(old(m.lay).lvl, m.lay.lvl)
  {
    assert FrameOK(m.lay, m.pmm.used, m.pmm.frames, root) && SlotOK(m.mem, m.lay, Slot(a, []));
    hide VaSplit, Frames, SameLeaves, Pmm.Represents, Owned;
    var e := m.EntryIn(root, req.virt);
    if e.Some? {
      return;
    }
    UnmappedSlot(m.mem, m.lay, m.pmm.used, m.pmm.frames, root, a, VaSplit(req.virt));
    match req {
      case Private(virt, flags) =>
        ServePrivate(m, root, virt, flags.(shared := false), a, l0, base);
      case Borrow(virt, flags, phys) =>
        var _ := ServeMap(m, root, virt, phys, flags.(shared := true), a, l0, base);
    }
  }

  lemma DropFrames(lay: Layout, a: nat, l0: Layout, used: set<nat>, base: set<nat>)
    requires Accounted(lay, used, l0, base, a, {}) && Frames(l0, a) == {}
    ensures forall b :: Frames(DropSpace(lay, a), b) == Frames(l0, b)
    ensures used - Frames(lay, a) == base
  {
    forall b
      ensures Frames(DropSpace(lay, a), b) == Frames(l0, b)
    {
      assert b != a ==> Frames(lay, b) == Frames(l0, b);
      assert Frames(DropSpace(lay, a), b) == if b == a then {} else Frames(lay, b);
    }
  }

  lemma NoFrames(mem: Ram, lay: Layout, used: set<nat>, frames: nat, a: nat)
    requires Owned(mem, lay, used, frames) && FreshSpace(lay, a)
    ensures Frames(lay, a) == {}
  {
    forall f | f in lay.own
      ensures lay.own[f].space != a
    {
      assert FrameOK(lay, used, frames, f);
    }
  }

  lemma NewFrames(mem: Ram, l0: Layout, base: set<nat>, lay: Layout, used: set<nat>, frames: nat, a: nat, root: nat)
    requires Owned(mem, l0, base, frames) && Frames(l0, a) == {} && FreshSpace(l0, a)
    requires Created(l0, base, lay, used, a, root)
    ensures Accounted(lay, used, l0, base, a, {}) && LevelsKept(l0.lvl, lay.lvl) && root !in l0.lvl && a !in lay.priv
  {
    var pdpt :| lay == NewSpace(l0, a, root, pdpt) && root != pdpt && root !in base && pdpt !in base
                && used == base + {root, pdpt};
    assert FrameOK(l0, base, frames, root) && FrameOK(l0, base, frames, pdpt);
    hide Owned, FrameOK;
    assert Frames(lay, a) == {root, pdpt};
    forall b | b != a
      ensures Frames(lay, b) == Frames(l0, b)
    {
    }
  }

  lemma LowOthers(mem: Ram, mem': Ram, lvl: map<nat, nat>, root: nat, cut: bool)
    requires LowCut(mem, mem', lvl, root, cut)
    ensures OthersSame(mem, mem', lvl, root)
  {
  }

  lemma AllOthers(mem: Ram, mem': Ram, lvl: map<nat, nat>, root: nat)
    requires OthersSame(mem, mem', lvl, root) && root !in lvl
    ensures SameLeaves(mem, mem', lvl)
  {
  }

  lemma SameOwn(l0: Layout, l1: Layout, used: set<nat>, base: set<nat>, lay: Layout, a: nat)
    requires Accounted(lay, used, l0, base, a, {}) && l1.own == lay.own
    ensures Accounted(l1, used, l0, base, a, {})
  {
    assert forall b :: Frames(l1, b) == Frames(lay, b);
  }

  /** Pages of the low 1 GiB are mapped only after it was made private. */
  ghost predicate Servable(req: Request, low: bool)
  {
    var va := VaSplit(req.virt);
    va[0] < 256 && (va[0] == 0 && va[1] == 0 ==> low)
  }

  /** The state of a process being built since memory was (mem0, l0, base). */
  ghost predicate Building(m: Memory, root: nat, a: nat, low: bool, mem0: Ram, l0: Layout, base: set<nat>)
    reads m, m.pmm, m.pmm.bitmap
  {
    && m.Valid() && IsRoot(m.lay, root, a) && (a in m.lay.priv <==> low)
    && Accounted(m.lay, m.pmm.used, l0, base, a, {})
    && OthersSame(mem0, m.mem, l0.lvl, root) && LevelsKept(l0.lvl, m.lay.lvl)
    && root !in l0.lvl && Frames(l0, a) == {}
  }

  method Begin(m: Memory, kroot: nat, ghost a: nat, low: bool) returns (root: nat)
    requires m.Valid() && KernelReady(m.mem, m.lay, kroot) && FreshSpace(m.lay, a)
    modifies m, m.pmm, m.pmm.bitmap
    ensures m.Valid()
    ensures root == 0 ==>
              m.pmm.used == old(m.pmm.used) && m.lay == old(m.lay) && SameLeaves(old(m.mem), m.mem, old(m.lay).lvl)
    ensures root != 0 ==> Building(m, root, a, low, old(m.mem), old(m.lay), old(m.pmm.used))
  {
    ghost var mem0, l0, base := m.mem, m.lay, m.pmm.used;
    NoFrames(mem0, l0, base, m.pmm.frames, a);
    root := Pml4Create(m, kroot, a);
    if root == 0 {
      return;
    }
    NewFrames(mem0, l0, base, m.lay, m.pmm.used, m.pmm.frames, a, root);
    hide VaSplit, Frames, SameLeaves, Pmm.Represents, Owned, NewSpace, SeesKernel, Accounted;
    LeavesOthers(mem0, m.mem, l0.lvl, root);
    if low {
      ghost var mem1, lay1 := m.mem, m.lay;
      EnableLowElf(m, root, a);
      LowOthers(mem1, m.mem, m.lay.lvl, root, a !in lay1.priv);
      SameOwn(l0, m.lay, m.pmm.used, base, lay1, a);
      OthersTrans(mem0, mem1, m.mem, l0.lvl, m.lay.lvl, root);
    }
  }

  method ServeAll(m: Memory, root: nat, ghost a: nat, ghost low: bool, reqs: seq<Request>,
                  ghost mem0: Ram, ghost l0: Layout, ghost base: set<nat>)
    requires Building(m, root, a, low, mem0, l0, base)
    requires forall k :: 0 <= k < |reqs| ==> Servable(reqs[k], low)
    modifies m, m.pmm, m.pmm.bitmap
    ensures Building(m, root, a, low, mem0, l0, base)
  {
    hide VaSplit, Frames, OthersSame, LevelsKept, Pmm.Represents, Owned, Accounted;
    var k := 0;
    while k < |reqs|
      invariant 0 <= k <= |reqs| && Building(m, root, a, low, mem0, l0, base)
    {
      ghost var mem1, lvl1 := m.mem, m.lay.lvl;
      Serve(m, root, reqs[k], a, l0, base);
      OthersTrans(mem0, mem1, m.mem, l0.lvl, lvl1, root);
      LevelsTrans(l0.lvl, lvl1, m.lay.lvl);
      k := k + 1;
    }
  }

  lemma LevelsTrans(l0: map<nat, nat>, l1: map<nat, nat>, l2: map<nat, nat>)
    requires LevelsKept(l0, l1) && LevelsKept(l1, l2)
    ensures LevelsKept(l0, l2)
  {
  }

  /** Create an address space, serve any list of requests (failed ones
      included), tear it down: the allocator is back where it was, every other
      space owns what it owned and reads what it read. */
  method LifeCycle(m: Memory, kroot: nat, ghost a: nat, low: bool, reqs: seq<Request>)
    requires m.Valid() && KernelReady(m.mem, m.lay, kroot) && FreshSpace(m.lay, a)
    requires forall k :: 0 <= k < |reqs| ==> Servable(reqs[k], low)
    modifies m, m.pmm, m.pmm.bitmap
    ensures m.Valid() && m.pmm.used == old(m.pmm.used)
    ensures forall b :: Frames(m.lay, b) == Frames(old(m.lay), b)
    ensures SameLeaves(old(m.mem), m.mem, old(m.lay).lvl)
  {
    hide Frames, SameLeaves, OthersSame, Pmm.Represents, Owned, DropSpace, Accounted;
    ghost var mem0, l0, base := m.mem, m.lay, m.pmm.used;
    var root := Begin(m, kroot, a, low);
    if root == 0 {
      return;
    }
    ServeAll(m, root, a, low, reqs, mem0, l0, base);
    DropFrames(m.lay, a, l0, m.pmm.used, base);
    FreeUserPml4(m, root, a);
    AllOthers(mem0, m.mem, l0.lvl, root);
  }
}
