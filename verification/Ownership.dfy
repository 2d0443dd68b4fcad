/** Who owns which physical frame.

    Every address space owns a tree of frames: its PML4, its private tables and
    the private (not VMM_SHARED) leaves.  A Slot is a position in such a tree, so
    recording one slot per frame says at once that the frames form disjoint
    trees.  Table frames without a slot belong to the kernel: the upper half and
    the identity-mapped low 1 GiB that processes link but never own. */
module Ownership {
  import opened PageTables

  /** `path` of length 0 is the PML4, 1..3 the lower tables, 4 a private page. */
  datatype Slot = Slot(space: nat, path: seq<nat>)

  function Child(s: Slot, i: nat): Slot
  {
    Slot(s.space, s.path + [i])
  }

  lemma ChildInjective(s: Slot, i: nat, t: Slot, j: nat)
    ensures Child(s, i) == Child(t, j) ==> s == t && i == j
  {
    if Child(s, i) == Child(t, j) {
      assert Child(s, i).path[..|s.path|] == s.path;
      assert Child(t, j).path[..|t.path|] == t.path;
      assert Child(s, i).path[|s.path|] == i;
    }
  }

  /** lvl: level of every table frame; at/own: frame of each slot and back;
      priv: the spaces that replaced the shared low 1 GiB by private tables. */
  datatype Layout = Layout(lvl: map<nat, nat>, at: map<Slot, nat>, own: map<nat, Slot>, priv: set<nat>)

  /** Entries through which a process links kernel tables it does not own. */
  predicate Border(lay: Layout, s: Slot, i: nat)
  {
    (s.path == [] && i >= 256) || (s.path == [0] && i == 0 && s.space !in lay.priv)
  }

  /** Does this entry own what it points at? */
  predicate Owns(level: nat, e: Entry)
  {
    if level >= 2 then Links(level, e) else e.bits.present && !e.bits.shared
  }

  ghost predicate CellOK(mem: Ram, lay: Layout, f: nat, i: nat)
  {
    f in lay.lvl && f in mem && i < 512 ==>
      var e, level := mem[f][i], lay.lvl[f];
      if f !in lay.own then
        level >= 2 && Links(level, e) ==> e.frame !in lay.own
      else
        var s := lay.own[f];
        if Border(lay, s, i) then
          e.bits.present && (Links(level, e) ==> e.frame !in lay.own) && Child(s, i) !in lay.at
        else
          && (Owns(level, e) <==> Child(s, i) in lay.at)
          && (Owns(level, e) ==> lay.at[Child(s, i)] == e.frame)
  }

  ghost predicate SlotOK(mem: Ram, lay: Layout, s: Slot)
  {
    s in lay.at ==>
      var f := lay.at[s];
      && f in lay.own && lay.own[f] == s
      && |s.path| <= 4 && (forall k :: 0 <= k < |s.path| ==> s.path[k] < 512)
      && (if |s.path| < 4 then f in lay.lvl && lay.lvl[f] == 4 - |s.path| else f !in lay.lvl)
      && (if s.path == [] then
            && Slot(s.space, [0]) in lay.at && f in mem
            && (mem[f][0].bits.privateLow <==> s.space in lay.priv)
          else
            var parent := Slot(s.space, s.path[..|s.path| - 1]);
            parent in lay.at && !Border(lay, parent, s.path[|s.path| - 1]))
  }

  ghost predicate FrameOK(lay: Layout, used: set<nat>, frames: nat, f: nat)
  {
    && (f in lay.own ==> lay.own[f] in lay.at && lay.at[lay.own[f]] == f)
    && (f in lay.own || f in lay.lvl ==> f in used && 0 < f < frames)
  }

  /** The ownership invariant of the whole memory stack. */
  ghost predicate Owned(mem: Ram, lay: Layout, used: set<nat>, frames: nat)
  {
    && Stratified(mem, lay.lvl)
    && (forall f, i {:trigger CellOK(mem, lay, f, i)} :: CellOK(mem, lay, f, i))
    && (forall s {:trigger SlotOK(mem, lay, s)} :: SlotOK(mem, lay, s))
    && (forall f {:trigger FrameOK(lay, used, frames, f)} :: FrameOK(lay, used, frames, f))
  }

  /** A frame the allocator handed out that no tree uses yet. */
  ghost predicate Loose(lay: Layout, used: set<nat>, frames: nat, f: nat)
  {
    f in used && 0 < f < frames && f !in lay.own && f !in lay.lvl
  }

  /** `root` is the PML4 of the process space `a`. */
  ghost predicate IsRoot(lay: Layout, root: nat, a: nat)
  {
    root in lay.own && lay.own[root] == Slot(a, [])
  }

  /** Pages whose tables belong to the process: the lower half, without the low
      1 GiB unless it was made private. */
  predicate UserPage(lay: Layout, a: nat, va: seq<nat>)
    requires IsPage(va)
  {
    !Border(lay, Slot(a, []), va[0]) && !Border(lay, Slot(a, [va[0]]), va[1])
  }

  // ---- user trees never alias --------------------------------------------

  /** One step of a walk. */
  lemma StepSlot(mem: Ram, lay: Layout, used: set<nat>, frames: nat, f: nat, i: nat)
    requires Owned(mem, lay, used, frames) && f in lay.lvl && lay.lvl[f] >= 2 && i < 512
    requires Links(lay.lvl[f], mem[f][i])
    ensures var g := mem[f][i].frame;
            && g in lay.lvl && lay.lvl[g] == lay.lvl[f] - 1
            && (g in lay.own ==> f in lay.own && lay.own[g] == Child(lay.own[f], i))
  {
    assert LinkDown(mem, lay.lvl, f, i) && CellOK(mem, lay, f, i);
    if f in lay.own {
      assert SlotOK(mem, lay, Child(lay.own[f], i));
    }
  }

  /** Whatever a walk from a frame reaches is either a kernel table or sits at
      exactly the slot the walk spells out. */
  lemma {:induction false} DescendSlot(mem: Ram, lay: Layout, used: set<nat>, frames: nat, f: nat, path: seq<nat>)
    requires Owned(mem, lay, used, frames) && f in lay.lvl && |path| < lay.lvl[f]
    ensures var r := Descend(mem, f, lay.lvl[f], path);
            r.Some? && r.value in lay.own ==>
              f in lay.own && lay.own[r.value] == Slot(lay.own[f].space, lay.own[f].path + path)
    decreases |path|
  {
    if path == [] {
      if f in lay.own {
        assert lay.own[f].path + path == lay.own[f].path;
      }
    } else if path[0] < 512 && Links(lay.lvl[f], mem[f][path[0]]) {
      StepSlot(mem, lay, used, frames, f, path[0]);
      DescendSlot(mem, lay, used, frames, mem[f][path[0]].frame, path[1..]);
      if f in lay.own {
        assert lay.own[f].path + [path[0]] + path[1..] == lay.own[f].path + path;
      }
    }
  }

  /** A walk that never crosses into the kernel stays inside the owner's tree. */
  lemma {:induction false} DescendInside(mem: Ram, lay: Layout, used: set<nat>, frames: nat, f: nat, va: seq<nat>,
                                         k: nat)
    requires Owned(mem, lay, used, frames) && IsPage(va) && k <= 3
    requires f in lay.own && f in lay.lvl && lay.own[f].path == va[..k] && UserPage(lay, lay.own[f].space, va)
    ensures lay.lvl[f] == 4 - k
    ensures var r := Descend(mem, f, 4 - k, va[k..3]);
            r.Some? ==> r.value in lay.own && lay.own[r.value] == Slot(lay.own[f].space, va[..3])
    ensures Descend(mem, f, 4 - k, va[k..3]).Some? <==> Slot(lay.own[f].space, va[..3]) in lay.at
    decreases 3 - k
  {
    var s := lay.own[f];
    assert FrameOK(lay, used, frames, f) && SlotOK(mem, lay, s);
    if k < 3 {
      assert LinkDown(mem, lay.lvl, f, va[k]) && CellOK(mem, lay, f, va[k]);
      assert Child(s, va[k]).path == va[..k + 1];
      assert va[k..3][1..] == va[k + 1..3];
      var e := mem[f][va[k]];
      if Links(4 - k, e) {
        assert SlotOK(mem, lay, Child(s, va[k]));
        DescendInside(mem, lay, used, frames, e.frame, va, k + 1);
      } else if Slot(s.space, va[..3]) in lay.at {
        assert va[..3][..k + 1] == va[..k + 1];
        AncestorAt(mem, lay, used, frames, Slot(s.space, va[..3]), k + 1);
      }
    }
  }

  /** Every prefix of an owned slot is owned. */
  lemma {:induction false} AncestorAt(mem: Ram, lay: Layout, used: set<nat>, frames: nat, s: Slot, k: nat)
    requires Owned(mem, lay, used, frames) && s in lay.at && k <= |s.path|
    ensures Slot(s.space, s.path[..k]) in lay.at
    decreases |s.path| - k
  {
    if k == |s.path| {
      assert s.path[..k] == s.path;
    } else {
      AncestorAt(mem, lay, used, frames, s, k + 1);
      var c := Slot(s.space, s.path[..k + 1]);
      assert SlotOK(mem, lay, c);
      assert c.path[..|c.path| - 1] == s.path[..k];
    }
  }

  /** The flat maps of two processes share no entry, and one process's map has
      no aliases: a leaf entry of a user page is named by that page alone. */
  lemma NoAlias(mem: Ram, lay: Layout, used: set<nat>, frames: nat, ra: nat, a: nat, va: seq<nat>, r: nat, q: seq<nat>)
    requires Owned(mem, lay, used, frames) && IsRoot(lay, ra, a) && IsPage(va) && UserPage(lay, a, va)
    requires r in lay.lvl && lay.lvl[r] == 4 && IsPage(q)
    requires LeafTable(mem, ra, va).Some?
    ensures SameCell(mem, r, q, ra, va) <==> r == ra && q == va
  {
    assert FrameOK(lay, used, frames, ra) && SlotOK(mem, lay, Slot(a, []));
    DescendInside(mem, lay, used, frames, ra, va, 0);
    assert va[0..3] == va[..3];
    DescendSlot(mem, lay, used, frames, r, q[..3]);
    hide Stratified, CellOK;
    if SameCell(mem, r, q, ra, va) {
      assert FrameOK(lay, used, frames, r) && SlotOK(mem, lay, lay.own[r]);
      assert lay.own[r].path == [];
      assert q == q[..3] + [q[3]] && va == va[..3] + [va[3]];
    }
  }

  /** The leaf table of a page belongs to a process exactly for its user pages. */
  lemma LeafTableSlot(mem: Ram, lay: Layout, used: set<nat>, frames: nat, root: nat, va: seq<nat>)
    requires Owned(mem, lay, used, frames) && root in lay.lvl && lay.lvl[root] == 4 && IsPage(va)
    requires LeafTable(mem, root, va).Some?
    ensures var pt := LeafTable(mem, root, va).value;
            && pt in lay.lvl && lay.lvl[pt] == 1
            && (pt in lay.own <==> root in lay.own && UserPage(lay, lay.own[root].space, va))
            && (pt in lay.own ==> lay.own[pt] == Slot(lay.own[root].space, va[..3]))
  {
    DescendLevel(mem, lay.lvl, root, va[..3]);
    DescendSlot(mem, lay, used, frames, root, va[..3]);
    var pt := LeafTable(mem, root, va).value;
    if root in lay.own {
      assert FrameOK(lay, used, frames, root) && SlotOK(mem, lay, lay.own[root]);
      assert lay.own[root].path == [] && va[..0] == [] && va[0..3] == va[..3];
      if UserPage(lay, lay.own[root].space, va) {
        DescendInside(mem, lay, used, frames, root, va, 0);
      }
      if pt in lay.own {
        var s := lay.own[pt];
        assert FrameOK(lay, used, frames, pt) && [] + va[..3] == va[..3];
        AncestorAt(mem, lay, used, frames, s, 1);
        AncestorAt(mem, lay, used, frames, s, 2);
        assert s.path[..1] == [va[0]] && s.path[..2] == [va[0], va[1]];
        assert SlotOK(mem, lay, Slot(s.space, [va[0]])) && SlotOK(mem, lay, Slot(s.space, [va[0], va[1]]));
        assert [va[0]][..0] == [] && [va[0], va[1]][..1] == [va[0]];
      }
    }
  }

  // ---- transitions ---------------------------------------------------------

  /** Layout after a fresh table `n` is linked at entry j of table g. */
  function LinkLayout(lay: Layout, g: nat, j: nat, n: nat): Layout
    requires g in lay.lvl && lay.lvl[g] >= 2
  {
    var l := lay.(lvl := lay.lvl[n := lay.lvl[g] - 1]);
    if g !in lay.own then l
    else l.(at := lay.at[Child(lay.own[g], j) := n], own := lay.own[n := Child(lay.own[g], j)])
  }

  lemma LinkNewCell(mem: Ram, lay: Layout, used: set<nat>, frames: nat, g: nat, j: nat, n: nat, user: bool, f: nat,
                    i: nat)
    requires Owned(mem, lay, used, frames)
    requires g in lay.lvl && lay.lvl[g] >= 2 && j < 512 && !mem[g][j].bits.present
    requires Loose(lay, used, frames, n)
    requires f in lay.lvl && i < 512
    ensures CellOK(LinkNew(mem, g, j, n, user), LinkLayout(lay, g, j, n), f, i)
  {
    assert CellOK(mem, lay, g, j) && CellOK(mem, lay, f, i) && LinkDown(mem, lay.lvl, f, i);
    assert FrameOK(lay, used, frames, f);
    if f in lay.own {
      assert SlotOK(mem, lay, lay.own[f]);
      assert SlotOK(mem, lay, Child(lay.own[f], i));
      if g in lay.own {
        ChildInjective(lay.own[f], i, lay.own[g], j);
        assert FrameOK(lay, used, frames, g);
      }
    }
  }

  /** The new table's own entries are all empty, and own nothing. */
  lemma NewTableCell(mem: Ram, lay: Layout, used: set<nat>, frames: nat, g: nat, j: nat, n: nat, user: bool, i: nat)
    requires Owned(mem, lay, used, frames)
    requires g in lay.lvl && lay.lvl[g] >= 2 && j < 512 && !mem[g][j].bits.present
    requires Loose(lay, used, frames, n) && i < 512
    ensures CellOK(LinkNew(mem, g, j, n, user), LinkLayout(lay, g, j, n), n, i)
  {
    assert LinkNew(mem, g, j, n, user)[n][i] == ZERO_ENTRY;
    assert CellOK(mem, lay, g, j) && FrameOK(lay, used, frames, g);
    if g in lay.own {
      var c := Child(lay.own[g], j);
      assert SlotOK(mem, lay, lay.own[g]) && SlotOK(mem, lay, Child(c, i));
      assert Child(c, i).path[..|Child(c, i).path| - 1] == c.path;
      ChildInjective(c, i, lay.own[g], j);
      assert !Border(lay, c, i) by {
        assert SlotOK(mem, lay, Slot(c.space, []));
        AncestorAt(mem, lay, used, frames, lay.own[g], 0);
        assert lay.own[g].path[..0] == [];
      }
    }
  }

  /** Where the new table sits. */
  lemma NewSlot(mem: Ram, lay: Layout, used: set<nat>, frames: nat, g: nat, j: nat, n: nat, user: bool)
    requires Owned(mem, lay, used, frames)
    requires g in lay.lvl && lay.lvl[g] >= 2 && j < 512 && !mem[g][j].bits.present
    requires Loose(lay, used, frames, n) && g in lay.own
    ensures SlotOK(LinkNew(mem, g, j, n, user), LinkLayout(lay, g, j, n), Child(lay.own[g], j))
  {
    var s := Child(lay.own[g], j);
    assert CellOK(mem, lay, g, j) && FrameOK(lay, used, frames, g) && SlotOK(mem, lay, lay.own[g]);
    assert s.path[..|s.path| - 1] == lay.own[g].path;
  }

  lemma OldSlot(mem: Ram, lay: Layout, used: set<nat>, frames: nat, g: nat, j: nat, n: nat, user: bool, s: Slot)
    requires Owned(mem, lay, used, frames)
    requires g in lay.lvl && lay.lvl[g] >= 2 && j < 512 && !mem[g][j].bits.present
    requires Loose(lay, used, frames, n) && !(g in lay.own && s == Child(lay.own[g], j))
    ensures SlotOK(LinkNew(mem, g, j, n, user), LinkLayout(lay, g, j, n), s)
  {
    hide Stratified;
    assert CellOK(mem, lay, g, j) && FrameOK(lay, used, frames, g) && SlotOK(mem, lay, s);
    if s in lay.at && s.path == [] && lay.at[s] == g {
      assert Child(s, 0) == Slot(s.space, [0]);
    }
  }

  lemma LinkNewSlots(mem: Ram, lay: Layout, used: set<nat>, frames: nat, g: nat, j: nat, n: nat, user: bool, s: Slot)
    requires Owned(mem, lay, used, frames)
    requires g in lay.lvl && lay.lvl[g] >= 2 && j < 512 && !mem[g][j].bits.present
    requires Loose(lay, used, frames, n)
    ensures SlotOK(LinkNew(mem, g, j, n, user), LinkLayout(lay, g, j, n), s)
  {
    if g in lay.own && s == Child(lay.own[g], j) {
      NewSlot(mem, lay, used, frames, g, j, n, user);
    } else {
      OldSlot(mem, lay, used, frames, g, j, n, user, s);
    }
  }

  lemma OwnedLinkNew(mem: Ram, lay: Layout, used: set<nat>, frames: nat, g: nat, j: nat, n: nat, user: bool)
    requires Owned(mem, lay, used, frames)
    requires g in lay.lvl && lay.lvl[g] >= 2 && j < 512 && !mem[g][j].bits.present
    requires Loose(lay, used, frames, n)
    ensures Owned(LinkNew(mem, g, j, n, user), LinkLayout(lay, g, j, n), used, frames)
  {
    var mem', lay' := LinkNew(mem, g, j, n, user), LinkLayout(lay, g, j, n);
    StratifiedLinkNew(mem, lay.lvl, g, j, n, user);
    forall f: nat, i: nat
      ensures CellOK(mem', lay', f, i)
    {
      if f in lay.lvl && i < 512 {
        LinkNewCell(mem, lay, used, frames, g, j, n, user, f, i);
      } else if f == n && i < 512 {
        NewTableCell(mem, lay, used, frames, g, j, n, user, i);
      }
    }
    forall s
      ensures SlotOK(mem', lay', s)
    {
      LinkNewSlots(mem, lay, used, frames, g, j, n, user, s);
    }
    forall f
      ensures FrameOK(lay', used, frames, f)
    {
      assert FrameOK(lay, used, frames, f) && CellOK(mem, lay, g, j);
    }
  }

  /** Setting permission bits on an entry leaves ownership alone. */
  lemma OwnedSameLink(mem: Ram, lay: Layout, used: set<nat>, frames: nat, g: nat, j: nat, e: Entry)
    requires Owned(mem, lay, used, frames) && g in lay.lvl && j < 512
    requires e == mem[g][j].(bits := mem[g][j].bits.(user := e.bits.user))
    ensures Owned(Store(mem, g, j, e), lay, used, frames)
  {
    var mem' := Store(mem, g, j, e);
    assert Links(lay.lvl[g], e) == Links(lay.lvl[g], mem[g][j]);
    StratifiedSameLink(mem, lay.lvl, g, j, e);
    forall f: nat, i: nat
      ensures CellOK(mem', lay, f, i)
    {
      assert CellOK(mem, lay, f, i);
    }
    forall s
      ensures SlotOK(mem', lay, s)
    {
      assert SlotOK(mem, lay, s);
    }
  }

  /** Forget the private page at slot c, if there is one. */
  function DropPage(lay: Layout, c: Slot): Layout
  {
    if c in lay.at then lay.(at := lay.at - {c}, own := lay.own - {lay.at[c]}) else lay
  }

  /** Layout after leaf entry j of table pt becomes e. */
  function LeafLayout(lay: Layout, pt: nat, j: nat, e: Entry): Layout
  {
    if pt !in lay.own then lay
    else
      var c := Child(lay.own[pt], j);
      var l := DropPage(lay, c);
      if Owns(1, e) then l.(at := l.at[c := e.frame], own := l.own[e.frame := c]) else l
  }

  /** Private leaves may be replaced only by frames nobody else owns. */
  ghost predicate LeafAllowed(lay: Layout, used: set<nat>, frames: nat, pt: nat, j: nat, e: Entry)
  {
    pt in lay.own && Owns(1, e) ==>
      var c := Child(lay.own[pt], j);
      Loose(lay, used, frames, e.frame) || (c in lay.at && lay.at[c] == e.frame)
  }

  lemma DropPageOK(mem: Ram, lay: Layout, used: set<nat>, frames: nat, pt: nat, j: nat)
    requires Owned(mem, lay, used, frames) && pt in lay.lvl && lay.lvl[pt] == 1 && j < 512 && pt in lay.own
    ensures var c := Child(lay.own[pt], j);
            var l := DropPage(lay, c);
            && c !in l.at && l.lvl == lay.lvl && l.priv == lay.priv
            && |c.path| == 4
            && (c in lay.at ==> lay.at[c] !in l.own && lay.at[c] !in lay.lvl)
            && (forall s {:trigger SlotOK(mem, l, s)} :: SlotOK(mem, l, s))
            && (forall f {:trigger FrameOK(l, used, frames, f)} :: FrameOK(l, used, frames, f))
            && (forall f: nat, i: nat {:trigger CellOK(mem, l, f, i)} :: (f, i) != (pt, j) ==> CellOK(mem, l, f, i))
  {
    var c := Child(lay.own[pt], j);
    var l := DropPage(lay, c);
    assert FrameOK(lay, used, frames, pt) && SlotOK(mem, lay, lay.own[pt]) && SlotOK(mem, lay, c);
    forall s
      ensures SlotOK(mem, l, s)
    {
      assert SlotOK(mem, lay, s);
      if s in lay.at && s.path != [] {
        assert Slot(s.space, s.path[..|s.path| - 1]) != c by {
          assert |s.path[..|s.path| - 1]| < 4;
        }
      }
    }
    forall f
      ensures FrameOK(l, used, frames, f)
    {
      assert FrameOK(lay, used, frames, f);
    }
    forall f: nat, i: nat | (f, i) != (pt, j)
      ensures CellOK(mem, l, f, i)
    {
      assert CellOK(mem, lay, f, i) && FrameOK(lay, used, frames, f) && LinkDown(mem, lay.lvl, f, i);
      if f in lay.own && i < 512 {
        assert Child(lay.own[f], i) == c ==> lay.own[f] == lay.own[pt] by {
          if Child(lay.own[f], i) == c {
            assert Child(lay.own[f], i).path[..|lay.own[f].path|] == lay.own[f].path;
            assert c.path[..|lay.own[pt].path|] == lay.own[pt].path;
          }
        }
      }
    }
  }

  lemma LeafCell(mem: Ram, lay: Layout, used: set<nat>, frames: nat, pt: nat, j: nat, e: Entry, f: nat, i: nat)
    requires Owned(mem, lay, used, frames) && pt in lay.lvl && lay.lvl[pt] == 1 && j < 512
    requires LeafAllowed(lay, used, frames, pt, j, e) && f in lay.lvl && i < 512
    ensures CellOK(Store(mem, pt, j, e), LeafLayout(lay, pt, j, e), f, i)
  {
    assert CellOK(mem, lay, f, i) && LinkDown(mem, lay.lvl, f, i) && FrameOK(lay, used, frames, f);
    if pt in lay.own {
      var c := Child(lay.own[pt], j);
      DropPageOK(mem, lay, used, frames, pt, j);
      assert (f, i) != (pt, j) ==> CellOK(mem, DropPage(lay, c), f, i);
      assert FrameOK(lay, used, frames, pt) && SlotOK(mem, lay, lay.own[pt]) && SlotOK(mem, lay, c);
      if f in lay.own {
        ChildInjective(lay.own[f], i, lay.own[pt], j);
        assert SlotOK(mem, lay, lay.own[f]);
      }
    }
  }

  lemma LeafSlots(mem: Ram, lay: Layout, used: set<nat>, frames: nat, pt: nat, j: nat, e: Entry, s: Slot, f: nat)
    requires Owned(mem, lay, used, frames) && pt in lay.lvl && lay.lvl[pt] == 1 && j < 512
    requires LeafAllowed(lay, used, frames, pt, j, e)
    ensures SlotOK(Store(mem, pt, j, e), LeafLayout(lay, pt, j, e), s)
    ensures FrameOK(LeafLayout(lay, pt, j, e), used, frames, f)
  {
    assert SlotOK(mem, lay, s) && FrameOK(lay, used, frames, f);
    if pt in lay.own {
      DropPageOK(mem, lay, used, frames, pt, j);
      var c := Child(lay.own[pt], j);
      var l := DropPage(lay, c);
      assert FrameOK(lay, used, frames, pt) && SlotOK(mem, lay, lay.own[pt]) && CellOK(mem, lay, pt, j);
      assert c.path[..3] == lay.own[pt].path;
      assert SlotOK(mem, lay, c) && SlotOK(mem, l, s);
      assert FrameOK(l, used, frames, f);
    }
  }

  lemma OwnedLeaf(mem: Ram, lay: Layout, used: set<nat>, frames: nat, pt: nat, j: nat, e: Entry)
    requires Owned(mem, lay, used, frames) && pt in lay.lvl && lay.lvl[pt] == 1 && j < 512
    requires LeafAllowed(lay, used, frames, pt, j, e)
    ensures Owned(Store(mem, pt, j, e), LeafLayout(lay, pt, j, e), used, frames)
  {
    var mem', lay' := Store(mem, pt, j, e), LeafLayout(lay, pt, j, e);
    StratifiedSameLink(mem, lay.lvl, pt, j, e);
    forall f: nat, i: nat
      ensures CellOK(mem', lay', f, i)
    {
      if f in lay.lvl && i < 512 {
        LeafCell(mem, lay, used, frames, pt, j, e, f, i);
      }
    }
    forall s
      ensures SlotOK(mem', lay', s)
    {
      LeafSlots(mem, lay, used, frames, pt, j, e, s, 0);
    }
    forall f
      ensures FrameOK(lay', used, frames, f)
    {
      LeafSlots(mem, lay, used, frames, pt, j, e, Slot(0, []), f);
    }
  }
}
