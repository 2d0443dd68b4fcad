/** The page-table mapper (kernel/memory/vmm.c) over real memory.

    Memory holds RAM and the frame allocator; its ghost layout says who owns
    which frame.  Every method keeps the ownership invariant and is specified by
    its effect on the flat maps (Lookup) of all address spaces. */
module Vmm {
  import opened PageTables
  import opened Ownership
  import Pmm

  /** Tables may be added, for space `a` only, out of frames that were free;
      nothing else about ownership changes. */
  ghost predicate Grown(l0: Layout, u0: set<nat>, l1: Layout, u1: set<nat>, a: nat)
  {
    && u0 <= u1 && l0.priv == l1.priv
    && (forall f :: f in l0.lvl ==> f in l1.lvl && l1.lvl[f] == l0.lvl[f])
    && (forall f :: f in l0.own ==> f in l1.own && l1.own[f] == l0.own[f])
    && (forall s :: s in l0.at ==> s in l1.at && l1.at[s] == l0.at[s])
    && (forall f :: f in l1.lvl && f !in l0.lvl <==> f in u1 && f !in u0)
    && (forall f :: f in l1.own && f !in l0.own ==> f in u1 && f !in u0)
    && (forall s :: s in l1.at && s !in l0.at ==> s.space == a && |s.path| < 4 && l1.at[s] !in u0)
  }

  /** Table ownership as in Grown, private pages unconstrained. */
  ghost predicate TablesGrown(l0: Layout, u0: set<nat>, l1: Layout, u1: set<nat>, a: nat)
  {
    && u0 <= u1 && l0.priv == l1.priv
    && (forall f :: f in l0.lvl ==> f in l1.lvl && l1.lvl[f] == l0.lvl[f])
    && (forall f :: f in l1.lvl && f !in l0.lvl <==> f in u1 && f !in u0)
    && (forall s: Slot :: |s.path| < 4 && s in l0.at ==> s in l1.at && l1.at[s] == l0.at[s])
    && (forall s: Slot :: |s.path| < 4 && s in l1.at && s !in l0.at ==> s.space == a && l1.at[s] !in u0)
  }

  /** Private pages as before, except that slot c now holds what e owns. */
  ghost predicate PageSet(l0: Layout, l1: Layout, c: Slot, e: Entry)
  {
    forall s: Slot :: |s.path| == 4 ==>
      && (s in l1.at <==> if s == c then Owns(1, e) else s in l0.at)
      && (s in l1.at ==> l1.at[s] == if s == c then e.frame else l0.at[s])
  }

  ghost predicate PagesKept(l0: Layout, l1: Layout)
  {
    forall s: Slot :: |s.path| == 4 ==> (s in l1.at <==> s in l0.at) && (s in l1.at ==> l1.at[s] == l0.at[s])
  }

  lemma GrownTables(l0: Layout, u0: set<nat>, l1: Layout, u1: set<nat>, a: nat)
    requires Grown(l0, u0, l1, u1, a)
    ensures TablesGrown(l0, u0, l1, u1, a) && PagesKept(l0, l1)
  {
  }

  lemma UnchangedGrown(mem: Ram, lay: Layout, used: set<nat>, a: nat)
    ensures Grown(lay, used, lay, used, a) && TablesGrown(lay, used, lay, used, a) && PagesKept(lay, lay)
    ensures SameLeaves(mem, mem, lay.lvl)
  {
  }

  lemma LeafLayoutPages(l0: Layout, u0: set<nat>, mid: Layout, u1: set<nat>, a: nat, pt: nat, j: nat, e: Entry)
    requires Grown(l0, u0, mid, u1, a)
    requires pt in mid.own ==> |mid.own[pt].path| == 3
    requires forall s :: s in mid.at && |s.path| == 4 ==> mid.at[s] !in mid.lvl
    ensures NewOwned(l0, mid) ==> NewOwned(l0, LeafLayout(mid, pt, j, e))
    ensures TablesGrown(l0, u0, LeafLayout(mid, pt, j, e), u1, a)
    ensures pt in mid.own ==> PageSet(l0, LeafLayout(mid, pt, j, e), Child(mid.own[pt], j), e)
    ensures pt !in mid.own ==> PagesKept(l0, LeafLayout(mid, pt, j, e))
  {
  }

  /** Every table added belongs to a process tree. */
  ghost predicate NewOwned(l0: Layout, l1: Layout)
  {
    forall f :: f in l1.lvl && f !in l0.lvl ==> f in l1.own
  }

  lemma RootSlot(mem: Ram, lay: Layout, used: set<nat>, frames: nat, root: nat)
    requires Owned(mem, lay, used, frames) && root in lay.lvl && lay.lvl[root] == 4
    ensures root in mem && (root in lay.own ==> lay.own[root].path == [])
  {
    assert FrameOK(lay, used, frames, root);
    if root in lay.own {
      assert SlotOK(mem, lay, lay.own[root]);
    }
  }

  lemma PagesNotTables(mem: Ram, lay: Layout, used: set<nat>, frames: nat)
    requires Owned(mem, lay, used, frames)
    ensures forall s :: s in lay.at && |s.path| == 4 ==> lay.at[s] !in lay.lvl
  {
    forall s | s in lay.at && |s.path| == 4
      ensures lay.at[s] !in lay.lvl
    {
      assert SlotOK(mem, lay, s);
    }
  }

  lemma GrownKeeps(l0: Layout, u0: set<nat>, l1: Layout, u1: set<nat>, a: nat, f: nat)
    requires Grown(l0, u0, l1, u1, a) && f in l0.lvl
    ensures f in l1.lvl && l1.lvl[f] == l0.lvl[f] && l1.priv == l0.priv
    ensures f in l0.own ==> f in l1.own && l1.own[f] == l0.own[f]
  {
  }

  lemma GrownLevels(l0: Layout, u0: set<nat>, l1: Layout, u1: set<nat>, a: nat)
    requires Grown(l0, u0, l1, u1, a)
    ensures forall f :: f in l0.lvl ==> f in l1.lvl && l1.lvl[f] == l0.lvl[f]
  {
  }

  lemma GrownTrans(m0: Ram, l0: Layout, u0: set<nat>, m1: Ram, l1: Layout, u1: set<nat>, m2: Ram, l2: Layout,
                   u2: set<nat>, a: nat)
    requires Grown(l0, u0, l1, u1, a) && Grown(l1, u1, l2, u2, a)
    requires SameLeaves(m0, m1, l0.lvl) && SameLeaves(m1, m2, l1.lvl)
    requires DataKept(m0, m1, u0, l0.lvl) && DataKept(m1, m2, u1, l1.lvl)
    ensures Grown(l0, u0, l2, u2, a) && SameLeaves(m0, m2, l0.lvl) && DataKept(m0, m2, u0, l0.lvl)
    ensures NewOwned(l0, l1) && NewOwned(l1, l2) ==> NewOwned(l0, l2)
  {
    forall r, va | r in l0.lvl && l0.lvl[r] == 4 && IsPage(va)
      ensures Lookup(m2, r, va) == Lookup(m0, r, va) && HugeEntry(m2, r, va) == HugeEntry(m0, r, va)
    {
      assert Lookup(m1, r, va) == Lookup(m0, r, va) && HugeEntry(m1, r, va) == HugeEntry(m0, r, va);
    }
  }

  lemma GrownLink(mem: Ram, lay: Layout, used: set<nat>, frames: nat, g: nat, j: nat, n: nat, a: nat)
    requires Owned(mem, lay, used, frames)
    requires g in lay.lvl && lay.lvl[g] >= 2 && j < 512 && !mem[g][j].bits.present
    requires n !in used && n < frames && (g in lay.own ==> lay.own[g].space == a)
    ensures n !in lay.own && n !in lay.lvl
    ensures Grown(lay, used, LinkLayout(lay, g, j, n), used + {n}, a)
  {
    assert FrameOK(lay, used, frames, n) && CellOK(mem, lay, g, j) && FrameOK(lay, used, frames, g);
    if g in lay.own {
      assert SlotOK(mem, lay, lay.own[g]);
    }
  }

  lemma OwnedMoreUsed(mem: Ram, lay: Layout, used: set<nat>, frames: nat, more: set<nat>)
    requires Owned(mem, lay, used, frames) && used <= more
    ensures Owned(mem, lay, more, frames)
  {
    forall f
      ensures FrameOK(lay, more, frames, f)
    {
      assert FrameOK(lay, used, frames, f);
    }
  }

  /** Contents of a frame outside every table do not matter. */
  lemma OwnedLooseWrite(mem: Ram, lay: Layout, used: set<nat>, frames: nat, n: nat, t: Table)
    requires Owned(mem, lay, used, frames) && n !in lay.lvl
    ensures Owned(mem[n := t], lay, used, frames)
    ensures SameLeaves(mem, mem[n := t], lay.lvl)
  {
    var mem' := mem[n := t];
    forall f: nat, i: nat
      ensures LinkDown(mem', lay.lvl, f, i) && CellOK(mem', lay, f, i)
    {
      assert LinkDown(mem, lay.lvl, f, i) && CellOK(mem, lay, f, i);
    }
    forall s
      ensures SlotOK(mem', lay, s)
    {
      assert SlotOK(mem, lay, s);
    }
    forall r, va | r in lay.lvl && lay.lvl[r] == 4 && IsPage(va)
      ensures Lookup(mem', r, va) == Lookup(mem, r, va) && HugeEntry(mem', r, va) == HugeEntry(mem, r, va)
    {
      HugeSteps(mem, lay.lvl, r, va);
      DescendLoose(mem, lay.lvl, n, t, r, va[..1]);
      DescendLoose(mem, lay.lvl, n, t, r, va[..2]);
      DescendLoose(mem, lay.lvl, n, t, r, va[..3]);
      DescendLevel(mem, lay.lvl, r, va[..3]);
    }
  }

  lemma {:induction false} DescendLoose(mem: Ram, lvl: map<nat, nat>, n: nat, t: Table, f: nat, path: seq<nat>)
    requires Stratified(mem, lvl) && n !in lvl && f in lvl && |path| < lvl[f]
    ensures Descend(mem[n := t], f, lvl[f], path) == Descend(mem, f, lvl[f], path)
    decreases |path|
  {
    if path != [] && path[0] < 512 {
      assert LinkDown(mem, lvl, f, path[0]);
      if Links(lvl[f], mem[f][path[0]]) {
        DescendLoose(mem, lvl, n, t, mem[f][path[0]].frame, path[1..]);
      }
    }
  }

  lemma WalkThree(mem: Ram, root: nat, va: seq<nat>, pdpt: nat, pd: nat, pt: nat)
    requires IsPage(va) && root in mem && pdpt in mem && pd in mem
    requires Links(4, mem[root][va[0]]) && mem[root][va[0]].frame == pdpt
    requires Links(3, mem[pdpt][va[1]]) && mem[pdpt][va[1]].frame == pd
    requires Links(2, mem[pd][va[2]]) && mem[pd][va[2]].frame == pt
    ensures LeafTable(mem, root, va) == Some(pt)
  {
    var p := va[..3];
    assert p[1..][0] == va[1] && p[1..][1..][0] == va[2];
    assert p[1..][1..][1..] == [];
    assert Descend(mem, pd, 2, p[1..][1..]) == Descend(mem, pt, 1, []);
    assert Descend(mem, pdpt, 3, p[1..]) == Descend(mem, pd, 2, p[1..][1..]);
  }

  lemma WalkLinks(mem: Ram, lvl: map<nat, nat>, root: nat, va: seq<nat>)
    requires Stratified(mem, lvl) && root in lvl && lvl[root] == 4 && IsPage(va)
    requires LeafTable(mem, root, va).Some?
    ensures Links(4, mem[root][va[0]])
    ensures var pdpt := mem[root][va[0]].frame;
            && pdpt in lvl && lvl[pdpt] == 3 && Links(3, mem[pdpt][va[1]])
            && var pd := mem[pdpt][va[1]].frame;
            && pd in lvl && lvl[pd] == 2 && Links(2, mem[pd][va[2]])
            && LeafTable(mem, root, va) == Some(mem[pd][va[2]].frame)
  {
    var p := va[..3];
    assert LinkDown(mem, lvl, root, va[0]);
    var pdpt := mem[root][va[0]].frame;
    assert Descend(mem, pdpt, 3, p[1..]).Some? && p[1..][0] == va[1];
    assert LinkDown(mem, lvl, pdpt, va[1]);
    var pd := mem[pdpt][va[1]].frame;
    assert Descend(mem, pd, 2, p[1..][1..]).Some? && p[1..][1..][0] == va[2];
    WalkThree(mem, root, va, pdpt, pd, mem[pd][va[2]].frame);
  }

  /** No table above the leaf level changed. */
  ghost predicate UppersSame(mem: Ram, mem': Ram, lvl: map<nat, nat>)
  {
    forall r :: r in lvl && lvl[r] >= 2 ==> r in mem && r in mem' && mem'[r] == mem[r]
  }

  /** What happens to links: one that was there keeps everything but may gain the user
      bit if asked for, and a new one is present, writable, for users exactly if asked
      for, and nothing else. */
  ghost predicate LinksKept(mem: Ram, lvl: map<nat, nat>, mem': Ram, lvl': map<nat, nat>, user: bool)
  {
    forall f, i {:trigger mem'[f][i]} :: f in lvl' && lvl'[f] >= 2 && f in mem' && 0 <= i < 512 ==>
      var e := mem'[f][i];
      if f in lvl && f in mem && mem[f][i].bits.present then
        e == mem[f][i] || (user && e == Entry(mem[f][i].frame, mem[f][i].bits.(user := true)))
      else
        e.bits.present ==> e.bits == Flags(true, true, user, false, false, false, 0)
  }

  lemma LinksRefl(mem: Ram, lvl: map<nat, nat>, user: bool)
    ensures LinksKept(mem, lvl, mem, lvl, user)
  {
  }

  lemma LinksTrans(m0: Ram, l0: map<nat, nat>, m1: Ram, l1: map<nat, nat>, m2: Ram, l2: map<nat, nat>, user: bool)
    requires LinksKept(m0, l0, m1, l1, user) && LinksKept(m1, l1, m2, l2, user)
    requires forall f :: f in l0 ==> f in l1 && l1[f] == l0[f]
    requires (forall f :: f in l1 ==> f in l2 && l2[f] == l1[f]) && forall f :: f in l1 ==> f in m1
    ensures LinksKept(m0, l0, m2, l2, user)
  {
    forall f, i {:trigger m2[f][i]} | f in l2 && l2[f] >= 2 && f in m2 && 0 <= i < 512
      ensures var e := m2[f][i];
              if f in l0 && f in m0 && m0[f][i].bits.present then
                e == m0[f][i] || (user && e == Entry(m0[f][i].frame, m0[f][i].bits.(user := true)))
              else
                e.bits.present ==> e.bits == Flags(true, true, user, false, false, false, 0)
    {
      if f in l1 {
        var e := m1[f][i];
      }
    }
  }

  /** Every link on the way to a page is writable. */
  ghost predicate WritePath(mem: Ram, root: nat, va: seq<nat>)
    requires IsPage(va)
  {
    && root in mem && mem[root][va[0]].bits.write
    && var pdpt := mem[root][va[0]].frame;
    && pdpt in mem && mem[pdpt][va[1]].bits.write
    && var pd := mem[pdpt][va[1]].frame;
    && pd in mem && mem[pd][va[2]].bits.write
  }

  /** In a valid memory that is so for every page whose tables are there. */
  lemma PathWritable(mem: Ram, lvl: map<nat, nat>, root: nat, va: seq<nat>)
    requires Stratified(mem, lvl) && root in lvl && lvl[root] == 4 && IsPage(va) && LeafTable(mem, root, va).Some?
    ensures WritePath(mem, root, va)
  {
    WalkLinks(mem, lvl, root, va);
    assert LinkDown(mem, lvl, root, va[0]);
    var pdpt := mem[root][va[0]].frame;
    assert LinkDown(mem, lvl, pdpt, va[1]);
    assert LinkDown(mem, lvl, mem[pdpt][va[1]].frame, va[2]);
  }

  /** The processor may store to the page: its entry and all links allow it. */
  ghost predicate CpuWrites(mem: Ram, root: nat, va: seq<nat>)
    requires IsPage(va)
  {
    Lookup(mem, root, va).Some? && Lookup(mem, root, va).value.bits.write && WritePath(mem, root, va)
  }

  lemma UppersUnchanged(mem: Ram, lvl: map<nat, nat>)
    requires Stratified(mem, lvl)
    ensures UppersSame(mem, mem, lvl)
  {
  }

  lemma RootsLeaf(mem: Ram, lvl: map<nat, nat>, root: nat, va: seq<nat>, pt: nat, e: Entry)
    requires Stratified(mem, lvl) && root in lvl && lvl[root] == 4 && IsPage(va) && LeafTable(mem, root, va) == Some(pt)
    ensures pt in mem && UppersSame(mem, Store(mem, pt, va[3], e), lvl)
  {
    DescendLevel(mem, lvl, root, va[..3]);
  }

  /** Walking and mapping never rewrites a PML4 entry that is there, except to set
      its user bit when the mapping asks for it. */
  ghost predicate TopsKept(mem: Ram, mem': Ram, lvl: map<nat, nat>, root: nat, i: nat, user: bool)
  {
    && (forall r :: r in lvl && lvl[r] == 4 ==> r in mem && r in mem')
    && (forall r, j {:trigger mem'[r][j]} :: r in lvl && lvl[r] == 4 && 0 <= j < 512 ==>
          (r != root || j != i || (mem[r][j].bits.present && !user) ==> mem'[r][j] == mem[r][j]))
  }

  lemma TopsSame(mem: Ram, lvl: map<nat, nat>, root: nat, i: nat, user: bool)
    requires Stratified(mem, lvl)
    ensures TopsKept(mem, mem, lvl, root, i, user)
  {
  }

  lemma TopsFirst(mem: Ram, mem': Ram, lvl: map<nat, nat>, root: nat, i: nat, user: bool)
    requires Stratified(mem, lvl) && root in mem && root in mem' && i < 512
    requires forall g :: g in lvl && g != root ==> g in mem' && g in mem && mem'[g] == mem[g]
    requires forall j ::
               0 <= j < 512 && (j != i || (mem[root][i].bits.present && !user)) ==> mem'[root][j] == mem[root][j]
    ensures TopsKept(mem, mem', lvl, root, i, user)
  {
  }

  lemma TopsAfter(mem0: Ram, mem1: Ram, mem2: Ram, lvl: map<nat, nat>, root: nat, i: nat, user: bool)
    requires TopsKept(mem0, mem1, lvl, root, i, user)
    requires forall g :: g in lvl && lvl[g] == 4 ==> g in mem2 && g in mem1 && mem2[g] == mem1[g]
    ensures TopsKept(mem0, mem2, lvl, root, i, user)
  {
    forall r, j | r in lvl && lvl[r] == 4 && 0 <= j < 512
      ensures r in mem0 && r in mem2
      ensures (r != root || j != i || (mem0[r][j].bits.present && !user) ==> mem2[r][j] == mem0[r][j])
    {
      assert mem2[r][j] == mem1[r][j];
    }
  }

  lemma TopsLeaf(mem0: Ram, mem1: Ram, mem2: Ram, lvl0: map<nat, nat>, lvl1: map<nat, nat>, root: nat, i: nat,
                 user: bool,
                 pt: nat, j: nat, e: Entry)
    requires TopsKept(mem0, mem1, lvl0, root, i, user) && Stratified(mem1, lvl1)
    requires forall f :: f in lvl0 ==> f in lvl1 && lvl1[f] == lvl0[f]
    requires pt in lvl1 && lvl1[pt] == 1 && j < 512 && mem2 == Store(mem1, pt, j, e)
    ensures TopsKept(mem0, mem2, lvl0, root, i, user)
  {
    TopsAfter(mem0, mem1, mem2, lvl0, root, i, user);
  }

  /** Following an entry takes no frame, making a table takes one, zeroed. */
  ghost predicate TookFor(e: Entry, u0: set<nat>, u1: set<nat>, frames: nat, mem: Ram, next: nat)
  {
    if e.bits.present then u1 == u0 && next == e.frame
    else u1 == u0 + {next} && next !in u0 && Pmm.GENERAL_FIRST <= next < frames && next in mem && mem[next] == ZeroTable()
  }

  /** How many tables a walk from a page directory must make: None if a huge page
      stops it. */
  ghost function NeedPd(mem: Ram, pd: nat, i2: nat): Option<nat>
    requires i2 < 512
  {
    if pd !in mem || !mem[pd][i2].bits.present then Some(1) else if mem[pd][i2].bits.ps then None else Some(0)
  }

  ghost function NeedPdpt(mem: Ram, pdpt: nat, i1: nat, i2: nat): Option<nat>
    requires i1 < 512 && i2 < 512
  {
    if pdpt !in mem || !mem[pdpt][i1].bits.present then Some(2)
    else if mem[pdpt][i1].bits.ps then None
    else NeedPd(mem, mem[pdpt][i1].frame, i2)
  }

  /** The tables missing on the way to a page. */
  ghost function Need(mem: Ram, root: nat, va: seq<nat>): Option<nat>
    requires IsPage(va)
  {
    if root !in mem || !mem[root][va[0]].bits.present then Some(3)
    else NeedPdpt(mem, mem[root][va[0]].frame, va[1], va[2])
  }

  /** The walk can be completed: no huge page covers the address, and there are as
      many free frames as tables are missing. */
  ghost predicate Affordable(mem: Ram, used: set<nat>, frames: nat, root: nat, va: seq<nat>)
    requires IsPage(va)
  {
    Within(Need(mem, root, va), Pmm.FreeCount(used, frames))
  }

  predicate Within(need: Option<nat>, free: nat)
  {
    need.Some? && need.value <= free
  }

  /** One level of the walk: when it fails, what it takes, and that no other table
      changes. */
  ghost predicate Stepped(mem0: Ram, lvl: map<nat, nat>, u0: set<nat>, mem1: Ram, u1: set<nat>, frames: nat, f: nat,
                          j: nat, next: nat, ok: bool, top: bool)
  {
    && f in mem0 && j < 512
    && (!ok <==> if mem0[f][j].bits.present then !top && mem0[f][j].bits.ps
        else Pmm.NoneFree(u0, Pmm.GENERAL_FIRST, frames))
    && (ok ==> next in mem1 && TookFor(mem0[f][j], u0, u1, frames, mem1, next))
    && (forall g :: g in lvl && g != f ==> g in mem1 && g in mem0 && mem1[g] == mem0[g])
  }

  /** Two levels, with the state between them. */
  ghost predicate TwoLevels(mem0: Ram, lvl: map<nat, nat>, u0: set<nat>, mem2: Ram, u2: set<nat>, frames: nat,
                            pdpt: nat, i1: nat, i2: nat, pd: nat, pt: nat, ok: bool)
  {
    exists mem1: Ram, u1, lvl1, ok1 :: Via(mem0, lvl, u0, mem1, u1, mem2, lvl1, u2, frames, pdpt, i1, i2, pd, pt, ok1,
                                           ok)
  }

  ghost predicate Via(mem0: Ram, lvl: map<nat, nat>, u0: set<nat>, mem1: Ram, u1: set<nat>, mem2: Ram,
                      lvl1: map<nat, nat>, u2: set<nat>, frames: nat,
                      pdpt: nat, i1: nat, i2: nat, pd: nat, pt: nat, ok1: bool, ok: bool)
  {
    && Stepped(mem0, lvl, u0, mem1, u1, frames, pdpt, i1, pd, ok1, false)
    && (ok ==> ok1) && (ok1 ==> Stepped(mem1, lvl1, u1, mem2, u2, frames, pd, i2, pt, ok, false))
  }

  lemma OneStep(mem0: Ram, lvl: map<nat, nat>, u0: set<nat>, mem1: Ram, u1: set<nat>, frames: nat, pdpt: nat, i1: nat,
                i2: nat, pd: nat)
    requires Stepped(mem0, lvl, u0, mem1, u1, frames, pdpt, i1, pd, false, false)
    ensures TwoLevels(mem0, lvl, u0, mem1, u1, frames, pdpt, i1, i2, pd, 0, false)
  {
    hide Stepped;
    assert Via(mem0, lvl, u0, mem1, u1, mem1, lvl, u1, frames, pdpt, i1, i2, pd, 0, false, false);
  }

  lemma TwoSteps(mem0: Ram, lvl: map<nat, nat>, u0: set<nat>, mem1: Ram, lvl1: map<nat, nat>, u1: set<nat>, mem2: Ram,
                 u2: set<nat>, frames: nat,
                 pdpt: nat, i1: nat, i2: nat, pd: nat, pt: nat, ok: bool)
    requires Stepped(mem0, lvl, u0, mem1, u1, frames, pdpt, i1, pd, true, false)
    requires Stepped(mem1, lvl1, u1, mem2, u2, frames, pd, i2, pt, ok, false)
    ensures TwoLevels(mem0, lvl, u0, mem2, u2, frames, pdpt, i1, i2, pd, pt, ok)
  {
    hide Stepped;
    assert Via(mem0, lvl, u0, mem1, u1, mem2, lvl1, u2, frames, pdpt, i1, i2, pd, pt, true, ok);
  }

  /** The top level: what is needed afterwards and what is left. */
  lemma TopNeed(mem0: Ram, lvl: map<nat, nat>, u0: set<nat>, mem1: Ram, u1: set<nat>, frames: nat, root: nat,
                va: seq<nat>, pdpt: nat)
    requires Stratified(mem0, lvl) && IsPage(va) && root in lvl && lvl[root] == 4
    requires Stepped(mem0, lvl, u0, mem1, u1, frames, root, va[0], pdpt, true, true)
    ensures Within(NeedPdpt(mem1, pdpt, va[1], va[2]), Pmm.FreeCount(u1, frames)) <==>
            Affordable(mem0, u0, frames, root, va)
  {
    if mem0[root][va[0]].bits.present {
      assert LinkDown(mem0, lvl, root, va[0]) && LinkDown(mem0, lvl, pdpt, va[1]);
    } else {
      Pmm.TakeCounted(u0, frames, pdpt);
    }
  }

  lemma NoTop(mem: Ram, lvl: map<nat, nat>, used: set<nat>, mem1: Ram, u1: set<nat>, frames: nat, root: nat,
              va: seq<nat>, pdpt: nat)
    requires IsPage(va) && Stepped(mem, lvl, used, mem1, u1, frames, root, va[0], pdpt, false, true)
    ensures !Affordable(mem, used, frames, root, va)
  {
    Pmm.NoneCounted(used, frames);
  }

  lemma LowerNeed(mem0: Ram, lvl: map<nat, nat>, u0: set<nat>, mem1: Ram, u1: set<nat>, frames: nat, pdpt: nat, i1: nat,
                  i2: nat, pd: nat)
    requires Stratified(mem0, lvl) && i2 < 512 && pdpt in lvl && lvl[pdpt] == 3
    requires Stepped(mem0, lvl, u0, mem1, u1, frames, pdpt, i1, pd, true, false)
    ensures pd in mem1
    ensures (if mem1[pd][i2].bits.present then !mem1[pd][i2].bits.ps
        else !Pmm.NoneFree(u1, Pmm.GENERAL_FIRST, frames)) <==>
            Within(NeedPdpt(mem0, pdpt, i1, i2), Pmm.FreeCount(u0, frames))
  {
    Pmm.NoneCounted(u1, frames);
    if mem0[pdpt][i1].bits.present {
      assert LinkDown(mem0, lvl, pdpt, i1);
    } else {
      Pmm.TakeCounted(u0, frames, pd);
    }
  }

  lemma LowerSpent(mem0: Ram, lvl: map<nat, nat>, u0: set<nat>, mem1: Ram, lvl1: map<nat, nat>, u1: set<nat>, mem2: Ram,
                   u2: set<nat>, frames: nat,
                   pdpt: nat, i1: nat, i2: nat, pd: nat, pt: nat)
    requires Stratified(mem0, lvl) && pdpt in lvl && lvl[pdpt] == 3
    requires Stepped(mem0, lvl, u0, mem1, u1, frames, pdpt, i1, pd, true, false)
    requires Stepped(mem1, lvl1, u1, mem2, u2, frames, pd, i2, pt, true, false)
    ensures Spent(NeedPdpt(mem0, pdpt, i1, i2), u0, u2, frames)
  {
    if mem0[pdpt][i1].bits.present {
      assert LinkDown(mem0, lvl, pdpt, i1);
    } else {
      Pmm.TakeCounted(u0, frames, pd);
    }
    if !mem1[pd][i2].bits.present {
      Pmm.TakeCounted(u1, frames, pt);
    }
  }

  lemma NoLower(mem: Ram, lvl: map<nat, nat>, used: set<nat>, mem1: Ram, u1: set<nat>, frames: nat, pdpt: nat, i1: nat,
                i2: nat, pd: nat)
    requires i2 < 512 && Stepped(mem, lvl, used, mem1, u1, frames, pdpt, i1, pd, false, false)
    ensures !Within(NeedPdpt(mem, pdpt, i1, i2), Pmm.FreeCount(used, frames))
  {
    Pmm.NoneCounted(used, frames);
  }

  lemma NoPd(mem: Ram, lvl: map<nat, nat>, used: set<nat>, frames: nat, pdpt: nat, i1: nat, i2: nat, pd: nat, pt: nat)
    requires pdpt in mem && i1 < 512 && Links(3, mem[pdpt][i1]) && mem[pdpt][i1].frame == pd
    requires Stepped(mem, lvl, used, mem, used, frames, pd, i2, pt, false, false)
    ensures !Within(NeedPdpt(mem, pdpt, i1, i2), Pmm.FreeCount(used, frames))
  {
    Pmm.NoneCounted(used, frames);
  }

  lemma NoWalk(mem: Ram, used: set<nat>, frames: nat, root: nat, va: seq<nat>, pdpt: nat)
    requires IsPage(va) && root in mem && Links(4, mem[root][va[0]]) && mem[root][va[0]].frame == pdpt
    requires !Within(NeedPdpt(mem, pdpt, va[1], va[2]), Pmm.FreeCount(used, frames))
    ensures !Affordable(mem, used, frames, root, va)
  {
  }

  lemma LowerEnds(mem0: Ram, lvl: map<nat, nat>, u0: set<nat>, mem2: Ram, u2: set<nat>, frames: nat,
                  pdpt: nat, i1: nat, i2: nat, pd: nat, pt: nat, ok: bool)
    requires Stratified(mem0, lvl) && i1 < 512 && i2 < 512 && pdpt in lvl && lvl[pdpt] == 3
    requires TwoLevels(mem0, lvl, u0, mem2, u2, frames, pdpt, i1, i2, pd, pt, ok)
    ensures ok <==> Within(NeedPdpt(mem0, pdpt, i1, i2), Pmm.FreeCount(u0, frames))
    ensures ok ==> Spent(NeedPdpt(mem0, pdpt, i1, i2), u0, u2, frames)
  {
    hide Stratified, NeedPdpt, TookFor, Pmm.NoneFree, Within, Spent;
    var mem1: Ram, u1, lvl1, ok1 :| Via(mem0, lvl, u0, mem1, u1, mem2, lvl1, u2, frames, pdpt, i1, i2, pd, pt, ok1, ok);
    if !ok1 {
      NoLower(mem0, lvl, u0, mem1, u1, frames, pdpt, i1, i2, pd);
    } else {
      LowerNeed(mem0, lvl, u0, mem1, u1, frames, pdpt, i1, i2, pd);
      if ok {
        LowerSpent(mem0, lvl, u0, mem1, lvl1, u1, mem2, u2, frames, pdpt, i1, i2, pd, pt);
      }
    }
  }

  lemma Rooted(mem: Ram, lay: Layout, used: set<nat>, frames: nat, f: nat)
    requires Owned(mem, lay, used, frames) && f in lay.lvl
    ensures f in mem && Stratified(mem, lay.lvl)
  {
  }

  /** Below a PDPT entry that belongs to the process, everything does. */
  lemma DeepInside(l0: Layout, l1: Layout, pdpt: nat, i1: nat, pd: nat, i2: nat)
    ensures pdpt in l0.own && |l0.own[pdpt].path| == 1 && pd in l1.own && l1.own[pd] == Child(l0.own[pdpt], i1) ==>
              !Border(l1, l1.own[pd], i2)
  {
  }

  lemma PageIndices(va: seq<nat>)
    requires IsPage(va)
    ensures |va| == 4 && forall k :: 0 <= k < 4 ==> va[k] < 512
  {
  }

  lemma PathInside(l0: Layout, l1: Layout, a: nat, va: seq<nat>)
    requires IsPage(va) && l1.priv == l0.priv
    ensures UserPage(l0, a, va) ==> !Border(l0, Slot(a, []), va[0]) && !Border(l1, Slot(a, [va[0]]), va[1])
  {
  }

  lemma OwnedLevels(mem: Ram, lay: Layout, used: set<nat>, frames: nat)
    requires Owned(mem, lay, used, frames)
    ensures Stratified(mem, lay.lvl)
  {
  }

  /** Exactly the tables needed were taken from the free frames. */
  ghost predicate Spent(need: Option<nat>, u0: set<nat>, u1: set<nat>, frames: nat)
  {
    need.Some? && Pmm.FreeCount(u1, frames) + need.value == Pmm.FreeCount(u0, frames)
  }

  lemma TopSpent(mem0: Ram, lvl: map<nat, nat>, u0: set<nat>, mem1: Ram, u1: set<nat>, u2: set<nat>, frames: nat,
                 root: nat, va: seq<nat>, pdpt: nat)
    requires Stratified(mem0, lvl) && IsPage(va) && root in lvl && lvl[root] == 4
    requires Stepped(mem0, lvl, u0, mem1, u1, frames, root, va[0], pdpt, true, true)
    requires Spent(NeedPdpt(mem1, pdpt, va[1], va[2]), u1, u2, frames)
    ensures Spent(Need(mem0, root, va), u0, u2, frames)
  {
    if mem0[root][va[0]].bits.present {
      assert LinkDown(mem0, lvl, root, va[0]) && LinkDown(mem0, lvl, pdpt, va[1]);
    } else {
      Pmm.TakeCounted(u0, frames, pdpt);
    }
  }

  lemma WalkEnds(mem: Ram, root: nat, va: seq<nat>, pdpt: nat, pd: nat, pt: nat, user: bool)
    requires IsPage(va) && root in mem && pdpt in mem && Links(4, mem[root][va[0]]) && mem[root][va[0]].frame == pdpt
    requires Links(3, mem[pdpt][va[1]]) && mem[pdpt][va[1]].frame == pd && pd in mem && Links(2, mem[pd][va[2]])
    requires mem[pd][va[2]].frame == pt
    requires user ==> mem[root][va[0]].bits.user && mem[pdpt][va[1]].bits.user && mem[pd][va[2]].bits.user
    ensures LeafTable(mem, root, va) == Some(pt) && (user ==> UserPath(mem, root, va))
  {
    WalkThree(mem, root, va, pdpt, pd, pt);
  }

  lemma NeedHuge(mem: Ram, lvl: map<nat, nat>, root: nat, va: seq<nat>)
    requires Stratified(mem, lvl) && root in lvl && lvl[root] == 4 && IsPage(va)
    ensures Need(mem, root, va).None? <==> HugeEntry(mem, root, va).Some?
    ensures LeafTable(mem, root, va).Some? ==> Need(mem, root, va) == Some(0)
  {
    DescendSteps(mem, root, va);
    assert LinkDown(mem, lvl, root, va[0]);
    if mem[root][va[0]].bits.present {
      assert LinkDown(mem, lvl, mem[root][va[0]].frame, va[1]);
    }
  }

  lemma DescendSteps(mem: Ram, root: nat, va: seq<nat>)
    requires IsPage(va) && root in mem
    ensures var e := mem[root][va[0]];
            Descend(mem, root, 4, va[..1]) == if Links(4, e) then Some(e.frame) else None
    ensures var r := Descend(mem, root, 4, va[..1]);
            Descend(mem, root, 4, va[..2]) ==
              if r.Some? && r.value in mem && Links(3, mem[r.value][va[1]])
              then Some(mem[r.value][va[1]].frame) else None
    ensures var r := Descend(mem, root, 4, va[..2]);
            Descend(mem, root, 4, va[..3]) ==
              if r.Some? && r.value in mem && Links(2, mem[r.value][va[2]])
              then Some(mem[r.value][va[2]].frame) else None
  {
    assert va[..1][1..] == [];
    assert va[..2] == va[..1] + [va[1]] && va[..3] == va[..2] + [va[2]];
    DescendSnoc(mem, root, 4, va[..1], va[1]);
    DescendSnoc(mem, root, 4, va[..2], va[2]);
  }

  lemma {:induction false} DescendSnoc(mem: Ram, f: nat, level: nat, path: seq<nat>, i: nat)
    requires |path| < level && i < 512
    ensures var r := Descend(mem, f, level, path);
            Descend(mem, f, level, path + [i]) ==
              if r.Some? && r.value in mem && Links(level - |path|, mem[r.value][i])
              then Some(mem[r.value][i].frame) else None
    decreases |path|
  {
    if path == [] {
      assert [i][1..] == [] && path + [i] == [i];
    } else if f in mem && path[0] < 512 && Links(level, mem[f][path[0]]) {
      assert (path + [i])[1..] == path[1..] + [i];
      DescendSnoc(mem, mem[f][path[0]].frame, level - 1, path[1..], i);
    }
  }

  lemma UserPathKept(mem: Ram, lvl: map<nat, nat>, root: nat, va: seq<nat>, pt: nat, j: nat, e: Entry)
    requires Stratified(mem, lvl) && root in lvl && lvl[root] == 4 && IsPage(va)
    requires LeafTable(mem, root, va).Some? && UserPath(mem, root, va)
    requires pt in lvl && lvl[pt] == 1 && j < 512
    ensures UserPath(Store(mem, pt, j, e), root, va)
  {
    WalkLinks(mem, lvl, root, va);
  }

  /** The entry vmm_map_in stores. */
  function MapEntry(phys: nat, flags: Flags): Entry
  {
    Entry(phys / 4096, flags.(present := true))
  }

  /** The page has this frame and these permissions. */
  ghost predicate Carries(e: Option<Entry>, frame: nat, flags: Flags, shared: bool)
  {
    && e.Some? && e.value.frame == frame
    && e.value.bits.present && e.value.bits.write == flags.write && e.value.bits.user == flags.user
    && e.value.bits.other == flags.other && e.value.bits.ps == flags.ps
    && e.value.bits.privateLow == flags.privateLow && e.value.bits.shared == shared
  }

  lemma MappedAs(mem: Ram, mem': Ram, lvl: map<nat, nat>, lay: Layout, used: set<nat>, frames: nat, root: nat,
                 va: seq<nat>, phys: nat, flags: Flags)
    requires Owned(mem', lay, used, frames) && root in lay.lvl && lay.lvl[root] == 4 && IsPage(va)
    requires MapsPage(mem, mem', lvl, root, va, MapEntry(phys, flags))
    ensures Carries(Lookup(mem', root, va), phys / 4096, flags, flags.shared)
    ensures CpuWrites(mem', root, va) <==> flags.write
  {
    PathWritable(mem', lay.lvl, root, va);
  }

  lemma ProtectedAs(mem: Ram, mem': Ram, lay: Layout, used: set<nat>, frames: nat, root: nat, va: seq<nat>, e: Entry,
                    flags: Flags)
    requires Owned(mem', lay, used, frames) && root in lay.lvl && lay.lvl[root] == 4 && IsPage(va)
    requires MapsPage(mem, mem', lay.lvl, root, va, ProtectEntry(e, flags))
    ensures Carries(Lookup(mem', root, va), e.frame, flags, flags.shared || e.bits.shared)
    ensures CpuWrites(mem', root, va) <==> flags.write
  {
    PathWritable(mem', lay.lvl, root, va);
  }

  lemma LinksLeaf(m0: Ram, l0: map<nat, nat>, m1: Ram, lay: Layout, m2: Ram, pt: nat, j: nat, e: Entry, user: bool)
    requires LinksKept(m0, l0, m1, lay.lvl, user) && pt in lay.lvl && lay.lvl[pt] == 1 && pt in m1 && j < 512
    requires m2 == Store(m1, pt, j, e)
    ensures LinksKept(m0, l0, m2, LeafLayout(lay, pt, j, e).lvl, user)
  {
    forall f, i {:trigger m2[f][i]} | f in lay.lvl && lay.lvl[f] >= 2 && f in m2 && 0 <= i < 512
      ensures m2[f][i] == m1[f][i]
    {
    }
  }

  lemma LinksGrown(m0: Ram, l0: Layout, u0: set<nat>, m1: Ram, l1: Layout, u1: set<nat>, m2: Ram, l2: Layout,
                   u2: set<nat>, a: nat, user: bool)
    requires Grown(l0, u0, l1, u1, a) && Grown(l1, u1, l2, u2, a) && Stratified(m1, l1.lvl)
    requires LinksKept(m0, l0.lvl, m1, l1.lvl, user) && LinksKept(m1, l1.lvl, m2, l2.lvl, user)
    ensures LinksKept(m0, l0.lvl, m2, l2.lvl, user)
  {
    hide LinksKept;
    LinksTrans(m0, l0.lvl, m1, l1.lvl, m2, l2.lvl, user);
  }

  /** The entry vmm_protect_in stores: same frame, borrowed stays borrowed. */
  function ProtectEntry(e: Entry, flags: Flags): Entry
  {
    Entry(e.frame, flags.(present := true, shared := flags.shared || e.bits.shared))
  }

  /** Frames in use that are not tables keep their contents. */
  ghost predicate DataKept(mem: Ram, mem': Ram, used: set<nat>, lvl: map<nat, nat>)
  {
    forall g :: g in used && g !in lvl && g in mem ==> g in mem' && mem'[g] == mem[g]
  }

  /** Ring 3 may pass every table on the way to this page. */
  ghost predicate UserPath(mem: Ram, root: nat, va: seq<nat>)
    requires IsPage(va)
  {
    && root in mem && mem[root][va[0]].bits.user
    && var pdpt := mem[root][va[0]].frame;
    && pdpt in mem && mem[pdpt][va[1]].bits.user
    && var pd := mem[pdpt][va[1]].frame;
    && pd in mem && mem[pd][va[2]].bits.user
  }

  /** The write reached exactly the pages naming the same leaf entry. */
  ghost predicate MapsPage(mem: Ram, mem': Ram, lvl: map<nat, nat>, root: nat, va: seq<nat>, e: Entry)
    requires IsPage(va)
  {
    && Lookup(mem', root, va) == (if e.bits.present then Some(e) else None)
    && SameHuge(mem, mem', lvl)
    && forall r, q {:trigger Lookup(mem', r, q)} :: r in lvl && lvl[r] == 4 && IsPage(q) ==>
         Lookup(mem', r, q) == if SameCell(mem', r, q, root, va)
                               then (if e.bits.present then Some(e) else None)
                               else Lookup(mem, r, q)
  }

  /** The flat maps of all spaces change at one page of one space. */
  ghost predicate MapsOnePage(mem: Ram, mem': Ram, lvl: map<nat, nat>, root: nat, va: seq<nat>, e: Entry)
    requires IsPage(va)
  {
    && SameHuge(mem, mem', lvl)
    && forall r, q {:trigger Lookup(mem', r, q)} :: r in lvl && lvl[r] == 4 && IsPage(q) ==>
         Lookup(mem', r, q) == if r == root && q == va
                               then (if e.bits.present then Some(e) else None)
                               else Lookup(mem, r, q)
  }

  /** In a process tree a leaf write is seen at one page only. */
  lemma OnlyPage(mem: Ram, lay: Layout, used: set<nat>, frames: nat, root: nat, va: seq<nat>, pt: nat, e: Entry)
    requires Owned(mem, lay, used, frames) && root in lay.lvl && lay.lvl[root] == 4 && IsPage(va)
    requires LeafTable(mem, root, va) == Some(pt) && pt in mem
    requires root in lay.own && UserPage(lay, lay.own[root].space, va)
    ensures MapsOnePage(mem, Store(mem, pt, va[3], e), lay.lvl, root, va, e)
  {
    LeafWrite(mem, lay.lvl, root, va, e);
    LeafWriteKeepsHuge(mem, lay.lvl, pt, va[3], e);
    assert FrameOK(lay, used, frames, root) && SlotOK(mem, lay, lay.own[root]);
    var mem' := Store(mem, pt, va[3], e);
    forall r, q {:trigger Lookup(mem', r, q)} | r in lay.lvl && lay.lvl[r] == 4 && IsPage(q)
      ensures SameCell(mem', r, q, root, va) <==> r == root && q == va
    {
      NoAlias(mem, lay, used, frames, root, lay.own[root].space, va, r, q);
      assert LeafTable(mem', r, q) == LeafTable(mem, r, q);
      assert LeafTable(mem', root, va) == LeafTable(mem, root, va);
    }
  }

  /** Growing tables first does not change what a mapping does. */
  lemma MapCompose(m0: Ram, m1: Ram, m2: Ram, lvl0: map<nat, nat>, lvl1: map<nat, nat>, root: nat, va: seq<nat>,
                   e: Entry)
    requires IsPage(va) && SameLeaves(m0, m1, lvl0) && (forall f :: f in lvl0 ==> f in lvl1 && lvl1[f] == lvl0[f])
    requires MapsPage(m1, m2, lvl1, root, va, e)
    ensures MapsPage(m0, m2, lvl0, root, va, e)
    ensures MapsOnePage(m1, m2, lvl1, root, va, e) ==> MapsOnePage(m0, m2, lvl0, root, va, e)
  {
    forall r, q | r in lvl0 && lvl0[r] == 4 && IsPage(q)
      ensures Lookup(m1, r, q) == Lookup(m0, r, q) && HugeEntry(m2, r, q) == HugeEntry(m0, r, q)
    {
      assert HugeEntry(m1, r, q) == HugeEntry(m0, r, q);
    }
  }

  lemma Unchanged(mem: Ram, lay: Layout, used: set<nat>, a: nat)
    requires Stratified(mem, lay.lvl)
    ensures Grown(lay, used, lay, used, a) && SameLeaves(mem, mem, lay.lvl) && DataKept(mem, mem, used, lay.lvl)
    ensures NewOwned(lay, lay)
    ensures forall g :: g in lay.lvl ==> g in mem
  {
  }

  /** Everything one new table changes. */
  lemma TableMade(mem: Ram, lay: Layout, u0: set<nat>, frames: nat, f: nat, j: nat, n: nat, user: bool, a: nat)
    requires Owned(mem, lay, u0, frames) && f in lay.lvl && f in mem && lay.lvl[f] >= 2 && j < 512
    requires !mem[f][j].bits.present
    requires (f in lay.own ==> lay.own[f].space == a) && n !in u0 && 0 < n < frames && n !in lay.own && n !in lay.lvl
    ensures var mem1, mem', lay', u1 := mem[n := ZeroTable()], LinkNew(mem, f, j, n, user), LinkLayout(lay, f, j, n), u0 + {n};
            && f in mem1 && mem' == Store(mem1, f, j, LinkEntry(n, user))
            && Owned(mem', lay', u1, frames) && Grown(lay, u0, lay', u1, a) && SameLeaves(mem, mem', lay.lvl)
            && (forall g :: g in lay.lvl && g != f ==> g in mem' && g in mem && mem'[g] == mem[g])
            && f in mem' && f in lay'.lvl && lay'.lvl[f] == lay.lvl[f] && DataKept(mem, mem', u0, lay.lvl)
            && Links(lay'.lvl[f], mem'[f][j]) && mem'[f][j].frame == n && n in mem' && n in lay'.lvl
            && lay'.lvl[n] == lay'.lvl[f] - 1
            && (user ==> mem'[f][j].bits.user) && (n in lay'.own ==> lay'.own[n].space == a)
            && (f in lay.own && !Border(lay, lay.own[f], j) ==>
                  NewOwned(lay, lay') && n in lay'.own && lay'.own[n] == Child(lay.own[f], j))
            && LinksKept(mem, lay.lvl, mem', lay'.lvl, user)
  {
    LinkMade(mem, lay, f, j, n, user);
    OwnedMoreUsed(mem, lay, u0, frames, u0 + {n});
    OwnedLooseWrite(mem, lay, u0 + {n}, frames, n, ZeroTable());
    GrownLink(mem, lay, u0, frames, f, j, n, a);
    LinkNewKeepsLeaves(mem, lay.lvl, f, j, n, user);
    OwnedLinkNew(mem, lay, u0 + {n}, frames, f, j, n, user);
    hide Owned, Grown, SameLeaves, LinksKept;
  }

  lemma LinkMade(mem: Ram, lay: Layout, f: nat, j: nat, n: nat, user: bool)
    requires f in lay.lvl && f in mem && lay.lvl[f] >= 2 && j < 512 && !mem[f][j].bits.present && n !in lay.lvl
    ensures LinksKept(mem, lay.lvl, LinkNew(mem, f, j, n, user), LinkLayout(lay, f, j, n).lvl, user)
  {
  }

  /** The kernel halts at boot with more than 512 GiB of memory. */
  const MAX_FRAMES: nat := 0x800_0000

  class Memory {
    const pmm: Pmm.FrameAllocator
    var mem: Ram
    ghost var lay: Layout

    ghost predicate Valid()
      reads this, pmm, pmm.bitmap
    {
      && pmm.Valid() && pmm.frames <= MAX_FRAMES
      && (forall f: nat :: f < pmm.frames ==> f in mem)
      && Owned(mem, lay, pmm.used, pmm.frames)
    }

    /** Adopt a memory image, such as the one the boot code leaves. */
    constructor (pmm: Pmm.FrameAllocator, mem: Ram, ghost lay: Layout)
      requires pmm.Valid() && pmm.frames <= MAX_FRAMES && (forall f: nat :: f < pmm.frames ==> f in mem)
      requires Owned(mem, lay, pmm.used, pmm.frames)
      ensures Valid() && this.pmm == pmm && this.mem == mem && this.lay == lay
    {
      this.pmm := pmm;
      this.mem := mem;
      this.lay := lay;
    }

    /** pmm_alloc_frame followed by memset: an empty frame, or 0. */
    method AllocZeroed() returns (f: nat)
      requires Valid()
      modifies this`mem, pmm, pmm.bitmap
      ensures Valid()
      ensures f == 0 <==> Pmm.NoneFree(old(pmm.used), Pmm.GENERAL_FIRST, pmm.frames)
      ensures f == 0 ==> pmm.used == old(pmm.used) && mem == old(mem)
      ensures f != 0 ==> && f !in old(pmm.used) && Pmm.GENERAL_FIRST <= f < pmm.frames
                         && pmm.used == old(pmm.used) + {f}
                         && Loose(lay, pmm.used, pmm.frames, f) && f !in lay.own && f !in lay.lvl
                         && mem == old(mem)[f := ZeroTable()]
    {
      var phys := pmm.AllocFrame();
      if phys == 0 {
        return 0;
      }
      f := phys / Pmm.FRAME_SIZE;
      assert FrameOK(lay, old(pmm.used), pmm.frames, f);
      OwnedMoreUsed(mem, lay, old(pmm.used), pmm.frames, pmm.used);
      OwnedLooseWrite(mem, lay, pmm.used, pmm.frames, f, ZeroTable());
      mem := mem[f := ZeroTable()];
    }

    /** One level of walk_or_create: follow entry j of table f, setting the user
        bit on it if asked, or allocate, zero and link a new table. */
    method NextTable(f: nat, j: nat, user: bool, top: bool, ghost a: nat) returns (ok: bool, next: nat)
      requires Valid() && f in lay.lvl && lay.lvl[f] >= 2 && j < 512 && top == (lay.lvl[f] == 4)
      requires f in lay.own ==> lay.own[f].space == a
      modifies this, pmm, pmm.bitmap
      ensures Valid() && Grown(old(lay), old(pmm.used), lay, pmm.used, a)
      ensures SameLeaves(old(mem), mem, old(lay).lvl)
      ensures forall g :: g in old(lay).lvl && g != f ==> g in mem && g in old(mem) && mem[g] == old(mem)[g]
      ensures f in mem && f in lay.lvl && lay.lvl[f] == old(lay).lvl[f]
      ensures DataKept(old(mem), mem, old(pmm.used), old(lay).lvl)
      ensures ok ==> && Links(lay.lvl[f], mem[f][j]) && mem[f][j].frame == next && next in mem
                     && next in lay.lvl && lay.lvl[next] == lay.lvl[f] - 1
                     && (user ==> mem[f][j].bits.user)
      ensures ok && next in lay.own ==> lay.own[next].space == a
      ensures f in old(lay).own && !Border(old(lay), old(lay).own[f], j) ==>
                NewOwned(old(lay), lay) && (ok ==> next in lay.own && lay.own[next] == Child(old(lay).own[f], j))
      ensures forall i ::
                0 <= i < 512 && (i != j || (old(mem)[f][j].bits.present && !user)) ==> mem[f][i] == old(mem)[f][i]
      ensures !ok ==> mem == old(mem) && lay == old(lay) && pmm.used == old(pmm.used)
      ensures Stepped(old(mem), old(lay).lvl, old(pmm.used), mem, pmm.used, pmm.frames, f, j, next, ok, top)
      ensures LinksKept(old(mem), old(lay).lvl, mem, lay.lvl, user)
    {
      assert f in mem;
      hide Owned, SameLeaves, Grown, DataKept, NewOwned, LinksKept, Pmm.Represents;
      if mem[f][j].bits.present {
        ok, next := FollowEntry(f, j, user, top, a);
      } else {
        ok, next := MakeTable(f, j, user, a);
      }
    }

    /** The present branch of one level. */
    method FollowEntry(f: nat, j: nat, user: bool, top: bool, ghost a: nat) returns (ok: bool, next: nat)
      requires Valid() && f in lay.lvl && lay.lvl[f] >= 2 && j < 512 && top == (lay.lvl[f] == 4)
      requires mem[f][j].bits.present
      requires f in lay.own ==> lay.own[f].space == a
      modifies this`mem
      ensures Valid() && Grown(lay, pmm.used, lay, pmm.used, a) && NewOwned(lay, lay)
      ensures SameLeaves(old(mem), mem, lay.lvl)
      ensures forall g :: g in lay.lvl && g != f ==> g in mem && g in old(mem) && mem[g] == old(mem)[g]
      ensures f in mem && DataKept(old(mem), mem, pmm.used, lay.lvl)
      ensures ok ==> && Links(lay.lvl[f], mem[f][j]) && mem[f][j].frame == next && next in mem
                     && next in lay.lvl && lay.lvl[next] == lay.lvl[f] - 1
                     && (user ==> mem[f][j].bits.user)
      ensures ok && next in lay.own ==> lay.own[next].space == a
      ensures ok && f in lay.own && !Border(lay, lay.own[f], j) ==>
                next in lay.own && lay.own[next] == Child(lay.own[f], j)
      ensures forall i ::
                0 <= i < 512 && (i != j || (old(mem)[f][j].bits.present && !user)) ==> mem[f][i] == old(mem)[f][i]
      ensures !ok ==> mem == old(mem)
      ensures !ok <==> !top && old(mem)[f][j].bits.ps
      ensures ok ==> next == old(mem)[f][j].frame
      ensures LinksKept(old(mem), lay.lvl, mem, lay.lvl, user)
    {
      var e := mem[f][j];
      if !top && e.bits.ps {
        return false, 0;
      }
      if user && !e.bits.user {
        var e' := e.(bits := e.bits.(user := true));
        SameLinkKeepsLeaves(mem, lay.lvl, f, j, e');
        OwnedSameLink(mem, lay, pmm.used, pmm.frames, f, j, e');
        mem := Store(mem, f, j, e');
      }
      StepSlot(mem, lay, pmm.used, pmm.frames, f, j);
      if f in lay.own {
        assert CellOK(mem, lay, f, j) && SlotOK(mem, lay, Child(lay.own[f], j));
      }
      return true, e.frame;
    }

    /** The absent branch: allocate, zero and link a new table. */
    method MakeTable(f: nat, j: nat, user: bool, ghost a: nat) returns (ok: bool, next: nat)
      requires Valid() && f in lay.lvl && lay.lvl[f] >= 2 && j < 512 && !mem[f][j].bits.present
      requires f in lay.own ==> lay.own[f].space == a
      modifies this, pmm, pmm.bitmap
      ensures Valid() && Grown(old(lay), old(pmm.used), lay, pmm.used, a)
      ensures SameLeaves(old(mem), mem, old(lay).lvl)
      ensures forall g :: g in old(lay).lvl && g != f ==> g in mem && g in old(mem) && mem[g] == old(mem)[g]
      ensures f in mem && f in lay.lvl && lay.lvl[f] == old(lay).lvl[f]
      ensures DataKept(old(mem), mem, old(pmm.used), old(lay).lvl)
      ensures ok ==> && Links(lay.lvl[f], mem[f][j]) && mem[f][j].frame == next && next in mem
                     && next in lay.lvl && lay.lvl[next] == lay.lvl[f] - 1
                     && (user ==> mem[f][j].bits.user)
      ensures ok && next in lay.own ==> lay.own[next].space == a
      ensures f in old(lay).own && !Border(old(lay), old(lay).own[f], j) ==>
                NewOwned(old(lay), lay) && (ok ==> next in lay.own && lay.own[next] == Child(old(lay).own[f], j))
      ensures forall i ::
                0 <= i < 512 && (i != j || (old(mem)[f][j].bits.present && !user)) ==> mem[f][i] == old(mem)[f][i]
      ensures !ok ==> mem == old(mem) && lay == old(lay) && pmm.used == old(pmm.used)
      ensures ok ==> TookFor(old(mem)[f][j], old(pmm.used), pmm.used, pmm.frames, mem, next)
      ensures !ok <==> Pmm.NoneFree(old(pmm.used), Pmm.GENERAL_FIRST, pmm.frames)
      ensures LinksKept(old(mem), old(lay).lvl, mem, lay.lvl, user)
    {
      assert f in mem;
      Unchanged(mem, lay, pmm.used, a);
      LinksRefl(mem, lay.lvl, user);
      hide Owned, SameLeaves, Grown, DataKept, NewOwned, Pmm.Represents, Pmm.NoneFree, LinkLayout, LinkNew, LinkEntry,
           Store, Loose, LinksKept;
      ghost var mem0 := mem;
      next := AllocZeroed();
      if next == 0 {
        return false, 0;
      }
      TableMade(mem0, lay, old(pmm.used), pmm.frames, f, j, next, user, a);
      mem := Store(mem, f, j, LinkEntry(next, user));
      lay := LinkLayout(lay, f, j, next);
      ok := true;
    }

    /** walk_or_create.  On failure (out of frames, or a huge page in the way)
        the tables made so far stay, but no page of any space reads
        differently. */
    method WalkOrCreate(root: nat, virt: nat, user: bool, ghost a: nat) returns (ok: bool, pt: nat)
      requires Valid() && root in lay.lvl && lay.lvl[root] == 4 && (root in lay.own ==> lay.own[root].space == a)
      modifies this, pmm, pmm.bitmap
      ensures Valid() && Grown(old(lay), old(pmm.used), lay, pmm.used, a)
      ensures SameLeaves(old(mem), mem, old(lay).lvl)
      ensures ok ==> LeafTable(mem, root, VaSplit(virt)) == Some(pt)
      ensures ok <==> Affordable(old(mem), old(pmm.used), pmm.frames, root, VaSplit(virt))
      ensures ok ==> Spent(Need(old(mem), root, VaSplit(virt)), old(pmm.used), pmm.used, pmm.frames)
      ensures !ok ==> !Affordable(mem, pmm.used, pmm.frames, root, VaSplit(virt))
      ensures ok && user ==> UserPath(mem, root, VaSplit(virt))
      ensures TopsKept(old(mem), mem, old(lay).lvl, root, VaSplit(virt)[0], user)
      ensures root in old(lay).own && UserPage(old(lay), a, VaSplit(virt)) ==> NewOwned(old(lay), lay)
      ensures DataKept(old(mem), mem, old(pmm.used), old(lay).lvl)
      ensures LinksKept(old(mem), old(lay).lvl, mem, lay.lvl, user)
    {
      OwnedLevels(mem, lay, pmm.used, pmm.frames);
      hide *;
      var i := VaSplit(virt);
      PageIndices(i);
      ghost var l0, u0, m0 := lay, pmm.used, mem;
      var pdpt, pd;
      pt := 0;
      ok, pdpt := TopTable(root, i[0], user, a);
      if !ok {
        NoTop(m0, l0.lvl, u0, mem, pmm.used, pmm.frames, root, i, pdpt);
        return;
      }
      ghost var l1, u1, m1 := lay, pmm.used, mem;
      OwnedLevels(m1, l1, u1, pmm.frames);
      GrownLevels(l0, u0, l1, u1, a);
      PathInside(l0, l1, a, i);
      TopNeed(m0, l0.lvl, u0, m1, u1, pmm.frames, root, i, pdpt);
      ok, pd, pt := LowerTables(pdpt, i[1], i[2], user, a);
      LowerEnds(m1, l1.lvl, u1, mem, pmm.used, pmm.frames, pdpt, i[1], i[2], pd, pt, ok);
      LinksGrown(m0, l0, u0, m1, l1, u1, mem, lay, pmm.used, a, user);
      GrownTrans(m0, l0, u0, m1, l1, u1, mem, lay, pmm.used, a);
      TopsAfter(m0, m1, mem, l0.lvl, root, i[0], user);
      if ok {
        TopSpent(m0, l0.lvl, u0, m1, u1, pmm.used, pmm.frames, root, i, pdpt);
        WalkEnds(mem, root, i, pdpt, pd, pt, user);
      } else {
        NoWalk(mem, pmm.used, pmm.frames, root, i, pdpt);
      }
    }

    /** The top level of walk_or_create. */
    method TopTable(root: nat, j: nat, user: bool, ghost a: nat) returns (ok: bool, pdpt: nat)
      requires Valid() && root in lay.lvl && lay.lvl[root] == 4 && j < 512
      requires (root in lay.own ==> lay.own[root].space == a)
      modifies this, pmm, pmm.bitmap
      ensures Valid() && Grown(old(lay), old(pmm.used), lay, pmm.used, a)
      ensures SameLeaves(old(mem), mem, old(lay).lvl) && DataKept(old(mem), mem, old(pmm.used), old(lay).lvl)
      ensures TopsKept(old(mem), mem, old(lay).lvl, root, j, user) && root in mem && root in lay.lvl
      ensures lay.lvl[root] == 4
      ensures ok ==>
                && Links(4, mem[root][j]) && mem[root][j].frame == pdpt && pdpt in mem && pdpt in lay.lvl
                && lay.lvl[pdpt] == 3
                     && (user ==> mem[root][j].bits.user) && (pdpt in lay.own ==> lay.own[pdpt].space == a)
      ensures root in old(lay).own && !Border(old(lay), Slot(a, []), j) ==>
                NewOwned(old(lay), lay) && (ok ==> pdpt in lay.own && lay.own[pdpt] == Slot(a, [j]))
      ensures lay.priv == old(lay).priv && (!ok ==> mem == old(mem) && pmm.used == old(pmm.used))
      ensures Stepped(old(mem), old(lay).lvl, old(pmm.used), mem, pmm.used, pmm.frames, root, j, pdpt, ok, true)
      ensures LinksKept(old(mem), old(lay).lvl, mem, lay.lvl, user)
    {
      assert Stratified(mem, lay.lvl);
      RootSlot(mem, lay, pmm.used, pmm.frames, root);
      hide SameLeaves, NewOwned, Owned, Grown, DataKept, TopsKept, Stratified, Pmm.NoneFree, Pmm.Represents, Stepped,
           LinksKept;
      ghost var l0, u0, m0 := lay, pmm.used, mem;
      ok, pdpt := NextTable(root, j, user, true, a);
      TopsFirst(m0, mem, l0.lvl, root, j, user);
      GrownKeeps(l0, u0, lay, pmm.used, a, root);
    }

    /** The two lower levels of walk_or_create. */
    method LowerTables(pdpt: nat, i1: nat, i2: nat, user: bool, ghost a: nat) returns (ok: bool, pd: nat, pt: nat)
      requires Valid() && pdpt in lay.lvl && lay.lvl[pdpt] == 3 && i1 < 512 && i2 < 512
      requires pdpt in lay.own ==> lay.own[pdpt].space == a
      modifies this, pmm, pmm.bitmap
      ensures Valid() && Grown(old(lay), old(pmm.used), lay, pmm.used, a)
      ensures SameLeaves(old(mem), mem, old(lay).lvl) && DataKept(old(mem), mem, old(pmm.used), old(lay).lvl)
      ensures forall g ::
                g in old(lay).lvl && old(lay).lvl[g] == 4 ==> g in mem && g in old(mem) && mem[g] == old(mem)[g]
      ensures pdpt in old(lay).own && |old(lay).own[pdpt].path| == 1 && !Border(old(lay), old(lay).own[pdpt], i1) ==>
                NewOwned(old(lay), lay)
      ensures pdpt in mem && pdpt in lay.lvl
      ensures ok ==> && mem[pdpt][i1].frame == pd && pd in mem
                     && Links(3, mem[pdpt][i1]) && Links(2, mem[pd][i2]) && mem[pd][i2].frame == pt && pt in mem
                     && (user ==> mem[pdpt][i1].bits.user && mem[pd][i2].bits.user)
      ensures TwoLevels(old(mem), old(lay).lvl, old(pmm.used), mem, pmm.used, pmm.frames, pdpt, i1, i2, pd, pt, ok)
      // a walk that failed would fail again
      ensures !ok ==> !Within(NeedPdpt(mem, pdpt, i1, i2), Pmm.FreeCount(pmm.used, pmm.frames))
      ensures LinksKept(old(mem), old(lay).lvl, mem, lay.lvl, user)
    {
      Rooted(mem, lay, pmm.used, pmm.frames, pdpt);
      hide *;
      ghost var l0, u0, m0 := lay, pmm.used, mem;
      pt := 0;
      ok, pd := NextTable(pdpt, i1, user, false, a);
      if !ok {
        OneStep(m0, l0.lvl, u0, mem, pmm.used, pmm.frames, pdpt, i1, i2, pd);
        NoLower(m0, l0.lvl, u0, mem, pmm.used, pmm.frames, pdpt, i1, i2, pd);
        return;
      }
      ghost var l1, u1, m1 := lay, pmm.used, mem;
      GrownKeeps(l0, u0, l1, u1, a, pdpt);
      GrownLevels(l0, u0, l1, u1, a);
      DeepInside(l0, l1, pdpt, i1, pd, i2);
      OwnedLevels(m1, l1, u1, pmm.frames);
      ok, pt := NextTable(pd, i2, user, false, a);
      LinksGrown(m0, l0, u0, m1, l1, u1, mem, lay, pmm.used, a, user);
      if !ok {
        NoPd(mem, l1.lvl, pmm.used, pmm.frames, pdpt, i1, i2, pd, pt);
      }
      TwoSteps(m0, l0.lvl, u0, m1, l1.lvl, u1, mem, pmm.used, pmm.frames, pdpt, i1, i2, pd, pt, ok);
      GrownTrans(m0, l0, u0, m1, l1, u1, mem, lay, pmm.used, a);
    }

    /** Store a leaf entry through a successful walk. */
    method WriteLeaf(root: nat, virt: nat, pt: nat, e: Entry)
      requires Valid() && root in lay.lvl && lay.lvl[root] == 4
      requires LeafTable(mem, root, VaSplit(virt)) == Some(pt)
      requires LeafAllowed(lay, pmm.used, pmm.frames, pt, VaSplit(virt)[3], e)
      modifies this
      ensures Valid() && pt in old(mem) && mem == Store(old(mem), pt, VaSplit(virt)[3], e)
      ensures lay == LeafLayout(old(lay), pt, VaSplit(virt)[3], e)
      ensures LeafTable(mem, root, VaSplit(virt)) == Some(pt)
      ensures MapsPage(old(mem), mem, old(lay).lvl, root, VaSplit(virt), e)
      ensures root in old(lay).own && UserPage(old(lay), old(lay).own[root].space, VaSplit(virt)) ==>
                MapsOnePage(old(mem), mem, old(lay).lvl, root, VaSplit(virt), e)
    {
      ghost var va := VaSplit(virt);
      LeafWrite(mem, lay.lvl, root, va, e);
      LeafWriteKeepsHuge(mem, lay.lvl, pt, va[3], e);
      if root in lay.own && UserPage(lay, lay.own[root].space, va) {
        OnlyPage(mem, lay, pmm.used, pmm.frames, root, va, pt, e);
      }
      OwnedLeaf(mem, lay, pmm.used, pmm.frames, pt, va[3], e);
      lay := LeafLayout(lay, pt, va[3], e);
      mem := Store(mem, pt, VaSplit(virt)[3], e);
    }

    /** vmm_map_in */
    method MapIn(root: nat, virt: nat, phys: nat, flags: Flags, ghost a: nat) returns (ok: bool)
      requires Valid() && root in lay.lvl && lay.lvl[root] == 4 && (root in lay.own ==> lay.own[root].space == a)
      // a private frame mapped into a process must be the caller's to give
      requires root in lay.own && UserPage(lay, a, VaSplit(virt)) && !flags.shared && phys < 0x8000_0000_0000 ==>
                 Loose(lay, pmm.used, pmm.frames, phys / 4096)
      modifies this, pmm, pmm.bitmap
      ensures Valid()
      ensures phys >= 0x8000_0000_0000 ==> !ok && mem == old(mem) && lay == old(lay) && pmm.used == old(pmm.used)
      ensures !ok ==> SameLeaves(old(mem), mem, old(lay).lvl) && Grown(old(lay), old(pmm.used), lay, pmm.used, a)
      ensures ok <==> phys < 0x8000_0000_0000 && Affordable(old(mem), old(pmm.used), pmm.frames, root, VaSplit(virt))
      ensures ok ==> Spent(Need(old(mem), root, VaSplit(virt)), old(pmm.used), pmm.used, pmm.frames)
      ensures !ok && phys < 0x8000_0000_0000 ==> !Affordable(mem, pmm.used, pmm.frames, root, VaSplit(virt))
      ensures ok ==> MapsPage(old(mem), mem, old(lay).lvl, root, VaSplit(virt), MapEntry(phys, flags))
      ensures ok && flags.user ==> UserPath(mem, root, VaSplit(virt))
      // the page has the frame and the permissions asked for, and its tables do not take any away
      ensures ok ==> Carries(Lookup(mem, root, VaSplit(virt)), phys / 4096, flags, flags.shared)
      ensures ok ==> (CpuWrites(mem, root, VaSplit(virt)) <==> flags.write)
      ensures LinksKept(old(mem), old(lay).lvl, mem, lay.lvl, flags.user)
      ensures TopsKept(old(mem), mem, old(lay).lvl, root, VaSplit(virt)[0], flags.user)
      ensures TablesGrown(old(lay), old(pmm.used), lay, pmm.used, a)
      ensures ok && root in old(lay).own && UserPage(old(lay), a, VaSplit(virt)) ==>
                && MapsOnePage(old(mem), mem, old(lay).lvl, root, VaSplit(virt), MapEntry(phys, flags))
                && PageSet(old(lay), lay, Slot(a, VaSplit(virt)), MapEntry(phys, flags))
      ensures !(ok && root in old(lay).own && UserPage(old(lay), a, VaSplit(virt))) ==> PagesKept(old(lay), lay)
      ensures root in old(lay).own && UserPage(old(lay), a, VaSplit(virt)) ==> NewOwned(old(lay), lay)
      ensures DataKept(old(mem), mem, old(pmm.used), old(lay).lvl)
    {
      hide MapsPage, MapsOnePage, SameLeaves, PageSet, PagesKept, TablesGrown, UserPath, VaSplit, LeafLayout, LeafTable,
           Lookup, Stratified, Affordable, Need, Spent, TopsKept, LinksKept, CpuWrites, Carries;
      if phys >= 0x8000_0000_0000 {
        LinksRefl(mem, lay.lvl, flags.user);
        UnchangedGrown(mem, lay, pmm.used, a);
        TopsSame(mem, lay.lvl, root, VaSplit(virt)[0], flags.user);
        return false;
      }
      var pt;
      ok, pt := WalkOrCreate(root, virt, flags.user, a);
      GrownTables(old(lay), old(pmm.used), lay, pmm.used, a);
      if !ok {
        return;
      }
      ghost var va, e := VaSplit(virt), MapEntry(phys, flags);
      LeafTableSlot(mem, lay, pmm.used, pmm.frames, root, va);
      if flags.user {
        UserPathKept(mem, lay.lvl, root, va, pt, va[3], e);
      }
      Attach(root, virt, pt, MapEntry(phys, flags), a, old(mem), old(lay), old(pmm.used), flags.user);
      MappedAs(old(mem), mem, old(lay).lvl, lay, pmm.used, pmm.frames, root, va, phys, flags);
    }

    /** The store of vmm_map_in, seen from the state (m0, l0, u0) before the walk. */
    method Attach(root: nat, virt: nat, pt: nat, e: Entry, ghost a: nat, ghost m0: Ram, ghost l0: Layout,
                  ghost u0: set<nat>, ghost user: bool)
      requires Valid() && root in l0.lvl && l0.lvl[root] == 4 && Grown(l0, u0, lay, pmm.used, a)
      requires SameLeaves(m0, mem, l0.lvl)
      requires TopsKept(m0, mem, l0.lvl, root, VaSplit(virt)[0], user) && DataKept(m0, mem, u0, l0.lvl)
      requires LinksKept(m0, l0.lvl, mem, lay.lvl, user)
      requires root in lay.lvl && lay.lvl[root] == 4 && LeafTable(mem, root, VaSplit(virt)) == Some(pt)
      requires LeafAllowed(lay, pmm.used, pmm.frames, pt, VaSplit(virt)[3], e)
      requires root in l0.own ==> l0.own[root].space == a
      modifies this
      ensures Valid() && pt in old(mem) && mem == Store(old(mem), pt, VaSplit(virt)[3], e)
      ensures MapsPage(m0, mem, l0.lvl, root, VaSplit(virt), e) && TablesGrown(l0, u0, lay, pmm.used, a)
      ensures TopsKept(m0, mem, l0.lvl, root, VaSplit(virt)[0], user) && DataKept(m0, mem, u0, l0.lvl)
      ensures LinksKept(m0, l0.lvl, mem, lay.lvl, user) && root in lay.lvl && lay.lvl[root] == 4
      ensures if root in l0.own && UserPage(l0, a, VaSplit(virt)) then
                && MapsOnePage(m0, mem, l0.lvl, root, VaSplit(virt), e)
                && PageSet(l0, lay, Slot(a, VaSplit(virt)), e)
              else PagesKept(l0, lay)
      ensures NewOwned(l0, old(lay)) ==> NewOwned(l0, lay)
    {
      hide MapsPage, MapsOnePage, SameLeaves, PageSet, PagesKept, TablesGrown, VaSplit, LeafLayout, LeafTable, Lookup,
           TopsKept, LinksKept;
      ghost var va, mid, mid0 := VaSplit(virt), lay, mem;
      LeafTableSlot(mem, lay, pmm.used, pmm.frames, root, va);
      WriteLeaf(root, virt, pt, e);
      TopsLeaf(m0, mid0, mem, l0.lvl, mid.lvl, root, va[0], user, pt, va[3], e);
      LinksLeaf(m0, l0.lvl, mid0, mid, mem, pt, va[3], e, user);
      PagesNotTables(mid0, mid, pmm.used, pmm.frames);
      LeafLayoutPages(l0, u0, mid, pmm.used, a, pt, va[3], e);
      assert va == va[..3] + [va[3]];
      MapCompose(m0, mid0, mem, l0.lvl, mid.lvl, root, va, e);
    }

    /** walk_only: never allocates. */
    method WalkOnly(root: nat, virt: nat) returns (r: Option<nat>)
      requires Valid() && root in lay.lvl && lay.lvl[root] == 4
      ensures r == LeafTable(mem, root, VaSplit(virt))
    {
      var i := VaSplit(virt);
      DescendSteps(mem, root, i);
      var e := mem[root][i[0]];
      if !e.bits.present {
        return None;
      }
      assert LinkDown(mem, lay.lvl, root, i[0]);
      e := mem[e.frame][i[1]];
      if !e.bits.present || e.bits.ps {
        return None;
      }
      assert LinkDown(mem, lay.lvl, mem[root][i[0]].frame, i[1]);
      e := mem[e.frame][i[2]];
      if !e.bits.present || e.bits.ps {
        return None;
      }
      return Some(e.frame);
    }

    /** vmm_entry_in reads the flat map. */
    method EntryIn(root: nat, virt: nat) returns (r: Option<Entry>)
      requires Valid() && root in lay.lvl && lay.lvl[root] == 4
      ensures r == Lookup(mem, root, VaSplit(virt))
    {
      var pt := WalkOnly(root, virt);
      DescendLevel(mem, lay.lvl, root, VaSplit(virt)[..3]);
      if pt.None? || !mem[pt.value][VaSplit(virt)[3]].bits.present {
        return None;
      }
      return Some(mem[pt.value][VaSplit(virt)[3]]);
    }

    /** vmm_translate_in, huge pages included. */
    method TranslateIn(root: nat, virt: nat) returns (phys: nat)
      requires Valid() && root in lay.lvl && lay.lvl[root] == 4
      ensures phys == Translation(mem, root, virt)
    {
      var i := VaSplit(virt);
      DescendSteps(mem, root, i);
      var e := mem[root][i[0]];
      if !e.bits.present {
        return 0;
      }
      assert LinkDown(mem, lay.lvl, root, i[0]);
      e := mem[e.frame][i[1]];
      if !e.bits.present {
        return 0;
      }
      if e.bits.ps {
        return BitOr(e.frame * 4096, virt % 0x4000_0000);
      }
      assert LinkDown(mem, lay.lvl, mem[root][i[0]].frame, i[1]);
      e := mem[e.frame][i[2]];
      if !e.bits.present {
        return 0;
      }
      if e.bits.ps {
        return BitOr(e.frame * 4096, virt % 0x20_0000);
      }
      DescendLevel(mem, lay.lvl, root, i[..3]);
      e := mem[e.frame][i[3]];
      if !e.bits.present {
        return 0;
      }
      PageOffsetOr(e.frame, virt % 4096);
      return BitOr(e.frame * 4096, virt % 4096);
    }

    /** vmm_unmap_in */
    method UnmapIn(root: nat, virt: nat) returns (ok: bool)
      requires Valid() && root in lay.lvl && lay.lvl[root] == 4
      modifies this
      ensures Valid() && lay.lvl == old(lay).lvl && lay.priv == old(lay).priv
      ensures ok <==> LeafTable(old(mem), root, VaSplit(virt)).Some?
      ensures !ok ==> mem == old(mem) && lay == old(lay)
      ensures ok ==> MapsPage(old(mem), mem, lay.lvl, root, VaSplit(virt), ZERO_ENTRY)
      ensures TablesGrown(old(lay), pmm.used, lay, pmm.used, 0)
      ensures UppersSame(old(mem), mem, old(lay).lvl)
      ensures if ok && root in old(lay).own && UserPage(old(lay), old(lay).own[root].space, VaSplit(virt)) then
                && MapsOnePage(old(mem), mem, lay.lvl, root, VaSplit(virt), ZERO_ENTRY)
                && PageSet(old(lay), lay, Slot(old(lay).own[root].space, VaSplit(virt)), ZERO_ENTRY)
              else PagesKept(old(lay), lay)
    {
      hide MapsPage, MapsOnePage, PageSet, PagesKept, TablesGrown, VaSplit, LeafTable, Stratified, UppersSame;
      var pt := WalkOnly(root, virt);
      UnchangedGrown(mem, lay, pmm.used, 0);
      UppersUnchanged(mem, lay.lvl);
      if pt.None? {
        return false;
      }
      StoreLeaf(root, virt, pt.value, ZERO_ENTRY);
      ok := true;
    }

    /** vmm_protect_in: same frame, new permissions, ownership bit kept. */
    method ProtectIn(root: nat, virt: nat, flags: Flags) returns (ok: bool)
      requires Valid() && root in lay.lvl && lay.lvl[root] == 4
      modifies this
      ensures Valid() && lay.lvl == old(lay).lvl && lay.priv == old(lay).priv
      ensures ok <==> Lookup(old(mem), root, VaSplit(virt)).Some?
      ensures !ok ==> mem == old(mem) && lay == old(lay)
      ensures TablesGrown(old(lay), pmm.used, lay, pmm.used, 0)
      ensures UppersSame(old(mem), mem, old(lay).lvl)
      ensures ok ==> var e := ProtectEntry(Lookup(old(mem), root, VaSplit(virt)).value, flags);
                && MapsPage(old(mem), mem, lay.lvl, root, VaSplit(virt), e)
                && (if root in old(lay).own && UserPage(old(lay), old(lay).own[root].space, VaSplit(virt)) then
                      && MapsOnePage(old(mem), mem, lay.lvl, root, VaSplit(virt), e)
                      && PageSet(old(lay), lay, Slot(old(lay).own[root].space, VaSplit(virt)), e)
                    else PagesKept(old(lay), lay))
      // same frame, the permissions asked for, borrowed stays borrowed
      ensures ok ==> var e := Lookup(old(mem), root, VaSplit(virt)).value;
                && Carries(Lookup(mem, root, VaSplit(virt)), e.frame, flags, flags.shared || e.bits.shared)
                && (CpuWrites(mem, root, VaSplit(virt)) <==> flags.write)
    {
      hide MapsPage, MapsOnePage, PageSet, PagesKept, TablesGrown, VaSplit, LeafTable, Stratified, UppersSame;
      var e := EntryIn(root, virt);
      UnchangedGrown(mem, lay, pmm.used, 0);
      UppersUnchanged(mem, lay.lvl);
      if e.None? {
        return false;
      }
      var pt := WalkOnly(root, virt);
      LeafTableSlot(mem, lay, pmm.used, pmm.frames, root, VaSplit(virt));
      assert CellOK(mem, lay, pt.value, VaSplit(virt)[3]);
      StoreLeaf(root, virt, pt.value, ProtectEntry(e.value, flags));
      ProtectedAs(old(mem), mem, lay, pmm.used, pmm.frames, root, VaSplit(virt), e.value, flags);
      ok := true;
    }

    /** WriteLeaf with its effect on page ownership spelled out. */
    method StoreLeaf(root: nat, virt: nat, pt: nat, e: Entry)
      requires Valid() && root in lay.lvl && lay.lvl[root] == 4
      requires LeafTable(mem, root, VaSplit(virt)) == Some(pt)
      requires LeafAllowed(lay, pmm.used, pmm.frames, pt, VaSplit(virt)[3], e)
      modifies this
      ensures Valid() && lay.lvl == old(lay).lvl && lay.priv == old(lay).priv
      ensures MapsPage(old(mem), mem, lay.lvl, root, VaSplit(virt), e)
      ensures TablesGrown(old(lay), pmm.used, lay, pmm.used, 0)
      ensures UppersSame(old(mem), mem, old(lay).lvl)
      ensures if root in old(lay).own && UserPage(old(lay), old(lay).own[root].space, VaSplit(virt)) then
                && MapsOnePage(old(mem), mem, lay.lvl, root, VaSplit(virt), e)
                && PageSet(old(lay), lay, Slot(old(lay).own[root].space, VaSplit(virt)), e)
              else PagesKept(old(lay), lay)
    {
      hide MapsPage, MapsOnePage, PageSet, PagesKept, TablesGrown, VaSplit, LeafTable, Stratified, UppersSame;
      ghost var va := VaSplit(virt);
      UnchangedGrown(mem, lay, pmm.used, 0);
      LeafTableSlot(mem, lay, pmm.used, pmm.frames, root, va);
      PagesNotTables(mem, lay, pmm.used, pmm.frames);
      LeafLayoutPages(lay, pmm.used, lay, pmm.used, 0, pt, va[3], e);
      assert va == va[..3] + [va[3]];
      RootsLeaf(mem, lay.lvl, root, va, pt, e);
      WriteLeaf(root, virt, pt, e);
    }
  }
}
