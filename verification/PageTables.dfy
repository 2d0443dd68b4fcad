/** Four-level page tables as values (kernel/memory/vmm.c, vmm.h).

    Physical memory is a map from frame number to a 512-entry table; entries are
    records.  A walk reads memory level by level, exactly as the kernel does.
    The flat view of an address space is Lookup: virtual page to leaf entry. */
module PageTables {
  datatype Option<+T> = None | Some(value: T)

  /** The entry bits the kernel looks at; `other` stands for the remaining ones
      (cache control, accessed, dirty, global, no-execute). */
  datatype Flags = Flags(present: bool, write: bool, user: bool, ps: bool,
                         shared: bool, privateLow: bool, other: nat)

  datatype Entry = Entry(frame: nat, bits: Flags)

  const NO_FLAGS := Flags(false, false, false, false, false, false, 0)
  const ZERO_ENTRY := Entry(0, NO_FLAGS)

  type Table = t: seq<Entry> | |t| == 512 witness seq(512, _ => ZERO_ENTRY)
  type Ram = map<nat, Table>

  function ZeroTable(): (t: Table)
    ensures forall i :: 0 <= i < 512 ==> t[i] == ZERO_ENTRY
  {
    seq(512, _ => ZERO_ENTRY)
  }

  /** A virtual page as its four table indices. */
  predicate IsPage(va: seq<nat>)
  {
    |va| == 4 && forall k :: 0 <= k < 4 ==> va[k] < 512
  }

  /** va_split */
  function VaSplit(virt: nat): (va: seq<nat>)
    ensures IsPage(va)
  {
    [virt / 0x80_0000_0000 % 512, virt / 0x4000_0000 % 512, virt / 0x20_0000 % 512, virt / 0x1000 % 512]
  }

  /** Inverse of va_split on 48-bit page addresses. */
  function VaJoin(va: seq<nat>): (virt: nat)
    requires IsPage(va)
    ensures virt < 0x1_0000_0000_0000 && virt % 4096 == 0
  {
    va[0] * 0x80_0000_0000 + va[1] * 0x4000_0000 + va[2] * 0x20_0000 + va[3] * 0x1000
  }

  /** The four index slices identify a 48-bit page: no two pages share them. */
  lemma SplitJoin(virt: nat)
    requires virt < 0x1_0000_0000_0000
    ensures VaJoin(VaSplit(virt)) == virt - virt % 4096
  {
    var p := virt / 0x1000;
    assert virt / 0x20_0000 == p / 512;
    assert virt / 0x4000_0000 == p / 512 / 512;
    assert virt / 0x80_0000_0000 == p / 512 / 512 / 512;
  }

  lemma JoinSplit(va: seq<nat>)
    requires IsPage(va)
    ensures VaSplit(VaJoin(va)) == va && VaJoin(va) % 4096 == 0
  {
    var p := ((va[0] * 512 + va[1]) * 512 + va[2]) * 512 + va[3];
    assert VaJoin(va) == p * 0x1000;
    assert VaJoin(va) / 0x1000 == p;
    assert VaJoin(va) / 0x20_0000 == p / 512;
    assert VaJoin(va) / 0x4000_0000 == p / 512 / 512;
    assert VaJoin(va) / 0x80_0000_0000 == p / 512 / 512 / 512;
  }

  /** Bitwise or of unsigned integers. */
  function BitOr(a: nat, b: nat): nat
  {
    if a == 0 then b else if b == 0 then a
    else 2 * BitOr(a / 2, b / 2) + (if a % 2 == 1 || b % 2 == 1 then 1 else 0)
  }

  /** a shifted left by k bits. */
  function Shl(a: nat, k: nat): nat
  {
    if k == 0 then a else 2 * Shl(a, k - 1)
  }

  /** On disjoint bits, or is addition: how an offset joins a frame address. */
  lemma {:induction false} OrDisjoint(a: nat, b: nat, k: nat)
    requires b < Shl(1, k)
    ensures BitOr(Shl(a, k), b) == Shl(a, k) + b
  {
    if k > 0 {
      OrDisjoint(a, b / 2, k - 1);
      assert Shl(a, k) / 2 == Shl(a, k - 1) && Shl(a, k) % 2 == 0;
    }
  }

  lemma PageOffsetOr(frame: nat, offset: nat)
    requires offset < 4096
    ensures BitOr(frame * 4096, offset) == frame * 4096 + offset
  {
    assert Shl(frame, 0) == frame;
    assert Shl(frame, 2) == 4 * frame;
    assert Shl(frame, 4) == 16 * frame;
    assert Shl(frame, 6) == 64 * frame;
    assert Shl(frame, 8) == 256 * frame;
    assert Shl(frame, 10) == 1024 * frame;
    assert Shl(1, 12) == 4096;
    OrDisjoint(frame, offset, 12);
  }

  /** The address vmm_translate_in computes: the leaf's frame with the page
      offset, or a huge page's base with the offset inside it, or 0. */
  function Translation(mem: Ram, root: nat, virt: nat): nat
  {
    var i := VaSplit(virt);
    match Lookup(mem, root, i)
    case Some(e) => e.frame * 4096 + virt % 4096
    case None =>
      match HugeEntry(mem, root, i)
      case Some((e, span)) => BitOr(e.frame * 4096, virt % span)
      case None => 0
  }

  /** The huge-page entry that stops the walk of a page, with its span. */
  function HugeEntry(mem: Ram, root: nat, va: seq<nat>): Option<(Entry, nat)>
    requires IsPage(va)
  {
    match Descend(mem, root, 4, va[..1])
    case None => None
    case Some(pdpt) =>
      if pdpt in mem && mem[pdpt][va[1]].bits.present && mem[pdpt][va[1]].bits.ps
      then Some((mem[pdpt][va[1]], 0x4000_0000))
      else
        match Descend(mem, root, 4, va[..2])
        case None => None
        case Some(pd) =>
          if pd in mem && mem[pd][va[2]].bits.present && mem[pd][va[2]].bits.ps
          then Some((mem[pd][va[2]], 0x20_0000))
          else None
  }

  // ---- walks --------------------------------------------------------------

  /** Does an entry of a level-`level` table lead to a lower table?  The
      huge-page bit is only examined below the PML4. */
  predicate Links(level: nat, e: Entry)
  {
    e.bits.present && (level == 4 || !e.bits.ps)
  }

  /** The table reached from table `f` by following `path`. */
  function Descend(mem: Ram, f: nat, level: nat, path: seq<nat>): Option<nat>
    requires |path| <= level
    decreases |path|
  {
    if path == [] then Some(f)
    else if f !in mem || path[0] >= 512 then None
    else
      var e := mem[f][path[0]];
      if Links(level, e) then Descend(mem, e.frame, level - 1, path[1..]) else None
  }

  /** walk_only: the leaf table of a page, if the whole path exists. */
  function LeafTable(mem: Ram, root: nat, va: seq<nat>): Option<nat>
    requires IsPage(va)
  {
    Descend(mem, root, 4, va[..3])
  }

  /** The flat map of an address space: the present leaf entry of each page. */
  function Lookup(mem: Ram, root: nat, va: seq<nat>): Option<Entry>
    requires IsPage(va)
  {
    match LeafTable(mem, root, va)
    case None => None
    case Some(pt) =>
      if pt in mem && mem[pt][va[3]].bits.present then Some(mem[pt][va[3]]) else None
  }

  /** Table frames are stratified: links go down exactly one level, and every link
      is writable, so that the leaf alone decides whether a page is.  Aliasing (two
      entries reaching the same table) is allowed; the boot tables do it. */
  ghost predicate LinkDown(mem: Ram, lvl: map<nat, nat>, f: nat, i: nat)
  {
    f in lvl && f in mem && i < 512 && lvl[f] >= 2 && Links(lvl[f], mem[f][i]) ==>
      mem[f][i].bits.write && mem[f][i].frame in lvl && lvl[mem[f][i].frame] == lvl[f] - 1
  }

  ghost predicate Stratified(mem: Ram, lvl: map<nat, nat>)
  {
    && (forall f :: f in lvl ==> f in mem && 1 <= lvl[f] <= 4)
    && (forall f, i {:trigger LinkDown(mem, lvl, f, i)} :: LinkDown(mem, lvl, f, i))
  }

  lemma {:induction false} DescendLevel(mem: Ram, lvl: map<nat, nat>, f: nat, path: seq<nat>)
    requires Stratified(mem, lvl) && f in lvl && |path| < lvl[f]
    ensures var r := Descend(mem, f, lvl[f], path);
            r.Some? ==> r.value in lvl && lvl[r.value] == lvl[f] - |path|
    decreases |path|
  {
    if path != [] && path[0] < 512 {
      assert LinkDown(mem, lvl, f, path[0]);
      var e := mem[f][path[0]];
      if Links(lvl[f], e) {
        DescendLevel(mem, lvl, e.frame, path[1..]);
      }
    }
  }

  // ---- the three kinds of table write ------------------------------------

  function Store(mem: Ram, f: nat, i: nat, e: Entry): Ram
    requires f in mem && i < 512
  {
    mem[f := mem[f][i := e]]
  }

  /** Rewriting an entry without changing where it leads changes no walk. */
  lemma {:induction false} DescendSameLink(mem: Ram, g: nat, j: nat, e: Entry, f: nat, level: nat, path: seq<nat>)
    requires g in mem && j < 512 && |path| <= level
    requires e.frame == mem[g][j].frame && e.bits.present == mem[g][j].bits.present && e.bits.ps == mem[g][j].bits.ps
    ensures Descend(Store(mem, g, j, e), f, level, path) == Descend(mem, f, level, path)
    decreases |path|
  {
    if path != [] && f in mem && path[0] < 512 && Links(level, mem[f][path[0]]) {
      DescendSameLink(mem, g, j, e, mem[f][path[0]].frame, level - 1, path[1..]);
    }
  }

  /** Writing a leaf table changes no walk. */
  lemma {:induction false} DescendLeafWrite(mem: Ram, lvl: map<nat, nat>, pt: nat, j: nat, e: Entry, f: nat,
                                            path: seq<nat>)
    requires Stratified(mem, lvl) && f in lvl && |path| < lvl[f]
    requires pt in lvl && lvl[pt] == 1 && j < 512
    ensures Descend(Store(mem, pt, j, e), f, lvl[f], path) == Descend(mem, f, lvl[f], path)
    decreases |path|
  {
    if path != [] && path[0] < 512 {
      assert LinkDown(mem, lvl, f, path[0]);
      if Links(lvl[f], mem[f][path[0]]) {
        DescendLeafWrite(mem, lvl, pt, j, e, mem[f][path[0]].frame, path[1..]);
      }
    }
  }

  /** Memory after a fresh zeroed table `n` is linked at entry j of table g. */
  function LinkNew(mem: Ram, g: nat, j: nat, n: nat, user: bool): Ram
    requires g in mem && j < 512
  {
    Store(mem[n := ZeroTable()], g, j, LinkEntry(n, user))
  }

  function LinkEntry(n: nat, user: bool): Entry
  {
    Entry(n, NO_FLAGS.(present := true, write := true, user := user))
  }

  /** Linking a new empty table extends walks: a walk that succeeded is
      unchanged, and one that failed either still fails or stops at the new
      table. */
  lemma {:induction false} DescendLinkNew(mem: Ram, lvl: map<nat, nat>, g: nat, j: nat, n: nat, user: bool, f: nat,
                                          path: seq<nat>)
    requires Stratified(mem, lvl) && f in lvl && |path| < lvl[f]
    requires g in lvl && j < 512 && lvl[g] >= 2 && !Links(lvl[g], mem[g][j]) && n !in lvl
    ensures var r := Descend(mem, f, lvl[f], path);
            var r' := Descend(LinkNew(mem, g, j, n, user), f, lvl[f], path);
            if r.Some? then r' == r else r' in {None, Some(n)}
    decreases |path|
  {
    if path != [] && path[0] < 512 {
      var mem' := LinkNew(mem, g, j, n, user);
      assert LinkDown(mem, lvl, f, path[0]);
      if f == g && path[0] == j {
        assert mem'[n][if |path| > 1 then path[1] % 512 else 0] == ZERO_ENTRY;
      } else if Links(lvl[f], mem[f][path[0]]) {
        DescendLinkNew(mem, lvl, g, j, n, user, mem[f][path[0]].frame, path[1..]);
      }
    }
  }

  lemma StratifiedLinkNew(mem: Ram, lvl: map<nat, nat>, g: nat, j: nat, n: nat, user: bool)
    requires Stratified(mem, lvl)
    requires g in lvl && j < 512 && lvl[g] >= 2 && n !in lvl
    ensures Stratified(LinkNew(mem, g, j, n, user), lvl[n := lvl[g] - 1])
  {
    var mem', lvl' := LinkNew(mem, g, j, n, user), lvl[n := lvl[g] - 1];
    forall f: nat, i: nat
      ensures LinkDown(mem', lvl', f, i)
    {
      assert LinkDown(mem, lvl, f, i);
      if f == n && i < 512 {
        assert mem'[n][i] == ZERO_ENTRY;
      }
    }
  }

  lemma StratifiedSameLink(mem: Ram, lvl: map<nat, nat>, g: nat, j: nat, e: Entry)
    requires Stratified(mem, lvl) && g in lvl && j < 512
    requires || lvl[g] == 1 || !Links(lvl[g], e)
             || (Links(lvl[g], mem[g][j]) && e.frame == mem[g][j].frame && e.bits.write == mem[g][j].bits.write)
    ensures Stratified(Store(mem, g, j, e), lvl)
  {
    var mem' := Store(mem, g, j, e);
    forall f: nat, i: nat
      ensures LinkDown(mem', lvl, f, i)
    {
      assert LinkDown(mem, lvl, f, i);
    }
  }

  /** Two virtual pages name the same leaf entry of memory. */
  ghost predicate SameCell(mem: Ram, r1: nat, va1: seq<nat>, r2: nat, va2: seq<nat>)
    requires IsPage(va1) && IsPage(va2)
  {
    LeafTable(mem, r1, va1).Some? && LeafTable(mem, r1, va1) == LeafTable(mem, r2, va2) && va1[3] == va2[3]
  }

  /** Huge pages translate as before in every address space. */
  ghost predicate SameHuge(mem: Ram, mem': Ram, lvl: map<nat, nat>)
  {
    forall r, va {:trigger HugeEntry(mem', r, va)} :: r in lvl && lvl[r] == 4 && IsPage(va) ==>
      HugeEntry(mem', r, va) == HugeEntry(mem, r, va)
  }

  /** Every page of every address space reads the same as before. */
  ghost predicate SameLeaves(mem: Ram, mem': Ram, lvl: map<nat, nat>)
  {
    && SameHuge(mem, mem', lvl)
    && forall r, va {:trigger Lookup(mem', r, va)} :: r in lvl && lvl[r] == 4 && IsPage(va) ==>
         Lookup(mem', r, va) == Lookup(mem, r, va)
  }

  /** Every existing walk reaches the same leaf table as before. */
  ghost predicate WalksKept(mem: Ram, mem': Ram, lvl: map<nat, nat>)
  {
    forall r, va {:trigger LeafTable(mem', r, va)} :: r in lvl && lvl[r] == 4 && IsPage(va) && LeafTable(mem, r, va).Some? ==>
      LeafTable(mem', r, va) == LeafTable(mem, r, va)
  }

  /** The page directory entry that decides a huge page, found level by level. */
  lemma HugeSteps(mem: Ram, lvl: map<nat, nat>, r: nat, va: seq<nat>)
    requires Stratified(mem, lvl) && r in lvl && lvl[r] == 4 && IsPage(va)
    ensures var d1 := Descend(mem, r, 4, va[..1]);
            && (d1.Some? ==> d1.value in lvl && lvl[d1.value] == 3)
            && var d2 := Descend(mem, r, 4, va[..2]);
            && (d2.Some? ==> d2.value in lvl && lvl[d2.value] == 2)
  {
    DescendLevel(mem, lvl, r, va[..1]);
    DescendLevel(mem, lvl, r, va[..2]);
  }

  lemma SameLinkKeepsHuge(mem: Ram, lvl: map<nat, nat>, g: nat, j: nat, e: Entry)
    requires Stratified(mem, lvl) && g in lvl && j < 512
    requires e.frame == mem[g][j].frame && e.bits.present == mem[g][j].bits.present && e.bits.ps == mem[g][j].bits.ps
    requires lvl[g] == 4 || !e.bits.ps
    ensures SameHuge(mem, Store(mem, g, j, e), lvl)
  {
    var mem' := Store(mem, g, j, e);
    forall r, va {:trigger HugeEntry(mem', r, va)} | r in lvl && lvl[r] == 4 && IsPage(va)
      ensures HugeEntry(mem', r, va) == HugeEntry(mem, r, va)
    {
      HugeSteps(mem, lvl, r, va);
      DescendSameLink(mem, g, j, e, r, 4, va[..1]);
      DescendSameLink(mem, g, j, e, r, 4, va[..2]);
    }
  }

  lemma LinkNewKeepsHuge(mem: Ram, lvl: map<nat, nat>, g: nat, j: nat, n: nat, user: bool)
    requires Stratified(mem, lvl)
    requires g in lvl && j < 512 && lvl[g] >= 2 && !mem[g][j].bits.present && n !in lvl
    ensures SameHuge(mem, LinkNew(mem, g, j, n, user), lvl)
  {
    var mem' := LinkNew(mem, g, j, n, user);
    forall r, va {:trigger HugeEntry(mem', r, va)} | r in lvl && lvl[r] == 4 && IsPage(va)
      ensures HugeEntry(mem', r, va) == HugeEntry(mem, r, va)
    {
      HugeSteps(mem, lvl, r, va);
      DescendLinkNew(mem, lvl, g, j, n, user, r, va[..1]);
      DescendLinkNew(mem, lvl, g, j, n, user, r, va[..2]);
      assert mem'[n][va[1]] == ZERO_ENTRY && mem'[n][va[2]] == ZERO_ENTRY;
      if Descend(mem, r, 4, va[..1]).None? {
        DescendPrefix(mem, r, va);
        DescendPrefix(mem', r, va);
      }
    }
  }

  /** A walk that fails early fails later. */
  lemma DescendPrefix(mem: Ram, f: nat, va: seq<nat>)
    requires IsPage(va)
    ensures Descend(mem, f, 4, va[..1]).None? ==> Descend(mem, f, 4, va[..2]).None?
  {
    assert va[..2][0] == va[0] && va[..1][0] == va[0] && va[..1][1..] == [];
    if f in mem && Links(4, mem[f][va[0]]) {
      assert Descend(mem, f, 4, va[..1]) == Descend(mem, mem[f][va[0]].frame, 3, []);
    } else {
      assert Descend(mem, f, 4, va[..2]).None?;
    }
  }

  lemma LeafWriteKeepsHuge(mem: Ram, lvl: map<nat, nat>, pt: nat, j: nat, e: Entry)
    requires Stratified(mem, lvl) && pt in lvl && lvl[pt] == 1 && j < 512
    ensures SameHuge(mem, Store(mem, pt, j, e), lvl)
  {
    var mem' := Store(mem, pt, j, e);
    forall r, va {:trigger HugeEntry(mem', r, va)} | r in lvl && lvl[r] == 4 && IsPage(va)
      ensures HugeEntry(mem', r, va) == HugeEntry(mem, r, va)
    {
      HugeSteps(mem, lvl, r, va);
      DescendLeafWrite(mem, lvl, pt, j, e, r, va[..1]);
      DescendLeafWrite(mem, lvl, pt, j, e, r, va[..2]);
    }
  }

  lemma SameLinkKeepsLeaves(mem: Ram, lvl: map<nat, nat>, g: nat, j: nat, e: Entry)
    requires Stratified(mem, lvl) && g in lvl && lvl[g] >= 2 && j < 512 && (lvl[g] == 4 || !e.bits.ps)
    requires e.frame == mem[g][j].frame && e.bits.present == mem[g][j].bits.present && e.bits.ps == mem[g][j].bits.ps
    ensures SameLeaves(mem, Store(mem, g, j, e), lvl) && WalksKept(mem, Store(mem, g, j, e), lvl)
  {
    var mem' := Store(mem, g, j, e);
    SameLinkKeepsHuge(mem, lvl, g, j, e);
    forall r, va {:trigger LeafTable(mem', r, va)} | r in lvl && lvl[r] == 4 && IsPage(va)
      ensures Lookup(mem', r, va) == Lookup(mem, r, va) && LeafTable(mem', r, va) == LeafTable(mem, r, va)
    {
      DescendSameLink(mem, g, j, e, r, 4, va[..3]);
      DescendLevel(mem, lvl, r, va[..3]);
    }
  }

  lemma LinkNewKeepsLeaves(mem: Ram, lvl: map<nat, nat>, g: nat, j: nat, n: nat, user: bool)
    requires Stratified(mem, lvl)
    requires g in lvl && j < 512 && lvl[g] >= 2 && !mem[g][j].bits.present && n !in lvl
    ensures SameLeaves(mem, LinkNew(mem, g, j, n, user), lvl) && WalksKept(mem, LinkNew(mem, g, j, n, user), lvl)
  {
    var mem' := LinkNew(mem, g, j, n, user);
    LinkNewKeepsHuge(mem, lvl, g, j, n, user);
    forall r, va {:trigger LeafTable(mem', r, va)} | r in lvl && lvl[r] == 4 && IsPage(va)
      ensures Lookup(mem', r, va) == Lookup(mem, r, va)
      ensures LeafTable(mem, r, va).Some? ==> LeafTable(mem', r, va) == LeafTable(mem, r, va)
    {
      DescendLinkNew(mem, lvl, g, j, n, user, r, va[..3]);
      DescendLevel(mem, lvl, r, va[..3]);
      assert mem'[n][va[3]] == ZERO_ENTRY;
    }
  }

  /** Writing one leaf entry changes the flat map at exactly the pages that name
      that entry. */
  lemma LeafWrite(mem: Ram, lvl: map<nat, nat>, root: nat, va: seq<nat>, e: Entry)
    requires Stratified(mem, lvl) && root in lvl && lvl[root] == 4 && IsPage(va)
    requires LeafTable(mem, root, va).Some?
    ensures var pt := LeafTable(mem, root, va).value;
            && pt in lvl && lvl[pt] == 1
            && var mem' := Store(mem, pt, va[3], e);
            && Stratified(mem', lvl)
            && (forall r, q {:trigger LeafTable(mem', r, q)} :: r in lvl && lvl[r] == 4 && IsPage(q) ==>
                  LeafTable(mem', r, q) == LeafTable(mem, r, q))
            && forall r, q {:trigger Lookup(mem', r, q)} :: r in lvl && lvl[r] == 4 && IsPage(q) ==>
                 Lookup(mem', r, q) == if SameCell(mem', r, q, root, va)
                                       then (if e.bits.present then Some(e) else None)
                                       else Lookup(mem, r, q)
  {
    DescendLevel(mem, lvl, root, va[..3]);
    var pt := LeafTable(mem, root, va).value;
    var mem' := Store(mem, pt, va[3], e);
    StratifiedSameLink(mem, lvl, pt, va[3], e);
    DescendLeafWrite(mem, lvl, pt, va[3], e, root, va[..3]);
    forall r, q | r in lvl && lvl[r] == 4 && IsPage(q)
      ensures LeafTable(mem', r, q) == LeafTable(mem, r, q)
      ensures LeafTable(mem, r, q).Some? ==> LeafTable(mem, r, q).value in mem
    {
      DescendLeafWrite(mem, lvl, pt, va[3], e, r, q[..3]);
      DescendLevel(mem, lvl, r, q[..3]);
    }
  }
}
