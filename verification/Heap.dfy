/** The kernel heap (kernel/memory/heap.c): an address-ordered, doubly linked
    list of in-band headers, first fit, coalescing in both directions.

    `mem` maps header addresses to headers.  The list refines a sequence of
    cells that tile the heap. */
module Heap {
  const HEAP_BASE: nat := 0xFFFF_9000_0000_0000
  const HEAP_LIMIT: nat := 0xFFFF_A000_0000_0000
  const INITIAL_PAGES: nat := 256
  const SPLIT_THRESHOLD: nat := 16
  const HEADER: nat := 32
  const ALIGN: nat := 16
  const PAGE: nat := 4096
  const U64: nat := 0x1_0000_0000_0000_0000

  /** struct block; address 0 is the null pointer. */
  datatype Block = Block(size: nat, free: bool, next: nat, prev: nat)

  // ---- the simple form -------------------------------------------------------

  datatype Cell = Cell(addr: nat, size: nat, free: bool)

  function End(c: Cell): nat
  {
    c.addr + HEADER + c.size
  }

  /** Cell i is aligned and touches the next one, or the end of the heap. */
  ghost predicate CellOk(cells: seq<Cell>, hi: nat, i: int)
  {
    0 <= i < |cells| ==>
      && cells[i].addr % ALIGN == 0 && cells[i].size % ALIGN == 0
      && End(cells[i]) == (if i + 1 < |cells| then cells[i + 1].addr else hi)
  }

  /** The cells tile [HEAP_BASE, hi). */
  ghost predicate Tiles(cells: seq<Cell>, hi: nat)
  {
    && |cells| > 0 && cells[0].addr == HEAP_BASE
    && forall i {:trigger CellOk(cells, hi, i)} :: CellOk(cells, hi, i)
  }

  ghost predicate NoPair(cells: seq<Cell>, i: int)
  {
    0 <= i < |cells| - 1 ==> !(cells[i].free && cells[i + 1].free)
  }

  /** No two neighbours are both free. */
  ghost predicate Coalesced(cells: seq<Cell>)
  {
    forall i {:trigger NoPair(cells, i)} :: NoPair(cells, i)
  }

  /** The allocated cells. */
  ghost function Live(cells: seq<Cell>): set<Cell>
  {
    set c | c in cells && !c.free
  }

  /** Earlier cells end before later ones start. */
  lemma {:induction false} Ordered(cells: seq<Cell>, hi: nat, i: nat, j: nat)
    requires Tiles(cells, hi) && i < j < |cells|
    ensures End(cells[i]) <= cells[j].addr
    decreases j - i
  {
    assert CellOk(cells, hi, i);
    if i + 1 < j {
      Ordered(cells, hi, i + 1, j);
    }
  }

  lemma {:induction false} Within(cells: seq<Cell>, hi: nat, i: nat)
    requires Tiles(cells, hi) && i < |cells|
    ensures HEAP_BASE <= cells[i].addr && End(cells[i]) <= hi
  {
    assert CellOk(cells, hi, |cells| - 1);
    if i > 0 {
      Ordered(cells, hi, 0, i);
    }
    if i < |cells| - 1 {
      Ordered(cells, hi, i, |cells| - 1);
    }
  }

  lemma SameAddress(cells: seq<Cell>, hi: nat, i: nat, j: nat)
    requires Tiles(cells, hi) && i < |cells| && j < |cells| && cells[i].addr == cells[j].addr
    ensures i == j
  {
    if i < j {
      Ordered(cells, hi, i, j);
    } else if j < i {
      Ordered(cells, hi, j, i);
    }
  }

  /** Payloads of different live cells do not overlap, are 16-aligned and lie
      inside the heap. */
  lemma PayloadsDisjoint(cells: seq<Cell>, hi: nat, c: Cell, d: Cell)
    requires Tiles(cells, hi) && c in Live(cells) && d in Live(cells)
    ensures c != d ==> End(c) <= d.addr + HEADER || End(d) <= c.addr + HEADER
    ensures (c.addr + HEADER) % ALIGN == 0 && HEAP_BASE < c.addr + HEADER && End(c) <= hi
  {
    var i :| 0 <= i < |cells| && cells[i] == c;
    var j :| 0 <= j < |cells| && cells[j] == d;
    assert CellOk(cells, hi, i);
    Within(cells, hi, i);
    if i < j {
      Ordered(cells, hi, i, j);
    } else if j < i {
      Ordered(cells, hi, j, i);
    }
  }

  /** With everything freed the heap is one block again. */
  lemma AllFreeIsOne(cells: seq<Cell>, hi: nat)
    requires Tiles(cells, hi) && Coalesced(cells) && Live(cells) == {}
    ensures |cells| == 1 && cells[0].addr == HEAP_BASE && End(cells[0]) == hi && cells[0].free
  {
    assert forall i :: 0 <= i < |cells| ==> cells[i].free by {
      assert forall i :: 0 <= i < |cells| && !cells[i].free ==> cells[i] in Live(cells);
    }
    assert NoPair(cells, 0) && CellOk(cells, hi, 0);
  }

  // ---- operations on cells -----------------------------------------------------

  /** Use cell i for n bytes, splitting off the rest if it is worth it. */
  function Taken(cells: seq<Cell>, i: nat, n: nat): seq<Cell>
    requires i < |cells| && n <= cells[i].size
  {
    var c := cells[i];
    if c.size >= n + HEADER + SPLIT_THRESHOLD then
      cells[..i] + [Cell(c.addr, n, false), Cell(c.addr + HEADER + n, c.size - n - HEADER, true)] + cells[i + 1..]
    else
      cells[i := c.(free := false)]
  }

  /** Fold cell i + 1 into cell i. */
  function Merged(cells: seq<Cell>, i: nat): seq<Cell>
    requires i + 1 < |cells|
  {
    cells[..i] + [cells[i].(size := cells[i].size + HEADER + cells[i + 1].size)] + cells[i + 2..]
  }

  lemma AlignedEnd(a: nat, n: nat, s: nat)
    requires a % ALIGN == 0 && n % ALIGN == 0 && s % ALIGN == 0 && n + HEADER <= s
    ensures (a + HEADER + n) % ALIGN == 0 && (s - n - HEADER) % ALIGN == 0
  {
  }

  lemma TakenOk(cells: seq<Cell>, hi: nat, i: nat, n: nat)
    requires Tiles(cells, hi) && Coalesced(cells) && i < |cells| && cells[i].free && n <= cells[i].size
    requires n % ALIGN == 0
    ensures Tiles(Taken(cells, i, n), hi) && Coalesced(Taken(cells, i, n))
  {
    var cells', c := Taken(cells, i, n), cells[i];
    assert CellOk(cells, hi, i);
    if c.size >= n + HEADER + SPLIT_THRESHOLD {
      AlignedEnd(c.addr, n, c.size);
      forall j
        ensures CellOk(cells', hi, j) && NoPair(cells', j)
      {
        assert CellOk(cells, hi, j) && CellOk(cells, hi, j - 1) && NoPair(cells, j) && NoPair(cells, j - 1);
        assert j == i + 1 && i + 1 < |cells| ==> NoPair(cells, i);
      }
    } else {
      forall j
        ensures CellOk(cells', hi, j) && NoPair(cells', j)
      {
        assert CellOk(cells, hi, j) && NoPair(cells, j);
      }
    }
  }

  /** What an allocation does to the live cells. */
  lemma TakenLive(cells: seq<Cell>, hi: nat, i: nat, n: nat)
    requires Tiles(cells, hi) && i < |cells| && cells[i].free && n <= cells[i].size
    ensures var c := Taken(cells, i, n)[i];
            && c.addr == cells[i].addr && c.size >= n && !c.free && c !in cells
            && Live(Taken(cells, i, n)) == Live(cells) + {c}
  {
    var cells' := Taken(cells, i, n);
    var c := cells'[i];
    if c in cells {
      var j :| 0 <= j < |cells| && cells[j] == c;
      SameAddress(cells, hi, i, j);
    }
    assert cells == cells[..i] + [cells[i]] + cells[i + 1..];
    forall d
      ensures d in Live(cells') <==> d in Live(cells) + {c}
    {
      assert cells[i + 1..] == cells'[|cells'| - (|cells| - i - 1)..];
      assert cells'[..i] == cells[..i];
      assert cells' == cells'[..i] + cells'[i..|cells'| - (|cells| - i - 1)] + cells'[|cells'| - (|cells| - i - 1)..];
    }
  }

  lemma MergedOk(cells: seq<Cell>, hi: nat, i: nat)
    requires Tiles(cells, hi) && i + 1 < |cells|
    ensures Tiles(Merged(cells, i), hi)
  {
    var cells' := Merged(cells, i);
    assert CellOk(cells, hi, i) && CellOk(cells, hi, i + 1);
    forall j
      ensures CellOk(cells', hi, j)
    {
      assert CellOk(cells, hi, j) && CellOk(cells, hi, j + 1);
    }
  }

  lemma MergedLive(cells: seq<Cell>, i: nat)
    requires i + 1 < |cells| && cells[i].free && cells[i + 1].free
    ensures Live(Merged(cells, i)) == Live(cells)
  {
    var cells' := Merged(cells, i);
    assert cells == cells[..i] + [cells[i], cells[i + 1]] + cells[i + 2..];
    forall d
      ensures d in Live(cells') <==> d in Live(cells)
    {
    }
  }

  /** kfree on cells: mark cell i free, fold in what follows, fold into what precedes. */
  function MarkedFree(cells: seq<Cell>, i: nat): seq<Cell>
    requires i < |cells|
  {
    cells[i := cells[i].(free := true)]
  }

  function Forward(cells: seq<Cell>, i: nat): (r: seq<Cell>)
    requires i < |cells|
    ensures |r| > i
  {
    if i + 1 < |cells| && cells[i + 1].free then Merged(cells, i) else cells
  }

  function Backward(cells: seq<Cell>, i: nat): seq<Cell>
    requires i < |cells|
  {
    if i > 0 && cells[i - 1].free then Merged(cells, i - 1) else cells
  }

  function Freed(cells: seq<Cell>, i: nat): seq<Cell>
    requires i < |cells|
  {
    Backward(Forward(MarkedFree(cells, i), i), i)
  }

  lemma FreedOk(cells: seq<Cell>, hi: nat, i: nat)
    requires Tiles(cells, hi) && Coalesced(cells) && i < |cells| && !cells[i].free
    ensures Tiles(Freed(cells, i), hi) && Coalesced(Freed(cells, i))
  {
    var c1 := MarkedFree(cells, i);
    forall j
      ensures CellOk(c1, hi, j)
    {
      assert CellOk(cells, hi, j);
    }
    var c2 := Forward(c1, i);
    if c2 != c1 {
      MergedOk(c1, hi, i);
    }
    var c3 := Backward(c2, i);
    if i > 0 && c2[i - 1].free {
      MergedOk(c2, hi, i - 1);
    }
    forall j
      ensures NoPair(c3, j)
    {
      assert NoPair(cells, j) && NoPair(cells, j + 1) && NoPair(cells, j + 2) && NoPair(cells, j - 1);
    }
  }

  lemma FreedLive(cells: seq<Cell>, hi: nat, i: nat)
    requires Tiles(cells, hi) && i < |cells| && !cells[i].free
    ensures Live(Freed(cells, i)) == Live(cells) - {cells[i]}
  {
    var c1 := MarkedFree(cells, i);
    forall d
      ensures d in Live(c1) <==> d in Live(cells) && d != cells[i]
    {
      if d in cells && !d.free && d != cells[i] {
        var j :| 0 <= j < |cells| && cells[j] == d;
        assert c1[j] == d;
      }
      if d in c1 && !d.free {
        var j :| 0 <= j < |c1| && c1[j] == d;
        assert cells[j] == d;
        if d == cells[i] {
          SameAddress(cells, hi, i, j);
        }
      }
    }
    if i + 1 < |c1| && c1[i + 1].free {
      MergedLive(c1, i);
    }
    var c2 := Forward(c1, i);
    if i > 0 && c2[i - 1].free {
      MergedLive(c2, i - 1);
    }
  }

  // ---- the linked form ---------------------------------------------------------

  function NextAddr(cells: seq<Cell>, i: int): nat
  {
    if 0 <= i + 1 < |cells| then cells[i + 1].addr else 0
  }

  function PrevAddr(cells: seq<Cell>, i: int): nat
  {
    if 0 <= i - 1 < |cells| then cells[i - 1].addr else 0
  }

  /** The header of cell i is in memory, and next and prev are inverse. */
  ghost predicate HeaderOk(cells: seq<Cell>, mem: map<nat, Block>, i: int)
  {
    0 <= i < |cells| ==>
      && cells[i].addr in mem
      && mem[cells[i].addr] == Block(cells[i].size, cells[i].free, NextAddr(cells, i), PrevAddr(cells, i))
  }

  ghost predicate Linked(cells: seq<Cell>, mem: map<nat, Block>, head: nat, tail: nat)
  {
    && |cells| > 0 && head == cells[0].addr && tail == cells[|cells| - 1].addr
    && forall i {:trigger HeaderOk(cells, mem, i)} :: HeaderOk(cells, mem, i)
  }

  /** Everything a header update needs to know about the addresses. */
  ghost predicate Apart(cells: seq<Cell>)
  {
    && (forall i :: 0 <= i < |cells| ==> cells[i].addr != 0)
    && (forall i, j :: 0 <= i < |cells| && 0 <= j < |cells| && cells[i].addr == cells[j].addr ==> i == j)
  }

  lemma TilesApart(cells: seq<Cell>, hi: nat)
    requires Tiles(cells, hi)
    ensures Apart(cells)
  {
    forall i | 0 <= i < |cells|
      ensures cells[i].addr != 0
    {
      Within(cells, hi, i);
    }
    forall i, j | 0 <= i < |cells| && 0 <= j < |cells| && cells[i].addr == cells[j].addr
      ensures i == j
    {
      SameAddress(cells, hi, i, j);
    }
  }

  /** Headers after folding cell i + 1 into cell i. */
  function MergedMem(cells: seq<Cell>, mem: map<nat, Block>, i: nat): map<nat, Block>
    requires i + 1 < |cells| && HeaderOk(cells, mem, i) && HeaderOk(cells, mem, i + 1)
  {
    var b, n := mem[cells[i].addr], mem[cells[i + 1].addr];
    var mem1 := mem[cells[i].addr := b.(size := b.size + HEADER + n.size, next := n.next)];
    if n.next != 0 && n.next in mem1 then mem1[n.next := mem1[n.next].(prev := cells[i].addr)] else mem1
  }

  lemma MergedLinked(cells: seq<Cell>, mem: map<nat, Block>, head: nat, tail: nat, i: nat)
    requires Linked(cells, mem, head, tail) && Apart(cells) && i + 1 < |cells|
    ensures HeaderOk(cells, mem, i) && HeaderOk(cells, mem, i + 1)
    ensures mem[cells[i + 1].addr].next != 0 ==>
              mem[cells[i + 1].addr].next in mem && mem[cells[i + 1].addr].next != cells[i].addr
    ensures Linked(Merged(cells, i), MergedMem(cells, mem, i), head,
                   if mem[cells[i + 1].addr].next == 0 then cells[i].addr else tail)
  {
    assert HeaderOk(cells, mem, i) && HeaderOk(cells, mem, i + 1) && HeaderOk(cells, mem, i + 2);
    var cells', mem' := Merged(cells, i), MergedMem(cells, mem, i);
    forall j
      ensures HeaderOk(cells', mem', j)
    {
      assert HeaderOk(cells, mem, j) && HeaderOk(cells, mem, j + 1);
    }
  }

  /** Headers after splitting cell i at n bytes and using the front. */
  function SplitMem(cells: seq<Cell>, mem: map<nat, Block>, i: nat, n: nat): map<nat, Block>
    requires i < |cells| && HeaderOk(cells, mem, i) && n + HEADER <= cells[i].size
  {
    var a, b := cells[i].addr, mem[cells[i].addr];
    var s := a + HEADER + n;
    var mem1 := mem[s := Block(b.size - n - HEADER, true, b.next, a)];
    var mem2 := if b.next != 0 && b.next in mem1 then mem1[b.next := mem1[b.next].(prev := s)] else mem1;
    mem2[a := Block(n, false, s, b.prev)]
  }

  lemma SplitLinked(cells: seq<Cell>, mem: map<nat, Block>, head: nat, tail: nat, i: nat, n: nat)
    requires Linked(cells, mem, head, tail) && Apart(cells) && i < |cells|
    requires cells[i].size >= n + HEADER + SPLIT_THRESHOLD
    requires Apart(Taken(cells, i, n))
    ensures var s := cells[i].addr + HEADER + n;
            && HeaderOk(cells, mem, i) && s != 0 && s != cells[i].addr && mem[cells[i].addr].next != s
            && (mem[cells[i].addr].next != 0 ==> mem[cells[i].addr].next in mem && mem[cells[i].addr].next != cells[i].addr)
            && Linked(Taken(cells, i, n), SplitMem(cells, mem, i, n), head, if mem[cells[i].addr].next == 0 then s
                else tail)
  {
    assert HeaderOk(cells, mem, i) && HeaderOk(cells, mem, i + 1);
    var cells', mem' := Taken(cells, i, n), SplitMem(cells, mem, i, n);
    assert cells'[i].addr == cells[i].addr && cells'[i + 1].addr == cells[i].addr + HEADER + n;
    assert i + 1 < |cells| ==> cells'[i + 2] == cells[i + 1];
    forall j
      ensures HeaderOk(cells', mem', j)
    {
      assert HeaderOk(cells, mem, j) && HeaderOk(cells, mem, j - 1);
    }
  }

  /** A header field other than the links. */
  lemma UpdateLinked(cells: seq<Cell>, mem: map<nat, Block>, head: nat, tail: nat, i: nat, size: nat, free: bool)
    requires Linked(cells, mem, head, tail) && Apart(cells) && i < |cells|
    ensures HeaderOk(cells, mem, i)
    ensures Linked(cells[i := Cell(cells[i].addr, size, free)],
                   mem[cells[i].addr := mem[cells[i].addr].(size := size, free := free)], head, tail)
  {
    assert HeaderOk(cells, mem, i);
    var cells', mem' := cells[i := Cell(cells[i].addr, size, free)],
        mem[cells[i].addr := mem[cells[i].addr].(size := size, free := free)];
    forall j
      ensures HeaderOk(cells', mem', j)
    {
      assert HeaderOk(cells, mem, j);
    }
  }

  lemma AppendLinked(cells: seq<Cell>, mem: map<nat, Block>, head: nat, tail: nat, c: Cell)
    requires Linked(cells, mem, head, tail) && Apart(cells + [c])
    ensures HeaderOk(cells, mem, |cells| - 1) && tail in mem && tail != c.addr
    ensures var mem1 := mem[c.addr := Block(c.size, c.free, 0, tail)];
            Linked(cells + [c], mem1[tail := mem1[tail].(next := c.addr)], head, c.addr)
  {
    assert HeaderOk(cells, mem, |cells| - 1);
    var cells' := cells + [c];
    assert cells'[|cells| - 1].addr == tail && cells'[|cells|] == c;
    var mem1 := mem[c.addr := Block(c.size, c.free, 0, tail)];
    var mem' := mem1[tail := mem1[tail].(next := c.addr)];
    forall j
      ensures HeaderOk(cells', mem', j)
    {
      assert HeaderOk(cells, mem, j);
      assert 0 <= j < |cells| ==> cells'[j] == cells[j];
    }
  }

  /** Growth: the free tail absorbs the region, or a new free cell is added. */
  function Grown(cells: seq<Cell>, bytes: nat): seq<Cell>
    requires |cells| > 0 && bytes >= HEADER
  {
    var last := |cells| - 1;
    if cells[last].free then cells[last := cells[last].(size := cells[last].size + bytes)]
    else cells + [Cell(End(cells[last]), bytes - HEADER, true)]
  }

  lemma GrownOk(cells: seq<Cell>, hi: nat, bytes: nat)
    requires Tiles(cells, hi) && Coalesced(cells) && bytes >= HEADER && bytes % ALIGN == 0 && hi % ALIGN == 0
    ensures Tiles(Grown(cells, bytes), hi + bytes) && Coalesced(Grown(cells, bytes))
    ensures Live(Grown(cells, bytes)) == Live(cells)
  {
    var last, cells' := |cells| - 1, Grown(cells, bytes);
    assert CellOk(cells, hi, last);
    var hi' := hi + bytes;
    forall j
      ensures CellOk(cells', hi', j) && NoPair(cells', j)
    {
      assert CellOk(cells, hi, j) && NoPair(cells, j) && NoPair(cells, j - 1);
      assert !cells[last].free && j == last ==> cells'[last + 1] == Cell(hi, bytes - HEADER, true);
    }
    forall d
      ensures d in Live(cells') <==> d in Live(cells)
    {
      assert cells == cells[..last] + [cells[last]];
      assert cells'[..last] == cells[..last];
      assert cells[last].free ==> cells' == cells'[..last] + [cells'[last]];
    }
  }

  /** The size kmalloc works with, in 64-bit arithmetic. */
  function Rounded(size: nat): nat
  {
    (size + (ALIGN - 1)) % U64 / ALIGN * ALIGN
  }

  /** The rounding keeps its promise exactly below the wrap-around: a larger
      request is rounded to zero bytes. */
  lemma RoundedIff(size: nat)
    requires 0 < size < U64
    ensures Rounded(size) % ALIGN == 0
    ensures Rounded(size) >= size <==> size <= U64 - ALIGN
    ensures size <= U64 - ALIGN ==> Rounded(size) < size + ALIGN
    ensures size > U64 - ALIGN ==> Rounded(size) == 0
  {
    var r := size + (ALIGN - 1);
    if size > U64 - ALIGN {
      assert r % U64 == r - U64;
      assert 0 <= r - U64 < ALIGN && (r - U64) / ALIGN == 0;
    } else {
      assert r % U64 == r;
      assert r / ALIGN * ALIGN + r % ALIGN == r;
    }
  }

  class Heap {
    var mem: map<nat, Block>
    var head: nat
    var tail: nat
    var heapEnd: nat
    /** An upper bound on the pages that can still be mapped. */
    var available: nat
    ghost var cells: seq<Cell>
    /** Whether the last growth attempt ran into a refused frame or mapping, and how
        many pages it mapped. */
    ghost var denied: bool
    ghost var lastMapped: nat

    ghost predicate Valid()
      reads this
    {
      && Tiles(cells, heapEnd) && Coalesced(cells) && Linked(cells, mem, head, tail)
      && heapEnd % PAGE == 0 && heapEnd + available * PAGE <= HEAP_LIMIT
    }

    /** heap_grow: the frame allocator or the mapping may refuse at any page. */
    method Grow(pages: nat) returns (mapped: nat)
      modifies this`heapEnd, this`available, this`denied, this`lastMapped
      ensures mapped <= pages && mapped <= old(available)
      ensures heapEnd == old(heapEnd) + mapped * PAGE && available == old(available) - mapped
      ensures (denied <==> mapped < pages) && lastMapped == mapped
    {
      mapped, denied := 0, false;
      while mapped < pages
        invariant mapped <= pages && mapped <= old(available) && !denied
        invariant heapEnd == old(heapEnd) + mapped * PAGE && available == old(available) - mapped
      {
        var granted: bool := *;
        if available == 0 || !granted {
          denied := true;
          break;
        }
        heapEnd := heapEnd + PAGE;
        available := available - 1;
        mapped := mapped + 1;
      }
      lastMapped := mapped;
    }

    /** heap_init, when at least one page could be mapped. */
    constructor (available: nat)
      requires 0 < available && HEAP_BASE + available * PAGE <= HEAP_LIMIT
      ensures Valid() && Live(cells) == {} && |cells| == 1
    {
      var pages := if available < INITIAL_PAGES then available else INITIAL_PAGES;
      var size := pages * PAGE - HEADER;
      head, tail, heapEnd := HEAP_BASE, HEAP_BASE, HEAP_BASE + pages * PAGE;
      mem := map[HEAP_BASE := Block(size, true, 0, 0)];
      this.available := available - pages;
      cells, denied, lastMapped := [Cell(HEAP_BASE, size, true)], false, pages;
    }

    /** list_append on the pages that Grow just mapped. */
    method ListAppend(start: nat, bytes: nat)
      requires Tiles(cells, start) && Coalesced(cells) && Linked(cells, mem, head, tail)
      requires heapEnd == start + bytes && bytes >= HEADER && bytes % ALIGN == 0 && start % ALIGN == 0
      requires heapEnd % PAGE == 0
      requires heapEnd + available * PAGE <= HEAP_LIMIT
      modifies this`mem, this`tail, this`cells
      ensures Valid() && cells == Grown(old(cells), bytes) && Live(cells) == Live(old(cells))
    {
      GrownOk(cells, start, bytes);
      GrownLinked(cells, mem, head, tail, start, bytes);
      hide Tiles, Coalesced, Linked, Live, Grown;
      if mem[tail].free {
        mem := mem[tail := mem[tail].(size := mem[tail].size + bytes)];
      } else {
        mem := mem[start := Block(bytes - HEADER, true, 0, tail)];
        mem := mem[tail := mem[tail].(next := start)];
        tail := start;
      }
      cells := Grown(cells, bytes);
    }

    /** The search of kmalloc: the first free block that is large enough. */
    method FindFit(n: nat) returns (b: nat, ghost i: nat)
      requires Valid()
      ensures b == 0 ==> forall j :: 0 <= j < |cells| ==> !(cells[j].free && cells[j].size >= n)
      ensures b != 0 ==> && i < |cells| && cells[i].addr == b && cells[i].free && cells[i].size >= n
                         && forall j :: 0 <= j < i ==> !(cells[j].free && cells[j].size >= n)
    {
      TilesApart(cells, heapEnd);
      hide Tiles, Coalesced;
      b, i := head, 0;
      while b != 0
        invariant i <= |cells| && b == (if i < |cells| then cells[i].addr else 0)
        invariant forall j :: 0 <= j < i ==> !(cells[j].free && cells[j].size >= n)
        decreases |cells| - i
      {
        assert HeaderOk(cells, mem, i);
        if mem[b].free && mem[b].size >= n {
          return;
        }
        b := mem[b].next;
        i := i + 1;
      }
    }

    /** The rest of kmalloc once a block fits: split it if the rest is useful. */
    method Use(b: nat, n: nat, ghost i: nat)
      requires Valid() && i < |cells| && cells[i].addr == b && cells[i].free && n <= cells[i].size && n % ALIGN == 0
      modifies this`mem, this`tail, this`cells
      ensures Valid() && cells == Taken(old(cells), i, n)
    {
      TakenOk(cells, heapEnd, i, n);
      TilesApart(cells, heapEnd);
      TilesApart(Taken(cells, i, n), heapEnd);
      assert HeaderOk(cells, mem, i);
      ghost var cells' := Taken(cells, i, n);
      if mem[b].size >= n + HEADER + SPLIT_THRESHOLD {
        SplitLinked(cells, mem, head, tail, i, n);
        hide Tiles, Coalesced, Linked, Apart, Taken, HeaderOk;
        var split := b + HEADER + n;
        mem := mem[split := Block(mem[b].size - n - HEADER, true, mem[b].next, b)];
        if mem[b].next != 0 {
          mem := mem[mem[b].next := mem[mem[b].next].(prev := split)];
        } else {
          tail := split;
        }
        mem := mem[b := mem[b].(size := n, next := split)];
        mem := mem[b := mem[b].(free := false)];
        assert mem == SplitMem(cells, old(mem), i, n);
      } else {
        UpdateLinked(cells, mem, head, tail, i, cells[i].size, false);
        hide Tiles, Coalesced, Linked, Apart;
        mem := mem[b := mem[b].(free := false)];
      }
      cells := cells';
    }

    /** kmalloc: a new live block whose payload is disjoint from all others and
        holds the rounded size; null for size 0, and otherwise only when no free
        block fits and the last growth attempt mapped no page.  That attempt was
        refused, unless the page count wrapped to zero.  The loop ends because
        every retry uses up pages. */
    method Malloc(size: nat) returns (p: nat)
      requires Valid() && size < U64
      modifies this
      ensures Valid()
      ensures size == 0 ==> p == 0 && cells == old(cells)
      ensures p == 0 ==> Live(cells) == Live(old(cells))
      ensures p == 0 && size != 0 ==>
                && lastMapped == 0 && (denied <==> !LastPage(Rounded(size)))
                && forall c :: c in cells && c.free ==> c.size < Rounded(size)
      ensures p != 0 ==> Rounded(size) + HEADER <= heapEnd - HEAP_BASE
      ensures p != 0 ==> p >= HEADER && exists c: Cell :: Allocated(old(cells), cells, c, p, Rounded(size))
    {
      if size == 0 {
        return 0;
      }
      RoundedIff(size);
      var n := Rounded(size);
      assert n % ALIGN == 0;
      hide Tiles, Coalesced, Linked, Rounded, Live, Taken, Grown, Allocated;
      while true
        invariant Valid() && Live(cells) == Live(old(cells))
        decreases available
      {
        var b;
        ghost var i;
        b, i := FindFit(n);
        if b != 0 {
          p := b + HEADER;
          NewCell(old(cells), cells, heapEnd, i, n, p);
          Use(b, n, i);
          return;
        }
        var needed := (n + HEADER + (PAGE - 1)) % U64 / PAGE;
        var oldEnd := heapEnd;
        var mapped := Grow(needed);
        if mapped == 0 {
          NeededPages(n);
          return 0;
        }
        GrowArithmetic(oldEnd, mapped);
        ListAppend(oldEnd, mapped * PAGE);
      }
    }

    /** kfree of a live block: it and nothing else stops being live. */
    method Free(p: nat, ghost i: nat)
      requires Valid()
      requires p != 0 ==> i < |cells| && !cells[i].free && p == cells[i].addr + HEADER
      modifies this`mem, this`tail, this`cells
      ensures Valid()
      ensures p == 0 ==> cells == old(cells)
      ensures p != 0 ==> cells == Freed(old(cells), i) && Live(cells) == Live(old(cells)) - {old(cells)[i]}
    {
      if p == 0 {
        return;
      }
      FreedOk(cells, heapEnd, i);
      FreedLive(cells, heapEnd, i);
      ghost var c1 := MarkedFree(cells, i);
      MarkedTiles(cells, heapEnd, i);
      TilesApart(cells, heapEnd);
      UpdateLinked(cells, mem, head, tail, i, cells[i].size, true);
      hide Tiles, Coalesced, Linked, Apart, Live, Merged;
      var b := p - HEADER;
      mem := mem[b := mem[b].(free := true)];
      cells := c1;
      if i + 1 < |cells| && cells[i + 1].free {
        MergedOk(cells, heapEnd, i);
      }
      FoldNext(b, i);
      FoldPrev(b, i);
    }

    /** The forward half of coalescing. */
    method FoldNext(b: nat, ghost i: nat)
      requires Tiles(cells, heapEnd) && Linked(cells, mem, head, tail) && i < |cells| && cells[i].addr == b
      modifies this`mem, this`tail, this`cells
      ensures Tiles(cells, heapEnd) && Linked(cells, mem, head, tail) && cells == Forward(old(cells), i)
      ensures cells[i].addr == b
    {
      TilesApart(cells, heapEnd);
      assert HeaderOk(cells, mem, i) && HeaderOk(cells, mem, i + 1);
      assert i + 1 < |cells| ==> cells[i + 1].addr != 0;
      if mem[b].next != 0 && mem[mem[b].next].free {
        MergedOk(cells, heapEnd, i);
        MergedLinked(cells, mem, head, tail, i);
        hide Tiles, Linked, Apart, HeaderOk, Merged;
        var n := mem[b].next;
        Absorb(b, n, i);
      }
    }

    /** The backward half of coalescing. */
    method FoldPrev(b: nat, ghost i: nat)
      requires Tiles(cells, heapEnd) && Linked(cells, mem, head, tail) && i < |cells| && cells[i].addr == b
      modifies this`mem, this`tail, this`cells
      ensures Tiles(cells, heapEnd) && Linked(cells, mem, head, tail) && cells == Backward(old(cells), i)
    {
      TilesApart(cells, heapEnd);
      assert HeaderOk(cells, mem, i) && HeaderOk(cells, mem, i - 1);
      assert i > 0 ==> cells[i - 1].addr != 0;
      if mem[b].prev != 0 && mem[mem[b].prev].free {
        MergedOk(cells, heapEnd, i - 1);
        MergedLinked(cells, mem, head, tail, i - 1);
        hide Tiles, Linked, Apart, HeaderOk, Merged;
        var p := mem[b].prev;
        Absorb(p, b, i - 1);
      }
    }

    /** Fold the block n that follows b into b. */
    method Absorb(b: nat, n: nat, ghost i: nat)
      requires i + 1 < |cells| && cells[i].addr == b && cells[i + 1].addr == n
      requires HeaderOk(cells, mem, i) && HeaderOk(cells, mem, i + 1)
      requires mem[n].next != 0 ==> mem[n].next in mem && mem[n].next != b
      requires b != n
      modifies this`mem, this`tail, this`cells
      ensures mem == MergedMem(old(cells), old(mem), i)
      ensures tail == if old(mem)[n].next == 0 then b else old(tail)
      ensures cells == Merged(old(cells), i)
    {
      hide Merged;
      mem := mem[b := mem[b].(size := mem[b].size + HEADER + mem[n].size)];
      mem := mem[b := mem[b].(next := mem[n].next)];
      if mem[n].next != 0 {
        mem := mem[mem[n].next := mem[mem[n].next].(prev := b)];
      } else {
        tail := b;
      }
      cells := Merged(cells, i);
    }
  }

  /** c is the block behind p: new, the only new live block, large enough, and with less
      than a header and 16 bytes to spare, so that the rest of the cell it was cut from is
      free; no free block below it would have been large enough. */
  ghost predicate Allocated(before: seq<Cell>, after: seq<Cell>, c: Cell, p: nat, n: nat)
  {
    && c.addr + 32 == p && p % 16 == 0 && n <= c.size < n + 32 + 16
    && c !in Live(before) && Live(after) == Live(before) + {c}
    && forall d :: d in after && d.free && d.addr < c.addr ==> d.size < n
  }

  /** The cells below the one that is used are what they were. */
  lemma TakenBelow(cells: seq<Cell>, hi: nat, i: nat, n: nat)
    requires Tiles(cells, hi) && i < |cells| && n <= cells[i].size
    ensures Taken(cells, i, n)[i].size < n + 32 + 16
    ensures forall d :: d in Taken(cells, i, n) && d.addr < cells[i].addr ==> exists j :: 0 <= j < i && cells[j] == d
  {
    var cells' := Taken(cells, i, n);
    forall d | d in cells' && d.addr < cells[i].addr
      ensures exists j :: 0 <= j < i && cells[j] == d
    {
      var j :| 0 <= j < |cells'| && cells'[j] == d;
      if j > i {
        var k := if |cells'| > |cells| then j - 1 else j;
        if k > i {
          Ordered(cells, hi, i, k);
        }
      }
    }
  }

  lemma NewCell(before: seq<Cell>, cells: seq<Cell>, hi: nat, i: nat, n: nat, p: nat)
    requires i < |cells| && p == cells[i].addr + HEADER && Tiles(cells, hi) && i < |cells| && cells[i].free
    requires n <= cells[i].size && Live(cells) == Live(before)
    requires forall j :: 0 <= j < i ==> !(cells[j].free && cells[j].size >= n)
    ensures exists c: Cell :: Allocated(before, Taken(cells, i, n), c, p, n)
    ensures n + HEADER <= hi - HEAP_BASE
  {
    TakenLive(cells, hi, i, n);
    Within(cells, hi, i);
    assert CellOk(cells, hi, i);
    var c := Taken(cells, i, n)[i];
    assert c !in Live(cells);
    TakenBelow(cells, hi, i, n);
    hide Live, Taken;
    assert Allocated(before, Taken(cells, i, n), c, p, n);
  }

  lemma MarkedTiles(cells: seq<Cell>, hi: nat, i: nat)
    requires Tiles(cells, hi) && i < |cells|
    ensures Tiles(MarkedFree(cells, i), hi)
  {
    var c1 := MarkedFree(cells, i);
    forall j
      ensures CellOk(c1, hi, j)
    {
      assert CellOk(cells, hi, j);
    }
  }

  /** With its header the block would end in the last page of the address space. */
  predicate LastPage(n: nat)
  {
    U64 - PAGE < n + HEADER <= U64
  }

  /** The page count that kmalloc asks for wraps to zero for exactly these. */
  lemma NeededPages(n: nat)
    requires n < U64
    ensures (n + HEADER + (PAGE - 1)) % U64 / PAGE == 0 <==> LastPage(n)
  {
    var x := n + HEADER + (PAGE - 1);
    assert x % U64 == if x < U64 then x else x - U64;
  }

  lemma PageAligned(x: nat)
    requires x % PAGE == 0
    ensures x % ALIGN == 0
  {
  }

  lemma PageSum(x: nat, y: nat)
    requires x % PAGE == 0 && y % PAGE == 0
    ensures (x + y) % PAGE == 0
  {
  }

  lemma WholePages(n: nat)
    ensures n * PAGE % PAGE == 0
  {
  }

  lemma GrowArithmetic(start: nat, mapped: nat)
    requires start % PAGE == 0 && mapped > 0
    ensures start % ALIGN == 0 && (mapped * PAGE) % ALIGN == 0 && mapped * PAGE >= HEADER
    ensures (start + mapped * PAGE) % PAGE == 0
  {
    WholePages(mapped);
    PageAligned(start);
    PageAligned(mapped * PAGE);
    PageSum(start, mapped * PAGE);
  }

  lemma GrownLinked(cells: seq<Cell>, mem: map<nat, Block>, head: nat, tail: nat, start: nat, bytes: nat)
    requires Tiles(cells, start) && Linked(cells, mem, head, tail) && bytes >= HEADER
    requires Tiles(Grown(cells, bytes), start + bytes)
    ensures tail in mem && tail != start
    ensures mem[tail].free ==>
              Linked(Grown(cells, bytes), mem[tail := mem[tail].(size := mem[tail].size + bytes)], head, tail)
    ensures !mem[tail].free ==> var mem1 := mem[start := Block(bytes - HEADER, true, 0, tail)];
                                Linked(Grown(cells, bytes), mem1[tail := mem1[tail].(next := start)], head, start)
  {
    var last := |cells| - 1;
    TilesApart(cells, start);
    TilesApart(Grown(cells, bytes), start + bytes);
    LastTail(cells, mem, head, tail);
    assert CellOk(cells, start, last);
    if mem[tail].free {
      UpdateLinked(cells, mem, head, tail, last, cells[last].size + bytes, true);
    } else {
      AppendLinked(cells, mem, head, tail, Cell(start, bytes - HEADER, true));
    }
  }

  lemma LastTail(cells: seq<Cell>, mem: map<nat, Block>, head: nat, tail: nat)
    requires Linked(cells, mem, head, tail)
    ensures |cells| > 0 && tail == cells[|cells| - 1].addr && tail in mem
    ensures mem[tail].size == cells[|cells| - 1].size && mem[tail].free == cells[|cells| - 1].free
  {
    assert HeaderOk(cells, mem, |cells| - 1);
  }

  // ---- whole runs ----------------------------------------------------------------

  datatype Request = Alloc(size: nat) | Release(k: nat)

  /** `ptrs` are exactly the pointers the callers still hold, each once, and
      `owners` the blocks behind them. */
  ghost predicate Holds(cells: seq<Cell>, ptrs: seq<nat>, owners: seq<Cell>)
  {
    && |ptrs| == |owners|
    && (forall k :: 0 <= k < |ptrs| ==> ptrs[k] == owners[k].addr + HEADER)
    && (forall c :: c in Live(cells) <==> c in owners)
    && (forall j, k :: 0 <= j < k < |owners| ==> owners[j] != owners[k])
  }

  lemma HoldsMore(before: seq<Cell>, after: seq<Cell>, ptrs: seq<nat>, owners: seq<Cell>, p: nat, n: nat, c: Cell)
    requires Holds(before, ptrs, owners) && Allocated(before, after, c, p, n)
    ensures Holds(after, ptrs + [p], owners + [c])
  {
    hide Live;
    assert c !in owners;
  }

  lemma HoldsLess(before: seq<Cell>, after: seq<Cell>, ptrs: seq<nat>, owners: seq<Cell>, k: nat)
    requires Holds(before, ptrs, owners) && k < |ptrs| && Live(after) == Live(before) - {owners[k]}
    ensures Holds(after, ptrs[..k] + ptrs[k + 1..], owners[..k] + owners[k + 1..])
  {
    hide Live;
    var rest := owners[..k] + owners[k + 1..];
    assert owners == owners[..k] + [owners[k]] + owners[k + 1..];
    assert owners[k] !in rest;
  }

  /** Free the k-th pointer held. */
  method Drop(h: Heap, ptrs: seq<nat>, k: nat, ghost owners: seq<Cell>) returns (rest: seq<nat>, ghost left: seq<Cell>)
    requires h.Valid() && Holds(h.cells, ptrs, owners) && k < |ptrs|
    modifies h
    ensures h.Valid() && Holds(h.cells, rest, left) && |rest| == |ptrs| - 1
  {
    hide Tiles, Coalesced, Linked, Freed;
    assert owners[k] in Live(h.cells);
    ghost var i :| 0 <= i < |h.cells| && h.cells[i] == owners[k];
    ghost var before := h.cells;
    h.Free(ptrs[k], i);
    HoldsLess(before, h.cells, ptrs, owners, k);
    rest, left := ptrs[..k] + ptrs[k + 1..], owners[..k] + owners[k + 1..];
  }

  /** Any sequence of allocations and frees, and then freeing what is left, ends
      with a single free block. */
  method Session(available: nat, requests: seq<Request>) returns (h: Heap)
    requires 0 < available && HEAP_BASE + available * PAGE <= HEAP_LIMIT
    requires forall r :: r in requests && r.Alloc? ==> r.size < U64
    ensures h.Valid() && |h.cells| == 1 && h.cells[0].free && End(h.cells[0]) == h.heapEnd
  {
    hide Tiles, Coalesced, Linked, Live, Rounded;
    h := new Heap(available);
    var ptrs: seq<nat> := [];
    ghost var owners: seq<Cell> := [];
    var j := 0;
    while j < |requests|
      invariant 0 <= j <= |requests| && fresh(h) && h.Valid() && Holds(h.cells, ptrs, owners)
    {
      match requests[j] {
      case Alloc(size) =>
        ghost var before := h.cells;
        assert requests[j] in requests;
        var p := h.Malloc(size);
        if p != 0 {
          ghost var c :| Allocated(before, h.cells, c, p, Rounded(size));
          HoldsMore(before, h.cells, ptrs, owners, p, Rounded(size), c);
          ptrs, owners := ptrs + [p], owners + [c];
        }
      case Release(k) =>
        if k < |ptrs| {
          ptrs, owners := Drop(h, ptrs, k, owners);
        }
      }
      j := j + 1;
    }
    while |ptrs| > 0
      invariant fresh(h) && h.Valid() && Holds(h.cells, ptrs, owners)
      decreases |ptrs|
    {
      ptrs, owners := Drop(h, ptrs, |ptrs| - 1, owners);
    }
    assert Live(h.cells) == {};
    AllFreeIsOne(h.cells, h.heapEnd);
  }
}
