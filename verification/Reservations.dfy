/** The reservation table of a user address space (kernel/memory/uvm.c): a
    bounded table of reserved ranges, a bump-allocated mmap arena and a bounded
    list of freed holes.

    The table refines the relation "page p is reserved with flags f". */
module Reservations {
  import opened PageTables

  const MAX_VMAS: nat := 64
  const MAX_HOLES: nat := 16
  const PAGE: nat := 4096
  const U64: nat := 0x1_0000_0000_0000_0000
  const USER_VA_MIN: nat := 0x1000
  const USER_VA_MAX: nat := 0x7F00_0000_0000
  const USER_STACK_TOP: nat := 0x7FFF_FFFF_E000
  const USER_STACK_LOW: nat := USER_STACK_TOP - 512 * 4096
  const MMAP_BASE: nat := 0x7000_0000
  const MMAP_LIMIT: nat := 0x8000_0000
  const SHMEM_BASE: nat := 0x8000_0000

  datatype Vma = Vma(start: nat, end: nat, flags: Flags, used: bool)
  datatype Hole = Hole(base: nat, len: nat)

  const NO_VMA := Vma(0, 0, NO_FLAGS, false)
  const NO_HOLE := Hole(0, 0)

  /** uvm_range_ok, with the 64-bit wrap-around of base + bytes. */
  predicate RangeOk(base: nat, bytes: nat)
  {
    var sum := (base + bytes) % U64;
    && bytes != 0 && base >= USER_VA_MIN
    && sum >= base && sum <= USER_VA_MAX
    && !(base < USER_STACK_TOP && sum > USER_STACK_LOW)
  }

  lemma Wrap(a: nat, b: nat)
    requires a < U64 && b < U64
    ensures (a + b) % U64 == if a + b < U64 then a + b else a + b - U64
  {
  }

  lemma AlignedSum(a: nat, b: nat)
    requires a % PAGE == 0 && b % PAGE == 0
    ensures (a + b) % PAGE == 0
  {
  }

  /** On 64-bit values the wrap test makes the check mean what it says: a
      non-empty range inside the user half, clear of the stack. */
  lemma RangeOkMeans(base: nat, bytes: nat)
    requires base < U64 && bytes < U64
    ensures RangeOk(base, bytes) <==> 0 < bytes && USER_VA_MIN <= base && base + bytes <= USER_VA_MAX
  {
    Wrap(base, bytes);
  }

  // ---- the abstract relation -------------------------------------------------

  predicate Covers(v: Vma, p: nat)
  {
    v.used && v.start <= p < v.end
  }

  ghost predicate Reserved(vmas: seq<Vma>, p: nat, f: Flags)
  {
    exists i :: 0 <= i < |vmas| && Covers(vmas[i], p) && vmas[i].flags == f
  }

  ghost predicate Taken(vmas: seq<Vma>, p: nat)
  {
    exists i :: 0 <= i < |vmas| && Covers(vmas[i], p)
  }

  predicate Apart(v: Vma, w: Vma)
  {
    v.used && w.used ==> v.end <= w.start || w.end <= v.start
  }

  predicate VmaOk(v: Vma)
  {
    v.used ==> v.start < v.end && v.start % PAGE == 0 && v.end % PAGE == 0 && !v.flags.shared
  }

  /** Well-formed table: non-empty, page-aligned, pairwise disjoint ranges. */
  ghost predicate TableOk(vmas: seq<Vma>)
  {
    && |vmas| == MAX_VMAS
    && (forall i :: 0 <= i < |vmas| ==> VmaOk(vmas[i]))
    && (forall i, j :: 0 <= i < j < |vmas| ==> Apart(vmas[i], vmas[j]))
  }

  /** Disjointness makes the relation a function of the page. */
  /** Every record is well formed; they may overlap. */
  ghost predicate TableForm(vmas: seq<Vma>)
  {
    |vmas| == MAX_VMAS && forall i :: 0 <= i < |vmas| ==> VmaOk(vmas[i])
  }

  /** The record that vma_at answers for p: the first one that covers it. */
  ghost predicate Governs(vmas: seq<Vma>, p: nat, v: Vma)
  {
    exists i :: 0 <= i < |vmas| && Covers(vmas[i], p) && vmas[i] == v && forall k :: 0 <= k < i ==> !Covers(vmas[k], p)
  }

  lemma GovernsUnique(vmas: seq<Vma>, p: nat, v: Vma, w: Vma)
    requires Governs(vmas, p, v) && Governs(vmas, p, w)
    ensures v == w
  {
    var i :| 0 <= i < |vmas| && Covers(vmas[i], p) && vmas[i] == v && forall k :: 0 <= k < i ==> !Covers(vmas[k], p);
    var j :| 0 <= j < |vmas| && Covers(vmas[j], p) && vmas[j] == w && forall k :: 0 <= k < j ==> !Covers(vmas[k], p);
    assert i == j;
  }

  lemma ReservedUnique(vmas: seq<Vma>, p: nat, f: Flags, g: Flags)
    requires TableOk(vmas) && Reserved(vmas, p, f) && Reserved(vmas, p, g)
    ensures f == g
  {
    var i :| 0 <= i < |vmas| && Covers(vmas[i], p) && vmas[i].flags == f;
    var j :| 0 <= j < |vmas| && Covers(vmas[j], p) && vmas[j].flags == g;
    assert i == j;
  }

  ghost predicate InHole(holes: seq<Hole>, p: nat)
  {
    exists i :: 0 <= i < |holes| && Inside(holes[i], p)
  }

  predicate Inside(h: Hole, p: nat)
  {
    h.base <= p < h.base + h.len
  }

  /** Neither overlapping nor adjacent. */
  predicate Separate(h: Hole, k: Hole)
  {
    h.len > 0 && k.len > 0 ==> h.base + h.len < k.base || k.base + k.len < h.base
  }

  predicate HoleOk(h: Hole, next: nat)
  {
    h.len > 0 ==> MMAP_BASE <= h.base && h.base + h.len <= next && h.base % PAGE == 0 && (h.base + h.len) % PAGE == 0
  }

  ghost predicate HolesOk(holes: seq<Hole>, next: nat)
  {
    AllSeparate(holes) && AllHoleOk(holes, next)
  }

  /** Every arena address the allocator may still hand out is unreserved. */
  ghost predicate ArenaFree(vmas: seq<Vma>, holes: seq<Hole>, next: nat)
  {
    forall p: nat {:trigger Taken(vmas, p)} :: Taken(vmas, p) ==> !InHole(holes, p) && !(next <= p < MMAP_LIMIT)
  }

  /** The free list has room for one more range: an unused entry, or a hole the
      range overlaps or touches. */
  ghost predicate Storable(holes: seq<Hole>, base: nat, bytes: nat)
  {
    exists i :: 0 <= i < |holes| && (holes[i].len == 0 || !Separate(holes[i], Hole(base, bytes)))
  }

  /** The first hole a request fits. */
  ghost predicate FirstFit(holes: seq<Hole>, bytes: nat, i: nat)
  {
    i < |holes| && holes[i].len >= bytes && forall k :: 0 <= k < i ==> holes[k].len < bytes
  }

  ghost predicate NoFit(holes: seq<Hole>, bytes: nat)
  {
    forall i :: 0 <= i < |holes| ==> holes[i].len < bytes
  }

  /** The free list and the bump pointer stay inside the arena, whatever is called. */
  ghost predicate ArenaForm(holes: seq<Hole>, next: nat)
  {
    MMAP_BASE <= next <= MMAP_LIMIT && next % PAGE == 0 && HolesOk(holes, MMAP_LIMIT)
  }

  lemma ArenaFormed(vmas: seq<Vma>, holes: seq<Hole>, next: nat)
    requires ArenaOk(vmas, holes, next)
    ensures ArenaForm(holes, next)
  {
    forall i | 0 <= i < |holes|
      ensures HoleOk(holes[i], MMAP_LIMIT)
    {
      assert HoleOk(holes[i], next);
    }
  }

  /** The arena invariant. */
  ghost predicate ArenaOk(vmas: seq<Vma>, holes: seq<Hole>, next: nat)
  {
    && MMAP_BASE <= next <= MMAP_LIMIT && next % PAGE == 0
    && HolesOk(holes, next)
    && ArenaFree(vmas, holes, next)
  }

  /** What an allocation promises: the arena stays inside its bounds, and while
      it is sound what it hands out is unreserved and no longer free. */
  ghost predicate Handed(vmas: seq<Vma>, h0: seq<Hole>, n0: nat, h1: seq<Hole>, n1: nat, bytes: nat, base: nat)
  {
    && (ArenaForm(h0, n0) ==>
          && ArenaForm(h1, n1)
          && (base == 0 <==> NoFit(h0, bytes) && n0 + bytes > MMAP_LIMIT)
          && (base != 0 ==> MMAP_BASE <= base && base + bytes <= MMAP_LIMIT && base % PAGE == 0))
    && (ArenaOk(vmas, h0, n0) ==>
          && ArenaOk(vmas, h1, n1)
          && (base == 0 <==> NoFit(h0, bytes) && n0 + bytes > MMAP_LIMIT)
          && (base != 0 ==>
                && MMAP_BASE <= base && base + bytes <= n1 && base % PAGE == 0
                && (forall p :: base <= p < base + bytes ==> !Taken(vmas, p) && !InHole(h1, p))))
  }

  /** Number of non-empty holes in a prefix. */
  function Live(holes: seq<Hole>): (n: nat)
    ensures n <= |holes|
  {
    if holes == [] then 0 else (if holes[|holes| - 1].len > 0 then 1 else 0) + Live(holes[..|holes| - 1])
  }

  lemma {:induction false} LiveClear(holes: seq<Hole>, i: nat, h: Hole)
    requires i < |holes| && holes[i].len > 0 && h.len == 0
    ensures Live(holes[i := h]) == Live(holes) - 1
  {
    var n := |holes| - 1;
    if i < n {
      LiveClear(holes[..n], i, h);
      assert holes[i := h][..n] == holes[..n][i := h];
    } else {
      assert holes[i := h][..n] == holes[..n];
    }
  }

  class ReservationTable {
    var vmas: seq<Vma>
    var holes: seq<Hole>
    var nextVa: nat

    /** uvm_init */
    constructor ()
      ensures TableOk(vmas) && ArenaOk(vmas, holes, nextVa)
      ensures forall p :: !Taken(vmas, p)
      ensures nextVa == MMAP_BASE && (forall i :: 0 <= i < MAX_HOLES ==> holes[i] == NO_HOLE) && !vmas[0].used
    {
      vmas := seq(MAX_VMAS, _ => NO_VMA);
      holes := seq(MAX_HOLES, _ => NO_HOLE);
      nextVa := MMAP_BASE;
    }

    /** vma_at */
    method VmaAt(p: nat) returns (r: Option<Vma>)
      requires |vmas| == MAX_VMAS
      ensures r.Some? <==> Taken(vmas, p)
      ensures r.Some? ==> Governs(vmas, p, r.value) && Covers(r.value, p) && Reserved(vmas, p, r.value.flags)
    {
      var i := 0;
      while i < MAX_VMAS
        invariant 0 <= i <= MAX_VMAS
        invariant forall k :: 0 <= k < i ==> !Covers(vmas[k], p)
      {
        if Covers(vmas[i], p) {
          return Some(vmas[i]);
        }
        i := i + 1;
      }
      return None;
    }

    /** vma_free_slot: the lowest unused record. */
    method FreeSlot() returns (r: Option<nat>)
      requires |vmas| == MAX_VMAS
      ensures r.None? <==> forall k :: 0 <= k < MAX_VMAS ==> vmas[k].used
      ensures r.Some? ==> r.value < MAX_VMAS && !vmas[r.value].used
                          && forall k :: 0 <= k < r.value ==> vmas[k].used
    {
      var i := 0;
      while i < MAX_VMAS
        invariant 0 <= i <= MAX_VMAS
        invariant forall k :: 0 <= k < i ==> vmas[k].used
      {
        if !vmas[i].used {
          return Some(i);
        }
        i := i + 1;
      }
      return None;
    }

    /** The record scan of range_is_unmapped. */
    method Overlaps(base: nat, bytes: nat) returns (hit: bool)
      requires |vmas| == MAX_VMAS && bytes > 0 && forall k :: 0 <= k < MAX_VMAS ==> VmaOk(vmas[k])
      ensures hit <==> exists p :: base <= p < base + bytes && Taken(vmas, p)
    {
      var end := base + bytes;
      var i := 0;
      while i < MAX_VMAS
        invariant 0 <= i <= MAX_VMAS
        invariant forall k, p :: 0 <= k < i && base <= p < end ==> !Covers(vmas[k], p)
      {
        var v := vmas[i];
        if v.used && base < v.end && end > v.start {
          ghost var p := if base < v.start then v.start else base;
          assert VmaOk(vmas[i]) && Covers(vmas[i], p) && Taken(vmas, p);
          return true;
        }
        i := i + 1;
      }
      return false;
    }

    /** The merging loop of hole_add: absorb every hole that overlaps or touches
        the range, starting the scan over after each merge.  It ends because each
        merge empties a hole. */
    method Absorb(base0: nat, bytes: nat) returns (base: nat, end: nat)
      requires AllSeparate(holes) && bytes > 0
      modifies this`holes
      ensures AllSeparate(holes) && base < end
      ensures forall k :: 0 <= k < MAX_HOLES ==> Separate(holes[k], Hole(base, end - base))
      ensures SameCover(old(holes), base0, base0 + bytes, holes, base, end)
      ensures || (exists k :: 0 <= k < MAX_HOLES && holes[k].len == 0)
              || (holes == old(holes) && base == base0 && end == base0 + bytes)
      ensures (exists k :: 0 <= k < MAX_HOLES && holes[k].len == 0) ==> Storable(old(holes), base0, bytes)
      ensures StaysOk(old(holes), base0, base0 + bytes, holes, base, end)
    {
      hide SameCover, HoleOk, AllHoleOk, Live, StaysOk;
      base, end := base0, base0 + bytes;
      CoverRefl(holes, base, end);
      StaysRefl(holes, base, end);
      ghost var merged := false;
      var i := 0;
      while i < MAX_HOLES
        invariant 0 <= i <= MAX_HOLES && AllSeparate(holes) && base < end
        invariant forall k :: 0 <= k < i ==> Separate(holes[k], Hole(base, end - base))
        invariant SameCover(old(holes), base0, base0 + bytes, holes, base, end)
        invariant if merged then exists k :: 0 <= k < MAX_HOLES && holes[k].len == 0
                  else holes == old(holes) && base == base0 && end == base0 + bytes
        invariant merged ==> exists k :: 0 <= k < MAX_HOLES && !Separate(old(holes)[k], Hole(base0, bytes))
        invariant StaysOk(old(holes), base0, base0 + bytes, holes, base, end)
        decreases Live(holes), MAX_HOLES - i
      {
        var h := holes[i];
        if h.len == 0 || h.base + h.len < base || h.base > end {
          i := i + 1;
        } else {
          LiveClear(holes, i, NO_HOLE);
          assert !merged ==> !Separate(old(holes)[i], Hole(base0, bytes));
          MergeStep(holes, i, base, end);
          ghost var hs, lo, hi := holes, base, end;
          base := if h.base < base then h.base else base;
          end := if h.base + h.len > end then h.base + h.len else end;
          holes := holes[i := NO_HOLE];
          CoverTrans(old(holes), base0, base0 + bytes, hs, lo, hi, holes, base, end);
          assert holes[i].len == 0;
          StaysMerged(old(holes), base0, base0 + bytes, hs, lo, hi, i);
          merged := true;
          i := 0;
        }
      }
    }

    /** hole_add: merge, then store the union in the first free slot; with no
        free slot the range is dropped. */
    method HoleAdd(base0: nat, bytes: nat) returns (ghost stored: bool)
      requires AllSeparate(holes) && bytes > 0
      modifies this`holes
      ensures AllSeparate(holes)
      ensures forall p: nat :: InHole(holes, p) <==> InHole(old(holes), p) || (stored && base0 <= p < base0 + bytes)
      ensures stored <==> Storable(old(holes), base0, bytes)
      ensures !stored ==> holes == old(holes)
      ensures forall n: nat {:trigger AllHoleOk(holes, n)} ::
                AllHoleOk(old(holes), n) && HoleOk(Hole(base0, bytes), n) ==> AllHoleOk(holes, n)
    {
      var base, end := Absorb(base0, bytes);
      ghost var hs := holes;
      var i := 0;
      while i < MAX_HOLES
        invariant 0 <= i <= MAX_HOLES && holes == hs
        invariant forall k :: 0 <= k < i ==> holes[k].len > 0
      {
        if holes[i].len == 0 {
          StoreHole(hs, i, base, end);
          holes := holes[i := Hole(base, end - base)];
          forall p: nat
            ensures InHole(holes, p) <==> InHole(old(holes), p) || base0 <= p < base0 + bytes
          {
            assert Cover(hs, base, end, p) <==> Cover(old(holes), base0, base0 + bytes, p);
          }
          forall n: nat | AllHoleOk(old(holes), n) && HoleOk(Hole(base0, bytes), n)
            ensures AllHoleOk(holes, n)
          {
            assert RangeIn(base0, base0 + bytes, n) && RangeIn(base, end, n);
          }
          stored := true;
          return;
        }
        i := i + 1;
      }
      stored := false;
    }

    /** arena_alloc: first hole that fits, else the bump pointer. */
    method ArenaAlloc(bytes: nat) returns (base: nat)
      requires |holes| == MAX_HOLES && nextVa < U64 && 0 < bytes < U64 && bytes % PAGE == 0
      modifies this`holes, this`nextVa
      ensures forall i: nat {:trigger FirstFit(old(holes), bytes, i)} :: FirstFit(old(holes), bytes, i) ==>
                var h := old(holes)[i];
                base == h.base && holes == old(holes)[i := Hole(h.base + bytes, h.len - bytes)] && nextVa == old(nextVa)
      ensures NoFit(old(holes), bytes) ==>
                && holes == old(holes)
                && (if old(nextVa) + bytes <= MMAP_LIMIT then base == old(nextVa) && nextVa == base + bytes
                    else base == 0 && nextVa == old(nextVa))
      ensures Handed(vmas, old(holes), old(nextVa), holes, nextVa, bytes, base)
    {
      hide Handed;
      var i := 0;
      while i < MAX_HOLES
        invariant 0 <= i <= MAX_HOLES && holes == old(holes)
        invariant forall k :: 0 <= k < i ==> holes[k].len < bytes
      {
        var h := holes[i];
        if h.len == 0 || h.len < bytes {
          i := i + 1;
          continue;
        }
        assert FirstFit(holes, bytes, i);
        HoleHanded(vmas, holes, nextVa, bytes, i);
        holes := holes[i := Hole(h.base + bytes, h.len - bytes)];
        return h.base;
      }
      base := nextVa;
      var end := (base + bytes) % U64;
      Wrap(base, bytes);
      NextHanded(vmas, holes, nextVa, bytes);
      if end < base || end > MMAP_LIMIT {
        return 0;
      }
      nextVa := end;
    }

    /** vma_remove_range: drop [start, end) from every record.  A hole strictly
        inside one record needs a second record; without a free one the call
        fails before changing anything. */
    method RemoveRange(start: nat, end: nat) returns (ok: bool)
      requires TableForm(vmas) && start < end && start % PAGE == 0 && end % PAGE == 0
      modifies this`vmas
      ensures TableForm(vmas)
      ensures ok ==> forall p: nat, f {:trigger Reserved(vmas, p, f)} ::
                Reserved(vmas, p, f) ==> Reserved(old(vmas), p, f) && !(start <= p < end)
      // while records are disjoint they stay so, and nothing else is dropped
      ensures old(TableOk(vmas)) ==> TableOk(vmas)
      ensures ok && old(TableOk(vmas)) ==> forall p: nat, f {:trigger Reserved(vmas, p, f)} ::
                Reserved(vmas, p, f) <==> Reserved(old(vmas), p, f) && !(start <= p < end)
      ensures !ok <==> (forall k :: 0 <= k < MAX_VMAS ==> old(vmas)[k].used) &&
                       exists k :: 0 <= k < MAX_VMAS && StrictlyInside(old(vmas)[k], start, end)
      ensures !ok ==> vmas == old(vmas)
    {
      hide Reserved, TableForm, TableOk;
      var split: Option<nat> := None;
      var i := 0;
      FormLength(vmas);
      while i < MAX_VMAS
        invariant 0 <= i <= MAX_VMAS && split.None?
        invariant forall k :: 0 <= k < i ==> !StrictlyInside(vmas[k], start, end)
      {
        if StrictlyInside(vmas[i], start, end) {
          split := FreeSlot();
          if split.None? {
            return false;
          }
          break;
        }
        i := i + 1;
      }
      ghost var first, hit: nat := i, 0;
      ghost var v0, found := vmas, false;

      i := 0;
      while i < MAX_VMAS
        invariant 0 <= i <= MAX_VMAS && |vmas| == MAX_VMAS
        invariant forall k :: 0 <= k < MAX_VMAS && !(split.Some? && k == split.value) ==>
                    vmas[k] == if k < i then CutLeft(v0[k], start, end) else v0[k]
        invariant found ==> hit < MAX_VMAS && StrictlyInside(v0[hit], start, end)
        invariant split.Some? ==> vmas[split.value] == if found then RightPart(v0[hit], end) else v0[split.value]
        invariant split.Some? && first < i ==> found
      {
        var v := vmas[i];
        if !v.used || start >= v.end || end <= v.start {
          // untouched
        } else if start <= v.start && end >= v.end {
          vmas := vmas[i := NO_VMA];
        } else if start <= v.start {
          vmas := vmas[i := v.(start := end)];
        } else if end >= v.end {
          vmas := vmas[i := v.(end := start)];
        } else {
          assert StrictlyInside(v0[i], start, end);
          vmas := vmas[split.value := Vma(end, v.end, v.flags, true)][i := v.(end := start)];
          hit, found := i, true;
        }
        i := i + 1;
      }
      CutForm(v0, vmas, start, end, hit, split);
      if TableOk(v0) {
        OnlyOneInside(v0, start, end, hit);
        CutMeaning(v0, vmas, start, end, hit, split);
      }
      ok := true;
    }

    /** The records with these permissions that end at `start` and start at `end`. */
    method Neighbours(start: nat, end: nat, flags: Flags) returns (below: Option<nat>, above: Option<nat>)
      requires |vmas| == MAX_VMAS && start < end && forall k :: 0 <= k < MAX_VMAS && vmas[k].used ==> vmas[k].start < vmas[k].end
      ensures if below.Some? then
                below.value < MAX_VMAS && vmas[below.value].used && vmas[below.value].flags == flags && vmas[below.value].end == start
              else !EndsAt(vmas, flags, start)
      ensures if above.Some? then
                above.value < MAX_VMAS && vmas[above.value].used && vmas[above.value].flags == flags && vmas[above.value].start == end
              else !StartsAt(vmas, flags, end)
    {
      below, above := None, None;
      var i := 0;
      while i < MAX_VMAS
        invariant 0 <= i <= MAX_VMAS
        invariant if below.Some? then
                    below.value < i && vmas[below.value].used && vmas[below.value].flags == flags && vmas[below.value].end == start
                  else !EndsAt(vmas[..i], flags, start)
        invariant if above.Some? then
                    above.value < i && vmas[above.value].used && vmas[above.value].flags == flags && vmas[above.value].start == end
                  else !StartsAt(vmas[..i], flags, end)
      {
        var v := vmas[i];
        assert vmas[..i + 1] == vmas[..i] + [v];
        if v.used && v.flags == flags {
          if v.end == start {
            below := Some(i);
          } else if v.start == end {
            above := Some(i);
          }
        }
        i := i + 1;
      }
      assert vmas[..i] == vmas;
    }

    /** The tail of uvm_reserve: record a free range, growing a neighbour with
        equal permissions instead of spending a record, and joining two of them
        when the range bridges the gap. */
    method Insert(base: nat, bytes: nat, flags: Flags, slot: nat)
      requires TableForm(vmas) && bytes > 0 && base % PAGE == 0 && (base + bytes) % PAGE == 0 && !flags.shared
      requires slot < MAX_VMAS && !vmas[slot].used
      modifies this`vmas
      ensures TableForm(vmas)
      // inserting where nothing is reserved keeps records disjoint
      ensures old(TableOk(vmas)) && (forall p: nat :: base <= p < base + bytes ==> !Taken(old(vmas), p)) ==>
                TableOk(vmas)
      ensures forall p: nat, f {:trigger Reserved(vmas, p, f)} ::
                Reserved(vmas, p, f) <==> Reserved(old(vmas), p, f) || (base <= p < base + bytes && f == flags)
      // at most one record is spent
      ensures forall k :: 0 <= k < MAX_VMAS && k != slot && !old(vmas)[k].used ==> !vmas[k].used
      // and only when no record with these permissions touches the range
      ensures vmas[slot].used <==> !Touches(old(vmas), flags, base, base + bytes)
      // a range between two such records gives one of them back
      ensures EndsAt(old(vmas), flags, base) && StartsAt(old(vmas), flags, base + bytes) ==>
                exists k :: 0 <= k < MAX_VMAS && old(vmas)[k].used && !vmas[k].used
    {
      var below, above := Neighbours(base, base + bytes, flags);
      ghost var v0 := vmas;
      ghost var free := TableOk(v0) && forall p: nat :: base <= p < base + bytes ==> !Taken(v0, p);
      if free {
        RangeApart(v0, base, bytes);
      }
      if below.Some? && above.Some? {
        var v := vmas[above.value];
        JoinMeaning(v0, base, bytes, flags, below.value, above.value);
        if free {
          JoinDisjoint(v0, base, bytes, flags, below.value, above.value);
        }
        vmas := vmas[below.value := vmas[below.value].(end := v.end)][above.value := NO_VMA];
      } else if below.Some? {
        GrowMeaning(v0, base, bytes, flags, below.value, v0[below.value].(end := base + bytes));
        if free {
          GrowDisjoint(v0, base, bytes, flags, below.value, v0[below.value].(end := base + bytes));
        }
        vmas := vmas[below.value := vmas[below.value].(end := base + bytes)];
      } else if above.Some? {
        GrowMeaning(v0, base, bytes, flags, above.value, v0[above.value].(start := base));
        if free {
          GrowDisjoint(v0, base, bytes, flags, above.value, v0[above.value].(start := base));
        }
        vmas := vmas[above.value := vmas[above.value].(start := base)];
      } else {
        GrowMeaning(v0, base, bytes, flags, slot, Vma(base, base + bytes, flags, true));
        if free {
          GrowDisjoint(v0, base, bytes, flags, slot, Vma(base, base + bytes, flags, true));
        }
        vmas := vmas[slot := Vma(base, base + bytes, flags, true)];
      }
    }
  }

  ghost predicate EndsAt(vmas: seq<Vma>, flags: Flags, p: nat)
  {
    exists k :: 0 <= k < |vmas| && vmas[k].used && vmas[k].flags == flags && vmas[k].end == p
  }

  ghost predicate StartsAt(vmas: seq<Vma>, flags: Flags, p: nat)
  {
    exists k :: 0 <= k < |vmas| && vmas[k].used && vmas[k].flags == flags && vmas[k].start == p
  }

  /** A record with the same permissions ends where the range starts, or starts where it
      ends. */
  ghost predicate Touches(vmas: seq<Vma>, flags: Flags, start: nat, end: nat)
  {
    EndsAt(vmas, flags, start) || StartsAt(vmas, flags, end)
  }

  /** Two states of the merge cover the same addresses. */
  ghost predicate SameCover(h0: seq<Hole>, lo0: nat, hi0: nat, h1: seq<Hole>, lo1: nat, hi1: nat)
  {
    forall p: nat {:trigger Cover(h1, lo1, hi1, p)} :: Cover(h1, lo1, hi1, p) <==> Cover(h0, lo0, hi0, p)
  }

  lemma CoverRefl(h: seq<Hole>, lo: nat, hi: nat)
    ensures SameCover(h, lo, hi, h, lo, hi)
  {
  }

  lemma CoverTrans(h0: seq<Hole>, lo0: nat, hi0: nat, h1: seq<Hole>, lo1: nat, hi1: nat, h2: seq<Hole>, lo2: nat,
                   hi2: nat)
    requires SameCover(h0, lo0, hi0, h1, lo1, hi1) && SameCover(h1, lo1, hi1, h2, lo2, hi2)
    ensures SameCover(h0, lo0, hi0, h2, lo2, hi2)
  {
  }

  ghost predicate AllSeparate(holes: seq<Hole>)
  {
    |holes| == MAX_HOLES && forall i, j :: 0 <= i < j < |holes| ==> Separate(holes[i], holes[j])
  }

  ghost predicate AllHoleOk(holes: seq<Hole>, next: nat)
  {
    forall i :: 0 <= i < |holes| ==> HoleOk(holes[i], next)
  }

  /** The addresses of the holes together with a range in hand. */
  ghost predicate Cover(holes: seq<Hole>, lo: nat, hi: nat, p: nat)
  {
    InHole(holes, p) || lo <= p < hi
  }

  /** Absorbing a touching hole keeps the covered addresses. */
  /** The range may stand in the list when the bump pointer is n. */
  ghost predicate RangeIn(lo: nat, hi: nat, n: nat)
  {
    lo < hi && HoleOk(Hole(lo, hi - lo), n)
  }

  /** Merging keeps holes and range below any bound they were below. */
  ghost predicate StaysOk(h0: seq<Hole>, lo0: nat, hi0: nat, h1: seq<Hole>, lo1: nat, hi1: nat)
  {
    forall n: nat {:trigger RangeIn(lo0, hi0, n)} {:trigger RangeIn(lo1, hi1, n)} ::
      AllHoleOk(h0, n) && RangeIn(lo0, hi0, n) ==> AllHoleOk(h1, n) && RangeIn(lo1, hi1, n)
  }

  lemma StaysRefl(h: seq<Hole>, lo: nat, hi: nat)
    ensures StaysOk(h, lo, hi, h, lo, hi)
  {
  }

  lemma StaysMerged(h0: seq<Hole>, lo0: nat, hi0: nat, holes: seq<Hole>, lo: nat, hi: nat, i: nat)
    requires StaysOk(h0, lo0, hi0, holes, lo, hi) && i < |holes| && lo < hi
    requires holes[i].len > 0 && lo <= holes[i].base + holes[i].len && holes[i].base <= hi
    ensures var h := holes[i];
            var lo' := if h.base < lo then h.base else lo;
            var hi' := if h.base + h.len > hi then h.base + h.len else hi;
            StaysOk(h0, lo0, hi0, holes[i := NO_HOLE], lo', hi')
  {
    var h := holes[i];
    var lo' := if h.base < lo then h.base else lo;
    var hi' := if h.base + h.len > hi then h.base + h.len else hi;
    forall n: nat | AllHoleOk(h0, n) && RangeIn(lo0, hi0, n)
      ensures AllHoleOk(holes[i := NO_HOLE], n) && RangeIn(lo', hi', n)
    {
      assert AllHoleOk(holes, n) && RangeIn(lo, hi, n);
      assert HoleOk(holes[i], n);
    }
  }

  lemma MergeStep(holes: seq<Hole>, i: nat, lo: nat, hi: nat)
    requires AllSeparate(holes) && i < MAX_HOLES && lo < hi
    requires holes[i].len > 0 && lo <= holes[i].base + holes[i].len && holes[i].base <= hi
    ensures var h := holes[i];
            var lo' := if h.base < lo then h.base else lo;
            var hi' := if h.base + h.len > hi then h.base + h.len else hi;
            && AllSeparate(holes[i := NO_HOLE])
            && SameCover(holes, lo, hi, holes[i := NO_HOLE], lo', hi')
  {
    var after := holes[i := NO_HOLE];
    forall p: nat
      ensures InHole(holes, p) <==> InHole(after, p) || Inside(holes[i], p)
    {
      if InHole(holes, p) {
        var k :| 0 <= k < |holes| && Inside(holes[k], p);
        assert k != i ==> Inside(after[k], p);
      }
      if InHole(after, p) {
        var k :| 0 <= k < |after| && Inside(after[k], p);
        assert Inside(holes[k], p);
      }
    }
  }

  lemma StoreHole(holes: seq<Hole>, i: nat, lo: nat, hi: nat)
    requires AllSeparate(holes) && i < MAX_HOLES && lo < hi && holes[i].len == 0
    requires forall k :: 0 <= k < MAX_HOLES ==> Separate(holes[k], Hole(lo, hi - lo))
    ensures AllSeparate(holes[i := Hole(lo, hi - lo)])
    ensures forall p: nat :: InHole(holes[i := Hole(lo, hi - lo)], p) <==> Cover(holes, lo, hi, p)
  {
    var after := holes[i := Hole(lo, hi - lo)];
    forall p: nat
      ensures InHole(after, p) <==> Cover(holes, lo, hi, p)
    {
      assert Inside(after[i], p) <==> lo <= p < hi;
      if InHole(holes, p) {
        var k :| 0 <= k < |holes| && Inside(holes[k], p);
        assert Inside(after[k], p);
      }
      if InHole(after, p) {
        var k :| 0 <= k < |after| && Inside(after[k], p);
        assert k != i ==> Inside(holes[k], p);
      }
    }
  }

  /** Sixteen single pages with a page between each two. */
  function EveryOther(): (holes: seq<Hole>)
    ensures |holes| == MAX_HOLES && forall i :: 0 <= i < MAX_HOLES ==> holes[i] == Hole(MMAP_BASE + 2 * i * PAGE, PAGE)
  {
    seq(MAX_HOLES, i requires 0 <= i < MAX_HOLES => Hole(MMAP_BASE + 2 * i * PAGE, PAGE))
  }

  /** A sound arena whose free list is full: the next page that is released apart
      from the others is not recorded, and its addresses are never handed out again. */
  lemma ListFull(vmas: seq<Vma>)
    requires forall p :: !Taken(vmas, p)
    ensures ArenaOk(vmas, EveryOther(), MMAP_BASE + 64 * PAGE) && !Storable(EveryOther(), MMAP_BASE + 40 * PAGE, PAGE)
  {
    var holes, next := EveryOther(), MMAP_BASE + 64 * PAGE;
    forall i | 0 <= i < |holes|
      ensures HoleOk(holes[i], next) && Separate(holes[i], Hole(MMAP_BASE + 40 * PAGE, PAGE))
    {
    }
  }

  /** Separate holes that cover exactly one range are one hole. */
  lemma OnlyHole(holes: seq<Hole>, base: nat, bytes: nat) returns (k: nat)
    requires AllSeparate(holes) && bytes > 0
    requires forall p: nat :: InHole(holes, p) <==> base <= p < base + bytes
    ensures k < |holes| && holes[k] == Hole(base, bytes)
    ensures forall j :: 0 <= j < |holes| && j != k ==> holes[j].len == 0
  {
    assert InHole(holes, base);
    k :| k < |holes| && Inside(holes[k], base);
    forall j | 0 <= j < |holes| && holes[j].len > 0
      ensures base <= holes[j].base && holes[j].base + holes[j].len <= base + bytes
    {
      var h := holes[j];
      assert Inside(h, h.base) && Inside(h, h.base + h.len - 1);
      assert InHole(holes, h.base) && InHole(holes, h.base + h.len - 1);
    }
    var next := base + holes[k].len;
    // a hole containing the next address would touch this one
    assert next < base + bytes ==> InHole(holes, next);
  }

  lemma FormLength(vmas: seq<Vma>)
    requires TableForm(vmas)
    ensures |vmas| == MAX_VMAS
  {
  }

  lemma ShrinkForm(holes: seq<Hole>, limit: nat, i: nat, bytes: nat)
    requires HolesOk(holes, limit) && i < MAX_HOLES && 0 < bytes <= holes[i].len && bytes % PAGE == 0
    ensures var h := holes[i];
            && HolesOk(holes[i := Hole(h.base + bytes, h.len - bytes)], limit)
            && MMAP_BASE <= h.base && h.base + bytes <= limit && h.base % PAGE == 0
  {
    var h := holes[i];
    assert HoleOk(h, limit);
    AlignedSum(h.base, bytes);
  }

  lemma ShrinkHole(vmas: seq<Vma>, holes: seq<Hole>, next: nat, i: nat, bytes: nat)
    requires ArenaOk(vmas, holes, next) && i < MAX_HOLES && 0 < bytes <= holes[i].len && bytes % PAGE == 0
    ensures var h := holes[i];
            var after := holes[i := Hole(h.base + bytes, h.len - bytes)];
            && ArenaOk(vmas, after, next)
            && MMAP_BASE <= h.base && h.base + bytes <= next && h.base % PAGE == 0
            && forall p: nat :: h.base <= p < h.base + bytes ==> !Taken(vmas, p) && !InHole(after, p)
  {
    var h := holes[i];
    var after := holes[i := Hole(h.base + bytes, h.len - bytes)];
    assert HoleOk(h, next);
    AlignedSum(h.base, bytes);
    forall p: nat, k: nat | k < MAX_HOLES && Inside(after[k], p)
      ensures Inside(holes[k], p) && !(h.base <= p < h.base + bytes)
    {
      assert k < i ==> Separate(holes[k], holes[i]);
      assert i < k ==> Separate(holes[i], holes[k]);
    }
    forall p: nat | h.base <= p < h.base + bytes
      ensures InHole(holes, p)
    {
      assert Inside(holes[i], p);
    }
  }

  lemma BumpArena(vmas: seq<Vma>, holes: seq<Hole>, next: nat, bytes: nat)
    requires ArenaOk(vmas, holes, next) && 0 < bytes && next + bytes <= MMAP_LIMIT && bytes % PAGE == 0
    ensures ArenaOk(vmas, holes, next + bytes)
    ensures forall p: nat :: next <= p < next + bytes ==> !Taken(vmas, p) && !InHole(holes, p)
  {
    AlignedSum(next, bytes);
    forall p: nat, k: nat | next <= p && k < MAX_HOLES
      ensures !Inside(holes[k], p)
    {
      assert HoleOk(holes[k], next);
    }
    forall i | 0 <= i < |holes|
      ensures HoleOk(holes[i], next + bytes)
    {
      assert HoleOk(holes[i], next);
    }
  }

  /** The front of the first hole that is large enough. */
  lemma HoleHanded(vmas: seq<Vma>, holes: seq<Hole>, next: nat, bytes: nat, i: nat)
    requires |holes| == MAX_HOLES && FirstFit(holes, bytes, i) && 0 < bytes && bytes % PAGE == 0
    ensures var h := holes[i];
            Handed(vmas, holes, next, holes[i := Hole(h.base + bytes, h.len - bytes)], next, bytes, h.base)
  {
    hide HolesOk, ArenaFree, InHole, Taken;
    if ArenaOk(vmas, holes, next) {
      ShrinkHole(vmas, holes, next, i, bytes);
      ArenaFormed(vmas, holes, next);
    }
    if ArenaForm(holes, next) {
      ShrinkForm(holes, MMAP_LIMIT, i, bytes);
    }
  }

  /** Without such a hole, the range above the bump pointer or nothing. */
  lemma NextHanded(vmas: seq<Vma>, holes: seq<Hole>, next: nat, bytes: nat)
    requires NoFit(holes, bytes) && 0 < bytes && bytes % PAGE == 0
    ensures if next + bytes <= MMAP_LIMIT then Handed(vmas, holes, next, holes, next + bytes, bytes, next)
            else Handed(vmas, holes, next, holes, next, bytes, 0)
  {
    hide HolesOk, ArenaFree, InHole, Taken;
    if next + bytes <= MMAP_LIMIT && ArenaOk(vmas, holes, next) {
      BumpArena(vmas, holes, next, bytes);
    }
    if ArenaForm(holes, next) {
      AlignedSum(next, bytes);
    }
  }

  // ---- removal -----------------------------------------------------------------

  predicate StrictlyInside(v: Vma, start: nat, end: nat)
  {
    v.used && start > v.start && end < v.end
  }

  /** What stays of a record in its own slot. */
  function CutLeft(v: Vma, start: nat, end: nat): Vma
  {
    if !v.used || start >= v.end || end <= v.start then v
    else if start <= v.start && end >= v.end then NO_VMA
    else if start <= v.start then v.(start := end)
    else v.(end := start)
  }

  function RightPart(v: Vma, end: nat): Vma
  {
    Vma(end, v.end, v.flags, true)
  }

  lemma OnlyOneInside(vmas: seq<Vma>, start: nat, end: nat, hit: nat)
    requires TableOk(vmas) && start < end
    ensures hit < MAX_VMAS && StrictlyInside(vmas[hit], start, end) ==>
              forall k :: 0 <= k < MAX_VMAS && StrictlyInside(vmas[k], start, end) ==> k == hit
  {
    forall k | 0 <= k < MAX_VMAS && k != hit && hit < MAX_VMAS
      ensures !(StrictlyInside(vmas[k], start, end) && StrictlyInside(vmas[hit], start, end))
    {
      assert k < hit ==> Apart(vmas[k], vmas[hit]);
      assert hit < k ==> Apart(vmas[hit], vmas[k]);
    }
  }

  /** The table v1 obtained from v0 by cutting every record, the right part of
      the split one going to the spare slot. */
  ghost predicate IsCut(v0: seq<Vma>, v1: seq<Vma>, start: nat, end: nat, hit: nat, split: Option<nat>)
  {
    && |v1| == MAX_VMAS && |v0| == MAX_VMAS
    && (forall k :: 0 <= k < MAX_VMAS && !(split.Some? && k == split.value) ==> v1[k] == CutLeft(v0[k], start, end))
    && (if split.Some? then
          && split.value < MAX_VMAS && !v0[split.value].used && hit < MAX_VMAS
          && StrictlyInside(v0[hit], start, end) && v1[split.value] == RightPart(v0[hit], end)
        else forall k :: 0 <= k < MAX_VMAS ==> !StrictlyInside(v0[k], start, end))
  }

  lemma CutForm(v0: seq<Vma>, v1: seq<Vma>, start: nat, end: nat, hit: nat, split: Option<nat>)
    requires TableForm(v0) && start < end && start % PAGE == 0 && end % PAGE == 0
    requires IsCut(v0, v1, start, end, hit, split)
    ensures TableForm(v1)
    ensures forall p: nat, f {:trigger Reserved(v1, p, f)} ::
              Reserved(v1, p, f) ==> Reserved(v0, p, f) && !(start <= p < end)
  {
    forall k | 0 <= k < MAX_VMAS
      ensures VmaOk(v1[k])
    {
      assert VmaOk(v0[k]) && (split.Some? ==> VmaOk(v0[hit]));
    }
    forall p: nat, f | Reserved(v1, p, f)
      ensures Reserved(v0, p, f) && !(start <= p < end)
    {
      CutKeeps(v0, v1, start, end, hit, split, p, f);
    }
  }

  lemma CutMeaning(v0: seq<Vma>, v1: seq<Vma>, start: nat, end: nat, hit: nat, split: Option<nat>)
    requires TableOk(v0) && start < end && start % PAGE == 0 && end % PAGE == 0
    requires IsCut(v0, v1, start, end, hit, split)
    requires forall k :: 0 <= k < MAX_VMAS && split.Some? && StrictlyInside(v0[k], start, end) ==> k == hit
    ensures TableOk(v1)
    ensures forall p: nat, f {:trigger Reserved(v1, p, f)} ::
              Reserved(v1, p, f) <==> Reserved(v0, p, f) && !(start <= p < end)
  {
    forall i, j | 0 <= i < j < MAX_VMAS
      ensures Apart(v1[i], v1[j])
    {
      assert Apart(v0[i], v0[j]);
      assert split.Some? && hit < i ==> Apart(v0[hit], v0[i]);
      assert split.Some? && i < hit ==> Apart(v0[i], v0[hit]);
      assert split.Some? && hit < j ==> Apart(v0[hit], v0[j]);
      assert split.Some? && j < hit ==> Apart(v0[j], v0[hit]);
    }
    forall p: nat, f
      ensures Reserved(v1, p, f) <==> Reserved(v0, p, f) && !(start <= p < end)
    {
      CutPoint(v0, v1, start, end, hit, split, p, f);
    }
  }

  lemma CutPoint(v0: seq<Vma>, v1: seq<Vma>, start: nat, end: nat, hit: nat, split: Option<nat>, p: nat, f: Flags)
    requires TableOk(v0) && start < end && IsCut(v0, v1, start, end, hit, split)
    requires forall k :: 0 <= k < MAX_VMAS && split.Some? && StrictlyInside(v0[k], start, end) ==> k == hit
    ensures Reserved(v1, p, f) <==> Reserved(v0, p, f) && !(start <= p < end)
  {
    assert TableForm(v0);
    hide *;
    if Reserved(v1, p, f) {
      CutKeeps(v0, v1, start, end, hit, split, p, f);
    }
    if Reserved(v0, p, f) && !(start <= p < end) {
      CutDropsOnly(v0, v1, start, end, hit, split, p, f);
    }
  }

  lemma CutKeeps(v0: seq<Vma>, v1: seq<Vma>, start: nat, end: nat, hit: nat, split: Option<nat>, p: nat, f: Flags)
    requires TableForm(v0) && start < end && IsCut(v0, v1, start, end, hit, split) && Reserved(v1, p, f)
    ensures Reserved(v0, p, f) && !(start <= p < end)
  {
    var k :| 0 <= k < |v1| && Covers(v1[k], p) && v1[k].flags == f;
    if split.Some? && k == split.value {
      assert Covers(v0[hit], p);
    } else {
      assert Covers(v0[k], p);
    }
  }

  lemma CutDropsOnly(v0: seq<Vma>, v1: seq<Vma>, start: nat, end: nat, hit: nat, split: Option<nat>, p: nat, f: Flags)
    requires TableOk(v0) && start < end && IsCut(v0, v1, start, end, hit, split) && Reserved(v0, p, f)
    requires !(start <= p < end)
    requires forall k :: 0 <= k < MAX_VMAS && split.Some? && StrictlyInside(v0[k], start, end) ==> k == hit
    ensures Reserved(v1, p, f)
  {
    var k :| 0 <= k < |v0| && Covers(v0[k], p) && v0[k].flags == f;
    if split.Some? && k == hit && p >= end {
      assert Covers(v1[split.value], p);
    } else {
      assert Covers(v1[k], p);
    }
  }

  // ---- insertion ---------------------------------------------------------------

  lemma RangeApart(vmas: seq<Vma>, base: nat, bytes: nat)
    requires TableOk(vmas) && bytes > 0
    requires forall p: nat :: base <= p < base + bytes ==> !Taken(vmas, p)
    ensures forall k :: 0 <= k < MAX_VMAS && vmas[k].used ==> vmas[k].end <= base || base + bytes <= vmas[k].start
  {
    forall k | 0 <= k < MAX_VMAS && vmas[k].used
      ensures vmas[k].end <= base || base + bytes <= vmas[k].start
    {
      var p := if base < vmas[k].start then vmas[k].start else base;
      assert VmaOk(vmas[k]);
      assert Covers(vmas[k], p) ==> Taken(vmas, p);
    }
  }

  /** A record w that replaces record k (or a spare one) and covers exactly the
      new range more. */
  lemma GrowMeaning(v0: seq<Vma>, base: nat, bytes: nat, flags: Flags, k: nat, w: Vma)
    requires TableForm(v0) && k < MAX_VMAS && bytes > 0 && VmaOk(w) && w.used && w.flags == flags
    requires if v0[k].used then
               || (v0[k].end == base && w == v0[k].(end := base + bytes))
               || (v0[k].start == base + bytes && w == v0[k].(start := base))
             else w.start == base && w.end == base + bytes
    ensures TableForm(v0[k := w])
    ensures forall p: nat, f {:trigger Reserved(v0[k := w], p, f)} ::
              Reserved(v0[k := w], p, f) <==> Reserved(v0, p, f) || (base <= p < base + bytes && f == flags)
  {
    var v1 := v0[k := w];
    assert VmaOk(v0[k]);
    forall p: nat, f
      ensures Reserved(v1, p, f) <==> Reserved(v0, p, f) || (base <= p < base + bytes && f == flags)
    {
      assert Covers(v1[k], p) <==> Covers(v0[k], p) || base <= p < base + bytes;
      if Reserved(v0, p, f) {
        var j :| 0 <= j < |v0| && Covers(v0[j], p) && v0[j].flags == f;
        assert Covers(v1[j], p) && v1[j].flags == f;
      }
      if Reserved(v1, p, f) {
        var j :| 0 <= j < |v1| && Covers(v1[j], p) && v1[j].flags == f;
        assert j != k ==> Covers(v0[j], p);
      }
    }
  }

  lemma GrowDisjoint(v0: seq<Vma>, base: nat, bytes: nat, flags: Flags, k: nat, w: Vma)
    requires TableOk(v0) && k < MAX_VMAS && bytes > 0 && VmaOk(w) && w.used && w.flags == flags
    requires forall j :: 0 <= j < MAX_VMAS && v0[j].used ==> v0[j].end <= base || base + bytes <= v0[j].start
    requires if v0[k].used then
               || (v0[k].end == base && w == v0[k].(end := base + bytes))
               || (v0[k].start == base + bytes && w == v0[k].(start := base))
             else w.start == base && w.end == base + bytes
    ensures TableOk(v0[k := w])
  {
    var v1 := v0[k := w];
    assert VmaOk(v0[k]);
    forall i, j | 0 <= i < j < MAX_VMAS
      ensures Apart(v1[i], v1[j])
    {
      assert Apart(v0[i], v0[j]) && VmaOk(v0[i]) && VmaOk(v0[j]);
    }
  }

  lemma ApartBoth(vmas: seq<Vma>, i: nat, j: nat)
    requires TableOk(vmas) && i < MAX_VMAS && j < MAX_VMAS && i != j
    ensures Apart(vmas[i], vmas[j]) && Apart(vmas[j], vmas[i])
  {
    assert i < j ==> Apart(vmas[i], vmas[j]);
    assert j < i ==> Apart(vmas[j], vmas[i]);
  }

  lemma JoinApart(below: Vma, above: Vma, v: Vma, base: nat, bytes: nat)
    requires below.used && above.used && below.end == base && above.start == base + bytes && bytes > 0
    requires VmaOk(v) && VmaOk(below) && VmaOk(above)
    requires Apart(below, v) && Apart(above, v) && (v.used ==> v.end <= base || base + bytes <= v.start)
    ensures Apart(below.(end := above.end), v) && Apart(v, below.(end := above.end))
  {
  }

  /** Bridging two equal-permission neighbours into one record. */
  lemma JoinMeaning(v0: seq<Vma>, base: nat, bytes: nat, flags: Flags, b: nat, a: nat)
    requires TableForm(v0) && a < MAX_VMAS && b < MAX_VMAS && bytes > 0
    requires v0[b].used && v0[b].flags == flags && v0[b].end == base
    requires v0[a].used && v0[a].flags == flags && v0[a].start == base + bytes
    ensures var v1 := v0[b := v0[b].(end := v0[a].end)][a := NO_VMA];
            && TableForm(v1)
            && forall p: nat, f {:trigger Reserved(v1, p, f)} ::
                 Reserved(v1, p, f) <==> Reserved(v0, p, f) || (base <= p < base + bytes && f == flags)
  {
    var v1 := v0[b := v0[b].(end := v0[a].end)][a := NO_VMA];
    assert VmaOk(v0[a]) && VmaOk(v0[b]);
    assert a != b;
    forall p: nat, f
      ensures Reserved(v1, p, f) <==> Reserved(v0, p, f) || (base <= p < base + bytes && f == flags)
    {
      assert Covers(v1[b], p) <==> Covers(v0[b], p) || Covers(v0[a], p) || base <= p < base + bytes;
      if Reserved(v0, p, f) {
        var j :| 0 <= j < |v0| && Covers(v0[j], p) && v0[j].flags == f;
        assert j != a ==> Covers(v1[j], p) && v1[j].flags == f;
        assert j == a ==> Covers(v1[b], p) && v1[b].flags == f;
      }
      if Reserved(v1, p, f) {
        var j :| 0 <= j < |v1| && Covers(v1[j], p) && v1[j].flags == f;
        assert j != b ==> Covers(v0[j], p);
        assert v0[b].flags == v0[a].flags;
      }
    }
  }

  lemma JoinDisjoint(v0: seq<Vma>, base: nat, bytes: nat, flags: Flags, b: nat, a: nat)
    requires TableOk(v0) && a < MAX_VMAS && b < MAX_VMAS && bytes > 0
    requires v0[b].used && v0[b].flags == flags && v0[b].end == base
    requires v0[a].used && v0[a].flags == flags && v0[a].start == base + bytes
    requires forall j :: 0 <= j < MAX_VMAS && v0[j].used ==> v0[j].end <= base || base + bytes <= v0[j].start
    ensures TableOk(v0[b := v0[b].(end := v0[a].end)][a := NO_VMA])
  {
    var v1 := v0[b := v0[b].(end := v0[a].end)][a := NO_VMA];
    assert VmaOk(v0[a]) && VmaOk(v0[b]);
    assert a != b;
    forall i, j | 0 <= i < j < MAX_VMAS
      ensures Apart(v1[i], v1[j])
    {
      assert Apart(v0[i], v0[j]);
      if i == b && j != a {
        ApartBoth(v0, a, j);
        JoinApart(v0[b], v0[a], v0[j], base, bytes);
      } else if j == b && i != a {
        ApartBoth(v0, a, i);
        JoinApart(v0[b], v0[a], v0[i], base, bytes);
      }
    }
  }
}
