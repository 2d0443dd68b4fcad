/** Bitmap physical-frame allocator (kernel/memory/pmm.c).

    One bit per 4 KiB frame, 1 = taken.  The allocator keeps a running count of
    taken frames and a next-fit hint.  The abstract value is the set of taken
    frames; every search is specified by "the lowest free frame of a range". */
module Pmm {
  const FRAME_SIZE: nat := 4096
  // PMM_GENERAL_ALLOC_BASE / FRAME_SIZE: frames below 1 MiB are the ISA DMA pool.
  const GENERAL_FIRST: nat := 256
  const GENERAL_BASE: nat := 0x10_0000

  function Mask(k: nat): bv8
    requires k < 8
  {
    1 << k
  }

  predicate Test(b: bv8, k: nat)
    requires k < 8
  {
    b & Mask(k) != 0
  }

  /** __builtin_ctz of a non-zero byte: its lowest set bit. */
  function Ctz(b: bv8): (k: nat)
    requires b != 0
    ensures k < 8 && Test(b, k)
    ensures forall j :: 0 <= j < k ==> !Test(b, j)
  {
    if b & 1 != 0 then 0 else if b & 2 != 0 then 1
    else if b & 4 != 0 then 2 else if b & 8 != 0 then 3
    else if b & 16 != 0 then 4 else if b & 32 != 0 then 5
    else if b & 64 != 0 then 6 else 7
  }

  lemma SetBit(b: bv8, k: nat, j: nat)
    requires k < 8 && j < 8
    ensures Test(b | Mask(k), j) == (j == k || Test(b, j))
  {
  }

  lemma ClearBit(b: bv8, k: nat, j: nat)
    requires k < 8 && j < 8
    ensures Test(b & !Mask(k), j) == (j != k && Test(b, j))
  {
  }

  lemma FreeBit(b: bv8, s: nat, j: nat)
    requires s < 8 && j < 8
    ensures Test(!b & (0xFF << s), j) == (s <= j && !Test(b, j))
  {
  }

  lemma NoBit(b: bv8, j: nat)
    requires j < 8 && b == 0
    ensures !Test(b, j)
  {
  }

  /** Is frame `f` marked taken in this bitmap? */
  predicate Taken(bytes: seq<bv8>, f: nat)
    requires f / 8 < |bytes|
  {
    Test(bytes[f / 8], f % 8)
  }

  /** `used` is exactly the set of taken frames of the bitmap. */
  ghost predicate Represents(bytes: seq<bv8>, frames: nat, used: set<nat>)
  {
    && |bytes| == (frames + 7) / 8
    && (forall f: nat {:trigger Taken(bytes, f)} :: f < frames ==> (Taken(bytes, f) <==> f in used))
    && (forall f: nat :: f in used ==> f < frames)
  }

  lemma SetTaken(bytes: seq<bv8>, frames: nat, used: set<nat>, f: nat)
    requires Represents(bytes, frames, used) && f < frames
    ensures Represents(bytes[f / 8 := bytes[f / 8] | Mask(f % 8)], frames, used + {f})
  {
    var after := bytes[f / 8 := bytes[f / 8] | Mask(f % 8)];
    forall g: nat | g < frames
      ensures Taken(after, g) == (g in used + {f})
    {
      assert Taken(bytes, g) == (g in used);
      if g / 8 == f / 8 {
        SetBit(bytes[f / 8], f % 8, g % 8);
      }
    }
  }

  lemma ClearTaken(bytes: seq<bv8>, frames: nat, used: set<nat>, f: nat)
    requires Represents(bytes, frames, used) && f < frames
    ensures Represents(bytes[f / 8 := bytes[f / 8] & !Mask(f % 8)], frames, used - {f})
  {
    var after := bytes[f / 8 := bytes[f / 8] & !Mask(f % 8)];
    forall g: nat | g < frames
      ensures Taken(after, g) == (g in used - {f})
    {
      assert Taken(bytes, g) == (g in used);
      if g / 8 == f / 8 {
        ClearBit(bytes[f / 8], f % 8, g % 8);
      }
    }
  }

  /** `f` is the lowest frame of [first, end) outside `taken`. */
  ghost predicate LowestFree(taken: set<nat>, first: nat, end: nat, f: nat)
  {
    && first <= f < end
    && f !in taken
    && forall g: nat :: first <= g < f ==> g in taken
  }

  ghost predicate NoneFree(taken: set<nat>, first: nat, end: nat)
  {
    forall g: nat :: first <= g < end ==> g in taken
  }

  /** The free frames at or above 1 MiB. */
  ghost function FreeSet(taken: set<nat>, frames: nat): set<nat>
  {
    set g: nat | GENERAL_FIRST <= g < frames && g !in taken
  }

  ghost function FreeCount(taken: set<nat>, frames: nat): nat
  {
    |FreeSet(taken, frames)|
  }

  lemma NoneCounted(taken: set<nat>, frames: nat)
    ensures NoneFree(taken, GENERAL_FIRST, frames) <==> FreeCount(taken, frames) == 0
  {
    if FreeCount(taken, frames) == 0 {
      assert FreeSet(taken, frames) == {};
      forall g: nat | GENERAL_FIRST <= g < frames
        ensures g in taken
      {
        assert g !in FreeSet(taken, frames);
      }
    }
    assert NoneFree(taken, GENERAL_FIRST, frames) ==> FreeSet(taken, frames) == {};
  }

  lemma TakeCounted(taken: set<nat>, frames: nat, f: nat)
    requires GENERAL_FIRST <= f < frames && f !in taken
    ensures FreeCount(taken + {f}, frames) == FreeCount(taken, frames) - 1
  {
    assert FreeSet(taken, frames) == FreeSet(taken + {f}, frames) + {f};
  }

  /** A range of physical addresses. */
  datatype Region = Region(base: nat, len: nat)

  /** Some byte of frame f lies in the region. */
  predicate Overlaps(f: nat, r: Region)
  {
    f * FRAME_SIZE < r.base + r.len && r.base < (f + 1) * FRAME_SIZE
  }

  /** Every byte of frame f lies in the region. */
  predicate Within(f: nat, r: Region)
  {
    r.base <= f * FRAME_SIZE && (f + 1) * FRAME_SIZE <= r.base + r.len
  }

  /** What mark_region_free clears: frame f ends in the region. */
  predicate EndsIn(f: nat, r: Region)
  {
    r.base < (f + 1) * FRAME_SIZE <= r.base + r.len
  }

  /** mark_region_free is documented to round inward.  It rounds its start down, so
      it also frees a frame that the region only ends in: exactly when the region
      starts inside a frame and reaches the end of that frame. */
  lemma FreedWithin(r: Region)
    ensures (forall f: nat :: EndsIn(f, r) ==> Within(f, r)) <==>
            r.base % FRAME_SIZE == 0 || r.base % FRAME_SIZE + r.len < FRAME_SIZE
  {
    var first := r.base / FRAME_SIZE;
    assert r.base == first * FRAME_SIZE + r.base % FRAME_SIZE;
    if r.base % FRAME_SIZE != 0 && r.base % FRAME_SIZE + r.len >= FRAME_SIZE {
      assert EndsIn(first, r) && !Within(first, r);
    }
  }

  /** [s, s+n) is a free run inside [first, end). */
  ghost predicate FreeRun(taken: set<nat>, first: nat, end: nat, s: nat, n: nat)
  {
    first <= s && s + n <= end && forall g: nat :: s <= g < s + n ==> g !in taken
  }

  /** No free run of length n inside [first, end). */
  ghost predicate NoRun(taken: set<nat>, first: nat, end: nat, n: nat)
  {
    forall s: nat {:trigger FreeRun(taken, first, end, s, n)} :: !FreeRun(taken, first, end, s, n)
  }

  /** f comes first among the free general frames when they are gone through in a
      circle from `start` on. */
  ghost predicate FirstRound(taken: set<nat>, frames: nat, start: nat, f: nat)
  {
    forall g: nat :: 256 <= g < frames && g !in taken ==> if start <= f then f <= g || g < start else f <= g < start
  }

  /** [s, s+n) is the lowest-starting free run of length n in [first, end). */
  ghost predicate LowestRun(taken: set<nat>, first: nat, end: nat, s: nat, n: nat)
  {
    && FreeRun(taken, first, end, s, n)
    && forall t: nat {:trigger FreeRun(taken, first, end, t, n)} :: FreeRun(taken, first, end, t, n) ==> s <= t
  }

  /** The frames of a run. */
  function Run(s: nat, n: nat): (r: set<nat>)
    ensures |r| == n
    ensures forall f: nat :: f in r <==> s <= f < s + n
  {
    if n == 0 then {} else Run(s, n - 1) + {s + n - 1}
  }

  /** Where the next-fit scan starts: the hint, clamped to the general pool. */
  function ScanStart(hint: nat, frames: nat): nat
  {
    if hint < GENERAL_FIRST || hint >= frames then GENERAL_FIRST else hint
  }

  /** Where the next scan starts after frame f was handed out. */
  function HintAfter(f: nat, frames: nat): nat
  {
    if f + 1 >= frames then GENERAL_FIRST else f + 1
  }

  /** The frame pmm_alloc_frame must pick. */
  ghost predicate NextFit(taken: set<nat>, frames: nat, hint: nat, f: nat)
  {
    var start := ScanStart(hint, frames);
    if NoneFree(taken, start, frames)
    then LowestFree(taken, GENERAL_FIRST, start, f)
    else LowestFree(taken, start, frames, f)
  }

  class FrameAllocator {
    const bitmap: array<bv8>
    const frames: nat
    var usedFrames: int
    var nextFree: nat
    // The abstract value: which frames are taken.
    ghost var used: set<nat>

    ghost predicate Valid()
      reads this, bitmap
    {
      && Represents(bitmap[..], frames, used)
      && usedFrames == |used|
    }

    /** State at the start of boot: every byte 0xFF, everything taken. */
    constructor (frameCount: nat)
      ensures Valid() && frames == frameCount && fresh(bitmap)
      ensures used == Run(0, frameCount) && nextFree == 256
    {
      bitmap := new bv8[(frameCount + 7) / 8](_ => 0xFF);
      frames := frameCount;
      usedFrames := frameCount;
      nextFree := GENERAL_FIRST;
      used := Run(0, frameCount);
      new;
      forall f: nat | f < frames
        ensures Taken(bitmap[..], f)
      {
        assert bitmap[..][f / 8] == 0xFF;
      }
    }

    method BitmapTest(f: nat) returns (taken: bool)
      requires Valid() && f < frames
      ensures taken == (f in used)
    {
      taken := Test(bitmap[f / 8], f % 8);
      assert taken == Taken(bitmap[..], f);
    }

    method StoreByte(i: nat, b: bv8)
      requires i < bitmap.Length
      modifies bitmap
      ensures bitmap[..] == old(bitmap[..])[i := b]
    {
      bitmap[i] := b;
    }

    /** bitmap_set with its used_frames++ */
    method BitmapSet(f: nat)
      requires Valid() && f < frames && f !in used
      modifies this`used, this`usedFrames, bitmap
      ensures Valid() && used == old(used) + {f}
    {
      hide Taken;
      SetTaken(bitmap[..], frames, used, f);
      StoreByte(f / 8, bitmap[f / 8] | Mask(f % 8));
      usedFrames, used := usedFrames + 1, used + {f};
    }

    /** bitmap_clear with its used_frames-- */
    method BitmapClear(f: nat)
      requires Valid() && f < frames && f in used
      modifies this`used, this`usedFrames, bitmap
      ensures Valid() && used == old(used) - {f}
    {
      hide Taken;
      ClearTaken(bitmap[..], frames, used, f);
      StoreByte(f / 8, bitmap[f / 8] & !Mask(f % 8));
      usedFrames, used := usedFrames - 1, used - {f};
    }

    /** mark_region_used: every frame the region touches. */
    method MarkRegionUsed(r: Region)
      requires Valid()
      modifies this`used, this`usedFrames, bitmap
      ensures Valid()
      ensures forall g: nat :: g in used <==> g in old(used) || (g < frames && Overlaps(g, r))
    {
      hide Represents, Taken;
      var first, end := r.base / FRAME_SIZE, (r.base + r.len + FRAME_SIZE - 1) / FRAME_SIZE;
      FrameBounds(r);
      var f := first;
      while f < end && f < frames
        invariant first <= f && Valid()
        invariant forall g: nat :: g in used <==> g in old(used) || (first <= g < f && g < end && g < frames)
      {
        var taken := BitmapTest(f);
        if !taken {
          BitmapSet(f);
        }
        f := f + 1;
      }
    }

    /** mark_region_free */
    method MarkRegionFree(r: Region)
      requires Valid()
      modifies this`used, this`usedFrames, bitmap
      ensures Valid()
      ensures forall g: nat :: g in used <==> g in old(used) && !(g < frames && EndsIn(g, r))
    {
      hide Represents, Taken;
      var first, end := r.base / FRAME_SIZE, (r.base + r.len) / FRAME_SIZE;
      FrameBounds(r);
      var f := first;
      while f < end && f < frames
        invariant first <= f && Valid()
        invariant forall g: nat :: g in used <==> g in old(used) && !(first <= g < f && g < end && g < frames)
      {
        var taken := BitmapTest(f);
        if taken {
          BitmapClear(f);
        }
        f := f + 1;
      }
    }

    /** find_free_frame: skips a fully occupied byte at a time.  Returns the
        lowest free frame of [first, end), or `frames` when there is none. */
    method FindFreeFrame(first: nat, end: nat) returns (r: nat)
      requires Valid() && end <= frames
      ensures r == frames || LowestFree(used, first, end, r)
      ensures r == frames <==> NoneFree(used, first, end)
    {
      var at := first;
      while at < end
        invariant first <= at
        invariant forall g: nat :: first <= g < at && g < end ==> g in used
        decreases end - at
      {
        var freeBits: bv8 := !bitmap[at / 8] & (0xFF << (at % 8));
        ByteScan(bitmap[..], frames, used, at, freeBits);
        if freeBits != 0 {
          var f := at / 8 * 8 + Ctz(freeBits);
          return if f < end then f else frames;
        }
        at := at / 8 * 8 + 8;
      }
      r := frames;
    }

    /** allocate_frame_at */
    method AllocateAt(f: nat) returns (phys: nat)
      requires Valid() && f < frames && f !in used
      modifies this, bitmap
      ensures Valid() && used == old(used) + {f}
      ensures phys == f * FRAME_SIZE && nextFree == HintAfter(f, frames)
    {
      BitmapSet(f);
      nextFree := HintAfter(f, frames);
      phys := f * FRAME_SIZE;
    }

    /** The loop of pmm_alloc_frame, run once on each side of the hint: step
        through find_free_frame until the bitmap test agrees. */
    method ScanFree(first: nat, end: nat) returns (f: nat)
      requires Valid() && (first < end ==> end <= frames)
      ensures if f < end then LowestFree(used, first, end, f) else NoneFree(used, first, end)
    {
      hide Taken, Represents;
      f := first;
      while f < end
        invariant f == first || f >= end || LowestFree(used, first, end, f)
        invariant f >= end ==> NoneFree(used, first, end)
        decreases f == first, end - f
      {
        var taken := BitmapTest(f);
        if !taken {
          return;
        }
        f := FindFreeFrame(f + 1, end);
      }
    }

    /** pmm_alloc_frame: next-fit with wraparound.  Returns the base of the
        lowest free frame at or above the (clamped) hint, else of the lowest
        free general frame, and 0 exactly when every frame at or above 1 MiB is
        taken, wherever the hint stands. */
    method AllocFrame() returns (phys: nat)
      requires Valid()
      modifies this, bitmap
      ensures Valid()
      ensures phys == 0 <==> NoneFree(old(used), GENERAL_FIRST, frames)
      ensures phys == 0 ==> used == old(used) && nextFree == old(nextFree)
      ensures phys != 0 ==>
                var f := phys / FRAME_SIZE;
                && phys == f * FRAME_SIZE && GENERAL_FIRST <= f < frames
                && f !in old(used) && used == old(used) + {f}
                && NextFit(old(used), frames, old(nextFree), f) && nextFree == HintAfter(f, frames)
      // going round from the hint, no free frame comes before it; the next search starts behind it
      ensures phys != 0 ==>
                && FirstRound(old(used), frames, if 256 <= old(nextFree) < frames then old(nextFree) else 256, phys / 4096)
                && nextFree == if phys / 4096 + 1 < frames then phys / 4096 + 1 else 256
    {
      hide Taken, Represents;
      var start: nat := ScanStart(nextFree, frames);
      var f := ScanFree(start, frames);
      if f < frames {
        phys := AllocateAt(f);
        return;
      }
      f := ScanFree(GENERAL_FIRST, start);
      if f < start {
        phys := AllocateAt(f);
        return;
      }
      phys := 0;
    }

    /** pmm_alloc_frame_below: lowest free frame wholly below `limit`, keeping
        out of the DMA pool unless the limit is within the first 1 MiB. */
    method AllocFrameBelow(limit: nat) returns (ok: bool, phys: nat)
      requires Valid()
      modifies this, bitmap
      ensures Valid()
      ensures ok == !NoneFree(old(used), FirstBelow(limit), EndBelow(limit))
      ensures !ok ==> phys == 0 && used == old(used) && nextFree == old(nextFree)
      ensures ok ==> && LowestFree(old(used), FirstBelow(limit), EndBelow(limit), phys / FRAME_SIZE)
                     && phys % FRAME_SIZE == 0
                     && used == old(used) + {phys / FRAME_SIZE}
                     && nextFree == (if phys < GENERAL_BASE then old(nextFree)
                         else HintAfter(phys / FRAME_SIZE, frames))
      // it ends at or below the limit, and lies above 1 MiB when the limit does
      ensures ok ==> phys + 4096 <= limit && (limit > 0x10_0000 ==> phys >= 0x10_0000)
      // no lower frame would have done
      ensures forall g: nat :: g < frames && g !in old(used) && (g + 1) * 4096 <= limit && (limit > 0x10_0000 ==> g >= 256) ==>
                ok && phys / FRAME_SIZE <= g
    {
      var end := EndBelow(limit);
      var f := FindFreeFrame(FirstBelow(limit), end);
      if f < end {
        BitmapSet(f);
        if f >= GENERAL_FIRST {
          nextFree := HintAfter(f, frames);
        }
        return true, f * FRAME_SIZE;
      }
      return false, 0;
    }

    function FirstBelow(limit: nat): nat
    {
      if limit > GENERAL_BASE then GENERAL_FIRST else 0
    }

    function EndBelow(limit: nat): nat
    {
      if limit / FRAME_SIZE > frames then frames else limit / FRAME_SIZE
    }

    /** The search loop of pmm_alloc_contiguous_below: counts a streak of free
        frames.  The run found starts lowest, because no run ends before it. */
    method FindRun(first: nat, end: nat, n: nat) returns (found: bool, start: nat)
      requires Valid() && n > 0 && end <= frames
      ensures found == !NoRun(used, first, end, n)
      ensures found ==> LowestRun(used, first, end, start, n)
    {
      var consecutive: nat := 0;
      start := 0;
      var f: nat := first;
      while f < end
        invariant first <= f && (f <= end || f == first)
        invariant consecutive < n && consecutive <= f - first
        invariant consecutive > 0 ==> start == f - consecutive
        invariant FreeRun(used, first, f, f - consecutive, consecutive)
        // a run reaching f must start inside the current streak
        invariant consecutive < f - first ==> f - consecutive - 1 in used
        invariant NoRun(used, first, f, n)
      {
        var taken := BitmapTest(f);
        if !taken {
          if consecutive == 0 {
            start := f;
          }
          consecutive := consecutive + 1;
          if consecutive == n {
            FirstRunIsLowest(used, first, end, start, n);
            return true, start;
          }
          StreakShort(used, first, f, consecutive, n);
        } else {
          StreakShort(used, first, f, 0, n);
          consecutive := 0;
        }
        f := f + 1;
      }
      RunWithin(used, first, f, end, n);
      found := false;
    }

    /** pmm_alloc_contiguous_below: the lowest-starting free run of n frames in
        range, or failure exactly when no such run exists. */
    method AllocContiguousBelow(limit: nat, n: nat) returns (ok: bool, phys: nat, ghost s: nat)
      requires Valid()
      modifies this, bitmap
      ensures Valid()
      ensures ok == (n > 0 && !NoRun(old(used), FirstBelow(limit), EndBelow(limit), n))
      ensures !ok ==> phys == 0 && used == old(used) && nextFree == old(nextFree)
      ensures ok ==>
                && phys == s * FRAME_SIZE
                && LowestRun(old(used), FirstBelow(limit), EndBelow(limit), s, n)
                && used == old(used) + Run(s, n)
                && usedFrames == old(usedFrames) + n
                && nextFree == (if s < GENERAL_FIRST then old(nextFree) else HintAfter(s + n - 1, frames))
      // they end at or below the limit, and lie above 1 MiB when the limit does
      ensures ok ==> phys + n * 4096 <= limit && (limit > 0x10_0000 ==> phys >= 0x10_0000)
      // no lower run would have done
      ensures forall g: nat :: n > 0 && FreeRun(old(used), 0, frames, g, n) && (g + n) * 4096 <= limit &&
                               (limit > 0x10_0000 ==> g >= 256) ==>
                ok && s <= g
    {
      if n == 0 {
        return false, 0, 0;
      }
      RunsBelow(limit, n);
      var found, start := FindRun(FirstBelow(limit), EndBelow(limit), n);
      if !found {
        return false, 0, 0;
      }
      MarkRun(start, n);
      if start >= GENERAL_FIRST {
        nextFree := HintAfter(start + n - 1, frames);
      }
      return true, start * FRAME_SIZE, start;
    }

    lemma RunsBelow(limit: nat, n: nat)
      ensures forall g: nat :: FreeRun(used, 0, frames, g, n) && (g + n) * 4096 <= limit && (limit > 0x10_0000 ==> g >= 256) ==>
                FreeRun(used, FirstBelow(limit), EndBelow(limit), g, n)
    {
    }

    /** The marking loop of the contiguous allocator. */
    method MarkRun(s: nat, n: nat)
      requires Valid() && s + n <= frames
      requires forall g: nat :: s <= g < s + n ==> g !in used
      modifies this`used, this`usedFrames, bitmap
      ensures Valid() && used == old(used) + Run(s, n)
      ensures usedFrames == old(usedFrames) + n
    {
      hide Represents, Run;
      RunNone(s);
      var i := 0;
      while i < n
        invariant 0 <= i <= n
        invariant Valid() && used == old(used) + Run(s, i)
        invariant usedFrames == old(usedFrames) + i
      {
        RunNext(s, i);
        BitmapSet(s + i);
        i := i + 1;
      }
    }

    /** pmm_free_frame: out-of-range and double frees are ignored, so the count
        can never drift. */
    method FreeFrame(phys: nat)
      requires Valid()
      modifies this, bitmap
      ensures Valid() && used == old(used) - {phys / FRAME_SIZE}
      ensures nextFree == (if phys / FRAME_SIZE in old(used) && GENERAL_FIRST <= phys / FRAME_SIZE < old(nextFree)
                           then phys / FRAME_SIZE else old(nextFree))
    {
      var f := phys / FRAME_SIZE;
      if f >= frames {
        return;
      }
      var taken := BitmapTest(f);
      if taken {
        BitmapClear(f);
        if GENERAL_FIRST <= f < nextFree {
          nextFree := f;
        }
      }
    }

    /** pmm_free_contiguous undoes a contiguous allocation. */
    method FreeContiguous(phys: nat, n: nat)
      requires Valid() && phys % FRAME_SIZE == 0
      modifies this, bitmap
      ensures Valid() && used == old(used) - Run(phys / FRAME_SIZE, n)
    {
      hide Represents, Run;
      RunNone(phys / FRAME_SIZE);
      var i := 0;
      while i < n
        invariant 0 <= i <= n
        invariant Valid() && used == old(used) - Run(phys / FRAME_SIZE, i)
      {
        NthFrame(phys, i);
        RunNext(phys / FRAME_SIZE, i);
        FreeFrame(phys + i * FRAME_SIZE);
        i := i + 1;
      }
    }
  }

  /** The index arithmetic of the two marking loops. */
  lemma FrameBounds(r: Region)
    ensures forall g: nat ::
              Overlaps(g, r) <==> r.base / FRAME_SIZE <= g < (r.base + r.len + FRAME_SIZE - 1) / FRAME_SIZE
    ensures forall g: nat :: EndsIn(g, r) <==> r.base / FRAME_SIZE <= g < (r.base + r.len) / FRAME_SIZE
  {
  }

  lemma RunNone(s: nat)
    ensures Run(s, 0) == {}
  {
  }

  lemma RunNext(s: nat, n: nat)
    ensures Run(s, n + 1) == Run(s, n) + {s + n} && s + n !in Run(s, n)
  {
  }

  lemma NthFrame(phys: nat, i: nat)
    ensures (phys + i * FRAME_SIZE) / FRAME_SIZE == phys / FRAME_SIZE + i
  {
  }

  /** What one masked byte of the scan says about the frames it covers. */
  lemma ByteScan(bytes: seq<bv8>, frames: nat, used: set<nat>, at: nat, freeBits: bv8)
    requires Represents(bytes, frames, used) && at < frames
    requires freeBits == !bytes[at / 8] & (0xFF << (at % 8))
    ensures freeBits == 0 ==>
              forall g: nat :: at <= g < at / 8 * 8 + 8 && g < frames ==> g in used
    ensures freeBits != 0 ==>
              var f := at / 8 * 8 + Ctz(freeBits);
              && at <= f && (f < frames ==> f !in used)
              && forall g: nat :: at <= g < f && g < frames ==> g in used
  {
    forall g: nat | at <= g < at / 8 * 8 + 8 && g < frames
      ensures g / 8 == at / 8 && Test(freeBits, g % 8) == (g !in used)
    {
      FreeBit(bytes[at / 8], at % 8, g % 8);
      assert Taken(bytes, g) == (g in used);
    }
    if freeBits == 0 {
      forall g: nat | at <= g < at / 8 * 8 + 8 && g < frames
        ensures g in used
      {
        NoBit(freeBits, g % 8);
      }
    } else {
      var k := Ctz(freeBits);
      FreeBit(bytes[at / 8], at % 8, k);
      var f := at / 8 * 8 + k;
      assert f % 8 == k && f / 8 == at / 8;
    }
  }

  /** If the streak of free frames ending at f is shorter than n, no run of
      length n ends at or before f. */
  lemma StreakShort(used: set<nat>, first: nat, f: nat, streak: nat, n: nat)
    requires streak < n && first <= f && NoRun(used, first, f, n)
    requires streak < f + 1 - first ==> f - streak in used
    ensures NoRun(used, first, f + 1, n)
  {
    assert forall s: nat {:trigger FreeRun(used, first, f + 1, s, n)} ::
        FreeRun(used, first, f + 1, s, n) ==> FreeRun(used, first, f, s, n) || s <= f - streak < s + n;
  }

  /** A run that ends where no earlier run ends is the lowest one. */
  lemma FirstRunIsLowest(used: set<nat>, first: nat, end: nat, s: nat, n: nat)
    requires n > 0 && FreeRun(used, first, end, s, n) && NoRun(used, first, s + n - 1, n)
    ensures LowestRun(used, first, end, s, n)
  {
    var before := s + n - 1;
    assert forall t: nat {:trigger FreeRun(used, first, end, t, n)} ::
        FreeRun(used, first, end, t, n) && t < s ==> FreeRun(used, first, before, t, n);
  }

  lemma RunWithin(used: set<nat>, first: nat, f: nat, end: nat, n: nat)
    requires n > 0 && NoRun(used, first, f, n) && end <= f
    ensures NoRun(used, first, end, n)
  {
    forall s: nat
      ensures !FreeRun(used, first, end, s, n)
    {
      assert FreeRun(used, first, end, s, n) ==> FreeRun(used, first, f, s, n);
    }
  }
}
