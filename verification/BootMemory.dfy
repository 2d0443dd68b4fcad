/** pmm_init (kernel/memory/pmm.c): from the boot loader's memory map to a frame
    allocator whose free frames are usable memory and nothing else. */
module BootMemory {
  import opened Pmm

  const GIB: nat := 0x4000_0000
  const DIRECT_LIMIT: nat := 4 * GIB
  const ISA_DMA_START: nat := 0x1_0000
  const ISA_DMA_END: nat := 0xA_0000

  /** One entry of the memory map; kind 1 is usable memory. */
  datatype MapEntry = MapEntry(region: Region, kind: nat)

  function Top(r: Region): nat
  {
    r.base + r.len
  }

  function Max(a: nat, b: nat): nat
  {
    if a > b then a else b
  }

  /** align_up to a whole frame. */
  function AlignUp(a: nat): (r: nat)
    ensures a <= r < a + FRAME_SIZE && r % FRAME_SIZE == 0
  {
    (a + FRAME_SIZE - 1) / FRAME_SIZE * FRAME_SIZE
  }

  /** `h` is where usable memory ends, 0 when there is none. */
  ghost predicate Highest(entries: seq<MapEntry>, h: nat)
  {
    && (forall k :: 0 <= k < |entries| && entries[k].kind == 1 ==> Top(entries[k].region) <= h)
    && (h > 0 ==> exists k :: 0 <= k < |entries| && entries[k].kind == 1 && Top(entries[k].region) == h)
  }

  /** Where the k-th entry could hold the bitmap. */
  function Candidate(e: MapEntry, least: nat): nat
  {
    AlignUp(Max(e.region.base, least))
  }

  predicate Holds(e: MapEntry, bytes: nat, least: nat)
  {
    e.kind == 1 && Candidate(e, least) < Top(e.region) && bytes <= Top(e.region) - Candidate(e, least)
  }

  /** `bytes` bytes from the frame boundary p on lie in the usable entry, at or above
      `least`. */
  ghost predicate Fits(e: MapEntry, bytes: nat, least: nat, p: nat)
  {
    && e.kind == 1 && p % 4096 == 0
    && least <= p && e.region.base <= p < e.region.base + e.region.len && p + bytes <= e.region.base + e.region.len
  }

  /** `at` is the lowest place that fits in the first entry that has one. */
  ghost predicate FirstFit(entries: seq<MapEntry>, bytes: nat, least: nat, at: nat)
  {
    exists k ::
      && 0 <= k < |entries| && Fits(entries[k], bytes, least, at)
      && (forall p: nat :: Fits(entries[k], bytes, least, p) ==> at <= p)
      && forall j, p: nat :: 0 <= j < k ==> !Fits(entries[j], bytes, least, p)
  }

  ghost predicate NoFit(entries: seq<MapEntry>, bytes: nat, least: nat)
  {
    forall j, p: nat :: 0 <= j < |entries| ==> !Fits(entries[j], bytes, least, p)
  }

  /** The candidate is the lowest place that could fit. */
  lemma CandidateFits(e: MapEntry, bytes: nat, least: nat)
    ensures Holds(e, bytes, least) <==> Fits(e, bytes, least, Candidate(e, least))
    ensures forall p: nat :: Fits(e, bytes, least, p) ==> Candidate(e, least) <= p && Holds(e, bytes, least)
  {
    forall p: nat | Fits(e, bytes, least, p)
      ensures Candidate(e, least) <= p
    {
      Aligned(Candidate(e, least), p);
    }
  }

  lemma Aligned(a: nat, p: nat)
    requires a % FRAME_SIZE == 0 && p % FRAME_SIZE == 0 && a < p + FRAME_SIZE
    ensures a <= p
  {
  }

  /** find_bitmap_region: the first entry with room above `least`. */
  method FindBitmapRegion(entries: seq<MapEntry>, bytes: nat, least: nat) returns (at: nat)
    requires least > 0
    ensures at == 0 <==> NoFit(entries, bytes, least)
    ensures at != 0 ==> FirstFit(entries, bytes, least, at)
  {
    hide Holds, Candidate, Fits;
    for i := 0 to |entries|
      invariant forall j, p: nat :: 0 <= j < i ==> !Fits(entries[j], bytes, least, p)
    {
      CandidateFits(entries[i], bytes, least);
      if Holds(entries[i], bytes, least) {
        at := Candidate(entries[i], least);
        FitsAbove(entries[i], bytes, least, at);
        return;
      }
    }
    at := 0;
  }

  lemma FitsAbove(e: MapEntry, bytes: nat, least: nat, p: nat)
    requires Fits(e, bytes, least, p)
    ensures least <= p && p % FRAME_SIZE == 0 && e.kind == 1
    ensures e.region.base <= p && p + bytes <= Top(e.region)
  {
  }

  /** The first address above the kernel image, the boot information, every module
      and 1 MiB. */
  function LeastPlace(kernel: Region, info: Region, modules: seq<Region>): (r: nat)
    ensures Top(kernel) <= r && Top(info) <= r && GENERAL_BASE <= r
    ensures forall k :: 0 <= k < |modules| ==> Top(modules[k]) <= r
    ensures r in {Top(kernel), Top(info), GENERAL_BASE} || exists k :: 0 <= k < |modules| && r == Top(modules[k])
  {
    if modules == [] then Max(Max(Top(kernel), Top(info)), GENERAL_BASE)
    else Max(LeastPlace(kernel, info, modules[..|modules| - 1]), Top(modules[|modules| - 1]))
  }

  /** What must stay allocated: BIOS data, everything from the DMA pool to 1 MiB, the
      kernel image, the bitmap, the boot information and the modules. */
  function Kept(kernel: Region, bitmap: Region, info: Region, modules: seq<Region>): seq<Region>
  {
    [Region(0, ISA_DMA_START), Region(ISA_DMA_END, GENERAL_BASE - ISA_DMA_END), kernel, bitmap, info] + modules
  }

  ghost predicate Usable(entries: seq<MapEntry>, f: nat)
  {
    exists k :: 0 <= k < |entries| && entries[k].kind == 1 && EndsIn(f, entries[k].region)
  }

  ghost predicate Touched(kept: seq<Region>, f: nat)
  {
    exists k :: 0 <= k < |kept| && Overlaps(f, kept[k])
  }

  /** What the allocator manages once it is set up. */
  ghost predicate FreeIs(used: set<nat>, frames: nat, entries: seq<MapEntry>, kept: seq<Region>)
  {
    forall f: nat {:trigger f in used} :: f < frames ==> (f !in used <==> Usable(entries, f) && !Touched(kept, f))
  }

  lemma UsableNext(entries: seq<MapEntry>, k: nat, f: nat)
    requires k < |entries|
    ensures Usable(entries[..k + 1], f) <==>
            Usable(entries[..k], f) || (entries[k].kind == 1 && EndsIn(f, entries[k].region))
  {
    var now, next := entries[..k], entries[..k + 1];
    assert next == now + [entries[k]];
    if Usable(now, f) {
      var i :| 0 <= i < |now| && now[i].kind == 1 && EndsIn(f, now[i].region);
      assert next[i] == now[i];
    }
    if entries[k].kind == 1 && EndsIn(f, entries[k].region) {
      assert next[k] == entries[k];
    }
  }

  lemma TouchedNext(kept: seq<Region>, k: nat, f: nat)
    requires k < |kept|
    ensures Touched(kept[..k + 1], f) <==> Touched(kept[..k], f) || Overlaps(f, kept[k])
  {
    var now, next := kept[..k], kept[..k + 1];
    assert next == now + [kept[k]];
    if Touched(now, f) {
      var i :| 0 <= i < |now| && Overlaps(f, now[i]);
      assert next[i] == now[i];
    }
    if Overlaps(f, kept[k]) {
      assert next[k] == kept[k];
    }
  }

  ghost predicate FreedBy(entries: seq<MapEntry>, frames: nat, used: set<nat>)
  {
    forall f: nat :: f in used <==> f < frames && !Usable(entries, f)
  }

  lemma FreedNext(entries: seq<MapEntry>, k: nat, frames: nat, u0: set<nat>, u1: set<nat>)
    requires k < |entries| && FreedBy(entries[..k], frames, u0)
    requires forall g: nat :: g in u1 <==> g in u0 && !(entries[k].kind == 1 && g < frames && EndsIn(g, entries[k].region))
    ensures FreedBy(entries[..k + 1], frames, u1)
  {
    hide Usable, EndsIn;
    forall f: nat
      ensures f in u1 <==> f < frames && !Usable(entries[..k + 1], f)
    {
      UsableNext(entries, k, f);
    }
  }

  /** The first pass: free every usable entry. */
  method FreeUsable(pmm: FrameAllocator, entries: seq<MapEntry>)
    requires pmm.Valid() && pmm.used == Run(0, pmm.frames)
    modifies pmm`used, pmm`usedFrames, pmm.bitmap
    ensures pmm.Valid() && FreedBy(entries, pmm.frames, pmm.used)
  {
    assert FreedBy(entries[..0], pmm.frames, pmm.used);
    hide Represents, FreedBy, Usable, EndsIn;
    for i := 0 to |entries|
      invariant pmm.Valid() && FreedBy(entries[..i], pmm.frames, pmm.used)
    {
      ghost var u := pmm.used;
      if entries[i].kind == 1 {
        pmm.MarkRegionFree(entries[i].region);
      }
      FreedNext(entries, i, pmm.frames, u, pmm.used);
    }
    assert entries[..|entries|] == entries;
  }

  ghost predicate KeptBy(kept: seq<Region>, frames: nat, u0: set<nat>, used: set<nat>)
  {
    forall f: nat :: f in used <==> f in u0 || (f < frames && Touched(kept, f))
  }

  lemma KeptNext(kept: seq<Region>, k: nat, frames: nat, u0: set<nat>, u1: set<nat>, u2: set<nat>)
    requires k < |kept| && KeptBy(kept[..k], frames, u0, u1)
    requires forall g: nat :: g in u2 <==> g in u1 || (g < frames && Overlaps(g, kept[k]))
    ensures KeptBy(kept[..k + 1], frames, u0, u2)
  {
    hide Touched, Overlaps;
    forall f: nat
      ensures f in u2 <==> f in u0 || (f < frames && Touched(kept[..k + 1], f))
    {
      TouchedNext(kept, k, f);
    }
  }

  /** The second pass: take back what must stay. */
  method KeepRegions(pmm: FrameAllocator, kept: seq<Region>)
    requires pmm.Valid()
    modifies pmm`used, pmm`usedFrames, pmm.bitmap
    ensures pmm.Valid() && KeptBy(kept, pmm.frames, old(pmm.used), pmm.used)
  {
    assert KeptBy(kept[..0], pmm.frames, pmm.used, pmm.used);
    hide Represents, KeptBy, Touched, Overlaps;
    for i := 0 to |kept|
      invariant pmm.Valid() && KeptBy(kept[..i], pmm.frames, old(pmm.used), pmm.used)
    {
      ghost var u := pmm.used;
      pmm.MarkRegionUsed(kept[i]);
      KeptNext(kept, i, pmm.frames, old(pmm.used), u, pmm.used);
    }
    assert kept[..|kept|] == kept;
  }

  method HighestUsable(entries: seq<MapEntry>) returns (h: nat)
    ensures Highest(entries, h)
  {
    h := 0;
    for i := 0 to |entries|
      invariant forall k :: 0 <= k < i && entries[k].kind == 1 ==> Top(entries[k].region) <= h
      invariant h > 0 ==> exists k :: 0 <= k < i && entries[k].kind == 1 && Top(entries[k].region) == h
    {
      if entries[i].kind == 1 && Top(entries[i].region) > h {
        h := Top(entries[i].region);
      }
    }
  }

  /** Where pmm_init halts before it has an allocator. */
  ghost predicate Halts(entries: seq<MapEntry>, kernel: Region, info: Region, modules: seq<Region>, bitmap: Region,
                        highest: nat)
  {
    || highest == 0 || NoFit(entries, bitmap.len, LeastPlace(kernel, info, modules))
    || bitmap.base >= 0x1_0000_0000 || bitmap.base + bitmap.len > 0x1_0000_0000
  }

  /** Frame f holds a byte of the BIOS data, of the range from the DMA pool to 1 MiB, of
      the kernel image, of the bitmap, of the boot information or of a module. */
  ghost predicate Needed(f: nat, kernel: Region, bitmap: Region, info: Region, modules: seq<Region>)
  {
    || f * 4096 < 0x1_0000 || (f * 4096 < 0x10_0000 && 0xA_0000 < (f + 1) * 4096)
    || Overlaps(f, kernel) || Overlaps(f, bitmap) || Overlaps(f, info)
    || exists k :: 0 <= k < |modules| && Overlaps(f, modules[k])
  }

  lemma KeptIsNeeded(f: nat, kernel: Region, bitmap: Region, info: Region, modules: seq<Region>)
    ensures Touched(Kept(kernel, bitmap, info, modules), f) <==> Needed(f, kernel, bitmap, info, modules)
  {
    var kept := Kept(kernel, bitmap, info, modules);
    assert Overlaps(f, kept[0]) <==> f * 4096 < 0x1_0000;
    assert Overlaps(f, kept[1]) <==> f * 4096 < 0x10_0000 && 0xA_0000 < (f + 1) * 4096;
    assert kept[2] == kernel && kept[3] == bitmap && kept[4] == info;
    assert forall k :: 0 <= k < |modules| ==> kept[5 + k] == modules[k];
    hide Overlaps;
    if Touched(kept, f) {
      var k :| 0 <= k < |kept| && Overlaps(f, kept[k]);
      assert k >= 5 ==> kept[k] == modules[k - 5];
    }
  }

  /** pmm_init up to the direct map.  Null stands for the places where it halts: no
      usable memory, no place for the bitmap, or a place the boot tables do not map.
      The bitmap lies in usable memory, clear of everything else that is kept. */
  method Init(entries: seq<MapEntry>, kernel: Region, info: Region, modules: seq<Region>)
    returns (pmm: FrameAllocator?, bitmap: Region, highest: nat)
    ensures Highest(entries, highest) && bitmap.len == (highest / FRAME_SIZE + 7) / 8
    ensures pmm == null <==> Halts(entries, kernel, info, modules, bitmap, highest)
    ensures bitmap.base == 0 || FirstFit(entries, bitmap.len, LeastPlace(kernel, info, modules), bitmap.base)
    ensures pmm != null ==>
              && fresh(pmm) && fresh(pmm.bitmap) && pmm.Valid() && pmm.frames == highest / FRAME_SIZE && pmm.nextFree == 256
              && FreeIs(pmm.used, pmm.frames, entries, Kept(kernel, bitmap, info, modules))
              && LeastPlace(kernel, info, modules) <= bitmap.base && bitmap.base % FRAME_SIZE == 0
              && exists k ::
                   && 0 <= k < |entries| && entries[k].kind == 1
                   && entries[k].region.base <= bitmap.base && Top(bitmap) <= Top(entries[k].region)
    // a frame is free exactly when it is usable and nothing that is needed touches it
    ensures pmm != null ==>
              forall f: nat {:trigger f in pmm.used} :: f < pmm.frames ==>
                (f !in pmm.used <==> Usable(entries, f) && !Needed(f, kernel, bitmap, info, modules))
  {
    hide Fits;
    highest := HighestUsable(entries);
    var frames := highest / FRAME_SIZE;
    var bytes := (frames + 7) / 8;
    var at := FindBitmapRegion(entries, bytes, LeastPlace(kernel, info, modules));
    bitmap := Region(at, bytes);
    if highest == 0 || at == 0 || at >= DIRECT_LIMIT || bytes > DIRECT_LIMIT - at {
      return null, bitmap, highest;
    }
    ghost var k :| 0 <= k < |entries| && Fits(entries[k], bytes, LeastPlace(kernel, info, modules), at);
    FitsAbove(entries[k], bytes, LeastPlace(kernel, info, modules), at);
    pmm := new FrameAllocator(frames);
    hide Represents, Usable, Touched, Needed, Kept;
    FreeUsable(pmm, entries);
    KeepRegions(pmm, Kept(kernel, bitmap, info, modules));
    forall f: nat
      ensures Touched(Kept(kernel, bitmap, info, modules), f) <==> Needed(f, kernel, bitmap, info, modules)
    {
      KeptIsNeeded(f, kernel, bitmap, info, modules);
    }
  }

  /** No free frame holds a byte of anything that is kept. */
  lemma NothingKeptIsFree(used: set<nat>, frames: nat, entries: seq<MapEntry>, kept: seq<Region>, k: nat, x: nat)
    requires FreeIs(used, frames, entries, kept) && k < |kept| && kept[k].base <= x < Top(kept[k])
    requires x / FRAME_SIZE < frames
    ensures x / FRAME_SIZE in used
  {
    assert Overlaps(x / FRAME_SIZE, kept[k]);
  }

  /** When usable memory starts on frame boundaries, free frames are usable memory. */
  lemma FreeIsUsable(used: set<nat>, frames: nat, entries: seq<MapEntry>, kept: seq<Region>, f: nat) returns (k: nat)
    requires FreeIs(used, frames, entries, kept) && f < frames && f !in used
    requires forall i :: 0 <= i < |entries| && entries[i].kind == 1 ==> entries[i].region.base % FRAME_SIZE == 0
    ensures k < |entries| && entries[k].kind == 1 && Pmm.Within(f, entries[k].region)
  {
    assert Usable(entries, f);
    k :| 0 <= k < |entries| && entries[k].kind == 1 && EndsIn(f, entries[k].region);
    FreedWithin(entries[k].region);
  }
}
