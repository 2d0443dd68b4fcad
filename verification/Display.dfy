/** Display damage and the parallel user copy (kernel/display/framebuffer.c). */
module Display {
  const MAX_DAMAGE: nat := 8
  const MERGE_SLACK: nat := 8192

  datatype Rect = Rect(x: nat, y: nat, w: nat, h: nat)
  datatype Pixel = Pixel(x: nat, y: nat)

  predicate Inside(r: Rect, p: Pixel)
  {
    r.x <= p.x < r.x + r.w && r.y <= p.y < r.y + r.h
  }

  /** damage_area */
  function Area(r: Rect): nat
  {
    r.w * r.h
  }

  function Min(a: nat, b: nat): nat
  {
    if a < b then a else b
  }

  function Max(a: nat, b: nat): nat
  {
    if a > b then a else b
  }

  /** damage_union: the bounding box. */
  function Union(a: Rect, b: Rect): Rect
  {
    var x0, y0 := Min(a.x, b.x), Min(a.y, b.y);
    Rect(x0, y0, Max(a.x + a.w, b.x + b.w) - x0, Max(a.y + a.h, b.y + b.h) - y0)
  }

  lemma UnionCovers(a: Rect, b: Rect, p: Pixel)
    requires Inside(a, p) || Inside(b, p)
    ensures Inside(Union(a, b), p)
  {
  }

  predicate Within(a: Rect, b: Rect)
  {
    b.x <= a.x && b.y <= a.y && a.x + a.w <= b.x + b.w && a.y + a.h <= b.y + b.h
  }

  /** The box holds both, and every rectangle that holds both holds the box. */
  lemma UnionLeast(a: Rect, b: Rect, c: Rect)
    ensures Within(a, Union(a, b)) && Within(b, Union(a, b))
    ensures Within(a, c) && Within(b, c) ==> Within(Union(a, b), c)
  {
  }

  /** damage_merge_waste: pixels of the box that neither rectangle asked for. */
  function Waste(a: Rect, b: Rect): nat
  {
    var sum, area := Area(a) + Area(b), Area(Union(a, b));
    if area > sum then area - sum else 0
  }

  /** Non-empty and inside a screen of the given size. */
  predicate InBounds(r: Rect, w: nat, h: nat)
  {
    0 < r.w && 0 < r.h && r.x + r.w <= w && r.y + r.h <= h
  }

  lemma UnionInBounds(a: Rect, b: Rect, w: nat, h: nat)
    requires InBounds(a, w, h) && InBounds(b, w, h)
    ensures InBounds(Union(a, b), w, h)
  {
  }

  ghost predicate Covered(rects: seq<Rect>, p: Pixel)
  {
    exists i :: 0 <= i < |rects| && Inside(rects[i], p)
  }

  /** The in-bounds pixels of a rectangle, as mark_damage clips it. */
  predicate Marks(x: nat, y: nat, w: nat, h: nat, screenW: nat, screenH: nat, p: Pixel)
  {
    p.x < screenW && p.y < screenH && x <= p.x < x + w && y <= p.y < y + h
  }

  /** Every pixel covered before is covered after. */
  ghost predicate CoversMore(a: seq<Rect>, b: seq<Rect>)
  {
    forall p {:trigger Covered(b, p)} :: Covered(a, p) ==> Covered(b, p)
  }

  lemma MergeOne(rects: seq<Rect>, i: nat, r: Rect)
    requires i < |rects|
    ensures CoversMore(rects + [r], rects[i := Union(rects[i], r)])
  {
    var rects' := rects[i := Union(rects[i], r)];
    forall p | Covered(rects + [r], p)
      ensures Covered(rects', p)
    {
      var k :| 0 <= k < |rects + [r]| && Inside((rects + [r])[k], p);
      if k == i || k == |rects| {
        UnionCovers(rects[i], r, p);
        assert Inside(rects'[i], p);
      } else {
        assert Inside(rects'[k], p);
      }
    }
  }

  /** The swap of a full table: rectangle b folds into a, the last one takes its
      place and the new one takes the last place. */
  function Swapped(rects: seq<Rect>, a: nat, b: nat, r: Rect): seq<Rect>
    requires a < b < |rects|
  {
    var folded := rects[a := Union(rects[a], rects[b])];
    folded[b := folded[|rects| - 1]][|rects| - 1 := r]
  }

  lemma SwapCovers(rects: seq<Rect>, a: nat, b: nat, r: Rect)
    requires a < b < |rects|
    ensures CoversMore(rects + [r], Swapped(rects, a, b, r))
  {
    var rects', last := Swapped(rects, a, b, r), |rects| - 1;
    forall p | Covered(rects + [r], p)
      ensures Covered(rects', p)
    {
      var k :| 0 <= k < |rects + [r]| && Inside((rects + [r])[k], p);
      if k == a || k == b {
        UnionCovers(rects[a], rects[b], p);
        assert Inside(rects'[a], p);
      } else if k == |rects| {
        assert Inside(rects'[last], p);
      } else if k == last {
        assert Inside(rects'[b], p);
      } else {
        assert Inside(rects'[k], p);
      }
    }
  }

  /** How a new rectangle is taken in: merged where that wastes least and at most 8192
      pixels, else appended, else, with 8 pending, in the place of two others that are
      merged because they waste least. */
  ghost predicate TakesIn(rects: seq<Rect>, r: Rect, rects': seq<Rect>)
  {
    if exists i :: 0 <= i < |rects| && Waste(rects[i], r) <= 8192 then
      exists b ::
        && 0 <= b < |rects| && rects' == rects[b := Union(rects[b], r)]
        && forall i :: 0 <= i < |rects| ==> Waste(rects[b], r) <= Waste(rects[i], r)
    else if |rects| < 8 then rects' == rects + [r]
    else
      exists a: nat, b: nat ::
        && a < b < |rects| && rects' == Swapped(rects, a, b, r)
        && forall i, j :: 0 <= i < j < |rects| ==> Waste(rects[a], rects[b]) <= Waste(rects[i], rects[j])
  }

  function TotalArea(rects: seq<Rect>): nat
  {
    if rects == [] then 0 else TotalArea(rects[..|rects| - 1]) + Area(rects[|rects| - 1])
  }

  lemma {:induction false} TotalAreaUpdate(rects: seq<Rect>, k: nat, r: Rect)
    requires k < |rects|
    ensures TotalArea(rects[k := r]) + Area(rects[k]) == TotalArea(rects) + Area(r)
  {
    hide Area;
    var last := |rects| - 1;
    if k < last {
      TotalAreaUpdate(rects[..last], k, r);
      assert rects[k := r][..last] == rects[..last][k := r];
    } else {
      assert rects[k := r][..last] == rects[..last];
    }
  }

  /** Unless the table is full, one more rectangle makes the flush larger by no more than
      its own area and 8192 pixels. */
  lemma DamageIsTight(rects: seq<Rect>, r: Rect, rects': seq<Rect>)
    requires TakesIn(rects, r, rects') && |rects| < 8
    ensures TotalArea(rects') <= TotalArea(rects) + Area(r) + 8192
  {
    hide Area, Union;
    if exists i :: 0 <= i < |rects| && Waste(rects[i], r) <= 8192 {
      var i :| 0 <= i < |rects| && Waste(rects[i], r) <= 8192;
      var b :| 0 <= b < |rects| && rects' == rects[b := Union(rects[b], r)]
               && forall i :: 0 <= i < |rects| ==> Waste(rects[b], r) <= Waste(rects[i], r);
      assert Waste(rects[b], r) <= Waste(rects[i], r);
      TotalAreaUpdate(rects, b, Union(rects[b], r));
    } else {
      assert (rects + [r])[..|rects|] == rects;
    }
  }

  class Damage {
    var width: nat
    var height: nat
    var rects: seq<Rect>
    /** Pixels marked since the last snapshot. */
    ghost var marked: set<Pixel>

    ghost predicate Valid()
      reads this
    {
      && |rects| <= MAX_DAMAGE && (forall i :: 0 <= i < |rects| ==> InBounds(rects[i], width, height))
      && (forall p :: p in marked ==> Covered(rects, p))
    }

    constructor (width: nat, height: nat)
      ensures Valid() && rects == [] && marked == {} && this.width == width && this.height == height
    {
      this.width, this.height, rects, marked := width, height, [], {};
    }

    /** The pending rectangle that wastes least when merged with r, if any wastes
        little enough. */
    method BestMerge(r: Rect) returns (best: int)
      ensures best < |rects| && best >= -1
      ensures best == -1 ==> forall i :: 0 <= i < |rects| ==> Waste(rects[i], r) > MERGE_SLACK
      ensures best >= 0 ==>
                Waste(rects[best], r) <= MERGE_SLACK && forall i :: 0 <= i < |rects| ==> Waste(rects[best], r) <= Waste(rects[i], r)
    {
      hide Waste;
      best := -1;
      var bestWaste := 0;
      var i := 0;
      while i < |rects|
        invariant 0 <= i <= |rects| && -1 <= best < i
        invariant best == -1 ==> forall j :: 0 <= j < i ==> Waste(rects[j], r) > MERGE_SLACK
        invariant best >= 0 ==>
                    bestWaste == Waste(rects[best], r) <= MERGE_SLACK && forall j :: 0 <= j < i ==> bestWaste <= Waste(rects[j], r)
      {
        var waste := Waste(rects[i], r);
        if waste <= MERGE_SLACK && (best < 0 || waste < bestWaste) {
          best, bestWaste := i, waste;
        }
        i := i + 1;
      }
    }

    /** The two pending rectangles that waste least when merged. */
    method LeastPair() returns (a: nat, b: nat)
      requires |rects| >= 2
      ensures a < b < |rects|
      ensures forall i, j :: 0 <= i < j < |rects| ==> Waste(rects[a], rects[b]) <= Waste(rects[i], rects[j])
    {
      hide Waste;
      a, b := 0, 1;
      var least := Waste(rects[0], rects[1]);
      var i := 0;
      while i < |rects|
        invariant 0 <= i <= |rects| && a < b < |rects| && least == Waste(rects[a], rects[b])
        invariant forall k, j :: 0 <= k < i && k < j < |rects| ==> least <= Waste(rects[k], rects[j])
      {
        var j := i + 1;
        while j < |rects|
          invariant i < j <= |rects| && a < b < |rects| && least == Waste(rects[a], rects[b])
          invariant forall k, l :: 0 <= k < i && k < l < |rects| ==> least <= Waste(rects[k], rects[l])
          invariant forall l :: i < l < j ==> least <= Waste(rects[i], rects[l])
        {
          var waste := Waste(rects[i], rects[j]);
          if waste < least {
            least, a, b := waste, i, j;
          }
          j := j + 1;
        }
        i := i + 1;
      }
    }

    /** The three ways mark_damage takes in a clipped rectangle: merge it, append
        it, or make room by merging two others. */
    method Insert(r: Rect)
      requires Valid() && InBounds(r, width, height)
      modifies this`rects
      ensures |rects| <= MAX_DAMAGE && (forall i :: 0 <= i < |rects| ==> InBounds(rects[i], width, height))
      ensures CoversMore(old(rects) + [r], rects) && TakesIn(old(rects), r, rects)
    {
      hide Waste, Union;
      var best := BestMerge(r);
      if best >= 0 {
        UnionInBounds(rects[best], r, width, height);
        MergeOne(rects, best, r);
        rects := rects[best := Union(rects[best], r)];
        return;
      }
      if |rects| < MAX_DAMAGE {
        rects := rects + [r];
        return;
      }
      var a, b := LeastPair();
      UnionInBounds(rects[a], rects[b], width, height);
      SwapCovers(rects, a, b, r);
      ghost var last := |rects| - 1;
      ghost var want := Swapped(rects, a, b, r);
      rects := rects[a := Union(rects[a], rects[b])];
      rects := rects[b := rects[|rects| - 1]];
      rects := rects[|rects| - 1 := r];
      assert rects == want;
    }

    /** framebuffer_mark_damage: exactly the in-bounds pixels of the rectangle are
        added to what is marked, and everything marked stays covered. */
    method MarkDamage(x: nat, y: nat, w: nat, h: nat)
      requires Valid()
      modifies this`rects, this`marked
      ensures Valid() && CoversMore(old(rects), rects)
      ensures forall p :: p in marked <==> p in old(marked) || Marks(x, y, w, h, width, height, p)
      ensures if x < width && y < height && w > 0 && h > 0
              then TakesIn(old(rects), Rect(x, y, if x + w > width then width - x else w, if y + h > height then height - y
                               else h), rects)
              else rects == old(rects)
    {
      if width == 0 || height == 0 || x >= width || y >= height {
        return;
      }
      var r := Rect(x, y, if w > width - x then width - x else w, if h > height - y then height - y else h);
      if r.w == 0 || r.h == 0 {
        return;
      }
      ClippedMarks(x, y, w, h, width, height, r);
      hide TakesIn, Marks, Inside, CoversMore, Covered;
      MarkClipped(r);
    }

    method MarkClipped(r: Rect)
      requires Valid() && InBounds(r, width, height)
      modifies this`rects, this`marked
      ensures Valid() && CoversMore(old(rects), rects) && TakesIn(old(rects), r, rects)
      ensures forall p :: p in marked <==> p in old(marked) || Inside(r, p)
    {
      hide TakesIn, Inside, CoversMore;
      ghost var rects0 := rects;
      Insert(r);
      ghost var more := Pixels(r);
      forall p | p in marked + more
        ensures Covered(rects, p)
      {
        Kept(rects0, r, rects, p);
      }
      CoversBoth(rects0, r, rects);
      marked := marked + more;
    }

    /** mark_full_damage, as after a mode change. */
    method MarkAll(newWidth: nat, newHeight: nat)
      modifies this
      ensures Valid() && width == newWidth && height == newHeight
      ensures forall p :: p in marked <==> p.x < width && p.y < height
    {
      width, height := newWidth, newHeight;
      if width == 0 || height == 0 {
        rects, marked := [], {};
        return;
      }
      var r := Rect(0, 0, width, height);
      rects, marked := [r], Pixels(r);
      assert forall p :: p in marked ==> Inside(rects[0], p);
    }

    /** The snapshot of framebuffer_present: the rectangles handed to the flush
        cover everything marked so far, and counting starts again. */
    method Snapshot() returns (pending: seq<Rect>)
      requires Valid()
      modifies this`rects, this`marked
      ensures Valid() && rects == [] && marked == {}
      ensures |pending| <= MAX_DAMAGE && pending == old(rects)
      ensures forall p :: p in old(marked) ==> Covered(pending, p)
    {
      pending := rects;
      rects, marked := [], {};
    }
  }

  ghost function Pixels(r: Rect): (s: set<Pixel>)
    ensures forall p :: p in s <==> Inside(r, p)
  {
    var s := set a: nat, b: nat | r.x <= a < r.x + r.w && r.y <= b < r.y + r.h :: Pixel(a, b);
    assert forall p: Pixel :: Inside(r, p) ==> p == Pixel(p.x, p.y) && p in s;
    s
  }

  lemma ClippedMarks(x: nat, y: nat, w: nat, h: nat, width: nat, height: nat, r: Rect)
    requires x < width && y < height
    requires r == Rect(x, y, if w > width - x then width - x else w, if h > height - y then height - y else h)
    ensures forall p :: Inside(r, p) <==> Marks(x, y, w, h, width, height, p)
  {
  }

  lemma Kept(before: seq<Rect>, r: Rect, after: seq<Rect>, p: Pixel)
    requires CoversMore(before + [r], after) && (Covered(before, p) || Inside(r, p))
    ensures Covered(after, p)
  {
    var both := before + [r];
    if Covered(before, p) {
      var i :| 0 <= i < |before| && Inside(before[i], p);
      assert Inside(both[i], p);
    } else {
      assert Inside(both[|before|], p);
    }
    assert Covered(both, p);
  }

  lemma CoversBoth(before: seq<Rect>, r: Rect, after: seq<Rect>)
    requires CoversMore(before + [r], after)
    ensures CoversMore(before, after)
  {
    forall p | Covered(before, p)
      ensures Covered(after, p)
    {
      Kept(before, r, after, p);
    }
  }

  type Screen = map<Pixel, nat>

  // ---- what the display shows --------------------------------------------------

  ghost predicate Stale(drawn: Screen, shown: Screen, p: Pixel)
  {
    p in drawn && p in shown && drawn[p] != shown[p]
  }

  /** The picture in memory, the picture on the display, and the damage between them. */
  class Scanout {
    const damage: Damage
    var drawn: Screen
    var shown: Screen

    ghost predicate Valid()
      reads this, damage
    {
      damage.Valid() && drawn.Keys == shown.Keys && forall p :: p in drawn ==> p.x < damage.width && p.y < damage.height
    }

    /** Every pixel that the display does not show yet is marked. */
    ghost predicate Tracked()
      reads this, damage
    {
      forall p :: Stale(drawn, shown, p) ==> p in damage.marked
    }

    constructor (damage: Damage, screen: Screen)
      requires damage.Valid() && forall p :: p in screen ==> p.x < damage.width && p.y < damage.height
      ensures Valid() && Tracked() && this.damage == damage && drawn == screen && shown == screen
    {
      this.damage, drawn, shown := damage, screen, screen;
    }

    /** A writer changes pixels of a rectangle and marks it. */
    method Draw(r: Rect, picture: Screen)
      requires Valid()
      modifies this`drawn, damage`rects, damage`marked
      ensures Valid() && shown == old(shown) && (old(Tracked()) ==> Tracked())
      ensures forall p :: p in drawn ==> drawn[p] == if Inside(r, p) && p in picture then picture[p] else old(drawn)[p]
    {
      drawn := map p | p in drawn :: if Inside(r, p) && p in picture then picture[p] else drawn[p];
      assert drawn.Keys == old(drawn).Keys;
      damage.MarkDamage(r.x, r.y, r.w, r.h);
    }

    /** framebuffer_present, when the backend flushes the first `flushed` rectangles of
        the snapshot.  After a complete flush the display shows everything that was
        drawn.  A failed flush is only logged and its rectangles are not put back: the
        damage still describes what is missing exactly when the part that was flushed
        covers all of it. */
    method Present(flushed: nat) returns (ok: bool)
      requires Valid() && flushed <= |damage.rects|
      modifies this`shown, damage`rects, damage`marked
      ensures Valid() && drawn == old(drawn) && damage.rects == [] && damage.marked == {}
      ensures ok <==> flushed == |old(damage.rects)|
      ensures forall p ::
                p in shown ==> shown[p] == if Covered(old(damage.rects)[..flushed], p) then drawn[p] else old(shown)[p]
      ensures old(Tracked()) && ok ==> shown == drawn && Tracked()
      ensures Tracked() <==> forall p :: old(Stale(drawn, shown, p)) ==> Covered(old(damage.rects)[..flushed], p)
    {
      var pending := damage.Snapshot();
      ghost var done := pending[..flushed];
      shown := map p | p in shown :: if Hit(pending, flushed, p) then drawn[p] else shown[p];
      assert shown.Keys == old(shown).Keys;
      forall p
        ensures Hit(pending, flushed, p) <==> Covered(done, p)
      {
        HitCovered(pending, flushed, p);
      }
      ok := flushed == |pending|;
      assert ok ==> done == pending;
      assert forall p :: p in shown ==> (Stale(drawn, shown, p) <==> old(Stale(drawn, shown, p)) && !Covered(done, p));
    }
  }

  predicate Hit(rects: seq<Rect>, n: nat, p: Pixel)
    requires n <= |rects|
  {
    n > 0 && (Inside(rects[n - 1], p) || Hit(rects, n - 1, p))
  }

  lemma {:induction false} HitCovered(rects: seq<Rect>, n: nat, p: Pixel)
    requires n <= |rects|
    ensures Hit(rects, n, p) <==> Covered(rects[..n], p)
  {
    if n > 0 {
      HitCovered(rects, n - 1, p);
      var now, less := rects[..n], rects[..n - 1];
      assert now == less + [rects[n - 1]];
      assert Inside(rects[n - 1], p) ==> Inside(now[n - 1], p);
      if Covered(less, p) {
        var i :| 0 <= i < |less| && Inside(less[i], p);
        assert now[i] == less[i];
      }
    }
  }

  // ---- the parallel copy -----------------------------------------------------

  /** What the copy is meant to do: the pixels of the rectangles come from the
      source, all others stay. */
  ghost predicate Presented(before: Screen, source: Screen, rects: seq<Rect>, after: Screen)
  {
    && after.Keys == before.Keys
    && forall p :: p in after ==> if Covered(rects, p) then p in source && after[p] == source[p]
        else after[p] == before[p]
  }

  /** Where a lane is: in rectangle `rect`, about to copy its k-th row of it. */
  datatype Place = Place(rect: nat, k: nat)

  /** Row `row` of rectangle i has been copied by the lane it belongs to. */
  predicate RowDone(places: seq<Place>, i: nat, row: nat)
    requires |places| > 0
  {
    var q := places[row % |places|];
    q.rect > i || (q.rect == i && row / |places| < q.k)
  }

  ghost predicate PixelDone(places: seq<Place>, rects: seq<Rect>, p: Pixel)
    requires |places| > 0
  {
    exists i :: 0 <= i < |rects| && Inside(rects[i], p) && RowDone(places, i, p.y - rects[i].y)
  }

  lemma Mono(a: nat, b: nat, n: nat)
    requires a <= b
    ensures a * n <= b * n
  {
  }

  lemma SameRow(row: nat, lanes: nat)
    requires lanes > 0
    ensures row == row % lanes + row / lanes * lanes && row % lanes < lanes
  {
  }

  lemma RowOf(lane: nat, k: nat, lanes: nat)
    requires lane < lanes
    ensures (lane + k * lanes) % lanes == lane && (lane + k * lanes) / lanes == k
  {
    var row := lane + k * lanes;
    SameRow(row, lanes);
    var q := row / lanes;
    assert (k + 1) * lanes == k * lanes + lanes && (q + 1) * lanes == q * lanes + lanes;
    if k + 1 <= q {
      Mono(k + 1, q, lanes);
    } else if q + 1 <= k {
      Mono(q + 1, k, lanes);
    }
  }

  /** A lane that copies its k-th row has done exactly one row more. */
  lemma OneRowMore(places: seq<Place>, lane: nat, i: nat, row: nat)
    requires lane < |places|
    ensures var places' := places[lane := Place(places[lane].rect, places[lane].k + 1)];
            RowDone(places', i, row) <==> RowDone(places, i, row) || (i == places[lane].rect && row == lane + places[lane].k * |places|)
  {
    var n := |places|;
    SameRow(row, n);
    RowOf(lane, places[lane].k, n);
    if row % n == lane && row / n == places[lane].k {
      assert row == lane + places[lane].k * n;
    }
  }

  class CopyBatch {
    const rects: seq<Rect>
    const source: Screen
    var screen: Screen
    var places: seq<Place>
    var failed: bool
    ghost const before: Screen

    ghost predicate Valid()
      reads this
    {
      && |places| > 0 && screen.Keys == before.Keys
      && (forall l :: 0 <= l < |places| ==> places[l].rect <= |rects|)
      && (!failed ==> Shows(places, rects, source, before, screen))
      && OldOrNew(rects, source, before, screen) && (failed ==> Unreadable(rects, source, before))
    }

    predicate Finished()
      reads this
    {
      forall l :: 0 <= l < |places| ==> places[l].rect == |rects|
    }

    constructor (rects: seq<Rect>, source: Screen, screen: Screen, lanes: nat)
      requires lanes > 0
      ensures Valid() && this.rects == rects && this.source == source && this.screen == screen && before == screen
      ensures |places| == lanes
    {
      this.rects, this.source, this.screen, before := rects, source, screen, screen;
      places, failed := seq(lanes, _ => Place(0, 0)), false;
      new;
      assert Shows(places, rects, source, screen, screen);
    }

    /** One turn of one lane in framebuffer_copy_lane: copy its next row of the
        current rectangle, or go on to the next rectangle.  A row that cannot be
        read is copied up to some point and fails the batch, and a failed batch
        copies no further row. */
    method Turn(lane: nat)
      requires Valid() && lane < |places|
      modifies this`screen, this`places, this`failed
      ensures Valid() && |places| == old(|places|) && (old(failed) ==> failed && screen == old(screen))
      ensures forall l :: 0 <= l < |places| && l != lane ==> places[l] == old(places)[l]
      ensures old(places)[lane].rect < |rects| ==> places[lane] != old(places)[lane]
    {
      hide Shows, OldOrNew, Unreadable;
      var at := places[lane];
      if at.rect == |rects| {
        return;
      }
      var r, row := rects[at.rect], lane + at.k * |places|;
      if row < r.h && !failed {
        if Readable(screen, source, r, row) {
          ShowsRow(places, rects, source, before, screen, lane, r, row);
          RowOldOrNew(rects, source, before, screen, at.rect, row);
          screen := CopyRow(screen, source, r, row);
          places := places[lane := Place(at.rect, at.k + 1)];
          return;
        }
        var part: nat := *;
        PartOldOrNew(rects, source, before, screen, at.rect, row, part);
        screen := CopyPart(screen, source, r, row, part);
        failed := true;
      } else if !failed {
        ShowsLeft(places, rects, source, before, screen, lane);
      }
      places := places[lane := Place(at.rect + 1, 0)];
    }
  }

  predicate OnRow(r: Rect, row: nat, p: Pixel)
  {
    p.y == r.y + row && r.x <= p.x < r.x + r.w
  }

  predicate Readable(screen: Screen, source: Screen, r: Rect, row: nat)
  {
    forall p :: p in screen && OnRow(r, row, p) ==> p in source
  }

  /** Copy one row of a rectangle. */
  function CopyRow(screen: Screen, source: Screen, r: Rect, row: nat): Screen
    requires Readable(screen, source, r, row)
  {
    map p | p in screen :: if OnRow(r, row, p) then source[p] else screen[p]
  }

  /** What is copied of a row before a read fails. */
  function CopyPart(screen: Screen, source: Screen, r: Rect, row: nat, part: nat): Screen
  {
    map p | p in screen :: if OnRow(r, row, p) && p.x < r.x + part && p in source then source[p] else screen[p]
  }

  /** Every pixel is the old one, or the source's where a rectangle covers it. */
  ghost predicate OldOrNew(rects: seq<Rect>, source: Screen, before: Screen, screen: Screen)
    requires screen.Keys == before.Keys
  {
    forall p :: p in screen ==> screen[p] == before[p] || (Covered(rects, p) && p in source && screen[p] == source[p])
  }

  ghost predicate Unreadable(rects: seq<Rect>, source: Screen, before: Screen)
  {
    exists p :: p in before && Covered(rects, p) && p !in source
  }

  lemma RowOldOrNew(rects: seq<Rect>, source: Screen, before: Screen, screen: Screen, i: nat, row: nat)
    requires screen.Keys == before.Keys && OldOrNew(rects, source, before, screen) && i < |rects| && row < rects[i].h
    requires Readable(screen, source, rects[i], row)
    ensures CopyRow(screen, source, rects[i], row).Keys == before.Keys
    ensures OldOrNew(rects, source, before, CopyRow(screen, source, rects[i], row))
  {
    var after := CopyRow(screen, source, rects[i], row);
    assert after.Keys == screen.Keys;
    forall p | p in after && OnRow(rects[i], row, p)
      ensures Covered(rects, p)
    {
      assert Inside(rects[i], p);
    }
  }

  lemma PartOldOrNew(rects: seq<Rect>, source: Screen, before: Screen, screen: Screen, i: nat, row: nat, part: nat)
    requires screen.Keys == before.Keys && OldOrNew(rects, source, before, screen) && i < |rects| && row < rects[i].h
    requires !Readable(screen, source, rects[i], row)
    ensures CopyPart(screen, source, rects[i], row, part).Keys == before.Keys && Unreadable(rects, source, before)
    ensures OldOrNew(rects, source, before, CopyPart(screen, source, rects[i], row, part))
  {
    var after := CopyPart(screen, source, rects[i], row, part);
    assert after.Keys == screen.Keys;
    forall p | p in screen && OnRow(rects[i], row, p)
      ensures Covered(rects, p)
    {
      assert Inside(rects[i], p);
    }
    var p :| p in screen && OnRow(rects[i], row, p) && p !in source;
    assert p in before;
  }

  /** After one more row, exactly its pixels are done in addition. */
  lemma RowCopied(places: seq<Place>, rects: seq<Rect>, lane: nat, r: Rect, row: nat)
    requires lane < |places| && places[lane].rect < |rects| && r == rects[places[lane].rect]
    requires row == lane + places[lane].k * |places| && row < r.h
    ensures var places' := places[lane := Place(places[lane].rect, places[lane].k + 1)];
            forall p: Pixel {:trigger PixelDone(places', rects, p)} ::
              PixelDone(places', rects, p) <==> PixelDone(places, rects, p) || OnRow(r, row, p)
  {
    var places', cur := places[lane := Place(places[lane].rect, places[lane].k + 1)], places[lane].rect;
    hide RowDone;
    forall p: Pixel
      ensures PixelDone(places', rects, p) <==> PixelDone(places, rects, p) || OnRow(r, row, p)
    {
      if PixelDone(places', rects, p) {
        var i :| 0 <= i < |rects| && Inside(rects[i], p) && RowDone(places', i, p.y - rects[i].y);
        OneRowMore(places, lane, i, p.y - rects[i].y);
      }
      if PixelDone(places, rects, p) {
        var i :| 0 <= i < |rects| && Inside(rects[i], p) && RowDone(places, i, p.y - rects[i].y);
        OneRowMore(places, lane, i, p.y - rects[i].y);
        assert RowDone(places', i, p.y - rects[i].y);
      }
      if OnRow(r, row, p) {
        OneRowMore(places, lane, cur, row);
        assert Inside(rects[cur], p) && RowDone(places', cur, p.y - rects[cur].y);
      }
    }
  }

  /** A lane leaves a rectangle only when none of its rows there is missing. */
  lemma RectLeft(places: seq<Place>, rects: seq<Rect>, lane: nat)
    requires lane < |places| && places[lane].rect < |rects|
    requires lane + places[lane].k * |places| >= rects[places[lane].rect].h
    ensures var places' := places[lane := Place(places[lane].rect + 1, 0)];
            forall p: Pixel {:trigger PixelDone(places', rects, p)} :: PixelDone(places', rects, p) <==> PixelDone(places, rects, p)
  {
    var places' := places[lane := Place(places[lane].rect + 1, 0)];
    forall p: Pixel
      ensures PixelDone(places', rects, p) <==> PixelDone(places, rects, p)
    {
      if PixelDone(places', rects, p) {
        var i :| 0 <= i < |rects| && Inside(rects[i], p) && RowDone(places', i, p.y - rects[i].y);
        LeftRow(places, rects, lane, i, p.y - rects[i].y);
      }
      if PixelDone(places, rects, p) {
        var i :| 0 <= i < |rects| && Inside(rects[i], p) && RowDone(places, i, p.y - rects[i].y);
        LeftRow(places, rects, lane, i, p.y - rects[i].y);
        assert RowDone(places', i, p.y - rects[i].y);
      }
    }
  }

  lemma LeftRow(places: seq<Place>, rects: seq<Rect>, lane: nat, i: nat, row: nat)
    requires lane < |places| && places[lane].rect < |rects| && i < |rects| && row < rects[i].h
    requires lane + places[lane].k * |places| >= rects[places[lane].rect].h
    ensures RowDone(places[lane := Place(places[lane].rect + 1, 0)], i, row) <==> RowDone(places, i, row)
  {
    var n := |places|;
    SameRow(row, n);
    if places[lane].k <= row / n {
      Mono(places[lane].k, row / n, n);
    }
  }

  /** The pixels that are done show the source, the others what was there before. */
  ghost predicate Shows(places: seq<Place>, rects: seq<Rect>, source: Screen, before: Screen, screen: Screen)
    requires |places| > 0 && screen.Keys == before.Keys
  {
    forall p :: p in screen ==>
      if PixelDone(places, rects, p) then p in source && screen[p] == source[p] else screen[p] == before[p]
  }

  lemma ShowsRow(places: seq<Place>, rects: seq<Rect>, source: Screen, before: Screen, screen: Screen, lane: nat,
                 r: Rect, row: nat)
    requires lane < |places| && screen.Keys == before.Keys && Shows(places, rects, source, before, screen)
    requires Readable(screen, source, r, row)
    requires places[lane].rect < |rects| && r == rects[places[lane].rect] && row == lane + places[lane].k * |places|
    requires row < r.h
    ensures CopyRow(screen, source, r, row).Keys == before.Keys
    ensures Shows(places[lane := Place(places[lane].rect, places[lane].k + 1)], rects, source, before,
                  CopyRow(screen, source, r, row))
  {
    RowCopied(places, rects, lane, r, row);
    var places', screen' := places[lane := Place(places[lane].rect, places[lane].k + 1)],
        CopyRow(screen, source, r, row);
    assert screen'.Keys == screen.Keys;
    forall p | p in screen'
      ensures if PixelDone(places', rects, p) then p in source && screen'[p] == source[p] else screen'[p] == before[p]
    {
      assert p in screen;
      assert PixelDone(places', rects, p) <==> PixelDone(places, rects, p) || OnRow(r, row, p);
      hide PixelDone;
    }
  }

  lemma ShowsLeft(places: seq<Place>, rects: seq<Rect>, source: Screen, before: Screen, screen: Screen, lane: nat)
    requires lane < |places| && screen.Keys == before.Keys && Shows(places, rects, source, before, screen)
    requires places[lane].rect < |rects| && lane + places[lane].k * |places| >= rects[places[lane].rect].h
    ensures Shows(places[lane := Place(places[lane].rect + 1, 0)], rects, source, before, screen)
  {
    RectLeft(places, rects, lane);
    var places' := places[lane := Place(places[lane].rect + 1, 0)];
    forall p | p in screen
      ensures if PixelDone(places', rects, p) then p in source && screen[p] == source[p] else screen[p] == before[p]
    {
      assert PixelDone(places', rects, p) <==> PixelDone(places, rects, p);
      hide PixelDone;
    }
  }

  /** Any schedule: `turns` says which lane goes next.  Once all lanes are through
      without a failure, the screen is what the rectangles ask for, with any
      number of lanes.  A batch fails exactly when it comes to a pixel that cannot
      be read, and then every pixel is the old one or the source's. */
  method RunLanes(rects: seq<Rect>, source: Screen, screen: Screen, lanes: nat, turns: seq<nat>) returns (b: CopyBatch)
    requires lanes > 0
    ensures b.Valid() && (b.Finished() && !b.failed ==> Presented(screen, source, rects, b.screen))
    ensures b.Finished() ==> (b.failed <==> Unreadable(rects, source, screen))
    ensures b.screen.Keys == screen.Keys && OldOrNew(rects, source, screen, b.screen)
  {
    b := new CopyBatch(rects, source, screen, lanes);
    var i := 0;
    while i < |turns|
      invariant fresh(b) && b.Valid() && b.rects == rects && b.source == source && b.before == screen
    {
      if turns[i] < |b.places| {
        b.Turn(turns[i]);
      }
      i := i + 1;
    }
    if b.Finished() {
      AllDone(b.places, rects);
    }
  }

  lemma AllDone(places: seq<Place>, rects: seq<Rect>)
    requires |places| > 0 && forall l :: 0 <= l < |places| ==> places[l].rect == |rects|
    ensures forall p: Pixel {:trigger PixelDone(places, rects, p)} {:trigger Covered(rects, p)} ::
              PixelDone(places, rects, p) <==> Covered(rects, p)
  {
    forall p: Pixel
      ensures PixelDone(places, rects, p) <==> Covered(rects, p)
    {
      if Covered(rects, p) {
        var i :| 0 <= i < |rects| && Inside(rects[i], p);
        assert RowDone(places, i, p.y - rects[i].y);
      }
    }
  }

  /** So two finished runs show the same picture, whatever their lanes and schedules. */
  lemma SamePicture(before: Screen, source: Screen, rects: seq<Rect>, one: Screen, many: Screen)
    requires Presented(before, source, rects, one) && Presented(before, source, rects, many)
    ensures one == many
  {
    assert one.Keys == many.Keys;
    assert forall p :: p in one.Keys <==> p in many.Keys;
  }
}
