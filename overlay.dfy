/** The overlay view (OverlayView.kt): turns detection boxes into pixelated regions,
    reuses regions whose box barely moved, and keeps a small FIFO pool of bitmaps. Pixel
    drawing is outside the model; bitmaps are handles and "recycled" is the set of handle
    ids the view has recycled. */
module Overlay {
  import opened Shared
  import opened Regions

  const DefaultDownsampleFactor: int := 15
  const MinDownsampleFactor: int := 5
  const MaxDownsampleFactor: int := 30
  const MaxBitmapPoolSize: nat := 10
  const MinBitmapDimension: int := 8
  /** BOX_SIMILARITY_THRESHOLD: largest (exclusive) per-coordinate move of a reused region. */
  const BoxSimilarityThreshold: real := 0.025

  // ----- powers of two -----

  function Pow2(k: nat): (r: nat)
    ensures 1 <= r
  {
    if k == 0 then 1 else 2 * Pow2(k - 1)
  }

  predicate IsPowerOfTwo(n: int) {
    n == 1 || (2 <= n && n % 2 == 0 && IsPowerOfTwo(n / 2))
  }

  lemma {:induction false} Pow2IsPowerOfTwo(k: nat)
    ensures IsPowerOfTwo(Pow2(k))
  {
    if k > 0 {
      Pow2IsPowerOfTwo(k - 1);
      assert Pow2(k) / 2 == Pow2(k - 1);
    }
  }

  lemma {:induction false} Pow2Monotone(a: nat, b: nat)
    requires a <= b
    ensures Pow2(a) <= Pow2(b)
  {
    if a < b {
      Pow2Monotone(a, b - 1);
    }
  }

  lemma Pow2Values()
    ensures Pow2(30) == 0x4000_0000 && Pow2(31) == 0x8000_0000
  {
    assert Pow2(3) == 8;
    assert Pow2(6) == 64;
    assert Pow2(9) == 512;
    assert Pow2(12) == 0x1000;
    assert Pow2(15) == 0x8000;
    assert Pow2(18) == 0x4_0000;
    assert Pow2(21) == 0x20_0000;
    assert Pow2(24) == 0x100_0000;
    assert Pow2(27) == 0x800_0000;
  }

  /** `32 - Integer.numberOfLeadingZeros(m)`: the number of significant bits of m. */
  function BitLength(m: nat): nat
  {
    if m == 0 then 0 else 1 + BitLength(m / 2)
  }

  /** m has exactly BitLength(m) significant bits. */
  lemma {:induction false} BitLengthBounds(m: nat)
    requires 1 <= m
    ensures 1 <= BitLength(m)
    ensures Pow2(BitLength(m) - 1) <= m < Pow2(BitLength(m))
  {
    if m >= 2 {
      BitLengthBounds(m / 2);
    }
  }

  /** A positive `Int` has at most 31 significant bits. */
  lemma Int32BitLength(m: nat)
    requires 1 <= m < 0x8000_0000
    ensures BitLength(m) <= 31
  {
    BitLengthBounds(m);
    if BitLength(m) > 31 {
      Pow2Monotone(31, BitLength(m) - 1);
      Pow2Values();
      assert false;
    }
  }

  /** `1 shl k` on `Int` for 0 <= k <= 31: bit 31 is the sign bit. */
  function ShiftLeftOne(k: nat): Int32
    requires k <= 31
  {
    if k == 31 then -0x8000_0000
    else
      Pow2Monotone(k, 30);
      Pow2Values();
      Pow2(k)
  }

  /** `Int.nextPowerOf2`: at least MIN_BITMAP_DIMENSION, otherwise the next power of two
      at or above n, computed from the leading-zero count of n - 1. */
  function NextPowerOf2(n: Int32): Int32
  {
    if n <= MinBitmapDimension then MinBitmapDimension
    else
      Int32BitLength(n - 1);
      ShiftLeftOne(BitLength(n - 1))
  }

  /** nextPowerOf2 gives 8 up to 8; above that, up to 2^30, a power of two that is at
      least n and less than 2n; above 2^30 the shift reaches the sign bit and the result
      is negative. */
  lemma NextPowerOf2Properties(n: Int32)
    ensures n <= MinBitmapDimension ==> NextPowerOf2(n) == MinBitmapDimension
    ensures MinBitmapDimension < n <= 0x4000_0000 ==>
              var r := NextPowerOf2(n); IsPowerOfTwo(r) && n <= r < 2 * n
    ensures 0x4000_0000 < n ==> NextPowerOf2(n) < 0
  {
    if MinBitmapDimension < n {
      var m := n - 1;
      var k := BitLength(m);
      BitLengthBounds(m);
      Int32BitLength(m);
      if n <= 0x4000_0000 {
        if k == 31 {
          Pow2Monotone(30, k - 1);
          Pow2Values();
          assert false;
        }
        Pow2IsPowerOfTwo(k);
        assert Pow2(k) == 2 * Pow2(k - 1);
      } else {
        if k < 31 {
          Pow2Monotone(k, 30);
          Pow2Values();
          assert false;
        }
      }
    }
  }

  /** Every result from 9 to 2^30 is at least 8 and a power of two. */
  lemma NextPowerOf2AtLeastMin(n: Int32)
    requires n <= 0x4000_0000
    ensures MinBitmapDimension <= NextPowerOf2(n) && IsPowerOfTwo(NextPowerOf2(n))
  {
    NextPowerOf2Properties(n);
    if n <= MinBitmapDimension {
      Pow2IsPowerOfTwo(3);
    }
  }

  // ----- box matching and region geometry -----

  /** `PixelatedRegion.isSimilarTo(box)`: every coordinate moved by less than 0.025. */
  predicate IsSimilarTo(r: PixelatedRegion, b: DetectionBox) {
    AbsReal(r.sourceBox.x1 - b.x1) < BoxSimilarityThreshold &&
    AbsReal(r.sourceBox.y1 - b.y1) < BoxSimilarityThreshold &&
    AbsReal(r.sourceBox.x2 - b.x2) < BoxSimilarityThreshold &&
    AbsReal(r.sourceBox.y2 - b.y2) < BoxSimilarityThreshold
  }

  /** The integer rectangles and sizes `createPixelatedRegion` computes for one box. */
  datatype Geometry = Geometry(
    srcLeft: int, srcTop: int, srcRight: int, srcBottom: int,
    contentWidth: Int32, contentHeight: Int32,
    bitmapWidth: Int32, bitmapHeight: Int32)

  /** One axis of the source rectangle: `(c1 * size).toInt().coerceIn(0, size - 1)` and
      `(c2 * size).toInt().coerceIn(start + 1, size)`. */
  function Span(c1: real, c2: real, size: Int32): (int, int)
    requires 1 <= size
  {
    var start := ClampInt(Trunc(c1 * size as real), 0, size - 1);
    (start, ClampInt(Trunc(c2 * size as real), start + 1, size))
  }

  /** One axis of the content size: `(region / factor).coerceAtLeast(1)`. */
  function ContentSize(region: int, factor: int): int
    requires 1 <= factor
  {
    Max(region / factor, 1)
  }

  /** The geometry of `createPixelatedRegion`, or None where it gives up: `coerceIn` with
      an empty range throws on a source bitmap without pixels, and the (unreachable) test
      for an empty region returns null. */
  function RegionGeometry(box: DetectionBox, sw: Int32, sh: Int32, factor: int): Option<Geometry>
    requires 1 <= factor
  {
    if sw < 1 || sh < 1 then None
    else
      var (srcLeft, srcRight) := Span(box.x1, box.x2, sw);
      var (srcTop, srcBottom) := Span(box.y1, box.y2, sh);
      var regionWidth := srcRight - srcLeft;
      var regionHeight := srcBottom - srcTop;
      if regionWidth <= 0 || regionHeight <= 0 then None
      else
        var contentWidth := ContentSize(regionWidth, factor);
        var contentHeight := ContentSize(regionHeight, factor);
        Some(Geometry(srcLeft, srcTop, srcRight, srcBottom, contentWidth, contentHeight,
                      NextPowerOf2(contentWidth), NextPowerOf2(contentHeight)))
  }

  /** On one axis: the span is a non-empty part of [0, size); the content is the span
      shrunk by the factor but at least one pixel; with a factor of at least 5 it fits in
      a power-of-two allocation of at least 8. */
  lemma AxisProperties(c1: real, c2: real, size: Int32, factor: int)
    requires 1 <= size && 1 <= factor
    ensures var (start, end) := Span(c1, c2, size);
            var content := ContentSize(end - start, factor);
            0 <= start < end <= size && 1 <= content <= end - start &&
            (MinDownsampleFactor <= factor ==>
               content <= 0x4000_0000 && content <= NextPowerOf2(content) &&
               MinBitmapDimension <= NextPowerOf2(content) && IsPowerOfTwo(NextPowerOf2(content)))
  {
    var (start, end) := Span(c1, c2, size);
    var region := end - start;
    QuotientBounds(region, factor);
    if MinDownsampleFactor <= factor {
      var content := ContentSize(region, factor);
      NextPowerOf2Properties(content);
      NextPowerOf2AtLeastMin(content);
    }
  }

  /** Integer division by at least 1 does not grow a number, and by at least 5 keeps an
      `Int` below 2^30. */
  lemma QuotientBounds(a: nat, d: int)
    requires 1 <= d
    ensures a / d <= a
    ensures MinDownsampleFactor <= d && a < 0x8000_0000 ==> a / d <= 0x4000_0000
  {
    var q := a / d;
    assert q * d <= a;
    MulMonotone(q, 1, d);
    if MinDownsampleFactor <= d {
      MulMonotone(q, 5, d);
    }
  }

  lemma MulMonotone(q: nat, x: int, y: int)
    requires x <= y
    ensures q * x <= q * y
  {
    assert q * y - q * x == q * (y - x);
  }

  /** The geometry exists exactly when the source has pixels; the source rectangle is a
      non-empty part of the source; the content is the region shrunk by the factor but at
      least one pixel; with the view's factors (at least 5) it fits in a power-of-two
      bitmap of at least 8 x 8. */
  lemma RegionGeometryProperties(box: DetectionBox, sw: Int32, sh: Int32, factor: int)
    requires 1 <= factor
    ensures RegionGeometry(box, sw, sh, factor).None? <==> sw < 1 || sh < 1
    ensures RegionGeometry(box, sw, sh, factor).Some? ==>
              var g := RegionGeometry(box, sw, sh, factor).value;
              0 <= g.srcLeft < g.srcRight <= sw && 0 <= g.srcTop < g.srcBottom <= sh &&
              g.contentWidth == Max(1, (g.srcRight - g.srcLeft) / factor) &&
              g.contentHeight == Max(1, (g.srcBottom - g.srcTop) / factor) &&
              1 <= g.contentWidth <= g.srcRight - g.srcLeft &&
              1 <= g.contentHeight <= g.srcBottom - g.srcTop &&
              (MinDownsampleFactor <= factor ==>
                 g.contentWidth <= g.bitmapWidth && g.contentHeight <= g.bitmapHeight &&
                 MinBitmapDimension <= g.bitmapWidth && MinBitmapDimension <= g.bitmapHeight &&
                 IsPowerOfTwo(g.bitmapWidth) && IsPowerOfTwo(g.bitmapHeight))
  {
    if 1 <= sw && 1 <= sh {
      AxisProperties(box.x1, box.x2, sw, factor);
      AxisProperties(box.y1, box.y2, sh, factor);
    }
  }

  /** The on-screen rectangle of a box in a view of the given size. */
  function Bounds(box: DetectionBox, viewWidth: int, viewHeight: int): RectF {
    RectF(box.x1 * viewWidth as real, box.y1 * viewHeight as real,
          box.x2 * viewWidth as real, box.y2 * viewHeight as real)
  }

  // ----- searching -----

  /** The first index at or after `from` whose element satisfies p: Kotlin's `find` and
      the scan of `getBitmapFromPool`. */
  function FirstIndex<T>(s: seq<T>, p: T -> bool, from: nat): (r: Option<nat>)
    requires from <= |s|
    decreases |s| - from
    ensures r.Some? ==> from <= r.value < |s|
  {
    if from == |s| then None
    else if p(s[from]) then Some(from)
    else FirstIndex(s, p, from + 1)
  }

  /** The index found satisfies p and none before it (from `from` on) does; when none is
      found, no element from `from` on satisfies p. */
  lemma {:induction false} FirstIndexIsFirst<T>(s: seq<T>, p: T -> bool, from: nat)
    requires from <= |s|
    decreases |s| - from
    ensures var r := FirstIndex(s, p, from);
            (r.Some? ==> p(s[r.value]) && forall j :: from <= j < r.value ==> !p(s[j])) &&
            (r.None? ==> forall j :: from <= j < |s| ==> !p(s[j]))
  {
    if from < |s| && !p(s[from]) {
      FirstIndexIsFirst(s, p, from + 1);
    }
  }

  // ----- the bitmap pool -----

  /** The pool's contents, oldest first, and the ids of the bitmaps recycled so far. */
  datatype PoolState = PoolState(items: seq<Bitmap>, recycled: set<nat>)

  /** A pooled bitmap `getBitmapFromPool(w, h)` may hand out. */
  predicate Usable(b: Bitmap, w: int, h: int, recycled: set<nat>) {
    b.id !in recycled && b.mutable && b.width == w && b.height == h
  }

  function UsableFor(w: int, h: int, recycled: set<nat>): Bitmap -> bool {
    (b: Bitmap) => Usable(b, w, h, recycled)
  }

  /** The index `getBitmapFromPool(w, h)` takes from the pool, if any. */
  function PoolHit(s: PoolState, w: int, h: int): Option<nat>
  {
    FirstIndex(s.items, UsableFor(w, h, s.recycled), 0)
  }

  /** The bitmap `getBitmapFromPool(w, h)` hands out, if any. */
  function PoolTake(s: PoolState, w: int, h: int): Option<Bitmap>
  {
    match PoolHit(s, w, h)
    case None => None
    case Some(i) => Some(s.items[i])
  }

  /** A bitmap handed out was pooled, is not recycled, is mutable and has exactly the
      requested size; none is handed out only when no pooled bitmap qualifies. */
  lemma PoolTakeFits(s: PoolState, w: int, h: int)
    ensures PoolTake(s, w, h).Some? ==>
              PoolTake(s, w, h).value in s.items && Usable(PoolTake(s, w, h).value, w, h, s.recycled)
    ensures PoolTake(s, w, h).None? <==> forall b :: b in s.items ==> !Usable(b, w, h, s.recycled)
  {
    FirstIndexIsFirst(s.items, UsableFor(w, h, s.recycled), 0);
    if PoolTake(s, w, h).None? {
      forall b | b in s.items
        ensures !Usable(b, w, h, s.recycled)
      {
        var j :| 0 <= j < |s.items| && s.items[j] == b;
        assert !UsableFor(w, h, s.recycled)(s.items[j]);
      }
    }
  }

  /** The pool after `getBitmapFromPool(w, h)`: the first usable bitmap removed, or no change. */
  function AfterTake(s: PoolState, w: int, h: int): PoolState
  {
    match PoolHit(s, w, h)
    case None => s
    case Some(i) => PoolState(s.items[..i] + s.items[i + 1..], s.recycled)
  }

  /** The pool after `returnBitmapToPool(b)`: recycled or immutable bitmaps are refused;
      into a full pool the oldest bitmap is removed and recycled first; `b` joins at the end. */
  function AfterReturn(s: PoolState, b: Bitmap): PoolState
  {
    if b.id in s.recycled || !b.mutable then s
    else if |s.items| >= MaxBitmapPoolSize then PoolState(s.items[1..] + [b], s.recycled + {s.items[0].id})
    else PoolState(s.items + [b], s.recycled)
  }

  /** Returning each of `bs` in turn. */
  function ReturnAll(s: PoolState, bs: seq<Bitmap>): PoolState
  {
    if bs == [] then s else AfterReturn(ReturnAll(s, bs[..|bs| - 1]), bs[|bs| - 1])
  }

  /** A return keeps the pool within its capacity, never un-recycles anything, and when it
      accepts `b` puts it last, having recycled only the oldest bitmap of a full pool. */
  lemma AfterReturnProperties(s: PoolState, b: Bitmap)
    requires |s.items| <= MaxBitmapPoolSize
    ensures var r := AfterReturn(s, b);
            |r.items| <= MaxBitmapPoolSize && s.recycled <= r.recycled &&
            (b.id in s.recycled || !b.mutable ==> r == s) &&
            (b.id !in s.recycled && b.mutable ==>
               r.items[|r.items| - 1] == b &&
               (|s.items| < MaxBitmapPoolSize ==> r.items[..|r.items| - 1] == s.items && r.recycled == s.recycled) &&
               (|s.items| == MaxBitmapPoolSize ==> r.items[..|r.items| - 1] == s.items[1..] &&
                                                   r.recycled == s.recycled + {s.items[0].id}))
  {
  }

  /** Any sequence of returns keeps the pool within its capacity and only adds to the
      recycled set. */
  lemma {:induction false} ReturnAllBounded(s: PoolState, bs: seq<Bitmap>)
    requires |s.items| <= MaxBitmapPoolSize
    ensures |ReturnAll(s, bs).items| <= MaxBitmapPoolSize
    ensures s.recycled <= ReturnAll(s, bs).recycled
  {
    if bs != [] {
      ReturnAllBounded(s, bs[..|bs| - 1]);
    }
  }

  /** A take removes exactly the first usable bitmap and changes nothing else; without a
      usable bitmap the pool is unchanged. */
  lemma AfterTakeProperties(s: PoolState, w: int, h: int)
    ensures var r := AfterTake(s, w, h);
            r.recycled == s.recycled &&
            (PoolHit(s, w, h).None? <==> r == s) &&
            (PoolHit(s, w, h).Some? ==>
               (|r.items| == |s.items| - 1 &&
                multiset(r.items) + multiset{s.items[PoolHit(s, w, h).value]} == multiset(s.items)))
  {
    match PoolHit(s, w, h)
    case None =>
    case Some(i) =>
      assert s.items == s.items[..i] + [s.items[i]] + s.items[i + 1..];
      assert |AfterTake(s, w, h).items| == |s.items| - 1;
  }

  // ----- claiming cached regions -----

  /** A cached region `updateDetections` may reuse for a box: similar to it, and not equal
      to (same source box as) a region already reused in this update. */
  predicate Claimable(r: PixelatedRegion, box: DetectionBox, claimed: seq<PixelatedRegion>) {
    IsSimilarTo(r, box) && !In(r, claimed)
  }

  function ClaimableFor(box: DetectionBox, claimed: seq<PixelatedRegion>): PixelatedRegion -> bool {
    (r: PixelatedRegion) => Claimable(r, box, claimed)
  }

  /** `cachedRegions.find { it isSimilarTo box && it !in tempReusedFromCache }`. */
  function Find(cached: seq<PixelatedRegion>, box: DetectionBox, claimed: seq<PixelatedRegion>): Option<PixelatedRegion>
  {
    match FirstIndex(cached, ClaimableFor(box, claimed), 0)
    case None => None
    case Some(i) => Some(cached[i])
  }

  /** A region found is cached and claimable; when none is found, no cached region is. */
  lemma FindSound(cached: seq<PixelatedRegion>, box: DetectionBox, claimed: seq<PixelatedRegion>)
    ensures var f := Find(cached, box, claimed);
            (f.Some? ==> f.value in cached && Claimable(f.value, box, claimed)) &&
            (f.None? ==> forall r :: r in cached ==> !Claimable(r, box, claimed))
  {
    FirstIndexIsFirst(cached, ClaimableFor(box, claimed), 0);
    if Find(cached, box, claimed).None? {
      forall r | r in cached
        ensures !Claimable(r, box, claimed)
      {
        var j :| 0 <= j < |cached| && cached[j] == r;
        assert !ClaimableFor(box, claimed)(cached[j]);
      }
    }
  }

  /** The region found is the first claimable one in cache order. */
  lemma FindIsFirst(cached: seq<PixelatedRegion>, box: DetectionBox, claimed: seq<PixelatedRegion>)
    ensures Find(cached, box, claimed).Some? ==>
              exists i :: 0 <= i < |cached| && cached[i] == Find(cached, box, claimed).value &&
                          forall j :: 0 <= j < i ==> !Claimable(cached[j], box, claimed)
  {
    FirstIndexIsFirst(cached, ClaimableFor(box, claimed), 0);
    if Find(cached, box, claimed).Some? {
      var k := FirstIndex(cached, ClaimableFor(box, claimed), 0).value;
      forall j | 0 <= j < k
        ensures !Claimable(cached[j], box, claimed)
      {
        assert !ClaimableFor(box, claimed)(cached[j]);
      }
    }
  }

  /** The reused regions of a plan, in order. */
  function Hits(plan: seq<Option<PixelatedRegion>>): seq<PixelatedRegion>
  {
    if plan == [] then []
    else Hits(plan[..|plan| - 1]) + (if plan[|plan| - 1].Some? then [plan[|plan| - 1].value] else [])
  }

  /** Box by box, the cached region `updateDetections` reuses (or None for a cache miss). */
  function Claims(cached: seq<PixelatedRegion>, boxes: seq<DetectionBox>): (plan: seq<Option<PixelatedRegion>>)
    ensures |plan| == |boxes|
  {
    if boxes == [] then []
    else
      var earlier := Claims(cached, boxes[..|boxes| - 1]);
      earlier + [Find(cached, boxes[|boxes| - 1], Hits(earlier))]
  }

  lemma {:induction false} HitsLength(plan: seq<Option<PixelatedRegion>>)
    ensures |Hits(plan)| <= |plan|
  {
    if plan != [] {
      HitsLength(plan[..|plan| - 1]);
    }
  }

  /** Deciding the first k boxes does not look at the later ones. */
  lemma {:induction false} ClaimsPrefix(cached: seq<PixelatedRegion>, boxes: seq<DetectionBox>, k: nat)
    requires k <= |boxes|
    ensures Claims(cached, boxes[..k]) == Claims(cached, boxes)[..k]
  {
    if k < |boxes| {
      var n := |boxes| - 1;
      assert boxes[..n][..k] == boxes[..k];
      ClaimsPrefix(cached, boxes[..n], k);
    } else {
      assert boxes[..k] == boxes;
    }
  }

  /** Every reused region comes from the cache and is similar to its box. */
  lemma {:induction false} ClaimsSound(cached: seq<PixelatedRegion>, boxes: seq<DetectionBox>)
    ensures var plan := Claims(cached, boxes);
            forall k :: 0 <= k < |boxes| && plan[k].Some? ==>
              plan[k].value in cached && IsSimilarTo(plan[k].value, boxes[k])
  {
    if boxes != [] {
      var n := |boxes| - 1;
      var plan := Claims(cached, boxes);
      ClaimsSound(cached, boxes[..n]);
      FindSound(cached, boxes[n], Hits(Claims(cached, boxes[..n])));
      forall k | 0 <= k < n
        ensures plan[k] == Claims(cached, boxes[..n])[k] && boxes[k] == boxes[..n][k]
      {
      }
    }
  }

  /** A box misses only when every cached region similar to it was already reused for an
      earlier box. */
  lemma ClaimsMissOnlyWhenTaken(cached: seq<PixelatedRegion>, boxes: seq<DetectionBox>)
    ensures var plan := Claims(cached, boxes);
            forall k, r :: 0 <= k < |boxes| && plan[k].None? && r in cached && IsSimilarTo(r, boxes[k]) ==>
              In(r, Hits(plan[..k]))
  {
    var plan := Claims(cached, boxes);
    forall k, r | 0 <= k < |boxes| && plan[k].None? && r in cached && IsSimilarTo(r, boxes[k])
      ensures In(r, Hits(plan[..k]))
    {
      ClaimsDecision(cached, boxes, k);
      FindSound(cached, boxes[k], Hits(plan[..k]));
    }
  }

  /** Box k's decision is the search over the cache given the regions reused for the
      boxes before it. */
  lemma ClaimsDecision(cached: seq<PixelatedRegion>, boxes: seq<DetectionBox>, k: nat)
    requires k < |boxes|
    ensures Claims(cached, boxes)[k] == Find(cached, boxes[k], Hits(Claims(cached, boxes)[..k]))
  {
    ClaimsPrefix(cached, boxes, k);
    ClaimsPrefix(cached, boxes, k + 1);
    ClaimsStep(cached, boxes, k);
    assert Claims(cached, boxes)[k] == Claims(cached, boxes[..k + 1])[k];
  }

  /** No two reused regions are equal (share a source box), so each cached region is
      reused at most once per update. */
  lemma {:induction false} ClaimsDistinct(cached: seq<PixelatedRegion>, boxes: seq<DetectionBox>)
    ensures forall h :: h in Hits(Claims(cached, boxes)) ==> h in cached
    ensures forall i, j :: 0 <= i < j < |Hits(Claims(cached, boxes))| ==>
              Hits(Claims(cached, boxes))[i].sourceBox != Hits(Claims(cached, boxes))[j].sourceBox
  {
    if boxes != [] {
      var n := |boxes| - 1;
      var earlier := Claims(cached, boxes[..n]);
      var plan := Claims(cached, boxes);
      ClaimsDistinct(cached, boxes[..n]);
      assert forall i, j :: 0 <= i < j < |Hits(Claims(cached, boxes[..n]))| ==>
               Hits(Claims(cached, boxes[..n]))[i].sourceBox != Hits(Claims(cached, boxes[..n]))[j].sourceBox;
      var found := Find(cached, boxes[n], Hits(earlier));
      FindSound(cached, boxes[n], Hits(earlier));
      var hits := Hits(plan);
      assert plan[..|plan| - 1] == earlier;
      if found.Some? {
        assert hits == Hits(earlier) + [found.value];
        forall i, j | 0 <= i < j < |hits|
          ensures hits[i].sourceBox != hits[j].sourceBox
        {
          if j == |hits| - 1 {
            assert Claimable(found.value, boxes[n], Hits(earlier));
            assert !In(found.value, Hits(earlier));
            assert hits[i] == Hits(earlier)[i];
          } else {
            assert hits[i] == Hits(earlier)[i] && hits[j] == Hits(earlier)[j];
          }
        }
      } else {
        assert hits == Hits(earlier);
      }
    }
  }

  /** `tempNewRegions` realizes a plan: box by box, the reused region, or on a miss a new
      region made from that very box, or (when regions cannot be made at all) nothing. */
  predicate Realizes(plan: seq<Option<PixelatedRegion>>, boxes: seq<DetectionBox>,
                     regions: seq<PixelatedRegion>, creates: bool)
    requires |plan| == |boxes|
    decreases |plan|
  {
    if plan == [] then regions == []
    else
      var n := |plan| - 1;
      if plan[n].Some? then
        regions != [] && regions[|regions| - 1] == plan[n].value &&
        Realizes(plan[..n], boxes[..n], regions[..|regions| - 1], creates)
      else if creates then
        regions != [] && regions[|regions| - 1].sourceBox == boxes[n] &&
        Realizes(plan[..n], boxes[..n], regions[..|regions| - 1], creates)
      else Realizes(plan[..n], boxes[..n], regions, creates)
  }

  /** There is one new region per box when regions can be made, and only the reused ones
      when they cannot; never more regions than boxes. */
  lemma {:induction false} RealizesLength(plan: seq<Option<PixelatedRegion>>, boxes: seq<DetectionBox>,
                                          regions: seq<PixelatedRegion>, creates: bool)
    requires |plan| == |boxes| && Realizes(plan, boxes, regions, creates)
    ensures creates ==> |regions| == |boxes|
    ensures !creates ==> regions == Hits(plan)
    ensures |regions| <= |boxes|
  {
    if plan != [] {
      var n := |plan| - 1;
      assert plan[..|plan| - 1] == plan[..n];
      if plan[n].Some? || creates {
        RealizesLength(plan[..n], boxes[..n], regions[..|regions| - 1], creates);
        if !creates {
          assert regions == regions[..|regions| - 1] + [regions[|regions| - 1]];
        }
      } else {
        RealizesLength(plan[..n], boxes[..n], regions, creates);
      }
    }
    HitsLength(plan);
  }

  /** The cached regions not reused in this update, in cache order. */
  function Unclaimed(cached: seq<PixelatedRegion>, claimed: seq<PixelatedRegion>): seq<PixelatedRegion>
  {
    if cached == [] then []
    else
      var last := cached[|cached| - 1];
      Unclaimed(cached[..|cached| - 1], claimed) + (if In(last, claimed) then [] else [last])
  }

  /** Exactly the cached regions that equal no reused region are unclaimed. */
  lemma {:induction false} UnclaimedProperties(cached: seq<PixelatedRegion>, claimed: seq<PixelatedRegion>)
    ensures forall r :: r in Unclaimed(cached, claimed) <==> r in cached && !In(r, claimed)
  {
    if cached != [] {
      var n := |cached| - 1;
      UnclaimedProperties(cached[..n], claimed);
      assert cached == cached[..n] + [cached[n]];
    }
  }

  /** The bitmaps of some regions, in order. */
  function Bitmaps(regions: seq<PixelatedRegion>): (bs: seq<Bitmap>)
    ensures |bs| == |regions|
    ensures forall i :: 0 <= i < |regions| ==> bs[i] == regions[i].bitmap
  {
    seq(|regions|, i requires 0 <= i < |regions| => regions[i].bitmap)
  }

  /** `((clamp(percent, 0, 100) / 100) * 255).toInt()`. */
  function OpacityFor(percent: real): (o: int)
    ensures 0 <= o <= 255
    ensures percent <= 0.0 ==> o == 0
    ensures 100.0 <= percent ==> o == 255
  {
    Trunc(Clamp(percent, 0.0, 100.0) / 100.0 * 255.0)
  }

  /** A higher opacity percentage never gives a lower alpha. */
  lemma OpacityMonotone(p: real, q: real)
    requires p <= q
    ensures OpacityFor(p) <= OpacityFor(q)
  {
    var a := Clamp(p, 0.0, 100.0) / 100.0 * 255.0;
    var b := Clamp(q, 0.0, 100.0) / 100.0 * 255.0;
    assert a <= b;
  }

  /** The geometry `createPixelatedRegion` computes for each box, for one source size and
      factor. */
  function GeometryFor(sw: Int32, sh: Int32, factor: int): DetectionBox -> Option<Geometry>
    requires 1 <= factor
  {
    (b: DetectionBox) => RegionGeometry(b, sw, sh, factor)
  }

  /** `geometry` agrees with `RegionGeometry` on every box. It is matched only against
      uses of `RegionGeometry`, so a proof that works with `geometry` alone never unfolds
      the geometry's arithmetic. */
  ghost predicate GeometryIs(geometry: DetectionBox -> Option<Geometry>, sw: Int32, sh: Int32, factor: int)
  {
    1 <= factor &&
    forall b {:trigger RegionGeometry(b, sw, sh, factor)} :: geometry(b) == RegionGeometry(b, sw, sh, factor)
  }

  lemma GeometryForIs(sw: Int32, sh: Int32, factor: int)
    requires 1 <= factor
    ensures GeometryIs(GeometryFor(sw, sh, factor), sw, sh, factor)
  {
  }

  /** The pool after every cache miss of a plan has taken a bitmap of its region's size,
      box by box. */
  function MissTakes(s: PoolState, plan: seq<Option<PixelatedRegion>>, boxes: seq<DetectionBox>,
                     geometry: DetectionBox -> Option<Geometry>): PoolState
    requires |plan| == |boxes|
    decreases |plan|
  {
    if plan == [] then s
    else
      var n := |plan| - 1;
      DecisionTake(MissTakes(s, plan[..n], boxes[..n], geometry), plan[n], geometry(boxes[n]))
  }

  /** The pool after one decision: a miss whose region can be made takes a bitmap of its
      size; a hit takes nothing. */
  function DecisionTake(s: PoolState, o: Option<PixelatedRegion>, g: Option<Geometry>): PoolState
  {
    if o.Some? || g.None? then s
    else AfterTake(s, g.value.bitmapWidth, g.value.bitmapHeight)
  }

  /** Cache misses only take bitmaps out of the pool: they never add one, never recycle
      one, and take at most one per box. */
  lemma {:induction false} MissTakesShrink(s: PoolState, plan: seq<Option<PixelatedRegion>>,
                                           boxes: seq<DetectionBox>, geometry: DetectionBox -> Option<Geometry>)
    requires |plan| == |boxes|
    ensures var r := MissTakes(s, plan, boxes, geometry);
            r.recycled == s.recycled && multiset(r.items) <= multiset(s.items) &&
            |s.items| - |plan| <= |r.items| <= |s.items|
  {
    if plan != [] {
      var n := |plan| - 1;
      var before := MissTakes(s, plan[..n], boxes[..n], geometry);
      MissTakesShrink(s, plan[..n], boxes[..n], geometry);
      var g := geometry(boxes[n]);
      if plan[n].None? && g.Some? {
        AfterTakeProperties(before, g.value.bitmapWidth, g.value.bitmapHeight);
      }
    }
  }

  /** Deciding one more box of a list: the plan so far, then that box's decision. */
  lemma ClaimsStep(cached: seq<PixelatedRegion>, boxes: seq<DetectionBox>, k: nat)
    requires k < |boxes|
    ensures boxes[..k + 1] == boxes[..k] + [boxes[k]]
    ensures Claims(cached, boxes[..k + 1]) ==
            Claims(cached, boxes[..k]) + [Find(cached, boxes[k], Hits(Claims(cached, boxes[..k])))]
    ensures Hits(Claims(cached, boxes[..k + 1])) ==
            Hits(Claims(cached, boxes[..k])) +
            (var f := Find(cached, boxes[k], Hits(Claims(cached, boxes[..k]))); if f.Some? then [f.value] else [])
  {
    assert boxes[..k + 1][..k] == boxes[..k];
    var before := Claims(cached, boxes[..k]);
    var f := Find(cached, boxes[k], Hits(before));
    assert (before + [f])[..|before|] == before;
  }

  /** Realizing one more decision: append its reused region, or the region made for its
      box, or nothing when no region can be made. */
  lemma RealizesExtend(plan: seq<Option<PixelatedRegion>>, boxes: seq<DetectionBox>,
                       regions: seq<PixelatedRegion>, creates: bool,
                       o: Option<PixelatedRegion>, b: DetectionBox, added: seq<PixelatedRegion>)
    requires |plan| == |boxes| && Realizes(plan, boxes, regions, creates)
    requires o.Some? ==> added == [o.value]
    requires o.None? && creates ==> |added| == 1 && added[0].sourceBox == b
    requires o.None? && !creates ==> added == []
    ensures Realizes(plan + [o], boxes + [b], regions + added, creates)
  {
    assert (plan + [o])[..|plan|] == plan;
    assert (boxes + [b])[..|plan|] == boxes;
    if added == [] {
      assert regions + added == regions;
    } else {
      assert (regions + added)[..|regions + added| - 1] == regions;
    }
  }

  /** The pool after one more decision: a miss takes its bitmap, a hit takes nothing. */
  lemma MissTakesExtend(s: PoolState, plan: seq<Option<PixelatedRegion>>, boxes: seq<DetectionBox>,
                        geometry: DetectionBox -> Option<Geometry>, o: Option<PixelatedRegion>, b: DetectionBox)
    requires |plan| == |boxes|
    ensures MissTakes(s, plan + [o], boxes + [b], geometry) ==
            DecisionTake(MissTakes(s, plan, boxes, geometry), o, geometry(b))
  {
    assert (plan + [o])[..|plan|] == plan;
    assert (boxes + [b])[..|plan|] == boxes;
  }

  // ----- what the loop over the boxes builds -----

  /** What the loop over the boxes of `updateDetections` has built so far: the new list,
      the pool, and the id the next new bitmap gets. */
  datatype Progress = Progress(regions: seq<PixelatedRegion>, pool: PoolState, nextId: nat)

  /** The region `createPixelatedRegion` makes for a box whose geometry is g, in a view of
      the given size: drawn over the box's bounds, remembering the box and the content
      size, in the first usable pooled bitmap of the rounded size or else in a new bitmap
      with the next id. */
  function MadeRegion(s: PoolState, nextId: nat, box: DetectionBox, g: Geometry,
                      viewWidth: int, viewHeight: int): PixelatedRegion
  {
    var taken := PoolTake(s, g.bitmapWidth, g.bitmapHeight);
    var bitmap := if taken.Some? then taken.value else Bitmap(nextId, g.bitmapWidth, g.bitmapHeight, true);
    PixelatedRegion(bitmap, Bounds(box, viewWidth, viewHeight), box, g.contentWidth, g.contentHeight)
  }

  /** A made region's bitmap is mutable and has the geometry's rounded size; it is a
      pooled bitmap that was not recycled when the pool has a usable one, and a bitmap
      with the next id otherwise. */
  lemma MadeRegionBitmap(s: PoolState, nextId: nat, box: DetectionBox, g: Geometry,
                         viewWidth: int, viewHeight: int)
    ensures var b := MadeRegion(s, nextId, box, g, viewWidth, viewHeight).bitmap;
            b.mutable && b.width == g.bitmapWidth && b.height == g.bitmapHeight &&
            (b in s.items && b.id !in s.recycled <==> PoolTake(s, g.bitmapWidth, g.bitmapHeight).Some?) &&
            (PoolTake(s, g.bitmapWidth, g.bitmapHeight).None? ==> b.id == nextId)
  {
    PoolTakeFits(s, g.bitmapWidth, g.bitmapHeight);
  }

  /** One pass of the loop: a hit appends the reused region; a miss appends the region
      made for its box, taking its bitmap from the pool or counting a new one, or
      (without a geometry) changes nothing. */
  function Decide(p: Progress, o: Option<PixelatedRegion>, box: DetectionBox, g: Option<Geometry>,
                  viewWidth: int, viewHeight: int): Progress
  {
    if o.Some? then Progress(p.regions + [o.value], p.pool, p.nextId)
    else if g.None? then p
    else
      var w, h := g.value.bitmapWidth, g.value.bitmapHeight;
      Progress(p.regions + [MadeRegion(p.pool, p.nextId, box, g.value, viewWidth, viewHeight)],
               AfterTake(p.pool, w, h),
               p.nextId + (if PoolTake(p.pool, w, h).Some? then 0 else 1))
  }

  /** The loop over the boxes from `start`: each decision of the plan in turn, with its
      box's geometry. */
  function Realize(start: Progress, plan: seq<Option<PixelatedRegion>>, boxes: seq<DetectionBox>,
                   geometry: DetectionBox -> Option<Geometry>, viewWidth: int, viewHeight: int): Progress
    requires |plan| == |boxes|
    decreases |plan|
  {
    if plan == [] then start
    else
      var n := |plan| - 1;
      Decide(Realize(start, plan[..n], boxes[..n], geometry, viewWidth, viewHeight),
             plan[n], boxes[n], geometry(boxes[n]), viewWidth, viewHeight)
  }

  /** Realizing one more decision. */
  lemma RealizeExtend(start: Progress, plan: seq<Option<PixelatedRegion>>, boxes: seq<DetectionBox>,
                      geometry: DetectionBox -> Option<Geometry>, viewWidth: int, viewHeight: int,
                      o: Option<PixelatedRegion>, b: DetectionBox)
    requires |plan| == |boxes|
    ensures Realize(start, plan + [o], boxes + [b], geometry, viewWidth, viewHeight) ==
            Decide(Realize(start, plan, boxes, geometry, viewWidth, viewHeight), o, b, geometry(b), viewWidth, viewHeight)
  {
    assert (plan + [o])[..|plan|] == plan;
    assert (boxes + [b])[..|plan|] == boxes;
  }

  /** The loop's outcome from an empty list realizes the plan (each hit in place, one
      region from each missed box when regions can be made), its pool is the pool after
      the plan's misses, and the bitmap counter only grows. */
  lemma {:induction false} RealizeAgrees(s: PoolState, nextId: nat, plan: seq<Option<PixelatedRegion>>,
                                         boxes: seq<DetectionBox>, geometry: DetectionBox -> Option<Geometry>,
                                         sw: Int32, sh: Int32, factor: int, viewWidth: int, viewHeight: int)
    requires |plan| == |boxes| && GeometryIs(geometry, sw, sh, factor)
    ensures var p := Realize(Progress([], s, nextId), plan, boxes, geometry, viewWidth, viewHeight);
            Realizes(plan, boxes, p.regions, sw >= 1 && sh >= 1) &&
            p.pool == MissTakes(s, plan, boxes, geometry) && nextId <= p.nextId
  {
    if plan != [] {
      var n := |plan| - 1;
      var start := Progress([], s, nextId);
      var before := Realize(start, plan[..n], boxes[..n], geometry, viewWidth, viewHeight);
      RealizeAgrees(s, nextId, plan[..n], boxes[..n], geometry, sw, sh, factor, viewWidth, viewHeight);
      DecideAgrees(before, plan[n], boxes[n], geometry, sw, sh, factor, viewWidth, viewHeight);
      var after := Decide(before, plan[n], boxes[n], geometry(boxes[n]), viewWidth, viewHeight);
      var added := after.regions[|before.regions|..];
      RealizesExtend(plan[..n], boxes[..n], before.regions, sw >= 1 && sh >= 1, plan[n], boxes[n], added);
      MissTakesExtend(s, plan[..n], boxes[..n], geometry, plan[n], boxes[n]);
      RealizeExtend(start, plan[..n], boxes[..n], geometry, viewWidth, viewHeight, plan[n], boxes[n]);
      assert plan == plan[..n] + [plan[n]] && boxes == boxes[..n] + [boxes[n]];
    }
  }

  /** One decision appends what `Realizes` expects and takes what `MissTakes` expects. */
  lemma DecideAgrees(p: Progress, o: Option<PixelatedRegion>, b: DetectionBox,
                     geometry: DetectionBox -> Option<Geometry>,
                     sw: Int32, sh: Int32, factor: int, viewWidth: int, viewHeight: int)
    requires GeometryIs(geometry, sw, sh, factor)
    ensures var after := Decide(p, o, b, geometry(b), viewWidth, viewHeight);
            var added := after.regions[|p.regions|..];
            |p.regions| <= |after.regions| && after.regions == p.regions + added &&
            (o.Some? ==> added == [o.value]) &&
            (o.None? && sw >= 1 && sh >= 1 ==> |added| == 1 && added[0].sourceBox == b) &&
            (o.None? && !(sw >= 1 && sh >= 1) ==> added == []) &&
            after.pool == DecisionTake(p.pool, o, geometry(b)) && p.nextId <= after.nextId
  {
    RegionGeometryProperties(b, sw, sh, factor);
  }

  /** Returns lose nothing silently: every bitmap that was in the pool, and every mutable
      bitmap offered to it, is afterwards still pooled or recycled. */
  lemma {:induction false} ReturnAllAccounts(s: PoolState, bs: seq<Bitmap>)
    ensures var r := ReturnAll(s, bs);
            forall b :: (b in s.items || (b in bs && b.mutable)) ==> b in r.items || b.id in r.recycled
  {
    if bs != [] {
      var n := |bs| - 1;
      var t := ReturnAll(s, bs[..n]);
      ReturnAllAccounts(s, bs[..n]);
      assert bs == bs[..n] + [bs[n]];
      var r := AfterReturn(t, bs[n]);
      assert forall b :: b in t.items ==> b in r.items || b.id in r.recycled by {
        if !(bs[n].id in t.recycled || !bs[n].mutable) && |t.items| >= MaxBitmapPoolSize {
          assert t.items == [t.items[0]] + t.items[1..];
        }
      }
    }
  }

  /** The same for the double return of `clear`. */
  lemma ReturnTwiceAccounts(s: PoolState, bs: seq<Bitmap>)
    requires |s.items| <= MaxBitmapPoolSize
    ensures var r := ReturnAll(ReturnAll(s, bs), bs);
            forall b :: (b in s.items || (b in bs && b.mutable)) ==> b in r.items || b.id in r.recycled
  {
    var t := ReturnAll(s, bs);
    ReturnAllAccounts(s, bs);
    ReturnAllBounded(s, bs);
    ReturnAllAccounts(t, bs);
    ReturnAllBounded(t, bs);
  }

  /** The ids of some bitmaps. */
  function Ids(bs: seq<Bitmap>): (ids: set<nat>)
    ensures forall b :: b in bs ==> b.id in ids
    ensures forall id :: id in ids ==> exists b :: b in bs && b.id == id
  {
    set b | b in bs :: b.id
  }

  /** `updateDetections` on a pool, a bitmap counter and a cache: the new list the loop
      over the boxes builds, the pool after its takes and after the bitmaps of the
      unclaimed cached regions are offered back, and the counter. */
  function Updated(s: PoolState, nextId: nat, cached: seq<PixelatedRegion>, boxes: seq<DetectionBox>,
                   geometry: DetectionBox -> Option<Geometry>, viewWidth: int, viewHeight: int): Progress
  {
    var plan := Claims(cached, boxes);
    var built := Realize(Progress([], s, nextId), plan, boxes, geometry, viewWidth, viewHeight);
    Progress(built.regions, ReturnAll(built.pool, Bitmaps(Unclaimed(cached, Hits(plan)))), built.nextId)
  }

  // ----- who holds a bitmap -----

  /** No bitmap occurs twice. */
  ghost predicate Distinct(bs: seq<Bitmap>) {
    forall i, j :: 0 <= i < j < |bs| ==> bs[i] != bs[j]
  }

  /** A sequence has no repeats exactly when each bitmap occurs in it at most once. */
  lemma {:induction false} DistinctCounts(bs: seq<Bitmap>)
    ensures Distinct(bs) <==> forall b :: multiset(bs)[b] <= 1
  {
    if !Distinct(bs) {
      var i, j :| 0 <= i < j < |bs| && bs[i] == bs[j];
      assert bs == bs[..i] + [bs[i]] + bs[i + 1..j] + [bs[j]] + bs[j + 1..];
      assert multiset(bs)[bs[i]] >= 2;
    } else if bs != [] {
      var n := |bs| - 1;
      var front := bs[..n];
      assert Distinct(front) by {
        forall i, j | 0 <= i < j < n
          ensures front[i] != front[j]
        {
          assert front[i] == bs[i] && front[j] == bs[j];
        }
      }
      DistinctCounts(front);
      assert bs == front + [bs[n]];
    }
  }

  /** The view holds each of its bitmaps once: no bitmap is both pooled and shown, pooled
      twice, or shown by two regions; and the view made every one of them (its id is below
      the next id). */
  ghost predicate Owned(s: PoolState, regions: seq<PixelatedRegion>, nextId: nat) {
    (forall b :: multiset(s.items + Bitmaps(regions))[b] <= 1) &&
    (forall b :: b in s.items + Bitmaps(regions) ==> b.id < nextId)
  }

  /** Returns add only the bitmaps offered: afterwards the pool holds no bitmap more often
      than the pool and the offered ones held it together. */
  lemma {:induction false} ReturnAllFrom(s: PoolState, bs: seq<Bitmap>)
    ensures multiset(ReturnAll(s, bs).items) <= multiset(s.items) + multiset(bs)
  {
    if bs != [] {
      var n := |bs| - 1;
      var t := ReturnAll(s, bs[..n]);
      ReturnAllFrom(s, bs[..n]);
      AfterReturnFrom(t, bs[n]);
      assert bs == bs[..n] + [bs[n]];
      assert multiset(bs) == multiset(bs[..n]) + multiset([bs[n]]);
    }
  }

  /** One return adds at most the bitmap offered. */
  lemma AfterReturnFrom(s: PoolState, b: Bitmap)
    ensures multiset(AfterReturn(s, b).items) <= multiset(s.items) + multiset([b])
  {
    if !(b.id in s.recycled || !b.mutable) && |s.items| >= MaxBitmapPoolSize {
      assert s.items == [s.items[0]] + s.items[1..];
      assert multiset(s.items[1..] + [b]) <= multiset(s.items) + multiset([b]);
    }
  }

  /** Offering every shown bitmap to the pool once and dropping the regions (as
      `setPixelationLevel` does) keeps each bitmap held once. */
  lemma ReturnOnceKeepsOwnership(s: PoolState, regions: seq<PixelatedRegion>, nextId: nat)
    requires Owned(s, regions, nextId)
    ensures Owned(ReturnAll(s, Bitmaps(regions)), [], nextId)
  {
    var r := ReturnAll(s, Bitmaps(regions));
    var held := s.items + Bitmaps(regions);
    ReturnAllFrom(s, Bitmaps(regions));
    assert r.items + Bitmaps([]) == r.items;
    assert multiset(held) == multiset(s.items) + multiset(Bitmaps(regions));
    assert multiset(r.items) <= multiset(held);
    forall b | b in r.items
      ensures b.id < nextId
    {
      assert b in multiset(r.items);
      assert b in multiset(held);
    }
  }

  /** The bitmaps of regions followed by one more region. */
  lemma BitmapsAppend(regions: seq<PixelatedRegion>, r: PixelatedRegion)
    ensures Bitmaps(regions + [r]) == Bitmaps(regions) + [r.bitmap]
  {
  }

  /** Every bitmap the loop has built holds: the pool, then the new list's bitmaps. */
  function Held(p: Progress): seq<Bitmap> {
    p.pool.items + Bitmaps(p.regions)
  }

  /** What the loop has built holds each bitmap it made at most once and each older
      bitmap (id below `nextId`) no more often than `base`; every id is below the
      counter. */
  ghost predicate HeldSince(p: Progress, base: multiset<Bitmap>, nextId: nat) {
    nextId <= p.nextId &&
    (forall b :: b in Held(p) ==> b.id < p.nextId) &&
    (forall b :: multiset(Held(p))[b] <= if b.id < nextId then base[b] else 1)
  }

  /** A pass that adds one bitmap: a reused region's (counted in `base`), or a new one
      with the next id. */
  lemma HeldGrows(p: Progress, after: Progress, base: multiset<Bitmap>, nextId: nat, added: Bitmap, counted: bool)
    requires HeldSince(p, base, nextId)
    requires multiset(Held(after)) == multiset(Held(p)) + multiset{added}
    requires counted ==> added.id < nextId && after.nextId == p.nextId
    requires !counted ==> added.id == p.nextId && after.nextId == p.nextId + 1
    ensures HeldSince(after, if counted then base + multiset{added} else base, nextId)
  {
    if !counted {
      assert added !in Held(p);
    }
    forall b | b in Held(after)
      ensures b.id < after.nextId
    {
      assert b in multiset(Held(after));
      if b != added {
        assert b in multiset(Held(p));
      }
    }
  }

  /** A pass that only moves a bitmap from the pool into the new list. */
  lemma HeldMoves(p: Progress, after: Progress, base: multiset<Bitmap>, nextId: nat)
    requires HeldSince(p, base, nextId)
    requires multiset(Held(after)) == multiset(Held(p)) && after.nextId == p.nextId
    ensures HeldSince(after, base, nextId)
  {
    forall b | b in Held(after)
      ensures b.id < after.nextId
    {
      assert b in multiset(Held(after));
    }
  }

  /** One pass of the loop: a hit adds its region's bitmap to what is held; a miss moves a
      pooled bitmap into the new list, or adds a new bitmap with the next id. */
  lemma DecideHolds(p: Progress, base: multiset<Bitmap>, nextId: nat, o: Option<PixelatedRegion>,
                    box: DetectionBox, g: Option<Geometry>, viewWidth: int, viewHeight: int)
    requires HeldSince(p, base, nextId)
    requires o.Some? ==> o.value.bitmap.id < nextId
    ensures HeldSince(Decide(p, o, box, g, viewWidth, viewHeight),
                      base + (if o.Some? then multiset{o.value.bitmap} else multiset{}), nextId)
  {
    var after := Decide(p, o, box, g, viewWidth, viewHeight);
    if o.Some? {
      BitmapsAppend(p.regions, o.value);
      assert Held(after) == Held(p) + [o.value.bitmap];
      HeldGrows(p, after, base, nextId, o.value.bitmap, true);
    } else if g.Some? {
      MissHolds(p, base, nextId, box, g.value, viewWidth, viewHeight);
    } else {
      assert after == p;
    }
  }

  /** A miss with a geometry moves a pooled bitmap into the new list, or adds a new
      bitmap with the next id. */
  lemma MissHolds(p: Progress, base: multiset<Bitmap>, nextId: nat, box: DetectionBox, g: Geometry,
                  viewWidth: int, viewHeight: int)
    requires HeldSince(p, base, nextId)
    ensures HeldSince(Decide(p, None, box, Some(g), viewWidth, viewHeight), base, nextId)
  {
    var after := Decide(p, None, box, Some(g), viewWidth, viewHeight);
    var made := MadeRegion(p.pool, p.nextId, box, g, viewWidth, viewHeight);
    MissHeld(p, box, g, viewWidth, viewHeight);
    if PoolTake(p.pool, g.bitmapWidth, g.bitmapHeight).Some? {
      HeldMoves(p, after, base, nextId);
    } else {
      HeldGrows(p, after, base, nextId, made.bitmap, false);
    }
  }

  /** What a miss with a geometry holds: the same bitmaps when the pool had one to move
      into the new list, and one new bitmap with the next id otherwise. */
  lemma MissHeld(p: Progress, box: DetectionBox, g: Geometry, viewWidth: int, viewHeight: int)
    ensures var after := Decide(p, None, box, Some(g), viewWidth, viewHeight);
            var made := MadeRegion(p.pool, p.nextId, box, g, viewWidth, viewHeight);
            var taken := PoolTake(p.pool, g.bitmapWidth, g.bitmapHeight);
            (taken.Some? ==> multiset(Held(after)) == multiset(Held(p)) && after.nextId == p.nextId) &&
            (taken.None? ==> multiset(Held(after)) == multiset(Held(p)) + multiset{made.bitmap} &&
                             made.bitmap.id == p.nextId && after.nextId == p.nextId + 1)
  {
    var after := Decide(p, None, box, Some(g), viewWidth, viewHeight);
    var made := MadeRegion(p.pool, p.nextId, box, g, viewWidth, viewHeight);
    var w, h := g.bitmapWidth, g.bitmapHeight;
    assert after.regions == p.regions + [made];
    BitmapsAppend(p.regions, made);
    AfterTakeProperties(p.pool, w, h);
    assert multiset(Held(after)) == multiset(after.pool.items) + multiset(Bitmaps(p.regions)) + multiset{made.bitmap};
    assert multiset(Held(p)) == multiset(p.pool.items) + multiset(Bitmaps(p.regions));
  }

  /** What the loop over the boxes holds afterwards, in its pool and new list: a bitmap
      it made at most once, and an older one no more often than the pool and the reused
      regions held it before; every id is below the counter. */
  lemma {:induction false} RealizeHolds(s: PoolState, nextId: nat, plan: seq<Option<PixelatedRegion>>,
                                        boxes: seq<DetectionBox>, geometry: DetectionBox -> Option<Geometry>,
                                        viewWidth: int, viewHeight: int)
    requires |plan| == |boxes|
    requires forall b :: b in s.items ==> b.id < nextId
    requires forall h :: h in Hits(plan) ==> h.bitmap.id < nextId
    ensures HeldSince(Realize(Progress([], s, nextId), plan, boxes, geometry, viewWidth, viewHeight),
                      multiset(s.items) + multiset(Bitmaps(Hits(plan))), nextId)
  {
    if plan == [] {
      assert s.items + Bitmaps([]) == s.items;
    } else {
      var n := |plan| - 1;
      var added := if plan[n].Some? then [plan[n].value] else [];
      assert Hits(plan) == Hits(plan[..n]) + added;
      RealizeHolds(s, nextId, plan[..n], boxes[..n], geometry, viewWidth, viewHeight);
      HoldsStep(s, nextId, plan, boxes, geometry, viewWidth, viewHeight);
    }
  }

  /** The last pass of the loop keeps what `RealizeHolds` states, counting its hit. */
  lemma HoldsStep(s: PoolState, nextId: nat, plan: seq<Option<PixelatedRegion>>,
                  boxes: seq<DetectionBox>, geometry: DetectionBox -> Option<Geometry>,
                  viewWidth: int, viewHeight: int)
    requires |plan| == |boxes| && plan != []
    requires var n := |plan| - 1;
             HeldSince(Realize(Progress([], s, nextId), plan[..n], boxes[..n], geometry, viewWidth, viewHeight),
                       multiset(s.items) + multiset(Bitmaps(Hits(plan[..n]))), nextId)
    requires plan[|plan| - 1].Some? ==> plan[|plan| - 1].value.bitmap.id < nextId
    ensures HeldSince(Realize(Progress([], s, nextId), plan, boxes, geometry, viewWidth, viewHeight),
                      multiset(s.items) + multiset(Bitmaps(Hits(plan))), nextId)
  {
    var n := |plan| - 1;
    var before := Realize(Progress([], s, nextId), plan[..n], boxes[..n], geometry, viewWidth, viewHeight);
    HitsBitmapsStep(plan);
    DecideHolds(before, multiset(s.items) + multiset(Bitmaps(Hits(plan[..n]))), nextId,
                plan[n], boxes[n], geometry(boxes[n]), viewWidth, viewHeight);
  }

  /** The last decision of a plan adds its hit's bitmap, if any, to the hits' bitmaps. */
  lemma HitsBitmapsStep(plan: seq<Option<PixelatedRegion>>)
    requires plan != []
    ensures var n := |plan| - 1;
            multiset(Bitmaps(Hits(plan))) ==
              multiset(Bitmaps(Hits(plan[..n]))) + (if plan[n].Some? then multiset{plan[n].value.bitmap} else multiset{})
  {
    var n := |plan| - 1;
    var earlier := Hits(plan[..n]);
    assert plan[..|plan| - 1] == plan[..n];
    if plan[n].Some? {
      var r := plan[n].value;
      assert Hits(plan) == earlier + [r];
      BitmapsAppend(earlier, r);
      assert multiset(Bitmaps(earlier) + [r.bitmap]) == multiset(Bitmaps(earlier)) + multiset{r.bitmap};
    } else {
      assert Hits(plan) == earlier;
    }
  }

  /** The reused regions and the unclaimed ones are different cached regions, so
      together their bitmaps occur no more often than in the cache. */
  lemma HitsUnclaimedHeld(cached: seq<PixelatedRegion>, boxes: seq<DetectionBox>)
    requires Distinct(Bitmaps(cached))
    ensures var hits := Hits(Claims(cached, boxes));
            multiset(Bitmaps(hits) + Bitmaps(Unclaimed(cached, hits))) <= multiset(Bitmaps(cached))
  {
    var hits := Hits(Claims(cached, boxes));
    var un := Unclaimed(cached, hits);
    var a, b, c := Bitmaps(hits), Bitmaps(un), Bitmaps(cached);
    HitsUnclaimedDistinct(cached, boxes);
    ClaimsDistinct(cached, boxes);
    UnclaimedProperties(cached, hits);
    forall bm | bm in a + b
      ensures bm in c
    {
      var r := if bm in a then hits[IndexOf(a, bm)] else un[IndexOf(b, bm)];
      CachedBitmap(cached, r);
    }
    DistinctWithin(a + b, c);
  }

  /** The bitmaps of the reused regions followed by those of the unclaimed ones have no
      repeats. */
  lemma HitsUnclaimedDistinct(cached: seq<PixelatedRegion>, boxes: seq<DetectionBox>)
    requires Distinct(Bitmaps(cached))
    ensures var hits := Hits(Claims(cached, boxes));
            Distinct(Bitmaps(hits) + Bitmaps(Unclaimed(cached, hits)))
  {
    var hits := Hits(Claims(cached, boxes));
    var un := Unclaimed(cached, hits);
    var a, b := Bitmaps(hits), Bitmaps(un);
    ClaimsDistinct(cached, boxes);
    UnclaimedProperties(cached, hits);
    UnclaimedDistinct(cached, hits);
    forall i, j | 0 <= i < j < |a + b|
      ensures (a + b)[i] != (a + b)[j]
    {
      if |a| <= i {
        assert b[i - |a|] != b[j - |a|];
      } else {
        var x := hits[i];
        assert (a + b)[i] == x.bitmap;
        if j < |a| {
          var y := hits[j];
          assert (a + b)[j] == y.bitmap;
          assert x.sourceBox != y.sourceBox;
          CachedBitmapsDiffer(cached, x, y);
        } else {
          var y := un[j - |a|];
          assert (a + b)[j] == y.bitmap;
          assert In(x, hits) && !In(y, hits);
          CachedBitmapsDiffer(cached, x, y);
        }
      }
    }
  }

  /** A cached region's bitmap is among the cache's bitmaps. */
  lemma CachedBitmap(cached: seq<PixelatedRegion>, r: PixelatedRegion)
    requires r in cached
    ensures r.bitmap in Bitmaps(cached)
  {
    var p :| 0 <= p < |cached| && cached[p] == r;
    assert Bitmaps(cached)[p] == r.bitmap;
  }

  /** Two different cached regions have different bitmaps when the cache's are distinct. */
  lemma CachedBitmapsDiffer(cached: seq<PixelatedRegion>, x: PixelatedRegion, y: PixelatedRegion)
    requires Distinct(Bitmaps(cached)) && x in cached && y in cached && x != y
    ensures x.bitmap != y.bitmap
  {
    var p :| 0 <= p < |cached| && cached[p] == x;
    var q :| 0 <= q < |cached| && cached[q] == y;
    assert Bitmaps(cached)[p] != Bitmaps(cached)[q];
  }

  /** A sequence without repeats, all of whose elements occur in another sequence without
      repeats, is a sub-multiset of it. */
  lemma DistinctWithin(xs: seq<Bitmap>, c: seq<Bitmap>)
    requires Distinct(xs) && Distinct(c)
    requires forall x :: x in xs ==> x in c
    ensures multiset(xs) <= multiset(c)
  {
    DistinctCounts(xs);
    DistinctCounts(c);
    forall x | x in multiset(xs)
      ensures x in multiset(c)
    {
      assert x in xs;
    }
  }

  /** An index at which a bitmap occurs. */
  function IndexOf(bs: seq<Bitmap>, b: Bitmap): (i: nat)
    requires b in bs
    ensures i < |bs| && bs[i] == b
  {
    if bs[0] == b then 0 else 1 + IndexOf(bs[1..], b)
  }

  /** Leaving regions out keeps their bitmaps distinct. */
  lemma {:induction false} UnclaimedDistinct(cached: seq<PixelatedRegion>, claimed: seq<PixelatedRegion>)
    requires Distinct(Bitmaps(cached))
    ensures Distinct(Bitmaps(Unclaimed(cached, claimed)))
  {
    if cached != [] {
      var n := |cached| - 1;
      var front := cached[..n];
      assert Distinct(Bitmaps(front)) by {
        forall i, j | 0 <= i < j < n
          ensures Bitmaps(front)[i] != Bitmaps(front)[j]
        {
          assert Bitmaps(cached)[i] != Bitmaps(cached)[j];
        }
      }
      UnclaimedDistinct(front, claimed);
      UnclaimedProperties(front, claimed);
      var rest := Unclaimed(front, claimed);
      if !In(cached[n], claimed) {
        BitmapsAppend(rest, cached[n]);
        forall i | 0 <= i < |rest|
          ensures rest[i].bitmap != cached[n].bitmap
        {
          assert rest[i] in front;
          var p :| 0 <= p < n && front[p] == rest[i];
          assert Bitmaps(cached)[p] != Bitmaps(cached)[n];
        }
      }
    }
  }

  /** Offering bitmaps to the pool after the loop keeps each bitmap held once when none
      of the offered ones is held (or counted in `base`) already. */
  lemma ReturnsAfterLoop(built: Progress, pool: PoolState, base: multiset<Bitmap>, offered: seq<Bitmap>, nextId: nat)
    requires HeldSince(built, base, nextId)
    requires multiset(pool.items) <= multiset(built.pool.items) + multiset(offered)
    requires forall b :: base[b] + multiset(offered)[b] <= 1
    requires forall b :: b in offered ==> b.id < nextId
    ensures Owned(pool, built.regions, built.nextId)
  {
    var before := Held(built);
    var after := pool.items + Bitmaps(built.regions);
    assert multiset(after) <= multiset(before) + multiset(offered);
    forall b: Bitmap
      ensures multiset(after)[b] <= 1
    {
      if b.id >= nextId {
        assert b !in offered;
      }
    }
    forall b | b in after
      ensures b.id < built.nextId
    {
      assert b in multiset(after);
      if b !in before {
        assert b in multiset(offered);
      }
    }
  }

  /** What ownership says about the pool and the cache separately. */
  lemma OwnedParts(s: PoolState, cached: seq<PixelatedRegion>, nextId: nat)
    requires Owned(s, cached, nextId)
    ensures Distinct(Bitmaps(cached))
    ensures forall b :: multiset(s.items)[b] + multiset(Bitmaps(cached))[b] <= 1
    ensures forall b :: b in s.items ==> b.id < nextId
    ensures forall r :: r in cached ==> r.bitmap.id < nextId
  {
    var c := Bitmaps(cached);
    assert multiset(s.items + c) == multiset(s.items) + multiset(c);
    forall b
      ensures multiset(s.items)[b] + multiset(c)[b] <= 1
    {
      assert multiset(s.items + c)[b] <= 1;
    }
    DistinctCounts(c);
    forall r | r in cached
      ensures r.bitmap.id < nextId
    {
      var p :| 0 <= p < |cached| && cached[p] == r;
      assert c[p] == r.bitmap;
      assert r.bitmap in s.items + c;
    }
  }

  /** `updateDetections` keeps each bitmap held once: if the pool and the cache held each
      of the view's bitmaps once before, the pool and the new cache do afterwards. */
  lemma UpdateKeepsOwnership(s: PoolState, nextId: nat, cached: seq<PixelatedRegion>, boxes: seq<DetectionBox>,
                             geometry: DetectionBox -> Option<Geometry>, viewWidth: int, viewHeight: int)
    requires Owned(s, cached, nextId)
    ensures var u := Updated(s, nextId, cached, boxes, geometry, viewWidth, viewHeight);
            Owned(u.pool, u.regions, u.nextId)
  {
    var plan := Claims(cached, boxes);
    var hits := Hits(plan);
    var unclaimed := Unclaimed(cached, hits);
    var un := Bitmaps(unclaimed);
    OwnedParts(s, cached, nextId);
    ClaimsDistinct(cached, boxes);
    UnclaimedProperties(cached, hits);
    forall bm | bm in un
      ensures bm.id < nextId
    {
      assert unclaimed[IndexOf(un, bm)] in cached;
    }
    RealizeHolds(s, nextId, plan, boxes, geometry, viewWidth, viewHeight);
    HitsUnclaimedHeld(cached, boxes);
    var base := multiset(s.items) + multiset(Bitmaps(hits));
    assert multiset(Bitmaps(hits) + un) == multiset(Bitmaps(hits)) + multiset(un);
    assert forall b :: base[b] + multiset(un)[b] <= 1;
    var built := Realize(Progress([], s, nextId), plan, boxes, geometry, viewWidth, viewHeight);
    ReturnAllFrom(built.pool, un);
    ReturnsAfterLoop(built, ReturnAll(built.pool, un), base, un, nextId);
  }

  /** What `updateDetections` builds from a pool, a counter and a cache: the new list
      realizes the plan (each hit in place, one region per missed box when the source has
      pixels), the pool is the pool after the misses' takes with the unclaimed bitmaps
      offered back, and ownership is kept. */
  lemma UpdateOutcome(s: PoolState, nextId: nat, cached: seq<PixelatedRegion>, boxes: seq<DetectionBox>,
                      sw: Int32, sh: Int32, factor: int, viewWidth: int, viewHeight: int)
    requires 1 <= factor
    ensures var plan := Claims(cached, boxes);
            var geometry := GeometryFor(sw, sh, factor);
            var u := Updated(s, nextId, cached, boxes, geometry, viewWidth, viewHeight);
            Realizes(plan, boxes, u.regions, sw >= 1 && sh >= 1) && nextId <= u.nextId &&
            u.pool == ReturnAll(MissTakes(s, plan, boxes, geometry), Bitmaps(Unclaimed(cached, Hits(plan)))) &&
            (Owned(s, cached, nextId) ==> Owned(u.pool, u.regions, u.nextId))
  {
    var plan := Claims(cached, boxes);
    var geometry := GeometryFor(sw, sh, factor);
    GeometryForIs(sw, sh, factor);
    RealizeAgrees(s, nextId, plan, boxes, geometry, sw, sh, factor, viewWidth, viewHeight);
    if Owned(s, cached, nextId) {
      UpdateKeepsOwnership(s, nextId, cached, boxes, geometry, viewWidth, viewHeight);
    }
  }

  /** `clear` as written offers each shown bitmap twice, which breaks ownership: with one
      region shown and room in the pool, its bitmap ends up pooled twice; and when the
      pool holds no other usable bitmap of that size, the next two takes of that size both
      hand it out, so two new regions draw into one bitmap. */
  lemma ClearSharesBitmap(s: PoolState, r: PixelatedRegion, nextId: nat)
    requires Owned(s, [r], nextId) && |s.items| + 2 <= MaxBitmapPoolSize
    requires r.bitmap.mutable && r.bitmap.id !in s.recycled
    ensures var b := r.bitmap;
            var p := ReturnAll(ReturnAll(s, Bitmaps([r])), Bitmaps([r]));
            multiset(p.items)[b] == 2 && !Owned(p, [], nextId) &&
            ((forall x :: x in s.items ==> !Usable(x, b.width, b.height, s.recycled)) ==>
               PoolTake(p, b.width, b.height) == Some(b) &&
               PoolTake(AfterTake(p, b.width, b.height), b.width, b.height) == Some(b))
  {
    var b := r.bitmap;
    assert Bitmaps([r]) == [b];
    ReturnTwiceDuplicates(s, b);
    assert s.items + [b] == s.items + Bitmaps([r]);
    PooledTwice(s.items, b);
    var p := PoolState(s.items + [b, b], s.recycled);
    assert p.items + Bitmaps([]) == p.items;
    if forall x :: x in s.items ==> !Usable(x, b.width, b.height, s.recycled) {
      TakeTwice(s, b);
    }
  }

  /** A bitmap held at most once, appended twice, is held exactly twice. */
  lemma PooledTwice(items: seq<Bitmap>, b: Bitmap)
    requires multiset(items + [b])[b] <= 1
    ensures multiset(items + [b, b])[b] == 2
  {
    assert multiset(items + [b]) == multiset(items) + multiset{b};
    assert multiset(items + [b, b]) == multiset(items) + multiset{b, b};
  }

  /** Behind bitmaps none of which fits, a bitmap pooled twice is handed out by two
      successive takes of its size. */
  lemma TakeTwice(s: PoolState, b: Bitmap)
    requires b.mutable && b.id !in s.recycled
    requires forall x :: x in s.items ==> !Usable(x, b.width, b.height, s.recycled)
    ensures var p := PoolState(s.items + [b, b], s.recycled);
            PoolTake(p, b.width, b.height) == Some(b) &&
            PoolTake(AfterTake(p, b.width, b.height), b.width, b.height) == Some(b)
  {
    var w, h := b.width, b.height;
    var p := PoolState(s.items + [b, b], s.recycled);
    assert p.items == s.items + [b] + [b];
    FirstUsable(s.items, b, [b], w, h, s.recycled);
    assert AfterTake(p, w, h).items == s.items + [b] + [];
    FirstUsable(s.items, b, [], w, h, s.recycled);
  }

  /** Offering one mutable, live bitmap twice to a pool with room for both leaves it in
      the pool twice: the pool does not deduplicate. */
  lemma ReturnTwiceDuplicates(s: PoolState, b: Bitmap)
    requires |s.items| + 2 <= MaxBitmapPoolSize && b.mutable && b.id !in s.recycled
    ensures ReturnAll(ReturnAll(s, [b]), [b]) == PoolState(s.items + [b, b], s.recycled)
  {
    assert [b][..0] == [];
    assert ReturnAll(s, [b]) == AfterReturn(ReturnAll(s, []), b);
    var once := ReturnAll(s, [b]);
    assert once == PoolState(s.items + [b], s.recycled);
    assert ReturnAll(once, [b]) == AfterReturn(ReturnAll(once, []), b);
  }

  /** A take hands out the first usable bitmap: `b`, when nothing before it is usable. */
  lemma FirstUsable(front: seq<Bitmap>, b: Bitmap, rest: seq<Bitmap>, w: int, h: int, recycled: set<nat>)
    requires forall x :: x in front ==> !Usable(x, w, h, recycled)
    requires Usable(b, w, h, recycled)
    ensures var s := PoolState(front + [b] + rest, recycled);
            PoolTake(s, w, h) == Some(b) && AfterTake(s, w, h) == PoolState(front + rest, recycled)
  {
    var items := front + [b] + rest;
    var k := |front|;
    FirstIndexIsFirst(items, UsableFor(w, h, recycled), 0);
    assert UsableFor(w, h, recycled)(items[k]);
    forall j | 0 <= j < k
      ensures !UsableFor(w, h, recycled)(items[j])
    {
      assert items[j] == front[j];
    }
    assert items[..k] + items[k + 1..] == front + rest;
  }

  // ----- the view -----

  /** A mutable list of regions (`ArrayList<PixelatedRegion>`): an object, so that two
      fields can name the same list. */
  class RegionList {
    var items: seq<PixelatedRegion>

    constructor ()
      ensures items == []
    {
      items := [];
    }
  }

  class OverlayView {
    /** The regions drawn; after an update the very list object of `cachedRegions`. */
    var currentRegions: RegionList
    var cachedRegions: RegionList
    /** The spare list, swapped with `cachedRegions` on every update. */
    var tempNewRegions: RegionList
    const tempReusedFromCache: RegionList
    var downsampleFactor: int
    /** The paint alpha. */
    var opacity: int
    /** The bitmap pool, oldest first. */
    var bitmapPool: seq<Bitmap>
    /** Ids of the bitmaps this view has recycled. */
    var recycled: set<nat>
    /** Id of the next bitmap `createBitmap` makes. */
    var nextBitmapId: nat
    /** The view's laid-out size in pixels. */
    var viewWidth: int
    var viewHeight: int

    ghost predicate Valid()
      reads this, currentRegions, cachedRegions
    {
      currentRegions != tempNewRegions && currentRegions != tempReusedFromCache &&
      cachedRegions != tempNewRegions && cachedRegions != tempReusedFromCache &&
      tempNewRegions != tempReusedFromCache &&
      (currentRegions == cachedRegions || (currentRegions.items == [] && cachedRegions.items == [])) &&
      MinDownsampleFactor <= downsampleFactor <= MaxDownsampleFactor &&
      0 <= opacity <= 255 &&
      |bitmapPool| <= MaxBitmapPoolSize
    }

    function Pool(): PoolState
      reads this
    {
      PoolState(bitmapPool, recycled)
    }

    constructor (viewWidth: int, viewHeight: int)
      ensures Valid()
      ensures currentRegions.items == [] && cachedRegions.items == [] && tempNewRegions.items == []
      ensures fresh(currentRegions) && fresh(cachedRegions) && fresh(tempNewRegions) && fresh(tempReusedFromCache)
      ensures downsampleFactor == DefaultDownsampleFactor && opacity == 255
      ensures bitmapPool == [] && recycled == {}
      ensures this.viewWidth == viewWidth && this.viewHeight == viewHeight
    {
      currentRegions := new RegionList();
      cachedRegions := new RegionList();
      tempNewRegions := new RegionList();
      tempReusedFromCache := new RegionList();
      downsampleFactor := DefaultDownsampleFactor;
      opacity := 255;
      bitmapPool := [];
      recycled := {};
      nextBitmapId := 0;
      this.viewWidth := viewWidth;
      this.viewHeight := viewHeight;
    }

    /** A layout pass gives the view a new size (0 before the first layout, swapped on
        rotation); `updateDetections` reads the size current at its call. */
    method OnSizeChanged(width: int, height: int)
      requires Valid()
      modifies this`viewWidth, this`viewHeight
      ensures Valid() && viewWidth == width && viewHeight == height
    {
      viewWidth := width;
      viewHeight := height;
    }

    /** `setOpacity`: the percentage clamped into [0, 100], scaled to an alpha. */
    method SetOpacity(opacityPercent: real)
      requires Valid()
      modifies this`opacity
      ensures Valid()
      ensures opacity == OpacityFor(opacityPercent)
    {
      var percent := Clamp(opacityPercent, 0.0, 100.0);
      opacity := Trunc((percent / 100.0) * 255.0);
    }

    /** `returnBitmapToPool`. */
    method ReturnBitmapToPool(bitmap: Bitmap)
      requires |bitmapPool| <= MaxBitmapPoolSize
      modifies this`bitmapPool, this`recycled
      ensures Pool() == AfterReturn(old(Pool()), bitmap)
      ensures |bitmapPool| <= MaxBitmapPoolSize
    {
      if bitmap.id in recycled || !bitmap.mutable {
        return;
      }
      if |bitmapPool| >= MaxBitmapPoolSize {
        var oldest := bitmapPool[0];
        bitmapPool := bitmapPool[1..];
        if oldest.id !in recycled {
          recycled := recycled + {oldest.id};
        }
      }
      bitmapPool := bitmapPool + [bitmap];
    }

    /** `regions.forEach { returnBitmapToPool(it.bitmap) }`. */
    method ReturnRegionBitmaps(regions: seq<PixelatedRegion>)
      requires |bitmapPool| <= MaxBitmapPoolSize
      modifies this`bitmapPool, this`recycled
      ensures Pool() == ReturnAll(old(Pool()), Bitmaps(regions))
      ensures |bitmapPool| <= MaxBitmapPoolSize
    {
      for i := 0 to |regions|
        invariant Pool() == ReturnAll(old(Pool()), Bitmaps(regions[..i]))
        invariant |bitmapPool| <= MaxBitmapPoolSize
      {
        assert Bitmaps(regions[..i + 1])[..i] == Bitmaps(regions[..i]);
        ReturnBitmapToPool(regions[i].bitmap);
      }
      assert regions[..|regions|] == regions;
    }

    /** `getBitmapFromPool(w, h)`: remove and return the first pooled bitmap that is not
        recycled, mutable and exactly w x h, or return null and leave the pool alone. */
    method GetBitmapFromPool(width: Int32, height: Int32) returns (r: Option<Bitmap>)
      modifies this`bitmapPool
      ensures Pool() == AfterTake(old(Pool()), width, height)
      ensures r == PoolTake(old(Pool()), width, height)
    {
      for i := 0 to |bitmapPool|
        invariant bitmapPool == old(bitmapPool)
        invariant PoolHit(Pool(), width, height) == FirstIndex(bitmapPool, UsableFor(width, height, recycled), i)
      {
        var bitmap := bitmapPool[i];
        if bitmap.id !in recycled && bitmap.mutable && bitmap.width == width && bitmap.height == height {
          bitmapPool := bitmapPool[..i] + bitmapPool[i + 1..];
          return Some(bitmap);
        }
      }
      return None;
    }

    /** `createPixelatedRegion`: the geometry, then a pooled bitmap of the rounded size
        or a new one; null when the geometry gives up. Drawing into the bitmap is not
        modelled. */
    method CreatePixelatedRegion(box: DetectionBox, sourceWidth: Int32, sourceHeight: Int32,
                                 viewWidth: int, viewHeight: int)
      returns (r: Option<PixelatedRegion>)
      requires Valid()
      modifies this`bitmapPool, this`nextBitmapId
      ensures Valid()
      ensures match RegionGeometry(box, sourceWidth, sourceHeight, downsampleFactor)
              case None => r == None && Pool() == old(Pool()) && nextBitmapId == old(nextBitmapId)
              case Some(g) =>
                var taken := PoolTake(old(Pool()), g.bitmapWidth, g.bitmapHeight);
                var bitmap := if taken.Some? then taken.value
                              else Bitmap(old(nextBitmapId), g.bitmapWidth, g.bitmapHeight, true);
                Pool() == AfterTake(old(Pool()), g.bitmapWidth, g.bitmapHeight) &&
                nextBitmapId == old(nextBitmapId) + (if taken.Some? then 0 else 1) &&
                r == Some(PixelatedRegion(bitmap, Bounds(box, viewWidth, viewHeight), box,
                                          g.contentWidth, g.contentHeight))
    {
      var geometry := RegionGeometry(box, sourceWidth, sourceHeight, downsampleFactor);
      if geometry.None? {
        return None;
      }
      var g := geometry.value;
      var pooled := GetBitmapFromPool(g.bitmapWidth, g.bitmapHeight);
      var bitmap;
      if pooled.Some? {
        bitmap := pooled.value;
      } else {
        bitmap := Bitmap(nextBitmapId, g.bitmapWidth, g.bitmapHeight, true);
        nextBitmapId := nextBitmapId + 1;
      }
      return Some(PixelatedRegion(bitmap, Bounds(box, viewWidth, viewHeight), box, g.contentWidth, g.contentHeight));
    }

    /** `setPixelationLevel`: store the clamped factor, offer every cached bitmap to the
        pool and empty the cache, which after an update is also the list on screen. */
    method SetPixelationLevel(level: Int32)
      requires Valid()
      modifies this`downsampleFactor, this`bitmapPool, this`recycled, cachedRegions
      ensures Valid()
      ensures downsampleFactor == ClampInt(level, MinDownsampleFactor, MaxDownsampleFactor)
      ensures Pool() == ReturnAll(old(Pool()), Bitmaps(old(cachedRegions.items)))
      ensures cachedRegions.items == [] && currentRegions.items == []
      ensures Owned(old(Pool()), old(cachedRegions.items), nextBitmapId) ==> Owned(Pool(), [], nextBitmapId)
    {
      if Owned(Pool(), cachedRegions.items, nextBitmapId) {
        ReturnOnceKeepsOwnership(Pool(), cachedRegions.items, nextBitmapId);
      }
      downsampleFactor := ClampInt(level, MinDownsampleFactor, MaxDownsampleFactor);
      ReturnRegionBitmaps(cachedRegions.items);
      cachedRegions.items := [];
    }

    /** `clear`: nothing when nothing is shown; otherwise offer the shown bitmaps to the
        pool, drop the shown list, then offer the cached bitmaps and empty the cache. The
        shown list and the cache are one list here, so each bitmap is offered twice. */
    method Clear()
      requires Valid()
      modifies this`currentRegions, this`bitmapPool, this`recycled, cachedRegions
      ensures Valid()
      ensures currentRegions.items == [] && cachedRegions.items == []
      ensures old(currentRegions.items) == [] ==> Pool() == old(Pool()) && currentRegions == old(currentRegions)
      ensures old(currentRegions.items) != [] ==>
                fresh(currentRegions) &&
                Pool() == ReturnAll(ReturnAll(old(Pool()), Bitmaps(old(cachedRegions.items))),
                                    Bitmaps(old(cachedRegions.items)))
    {
      if |currentRegions.items| == 0 {
        return;
      }
      ReturnRegionBitmaps(currentRegions.items);
      currentRegions := new RegionList();
      ReturnRegionBitmaps(cachedRegions.items);
      cachedRegions.items := [];
    }

    /** `clear` as evidently intended: offer each shown bitmap to the pool once (the shown
        list and the cache are one list after an update), then drop both lists. It keeps
        each bitmap held once. */
    method ClearOnce()
      requires Valid()
      modifies this`currentRegions, this`bitmapPool, this`recycled, cachedRegions
      ensures Valid()
      ensures currentRegions.items == [] && cachedRegions.items == []
      ensures old(currentRegions.items) == [] ==> Pool() == old(Pool()) && currentRegions == old(currentRegions)
      ensures old(currentRegions.items) != [] ==>
                fresh(currentRegions) && Pool() == ReturnAll(old(Pool()), Bitmaps(old(cachedRegions.items)))
      ensures Owned(old(Pool()), old(cachedRegions.items), nextBitmapId) ==> Owned(Pool(), [], nextBitmapId)
    {
      if |currentRegions.items| == 0 {
        assert Pool().items + Bitmaps([]) == Pool().items;
        return;
      }
      if Owned(Pool(), cachedRegions.items, nextBitmapId) {
        ReturnOnceKeepsOwnership(Pool(), cachedRegions.items, nextBitmapId);
      }
      ReturnRegionBitmaps(cachedRegions.items);
      currentRegions := new RegionList();
      cachedRegions.items := [];
    }

    /** One pass of the loop over the boxes of `updateDetections`: reuse the first similar
        cached region not yet reused, or make a new region (taking a pooled bitmap when one
        fits); `hit` is the region reused. */
    method ClaimOrCreate(box: DetectionBox, sourceWidth: Int32, sourceHeight: Int32,
                         ghost geometry: DetectionBox -> Option<Geometry>)
      returns (ghost hit: Option<PixelatedRegion>)
      requires Valid() && GeometryIs(geometry, sourceWidth, sourceHeight, downsampleFactor)
      modifies this`bitmapPool, this`nextBitmapId, tempNewRegions, tempReusedFromCache
      ensures Valid()
      ensures hit == Find(cachedRegions.items, box, old(tempReusedFromCache.items))
      ensures tempReusedFromCache.items == old(tempReusedFromCache.items) + (if hit.Some? then [hit.value] else [])
      ensures Progress(tempNewRegions.items, Pool(), nextBitmapId) ==
              Decide(Progress(old(tempNewRegions.items), old(Pool()), old(nextBitmapId)), hit, box, geometry(box),
                     viewWidth, viewHeight)
    {
      var cachedRegion := Find(cachedRegions.items, box, tempReusedFromCache.items);
      hit := cachedRegion;
      if cachedRegion.Some? {
        tempNewRegions.items := tempNewRegions.items + [cachedRegion.value];
        tempReusedFromCache.items := tempReusedFromCache.items + [cachedRegion.value];
      } else {
        var region := CreatePixelatedRegion(box, sourceWidth, sourceHeight, viewWidth, viewHeight);
        if region.Some? {
          tempNewRegions.items := tempNewRegions.items + [region.value];
        }
      }
    }

    /** Pass k of the loop over the boxes of `updateDetections`, stated as the loop's
        invariant for the first k boxes before and the first k + 1 after. */
    method ClaimBox(boxes: seq<DetectionBox>, k: nat, sourceWidth: Int32, sourceHeight: Int32,
                    ghost geometry: DetectionBox -> Option<Geometry>, ghost cached: seq<PixelatedRegion>,
                    ghost start: Progress)
      requires k < |boxes| && Valid() && GeometryIs(geometry, sourceWidth, sourceHeight, downsampleFactor)
      requires cachedRegions.items == cached
      requires tempReusedFromCache.items == Hits(Claims(cached, boxes[..k]))
      requires Progress(tempNewRegions.items, Pool(), nextBitmapId) ==
               Realize(start, Claims(cached, boxes[..k]), boxes[..k], geometry, viewWidth, viewHeight)
      modifies this`bitmapPool, this`nextBitmapId, tempNewRegions, tempReusedFromCache
      ensures Valid()
      ensures tempReusedFromCache.items == Hits(Claims(cached, boxes[..k + 1]))
      ensures Progress(tempNewRegions.items, Pool(), nextBitmapId) ==
              Realize(start, Claims(cached, boxes[..k + 1]), boxes[..k + 1], geometry, viewWidth, viewHeight)
    {
      ghost var plan := Claims(cached, boxes[..k]);
      ghost var hit := ClaimOrCreate(boxes[k], sourceWidth, sourceHeight, geometry);
      ClaimsStep(cached, boxes, k);
      RealizeExtend(start, plan, boxes[..k], geometry, viewWidth, viewHeight, hit, boxes[k]);
    }

    /** The loop over the boxes of `updateDetections`: box by box, reuse the first similar
        cached region not yet reused, or make a new region (taking a pooled bitmap when one
        fits). */
    method ClaimRegions(boxes: seq<DetectionBox>, sourceWidth: Int32, sourceHeight: Int32,
                        ghost geometry: DetectionBox -> Option<Geometry>)
      requires Valid() && tempNewRegions.items == [] && tempReusedFromCache.items == []
      requires GeometryIs(geometry, sourceWidth, sourceHeight, downsampleFactor)
      modifies this`bitmapPool, this`nextBitmapId, tempNewRegions, tempReusedFromCache
      ensures Valid()
      ensures var plan := Claims(cachedRegions.items, boxes);
              tempReusedFromCache.items == Hits(plan) &&
              Progress(tempNewRegions.items, Pool(), nextBitmapId) ==
              Realize(Progress([], old(Pool()), old(nextBitmapId)), plan, boxes, geometry, viewWidth, viewHeight)
    {
      ghost var cached := cachedRegions.items;
      ghost var start := Progress([], Pool(), nextBitmapId);
      for k := 0 to |boxes|
        invariant Valid() && cachedRegions.items == cached
        invariant tempReusedFromCache.items == Hits(Claims(cached, boxes[..k]))
        invariant Progress(tempNewRegions.items, Pool(), nextBitmapId) ==
                  Realize(start, Claims(cached, boxes[..k]), boxes[..k], geometry, viewWidth, viewHeight)
      {
        ClaimBox(boxes, k, sourceWidth, sourceHeight, geometry, cached, start);
      }
      assert boxes[..|boxes|] == boxes;
    }

    /** The loop over the cache of `updateDetections`: offer to the pool the bitmap of
        each cached region equal to no reused one, in cache order. */
    method ReturnUnclaimed()
      requires |bitmapPool| <= MaxBitmapPoolSize
      modifies this`bitmapPool, this`recycled
      ensures |bitmapPool| <= MaxBitmapPoolSize
      ensures Pool() == ReturnAll(old(Pool()), Bitmaps(Unclaimed(cachedRegions.items, tempReusedFromCache.items)))
    {
      ghost var cached := cachedRegions.items;
      ghost var reused := tempReusedFromCache.items;
      for i := 0 to |cachedRegions.items|
        invariant |bitmapPool| <= MaxBitmapPoolSize
        invariant Pool() == ReturnAll(old(Pool()), Bitmaps(Unclaimed(cached[..i], reused)))
      {
        assert cached[..i + 1][..i] == cached[..i];
        var stale := cachedRegions.items[i];
        if !In(stale, tempReusedFromCache.items) {
          assert Bitmaps(Unclaimed(cached[..i + 1], reused)) == Bitmaps(Unclaimed(cached[..i], reused)) + [stale.bitmap];
          ReturnBitmapToPool(stale.bitmap);
        } else {
          assert Unclaimed(cached[..i + 1], reused) == Unclaimed(cached[..i], reused);
        }
      }
      assert cached[..|cached|] == cached;
    }

    /** `updateDetections`: claim or create a region per box, offer the bitmaps of the
        cached regions not reused to the pool, show the new list and swap it with the
        cache. */
    method UpdateDetections(boxes: seq<DetectionBox>, source: Bitmap)
      requires Valid()
      modifies this`currentRegions, this`cachedRegions, this`tempNewRegions, this`bitmapPool,
               this`recycled, this`nextBitmapId, tempNewRegions, tempReusedFromCache
      ensures Valid()
      ensures currentRegions == cachedRegions == old(tempNewRegions) && tempNewRegions == old(cachedRegions)
      ensures tempReusedFromCache.items == Hits(Claims(old(cachedRegions.items), boxes))
      ensures Progress(cachedRegions.items, Pool(), nextBitmapId) ==
              Updated(old(Pool()), old(nextBitmapId), old(cachedRegions.items), boxes,
                      GeometryFor(source.width, source.height, downsampleFactor), viewWidth, viewHeight)
      ensures Owned(old(Pool()), old(cachedRegions.items), old(nextBitmapId)) ==>
                Owned(Pool(), cachedRegions.items, nextBitmapId)
    {
      ghost var pool, nextId, cached := Pool(), nextBitmapId, cachedRegions.items;
      BuildRegions(boxes, source);
      if Owned(pool, cached, nextId) {
        UpdateKeepsOwnership(pool, nextId, cached, boxes, GeometryFor(source.width, source.height, downsampleFactor),
                             viewWidth, viewHeight);
      }
      ShowNewRegions();
    }

    /** The two loops of `updateDetections`: build the new list into the spare list, then
        offer the bitmaps of the cached regions not reused to the pool. */
    method BuildRegions(boxes: seq<DetectionBox>, source: Bitmap)
      requires Valid()
      modifies this`bitmapPool, this`recycled, this`nextBitmapId, tempNewRegions, tempReusedFromCache
      ensures Valid()
      ensures tempReusedFromCache.items == Hits(Claims(cachedRegions.items, boxes))
      ensures Progress(tempNewRegions.items, Pool(), nextBitmapId) ==
              Updated(old(Pool()), old(nextBitmapId), cachedRegions.items, boxes,
                      GeometryFor(source.width, source.height, downsampleFactor), viewWidth, viewHeight)
    {
      tempNewRegions.items := [];
      tempReusedFromCache.items := [];
      GeometryForIs(source.width, source.height, downsampleFactor);
      ClaimRegions(boxes, source.width, source.height, GeometryFor(source.width, source.height, downsampleFactor));
      ReturnUnclaimed();
    }

    /** The end of `updateDetections`: show the new list and swap it with the cache. */
    method ShowNewRegions()
      requires Valid()
      modifies this`currentRegions, this`cachedRegions, this`tempNewRegions
      ensures Valid()
      ensures currentRegions == cachedRegions == old(tempNewRegions) && tempNewRegions == old(cachedRegions)
    {
      currentRegions := tempNewRegions;
      var temp := cachedRegions;
      cachedRegions := tempNewRegions;
      tempNewRegions := temp;
    }

    /** `onDetachedFromWindow`: clear, then recycle every pooled bitmap and empty the pool. */
    method OnDetachedFromWindow()
      requires Valid()
      modifies this`currentRegions, this`bitmapPool, this`recycled, cachedRegions
      ensures Valid()
      ensures currentRegions.items == [] && cachedRegions.items == [] && bitmapPool == []
      ensures forall b :: (b in old(bitmapPool) || (b in Bitmaps(old(cachedRegions.items)) && b.mutable)) ==>
                b.id in recycled
    {
      ghost var pool := Pool();
      ghost var shown := Bitmaps(cachedRegions.items);
      Clear();
      ghost var cleared := Pool();
      if old(currentRegions.items) != [] {
        ReturnTwiceAccounts(pool, shown);
      }
      assert forall b :: (b in pool.items || (b in shown && b.mutable)) ==>
               b in cleared.items || b.id in cleared.recycled;
      RecyclePool();
    }

    /** The end of `onDetachedFromWindow`: recycle every pooled bitmap and empty the pool. */
    method RecyclePool()
      modifies this`bitmapPool, this`recycled
      ensures bitmapPool == [] && recycled == old(recycled) + Ids(old(bitmapPool))
    {
      for i := 0 to |bitmapPool|
        invariant bitmapPool == old(bitmapPool)
        invariant recycled == old(recycled) + Ids(bitmapPool[..i])
      {
        assert Ids(bitmapPool[..i + 1]) == Ids(bitmapPool[..i]) + {bitmapPool[i].id} by {
          assert bitmapPool[..i + 1] == bitmapPool[..i] + [bitmapPool[i]];
        }
        if bitmapPool[i].id !in recycled {
          recycled := recycled + {bitmapPool[i].id};
        }
      }
      assert bitmapPool[..|bitmapPool|] == bitmapPool;
      bitmapPool := [];
    }
  }
}
