/** The frame similarity checker (FrameSimilarityChecker.kt): remembers the last frame
    with detections and a short box history, and decides by grid sampling whether the
    scene outside those boxes is unchanged. Frames are grids of ARGB pixels. */
module Similarity {
  import opened Shared

  /** GRID_SIZE: nominal samples per axis. */
  const GridSize: int := 36
  /** SIMILARITY_THRESHOLD: fraction of outside samples that must match. */
  const SimilarityThreshold: real := 0.6
  /** PIXEL_THRESHOLD: largest R+G+B distance of two similar pixels. */
  const PixelThreshold: int := 75
  /** BOX_MARGIN: normalized margin added on every side of a box. */
  const BoxMargin: real := 0.03
  /** MIN_SAMPLES: 10% of the nominal grid. */
  const MinSamples: int := (GridSize * GridSize) / 10
  /** MAX_BOX_COVERAGE: above this inside fraction the comparison is not trusted. */
  const MaxBoxCoverage: real := 0.70
  /** `maxMismatches` of the early exit: 40% of the nominal grid, truncated (518). */
  const MaxMismatches: int := ((1.0 - SimilarityThreshold) * (GridSize * GridSize) as real).Floor
  /** How many boxes the history keeps. */
  const HistoryLimit: nat := 5

  type Pixel = Int32

  /** A frame: its size and its rows of ARGB pixels. */
  datatype Frame = Frame(width: int, height: int, pixels: seq<seq<Pixel>>)

  predicate WellFormed(f: Frame) {
    1 <= f.width && 1 <= f.height && |f.pixels| == f.height &&
    forall y :: 0 <= y < |f.pixels| ==> |f.pixels[y]| == f.width
  }

  // ----- pixels -----

  /** The pixel's 32 bits read as an unsigned number (Kotlin's `Int` is two's complement). */
  function Unsigned(p: Pixel): (u: int)
    ensures 0 <= u < 0x1_0000_0000
  {
    if p < 0 then p + 0x1_0000_0000 else p
  }

  /** `(this shr 16) and 0xFF`, `(this shr 8) and 0xFF` and `this and 0xFF`. */
  function Red(p: Pixel): int { (Unsigned(p) / 0x1_0000) % 0x100 }
  function Green(p: Pixel): int { (Unsigned(p) / 0x100) % 0x100 }
  function Blue(p: Pixel): int { Unsigned(p) % 0x100 }

  /** The fast path `(this xor other) and 0x00F0F0F0 == 0`: the mask selects the upper
      four bits of the red, green and blue bytes, so it holds exactly when those upper
      halves agree channel by channel. */
  predicate HighBitsAgree(p1: Pixel, p2: Pixel) {
    Red(p1) / 16 == Red(p2) / 16 && Green(p1) / 16 == Green(p2) / 16 && Blue(p1) / 16 == Blue(p2) / 16
  }

  /** Manhattan distance over the three colour channels; alpha plays no part. */
  function ColorDistance(p1: Pixel, p2: Pixel): nat {
    Abs(Red(p1) - Red(p2)) + Abs(Green(p1) - Green(p2)) + Abs(Blue(p1) - Blue(p2))
  }

  /** `Pixel.isSimilarTo`: the fast path, then the distance test. */
  predicate IsSimilarTo(p1: Pixel, p2: Pixel) {
    if HighBitsAgree(p1, p2) then true else ColorDistance(p1, p2) <= PixelThreshold
  }

  /** Two channel values with the same upper four bits differ by at most 15. */
  lemma NibbleCloseness(a: int, b: int)
    requires 0 <= a && 0 <= b && a / 16 == b / 16
    ensures Abs(a - b) <= 15
  {
  }

  /** When the fast path holds, no channel differs by more than 15. */
  lemma FastPathChannelBound(p1: Pixel, p2: Pixel)
    requires HighBitsAgree(p1, p2)
    ensures Abs(Red(p1) - Red(p2)) <= 15
    ensures Abs(Green(p1) - Green(p2)) <= 15
    ensures Abs(Blue(p1) - Blue(p2)) <= 15
  {
    NibbleCloseness(Red(p1), Red(p2));
    NibbleCloseness(Green(p1), Green(p2));
    NibbleCloseness(Blue(p1), Blue(p2));
  }

  /** The fast path never changes the answer: two pixels are similar exactly when their
      colour distance is at most 75. */
  lemma IsSimilarToIffDistance(p1: Pixel, p2: Pixel)
    ensures IsSimilarTo(p1, p2) <==> ColorDistance(p1, p2) <= PixelThreshold
  {
    if HighBitsAgree(p1, p2) {
      FastPathChannelBound(p1, p2);
    }
  }

  // ----- boxes -----

  /** The point lies, inclusively, in the box grown by the margin on every side. */
  predicate InExpanded(b: DetectionBox, nx: real, ny: real) {
    nx >= b.x1 - BoxMargin && nx <= b.x2 + BoxMargin && ny >= b.y1 - BoxMargin && ny <= b.y2 + BoxMargin
  }

  /** `List<DetectionBox>.contains(x, y, w, h)`: the normalized sample point falls in some
      expanded box, checked box by box. */
  function ContainsPoint(boxes: seq<DetectionBox>, x: int, y: int, w: int, h: int): bool
    requires 1 <= w && 1 <= h
  {
    if boxes == [] then false
    else InExpanded(boxes[0], x as real / w as real, y as real / h as real) || ContainsPoint(boxes[1..], x, y, w, h)
  }

  /** The box-by-box scan answers exactly whether some expanded box holds the point. */
  lemma {:induction false} ContainsPointIff(boxes: seq<DetectionBox>, x: int, y: int, w: int, h: int)
    requires 1 <= w && 1 <= h
    ensures ContainsPoint(boxes, x, y, w, h) <==>
            exists i :: 0 <= i < |boxes| && InExpanded(boxes[i], x as real / w as real, y as real / h as real)
  {
    if boxes != [] {
      ContainsPointIff(boxes[1..], x, y, w, h);
      assert forall i :: 1 <= i < |boxes| ==> boxes[i] == boxes[1..][i - 1];
    }
  }

  // ----- sampling -----

  /** Sample counters: inside the boxes, outside them, and matching outside samples. */
  datatype Tally = Tally(inside: nat, outside: nat, matches: nat)

  predicate Consistent(t: Tally) { t.matches <= t.outside }

  /** `(n / GRID_SIZE).coerceAtLeast(1)`. */
  function Step(n: int): (s: int)
    ensures 1 <= s
  {
    Max(n / GridSize, 1)
  }

  /** Column by column, whether the two rows' pixels are similar. */
  function SimilarRow(prev: seq<Pixel>, cur: seq<Pixel>): (r: seq<bool>)
    requires |prev| == |cur|
    ensures |r| == |prev|
  {
    seq(|prev|, i requires 0 <= i < |prev| => IsSimilarTo(prev[i], cur[i]))
  }

  /** The samples of row y from column x on, every `stepX` columns, given which columns
      of the row are similar. */
  function SampleRow(similar: seq<bool>, boxes: seq<DetectionBox>,
                     w: int, h: int, y: int, x: nat, stepX: int, t: Tally): (r: Tally)
    requires 1 <= w && 1 <= h && 1 <= stepX && |similar| == w
    decreases w - x
  {
    if x >= w then t
    else
      var t' := if ContainsPoint(boxes, x, y, w, h) then t.(inside := t.inside + 1)
                else t.(outside := t.outside + 1, matches := t.matches + if similar[x] then 1 else 0);
      SampleRow(similar, boxes, w, h, y, x + stepX, stepX, t')
  }

  /** One step of `SampleRow`: the sample at column x, then the rest of the row. */
  lemma SampleRowUnfold(similar: seq<bool>, boxes: seq<DetectionBox>,
                        w: int, h: int, y: int, x: nat, stepX: int, t: Tally)
    requires 1 <= w && 1 <= h && 1 <= stepX && |similar| == w && x < w
    ensures SampleRow(similar, boxes, w, h, y, x, stepX, t) ==
            SampleRow(similar, boxes, w, h, y, x + stepX, stepX,
                      if ContainsPoint(boxes, x, y, w, h) then t.(inside := t.inside + 1)
                      else t.(outside := t.outside + 1, matches := t.matches + if similar[x] then 1 else 0))
  {
  }

  /** The rows from y on, every `stepY` rows, stopping after a row once the mismatches
      exceed the early-exit bound. */
  function SampleRows(prev: Frame, cur: Frame, boxes: seq<DetectionBox>,
                      y: nat, stepX: int, stepY: int, t: Tally): (r: Tally)
    requires WellFormed(prev) && WellFormed(cur)
    requires prev.width == cur.width && prev.height == cur.height
    requires 1 <= stepX && 1 <= stepY
    decreases prev.height - y
  {
    if y >= prev.height then t
    else
      var t' := SampleRow(SimilarRow(prev.pixels[y], cur.pixels[y]), boxes, prev.width, prev.height, y, stepX / 2, stepX, t);
      if t'.outside - t'.matches > MaxMismatches then t'
      else SampleRows(prev, cur, boxes, y + stepY, stepX, stepY, t')
  }

  /** One step of `SampleRows`. */
  lemma SampleRowsUnfold(prev: Frame, cur: Frame, boxes: seq<DetectionBox>,
                         y: nat, stepX: int, stepY: int, t: Tally)
    requires WellFormed(prev) && WellFormed(cur)
    requires prev.width == cur.width && prev.height == cur.height
    requires 1 <= stepX && 1 <= stepY && y < prev.height
    ensures var t' := SampleRow(SimilarRow(prev.pixels[y], cur.pixels[y]), boxes, prev.width, prev.height, y, stepX / 2, stepX, t);
            SampleRows(prev, cur, boxes, y, stepX, stepY, t) ==
            if t'.outside - t'.matches > MaxMismatches then t'
            else SampleRows(prev, cur, boxes, y + stepY, stepX, stepY, t')
  {
  }

  /** The verdict on a finished tally: not when the boxes cover too much, not on too few
      outside samples, otherwise when enough outside samples match. */
  predicate Decide(t: Tally) {
    var total := t.inside + t.outside;
    var coverage := if total > 0 then t.inside as real / total as real else 0.0;
    if coverage > MaxBoxCoverage then false
    else if t.outside < MinSamples then false
    else !(t.matches as real / t.outside as real < SimilarityThreshold)
  }

  /** `shouldKeepOverlay` as a function of the stored frame, the stored boxes and the
      current frame. */
  predicate KeepOverlay(prev: Option<Frame>, boxes: seq<DetectionBox>, cur: Frame)
    requires prev.Some? ==> WellFormed(prev.value)
    requires WellFormed(cur)
  {
    if prev.None? || boxes == [] then false
    else if prev.value.width != cur.width || prev.value.height != cur.height then false
    else
      var stepX, stepY := Step(prev.value.width), Step(prev.value.height);
      Decide(SampleRows(prev.value, cur, boxes, stepY / 2, stepX, stepY, Tally(0, 0, 0)))
  }

  /** Decide as the three successive tests `shouldKeepOverlay` makes. */
  lemma DecideCases(inside: nat, outside: nat, matches: nat)
    ensures var total := inside + outside;
            var coverage := if total > 0 then inside as real / total as real else 0.0;
            Decide(Tally(inside, outside, matches)) <==>
              !(coverage > MaxBoxCoverage) && !(outside < MinSamples) &&
              !(matches as real / outside as real < SimilarityThreshold)
  {
  }

  /** The decision rule in integer terms. */
  lemma DecideRule(t: Tally)
    ensures Decide(t) <==>
              (t.inside + t.outside == 0 || 10 * t.inside <= 7 * (t.inside + t.outside)) &&
              t.outside >= 129 && 5 * t.matches >= 3 * t.outside
  {
    var total := t.inside + t.outside;
    if total > 0 {
      RatioAbove(t.inside, total, 7, 10);
    }
    if t.outside > 0 {
      RatioAbove(t.matches, t.outside, 3, 5);
    }
  }

  lemma RatioAbove(a: nat, n: nat, p: nat, q: nat)
    requires 0 < n && 0 < q
    ensures a as real / n as real > p as real / q as real <==> q * a > p * n
    ensures a as real / n as real < p as real / q as real <==> q * a < p * n
  {
    var x := a as real / n as real;
    var z := p as real / q as real;
    var c := (n * q) as real;
    assert x * c == (q * a) as real;
    assert z * c == (p * n) as real;
    MulStrictMono(x, z, c);
    MulStrictMono(z, x, c);
  }

  lemma MulStrictMono(u: real, v: real, c: real)
    requires 0.0 < c
    ensures u > v <==> u * c > v * c
  {
    if u > v {
      assert (u - v) * c > 0.0;
    }
    if u * c > v * c {
      assert (u - v) * c > 0.0;
    }
  }

  /** Without a stored frame or stored boxes (in particular after `clear`) the overlay is
      never kept, and neither is it for a frame of another size. */
  lemma NoHistoryNoKeep(prev: Option<Frame>, boxes: seq<DetectionBox>, cur: Frame)
    requires prev.Some? ==> WellFormed(prev.value)
    requires WellFormed(cur)
    requires prev.None? || boxes == [] || prev.value.width != cur.width || prev.value.height != cur.height
    ensures !KeepOverlay(prev, boxes, cur)
  {
  }

  // ----- history -----

  /** The box history after a success: the last (at most five) of the old history
      followed by the new boxes. */
  function MergeHistory(previous: seq<DetectionBox>, boxes: seq<DetectionBox>): seq<DetectionBox>
  {
    var all := previous + boxes;
    if |all| > HistoryLimit then all[|all| - HistoryLimit..] else all
  }

  /** The merged history holds min(5, n) boxes, is a suffix of old history plus new
      boxes, and ends with the newest boxes. */
  lemma MergeHistoryProperties(previous: seq<DetectionBox>, boxes: seq<DetectionBox>)
    ensures var r := MergeHistory(previous, boxes);
            |r| == Min(HistoryLimit, |previous| + |boxes|) &&
            r == (previous + boxes)[|previous| + |boxes| - |r|..] &&
            (|boxes| <= HistoryLimit ==> r[|r| - |boxes|..] == boxes) &&
            (|boxes| >= HistoryLimit ==> r == boxes[|boxes| - HistoryLimit..])
  {
    var all := previous + boxes;
    var r := MergeHistory(previous, boxes);
    if |boxes| <= HistoryLimit {
      assert r[|r| - |boxes|..] == all[|all| - |boxes|..];
      assert all[|all| - |boxes|..] == boxes;
    }
    if |boxes| >= HistoryLimit {
      assert all[|all| - HistoryLimit..] == boxes[|boxes| - HistoryLimit..];
    }
  }

  /** `Bitmap.getPixels(buffer, 0, w, 0, y, w, 1)`: copy row `y` of a frame into a row
      buffer. */
  method GetRowPixels(frame: Frame, y: int, buffer: array<Pixel>)
    requires WellFormed(frame) && 0 <= y < frame.height && buffer.Length == frame.width
    modifies buffer
    ensures buffer[..] == frame.pixels[y]
  {
    forall i | 0 <= i < buffer.Length {
      buffer[i] := frame.pixels[y][i];
    }
  }

  /** The inner loop of `shouldKeepOverlay`: sample the buffered row every `stepX`
      columns from `stepX / 2` on, adding to the three counters. */
  method SampleBufferedRow(prevRow: array<Pixel>, currRow: array<Pixel>, boxes: seq<DetectionBox>,
                           w: int, h: int, y: int, stepX: int,
                           inside0: nat, outside0: nat, matches0: nat)
    returns (inside: nat, outside: nat, matches: nat)
    requires 1 <= w && 1 <= h && 1 <= stepX && prevRow.Length == w && currRow.Length == w
    requires matches0 <= outside0
    ensures matches <= outside
    ensures Tally(inside, outside, matches)
            == SampleRow(SimilarRow(prevRow[..], currRow[..]), boxes, w, h, y, stepX / 2, stepX, Tally(inside0, outside0, matches0))
  {
    ghost var similar := SimilarRow(prevRow[..], currRow[..]);
    inside, outside, matches := inside0, outside0, matches0;
    var x := stepX / 2;
    while x < w
      invariant matches <= outside
      invariant SampleRow(similar, boxes, w, h, y, x, stepX, Tally(inside, outside, matches))
                == SampleRow(similar, boxes, w, h, y, stepX / 2, stepX, Tally(inside0, outside0, matches0))
      decreases w - x
    {
      SampleRowUnfold(similar, boxes, w, h, y, x, stepX, Tally(inside, outside, matches));
      if ContainsPoint(boxes, x, y, w, h) {
        inside := inside + 1;
      } else {
        outside := outside + 1;
        assert IsSimilarTo(prevRow[x], currRow[x]) == similar[x];
        if IsSimilarTo(prevRow[x], currRow[x]) {
          matches := matches + 1;
        }
      }
      x := x + stepX;
    }
  }

  /** The outer loop of `shouldKeepOverlay`: every `stepY` rows from `stepY / 2` on,
      sample the row through the row buffers, and stop early once the mismatches exceed
      the early-exit bound. */
  method SampleFrames(prev: Frame, current: Frame, boxes: seq<DetectionBox>, stepX: int, stepY: int,
                      prevRowPixels: array<Pixel>, currRowPixels: array<Pixel>)
    returns (samplesInsideBoxes: nat, samplesOutsideBoxes: nat, matches: nat)
    requires WellFormed(prev) && WellFormed(current)
    requires prev.width == current.width && prev.height == current.height
    requires 1 <= stepX && 1 <= stepY
    requires prevRowPixels.Length == prev.width && currRowPixels.Length == prev.width
    requires prevRowPixels != currRowPixels
    modifies prevRowPixels, currRowPixels
    ensures matches <= samplesOutsideBoxes
    ensures Tally(samplesInsideBoxes, samplesOutsideBoxes, matches)
            == SampleRows(prev, current, boxes, stepY / 2, stepX, stepY, Tally(0, 0, 0))
  {
    var w, h := prev.width, prev.height;
    samplesInsideBoxes, samplesOutsideBoxes, matches := 0, 0, 0;
    var maxMismatches := MaxMismatches;
    ghost var whole := SampleRows(prev, current, boxes, stepY / 2, stepX, stepY, Tally(0, 0, 0));
    var y := stepY / 2;
    while y < h
      invariant matches <= samplesOutsideBoxes
      invariant SampleRows(prev, current, boxes, y, stepX, stepY,
                           Tally(samplesInsideBoxes, samplesOutsideBoxes, matches)) == whole
      decreases h - y
    {
      ghost var before := Tally(samplesInsideBoxes, samplesOutsideBoxes, matches);
      GetRowPixels(prev, y, prevRowPixels);
      GetRowPixels(current, y, currRowPixels);
      samplesInsideBoxes, samplesOutsideBoxes, matches :=
        SampleBufferedRow(prevRowPixels, currRowPixels, boxes, w, h, y, stepX,
                          samplesInsideBoxes, samplesOutsideBoxes, matches);
      SampleRowsUnfold(prev, current, boxes, y, stepX, stepY, before);
      if samplesOutsideBoxes - matches > maxMismatches {
        break;
      }
      y := y + stepY;
    }
  }

  class FrameSimilarityChecker {
    var previousFrame: Option<Frame>
    var previousBoxes: seq<DetectionBox>
    /** Row buffers reused across calls while the width stays the same. */
    var prevRowBuffer: array?<Pixel>
    var currRowBuffer: array?<Pixel>

    ghost predicate Valid()
      reads this
    {
      (prevRowBuffer == null <==> currRowBuffer == null) &&
      (prevRowBuffer != null ==> prevRowBuffer != currRowBuffer && prevRowBuffer.Length == currRowBuffer.Length) &&
      (previousFrame.Some? ==> WellFormed(previousFrame.value)) &&
      (previousFrame.None? ==> previousBoxes == []) &&
      |previousBoxes| <= HistoryLimit
    }

    constructor ()
      ensures Valid() && previousFrame == None && previousBoxes == []
      ensures prevRowBuffer == null && currRowBuffer == null
    {
      previousFrame := None;
      previousBoxes := [];
      prevRowBuffer := null;
      currRowBuffer := null;
    }

    /** `onDetectionSuccess`: merge the boxes into the history, keep a copy of the frame,
        and return the merged history. */
    method OnDetectionSuccess(frame: Frame, boxes: seq<DetectionBox>) returns (merged: seq<DetectionBox>)
      requires Valid() && WellFormed(frame)
      modifies this`previousFrame, this`previousBoxes
      ensures Valid()
      ensures merged == MergeHistory(old(previousBoxes), boxes)
      ensures previousBoxes == merged && previousFrame == Some(frame)
    {
      var all := previousBoxes + boxes;
      merged := if |all| > HistoryLimit then all[|all| - HistoryLimit..] else all;
      previousFrame := Some(frame);
      previousBoxes := merged;
    }

    /** `clear`: forget the frame, the history and the row buffers. */
    method Clear()
      modifies this
      ensures Valid() && previousFrame == None && previousBoxes == []
      ensures prevRowBuffer == null && currRowBuffer == null
    {
      previousFrame := None;
      previousBoxes := [];
      prevRowBuffer := null;
      currRowBuffer := null;
    }

    /** `shouldKeepOverlay`: grid-sample both frames row by row into the reused row
        buffers, counting samples inside the expanded boxes, outside them, and outside
        samples that match. */
    method ShouldKeepOverlay(current: Frame) returns (keep: bool)
      requires Valid() && WellFormed(current)
      modifies this`prevRowBuffer, this`currRowBuffer, prevRowBuffer, currRowBuffer
      ensures Valid()
      ensures keep == KeepOverlay(previousFrame, previousBoxes, current)
      ensures previousFrame == old(previousFrame) && previousBoxes == old(previousBoxes)
      ensures prevRowBuffer == old(prevRowBuffer) || fresh(prevRowBuffer)
      ensures currRowBuffer == old(currRowBuffer) || fresh(currRowBuffer)
    {
      var prevFrame := previousFrame;
      if prevFrame.None? || |previousBoxes| == 0 {
        return false;
      }
      var boxes := previousBoxes;
      var prev := prevFrame.value;
      var w := prev.width;
      var h := prev.height;
      if w != current.width || h != current.height {
        return false;
      }
      var stepX := Step(w);
      var stepY := Step(h);
      if prevRowBuffer == null || prevRowBuffer.Length != w {
        prevRowBuffer := new Pixel[w];
        currRowBuffer := new Pixel[w];
      }
      var samplesInsideBoxes, samplesOutsideBoxes, matches :=
        SampleFrames(prev, current, boxes, stepX, stepY, prevRowBuffer, currRowBuffer);

      ghost var t := Tally(samplesInsideBoxes, samplesOutsideBoxes, matches);
      assert KeepOverlay(previousFrame, previousBoxes, current) == Decide(t);
      DecideCases(samplesInsideBoxes, samplesOutsideBoxes, matches);
      var totalSamples := samplesInsideBoxes + samplesOutsideBoxes;
      var coverage := if totalSamples > 0 then samplesInsideBoxes as real / totalSamples as real else 0.0;
      if coverage > MaxBoxCoverage {
        return false;
      }
      if samplesOutsideBoxes < MinSamples {
        return false;
      }
      var similarity := matches as real / samplesOutsideBoxes as real;
      if similarity < SimilarityThreshold {
        return false;
      }
      return true;
    }
  }
}
