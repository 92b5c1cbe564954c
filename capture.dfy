/** The capture coordinator (ScreenCaptureService.kt): admits one frame at a time,
    reuses one input bitmap, dispatches the detector's callbacks into overlay actions,
    keeps the overlay through short runs of empty frames, and tracks the virtual
    display size. Work posted to the main thread is returned as an `OverlayAction`
    and carried out by `Deliver`. */
module Capture {
  import opened Shared
  import opened Detection
  import opened Similarity
  import Overlay
  import Manager

  /** EMPTY_FRAMES_THRESHOLD: empty frames tolerated in normal mode. */
  const EmptyFramesThreshold: int := 3
  /** FULLSCREEN_EMPTY_FRAMES_THRESHOLD: the same in full-screen mode. */
  const FullscreenEmptyFramesThreshold: int := 4
  /** SMALL_MODEL_IMGZ: the size of the first buffer bitmap. */
  const SmallModelImgz: Int32 := 416
  const LargeModelPath: string := "shade_large.tflite"
  const SmallModelPath: string := "shade_small.tflite"
  /** DEFAULT_CONFIDENCE_PERCENT. */
  const DefaultConfidencePercent: real := 60.0

  /** What a callback posts to the main thread. */
  datatype OverlayAction =
    | NoAction
    | ShowDetections(boxes: seq<DetectionBox>, source: Bitmap)
    | ClearDetections

  // ----- settings -----

  /** The confidence flow handler: percent to a fraction, clamped to [0, 1]. */
  function ThresholdFor(percent: real): (t: real)
  {
    Clamp(percent / 100.0, 0.0, 1.0)
  }

  /** A threshold is a fraction; inside [0, 100] it is exactly the percentage divided
      by 100, and outside it saturates. */
  lemma ThresholdForProperties(percent: real)
    ensures 0.0 <= ThresholdFor(percent) <= 1.0
    ensures 0.0 <= percent <= 100.0 ==> ThresholdFor(percent) * 100.0 == percent
    ensures percent <= 0.0 ==> ThresholdFor(percent) == 0.0
    ensures 100.0 <= percent ==> ThresholdFor(percent) == 1.0
  {
  }

  /** A higher percentage never gives a lower threshold. */
  lemma ThresholdForMonotone(p: real, q: real)
    requires p <= q
    ensures ThresholdFor(p) <= ThresholdFor(q)
  {
  }

  /** The boxes `onBoxesDetected` shows: the merged history in full-screen mode, the
      detector's boxes otherwise. */
  function ShownBoxes(fullScreen: bool, history: seq<DetectionBox>, boxes: seq<DetectionBox>): seq<DetectionBox> {
    if fullScreen then MergeHistory(history, boxes) else boxes
  }

  /** The model file `setupDetector` loads. */
  function ModelPath(useBigModel: bool): (path: string)
    ensures path == LargeModelPath <==> useBigModel
  {
    if useBigModel then LargeModelPath else SmallModelPath
  }

  // ----- empty detections -----

  /** What `onEmptyDetections` does with the overlay: wait (grace frames), keep it
      because the scene is unchanged (counts as a detection), or clear it. */
  datatype EmptyDecision = Wait | Keep | ClearAll

  /** The `onEmptyDetections` policy, given the frames since the last detection and
      the similarity checker's verdict (only consulted past the full-screen grace). */
  function EmptyPolicy(fullScreen: bool, framesSinceLastDetection: int, similar: bool): EmptyDecision
  {
    if fullScreen then
      if framesSinceLastDetection < FullscreenEmptyFramesThreshold then Wait
      else if similar then Keep
      else ClearAll
    else if framesSinceLastDetection < EmptyFramesThreshold then Wait
    else ClearAll
  }

  /** The policy's three outcomes, stated per mode. */
  lemma EmptyPolicyCases(fullScreen: bool, since: int, similar: bool)
    ensures !fullScreen ==> (EmptyPolicy(fullScreen, since, similar) == Wait <==> since < EmptyFramesThreshold)
    ensures !fullScreen ==> EmptyPolicy(fullScreen, since, similar) != Keep
    ensures fullScreen ==> (EmptyPolicy(fullScreen, since, similar) == Wait <==> since < FullscreenEmptyFramesThreshold)
    ensures fullScreen ==> (EmptyPolicy(fullScreen, since, similar) == Keep <==> FullscreenEmptyFramesThreshold <= since && similar)
  {
  }

  /** A run of consecutive empty frames after a detection: `since` frames have passed
      when the run starts, and `similar[i]` is the checker's verdict at the run's i-th
      frame. The result is the position of the frame that clears the overlay, if any.
      Every admitted frame advances the frame number by one; a kept frame counts as a
      detection. */
  function FirstClear(fullScreen: bool, since: int, similar: seq<bool>): (r: Option<nat>)
    ensures r.Some? ==> r.value < |similar|
    decreases |similar|
  {
    if similar == [] then None
    else
      match EmptyPolicy(fullScreen, since + 1, similar[0])
      case ClearAll => Some(0)
      case Wait => Later(FirstClear(fullScreen, since + 1, similar[1..]))
      case Keep => Later(FirstClear(fullScreen, 0, similar[1..]))
  }

  function Later(r: Option<nat>): Option<nat> {
    if r.None? then None else Some(r.value + 1)
  }

  /** In normal mode the third empty frame after a detection clears the overlay: two
      empty frames are tolerated. */
  lemma {:induction false} NormalModeClearsOnThirdFrame(similar: seq<bool>)
    requires 3 <= |similar|
    ensures FirstClear(false, 0, similar) == Some(2)
  {
    assert FirstClear(false, 2, similar[2..]) == Some(0);
    assert similar[1..][1..] == similar[2..];
    assert FirstClear(false, 1, similar[1..]) == Some(1);
  }

  /** In full-screen mode the overlay survives three empty frames; at the fourth, a
      changed scene clears it. */
  lemma {:induction false} FullScreenClearsOnFourthFrame(similar: seq<bool>)
    requires 4 <= |similar| && !similar[3]
    ensures FirstClear(true, 0, similar) == Some(3)
  {
    assert FirstClear(true, 3, similar[3..]) == Some(0);
    assert similar[2..][1..] == similar[3..];
    assert FirstClear(true, 2, similar[2..]) == Some(1);
    assert similar[1..][1..] == similar[2..];
    assert FirstClear(true, 1, similar[1..]) == Some(2);
  }

  /** In full-screen mode, a scene the checker keeps finding unchanged keeps the
      overlay for any number of empty frames. */
  lemma {:induction false} UnchangedSceneNeverClears(since: int, similar: seq<bool>)
    requires since < FullscreenEmptyFramesThreshold
    requires forall i :: 0 <= i < |similar| ==> similar[i]
    ensures FirstClear(true, since, similar) == None
    decreases |similar|
  {
    if similar != [] {
      var rest := similar[1..];
      assert forall i :: 0 <= i < |rest| ==> rest[i] by {
        forall i | 0 <= i < |rest| ensures rest[i] {
          assert rest[i] == similar[i + 1];
        }
      }
      if since + 1 < FullscreenEmptyFramesThreshold {
        UnchangedSceneNeverClears(since + 1, rest);
      } else {
        UnchangedSceneNeverClears(0, rest);
      }
    }
  }

  /** Normal mode never clears before the third frame of a run, whatever comes after. */
  lemma {:induction false} NormalModeWaitsTwoFrames(similar: seq<bool>)
    requires |similar| <= 2
    ensures FirstClear(false, 0, similar) == None
  {
    if similar != [] {
      assert |similar[1..]| <= 1;
      if similar[1..] != [] {
        assert similar[1..][1..] == [];
      }
    }
  }

  // ----- bitmaps -----

  /** `tryRecycleBitmap`'s test: not the shared input bitmap (same handle), not yet
      recycled, and mutable. */
  predicate Recyclable(bitmap: Bitmap, input: Option<Bitmap>, recycled: set<nat>) {
    (input.None? || bitmap.id != input.value.id) && bitmap.id !in recycled && bitmap.mutable
  }

  /** The shared input bitmap is never recyclable. */
  lemma InputNeverRecyclable(input: Option<Bitmap>, recycled: set<nat>)
    requires input.Some?
    ensures !Recyclable(input.value, input, recycled)
  {
  }

  /** `getInputBitmap`'s test for reusing the existing input bitmap. */
  predicate Reusable(existing: Option<Bitmap>, recycled: set<nat>, width: int, height: int) {
    existing.Some? && existing.value.id !in recycled && existing.value.mutable &&
    existing.value.width == width && existing.value.height == height
  }

  /** Kotlin's `Int` division, which truncates toward zero (the divisor is positive). */
  function KotlinDiv(a: int, b: int): (q: int)
    requires 0 < b
  {
    if 0 <= a then a / b else -((-a) / b)
  }

  /** The buffer bitmap's width in `processImage`: the image width plus the row padding
      measured in pixels. */
  function RowBitmapWidth(imageWidth: int, pixelStride: int, rowStride: int): int
    requires 0 < pixelStride
  {
    imageWidth + KotlinDiv(rowStride - pixelStride * imageWidth, pixelStride)
  }

  /** With a row stride of at least one row of pixels, the buffer is at least as wide
      as the image and no wider than the row stride. */
  lemma RowBitmapWidthBounds(imageWidth: int, pixelStride: int, rowStride: int)
    requires 1 <= imageWidth && 1 <= pixelStride && pixelStride * imageWidth <= rowStride
    ensures imageWidth <= RowBitmapWidth(imageWidth, pixelStride, rowStride) <= rowStride
  {
    var padding := rowStride - pixelStride * imageWidth;
    QuotientAtMost(padding, pixelStride);
    ProductAtLeast(imageWidth, pixelStride);
  }

  /** Dividing by a positive divisor never increases a non-negative number. */
  lemma QuotientAtMost(a: int, b: int)
    requires 0 <= a && 1 <= b
    ensures 0 <= a / b <= a
  {
    var q := a / b;
    assert q * b <= a;
    ProductAtLeast(q, b);
  }

  /** Scaling a non-negative number by at least 1 never decreases it. */
  lemma ProductAtLeast(x: int, k: int)
    requires 0 <= x && 1 <= k
    ensures x <= k * x && x <= x * k
  {
    assert k * x == x + (k - 1) * x;
  }

  // ----- virtual display -----

  /** The window bounds, rotation and density the display listener reads. */
  datatype DisplayInfo = DisplayInfo(boundsWidth: int, boundsHeight: int, rotation: int, densityDpi: int)

  /** The new capture width: the model input width, at least 1. */
  function TargetWidth(tensorWidth: int): int {
    Max(1, tensorWidth)
  }

  /** The new capture height: the model input height (at least 1) scaled by the
      display's aspect ratio, truncated, at least 1. */
  function TargetHeight(tensorHeight: int, boundsWidth: int, boundsHeight: int): int {
    Max(1, Trunc(ScaledHeight(Max(1, tensorHeight), Max(1, boundsWidth), Max(1, boundsHeight))))
  }

  /** `baseHeight.toFloat() * displayH.toFloat() / displayW.toFloat()`. */
  function ScaledHeight(baseHeight: int, displayWidth: int, displayHeight: int): real
    requires 1 <= displayWidth
  {
    baseHeight as real * displayHeight as real / displayWidth as real
  }

  /** Truncating a non-negative quotient of reals is integer division. */
  lemma RealQuotientFloor(n: int, d: int)
    requires 0 <= n && 1 <= d
    ensures (n as real / d as real).Floor == n / d
  {
    var q, r := n / d, n % d;
    assert n == q * d + r && 0 <= r < d;
    var x := r as real / d as real;
    assert 0.0 <= x < 1.0;
    assert n as real == q as real * d as real + r as real;
    assert n as real / d as real == q as real + x;
  }

  /** The capture height keeps the display's aspect ratio, rounded down, and is at least 1:
      `h * W <= base * H < (h + 1) * W` unless the floor of 1 applies. */
  lemma TargetHeightKeepsAspect(tensorHeight: int, boundsWidth: int, boundsHeight: int)
    ensures var h := TargetHeight(tensorHeight, boundsWidth, boundsHeight);
            var base, w, ht := Max(1, tensorHeight), Max(1, boundsWidth), Max(1, boundsHeight);
            1 <= h && (1 < h ==> h * w <= base * ht) && base * ht < (h + 1) * w
  {
    var base, w, ht := Max(1, tensorHeight), Max(1, boundsWidth), Max(1, boundsHeight);
    TargetHeightIsQuotient(tensorHeight, boundsWidth, boundsHeight);
    ProductAtLeast(base, ht);
    RaisedQuotientBounds(base * ht, w);
  }

  /** The truncated real quotient is the integer quotient of the product. */
  lemma TargetHeightIsQuotient(tensorHeight: int, boundsWidth: int, boundsHeight: int)
    ensures 1 <= Max(1, tensorHeight) * Max(1, boundsHeight)
    ensures TargetHeight(tensorHeight, boundsWidth, boundsHeight) ==
            Max(1, Max(1, tensorHeight) * Max(1, boundsHeight) / Max(1, boundsWidth))
  {
    var base, w, ht := Max(1, tensorHeight), Max(1, boundsWidth), Max(1, boundsHeight);
    var n := base * ht;
    ProductAtLeast(base, ht);
    var x := ScaledHeight(base, w, ht);
    assert base as real * ht as real == n as real;
    assert x == n as real / w as real;
    RealQuotientFloor(n, w);
  }

  /** The integer quotient raised to at least 1 still brackets the dividend from above,
      and from below whenever the raise did not apply. */
  lemma RaisedQuotientBounds(n: int, d: int)
    requires 0 <= n && 1 <= d
    ensures var h := Max(1, n / d); (1 < h ==> h * d <= n) && n < (h + 1) * d
  {
    DivisionBounds(n, d);
    var f, h := n / d, Max(1, n / d);
    assert (h + 1) * d == (f + 1) * d + (h - f) * d;
    assert 0 <= (h - f) * d;
  }

  /** The quotient of Euclidean division brackets the dividend. */
  lemma DivisionBounds(n: int, d: int)
    requires 0 <= n && 1 <= d
    ensures n / d * d <= n < (n / d + 1) * d
  {
    assert n == n / d * d + n % d;
    assert (n / d + 1) * d == n / d * d + d;
  }

  /** `updateVirtualDisplayConfig`'s test: only the width, the height and the rotation
      count (not the density), unless forced. */
  predicate ConfigChanged(force: bool, width: int, height: int, rotation: int,
                          newWidth: int, newHeight: int, newRotation: int)
  {
    force || newWidth != width || newHeight != height || newRotation != rotation
  }


  /** An image the reader hands over: its size, its first plane's layout, and whether
      it has been closed. */
  class Image {
    const width: Int32
    const height: Int32
    const pixelStride: int
    const rowStride: int
    var closed: bool

    constructor (width: Int32, height: Int32, pixelStride: int, rowStride: int)
      ensures this.width == width && this.height == height
      ensures this.pixelStride == pixelStride && this.rowStride == rowStride && !closed
    {
      this.width := width;
      this.height := height;
      this.pixelStride := pixelStride;
      this.rowStride := rowStride;
      closed := false;
    }
  }

  class ScreenCaptureService {
    var isProcessing: bool
    var currentFrameNumber: int
    var lastDetectedFrameNumber: int
    var detector: Detector?
    const checker: FrameSimilarityChecker
    var bufferBitmap: Bitmap
    var inputBitmap: Option<Bitmap>
    /** Ids of the bitmaps this service has recycled. */
    var recycled: set<nat>
    var nextBitmapId: nat
    var isTargetAppVisible: bool
    var confidenceThreshold: real
    var overlayOpacity: real
    var fullScreenModeEnabled: bool
    var screenDensity: int
    var screenWidth: int
    var screenHeight: int
    var currentRotation: int

    /** Bitmap ids come from the counter; the buffer and the input bitmap are distinct
        and the input bitmap is live. */
    ghost predicate Valid()
      reads this, detector, checker
    {
      (detector != null ==> detector.Valid()) && checker.Valid() &&
      bufferBitmap.id < nextBitmapId &&
      (inputBitmap.Some? ==>
         inputBitmap.value.id < nextBitmapId && inputBitmap.value.id !in recycled &&
         inputBitmap.value.id != bufferBitmap.id) &&
      (forall id | id in recycled :: id < nextBitmapId)
    }

    constructor ()
      ensures Valid() && !isProcessing && currentFrameNumber == 0 && lastDetectedFrameNumber == 0
      ensures detector == null && inputBitmap == None && recycled == {}
      ensures bufferBitmap.width == SmallModelImgz && bufferBitmap.height == SmallModelImgz
      ensures confidenceThreshold == DefaultConfidencePercent / 100.0 && overlayOpacity == 100.0
      ensures isTargetAppVisible && !fullScreenModeEnabled
      ensures screenWidth == 1 && screenHeight == 1
    {
      isProcessing := false;
      currentFrameNumber, lastDetectedFrameNumber := 0, 0;
      detector := null;
      checker := new FrameSimilarityChecker();
      bufferBitmap := Bitmap(0, SmallModelImgz, SmallModelImgz, true);
      inputBitmap := None;
      recycled := {};
      nextBitmapId := 1;
      isTargetAppVisible := true;
      confidenceThreshold := DefaultConfidencePercent / 100.0;
      overlayOpacity := 100.0;
      fullScreenModeEnabled := false;
      screenDensity, screenWidth, screenHeight, currentRotation := 0, 1, 1, 0;
    }

    /** `tryRecycleBitmap`: recycle the bitmap unless it is the shared input bitmap, is
        already recycled, or is immutable. */
    method TryRecycleBitmap(bitmap: Bitmap)
      requires Valid() && bitmap.id < nextBitmapId
      modifies this`recycled
      ensures Valid()
      ensures recycled == old(recycled) + (if Recyclable(bitmap, inputBitmap, old(recycled)) then {bitmap.id} else {})
    {
      if (inputBitmap.None? || bitmap.id != inputBitmap.value.id) && bitmap.id !in recycled && bitmap.mutable {
        recycled := recycled + {bitmap.id};
      }
    }

    /** `getInputBitmap`: reuse the input bitmap exactly when it is live, mutable and of
        the requested size; otherwise recycle it and allocate a new one. */
    method GetInputBitmap(width: Int32, height: Int32) returns (r: Bitmap)
      requires Valid()
      modifies this`inputBitmap, this`recycled, this`nextBitmapId
      ensures Valid()
      ensures inputBitmap == Some(r) && r.width == width && r.height == height && r.mutable
      ensures old(inputBitmap) == Some(r) <==> Reusable(old(inputBitmap), old(recycled), width, height)
      ensures Reusable(old(inputBitmap), old(recycled), width, height) ==>
                recycled == old(recycled) && nextBitmapId == old(nextBitmapId)
      ensures !Reusable(old(inputBitmap), old(recycled), width, height) ==>
                r.id == old(nextBitmapId) && nextBitmapId == old(nextBitmapId) + 1 &&
                recycled == old(recycled) + (if old(inputBitmap).Some? then {old(inputBitmap).value.id} else {})
    {
      var existing := inputBitmap;
      if existing.Some? && existing.value.id !in recycled && existing.value.mutable &&
         existing.value.width == width && existing.value.height == height {
        return existing.value;
      }
      if existing.Some? {
        recycled := recycled + {existing.value.id};
      }
      r := Bitmap(nextBitmapId, width, height, true);
      nextBitmapId := nextBitmapId + 1;
      inputBitmap := Some(r);
    }

    /** `processImage`: admit the frame only when no other frame is in flight (test and
        set), count it, size the buffer bitmap to the row layout and hand back the input
        bitmap for detection. The image is closed in every case. */
    method ProcessImage(image: Image) returns (admitted: Option<Bitmap>)
      requires Valid()
      requires 1 <= image.pixelStride && image.pixelStride * Max(1, image.width) <= image.rowStride < 0x8000_0000
      modifies image`closed, this`isProcessing, this`currentFrameNumber, this`bufferBitmap,
               this`inputBitmap, this`recycled, this`nextBitmapId
      ensures Valid() && image.closed && isProcessing
      ensures old(isProcessing) ==>
                admitted == None && currentFrameNumber == old(currentFrameNumber) &&
                bufferBitmap == old(bufferBitmap) && inputBitmap == old(inputBitmap) &&
                recycled == old(recycled) && nextBitmapId == old(nextBitmapId)
      ensures !old(isProcessing) ==>
                currentFrameNumber == old(currentFrameNumber) + 1 && admitted == inputBitmap &&
                admitted.Some? && admitted.value.width == Max(1, image.width) &&
                admitted.value.height == Max(1, image.height) &&
                bufferBitmap.width == RowBitmapWidth(Max(1, image.width), image.pixelStride, image.rowStride) &&
                bufferBitmap.height == Max(1, image.height)
      ensures !old(isProcessing) ==>
                var w, h := Max(1, image.width), Max(1, image.height);
                var resized := old(bufferBitmap).width != RowBitmapWidth(w, image.pixelStride, image.rowStride) ||
                               old(bufferBitmap).height != h;
                var id := old(nextBitmapId) + (if resized then 1 else 0);
                var kept := old(recycled) + (if resized then {old(bufferBitmap).id} else {});
                (!resized ==> bufferBitmap == old(bufferBitmap)) &&
                (resized ==> bufferBitmap == Bitmap(old(nextBitmapId), bufferBitmap.width, h, true)) &&
                (Reusable(old(inputBitmap), old(recycled), w, h) ==>
                   inputBitmap == old(inputBitmap) && recycled == kept && nextBitmapId == id) &&
                (!Reusable(old(inputBitmap), old(recycled), w, h) ==>
                   inputBitmap == Some(Bitmap(id, w, h, true)) && nextBitmapId == id + 1 &&
                   recycled == kept + (if old(inputBitmap).Some? then {old(inputBitmap).value.id} else {}))
    {
      admitted := None;
      if !isProcessing {
        isProcessing := true;
        currentFrameNumber := currentFrameNumber + 1;
        var imageWidth: Int32 := Max(1, image.width);
        var imageHeight: Int32 := Max(1, image.height);
        RowBitmapWidthBounds(imageWidth, image.pixelStride, image.rowStride);
        var rowPadding := image.rowStride - image.pixelStride * imageWidth;
        var bitmapWidth: Int32 := imageWidth + KotlinDiv(rowPadding, image.pixelStride);
        if bufferBitmap.width != bitmapWidth || bufferBitmap.height != imageHeight {
          recycled := recycled + {bufferBitmap.id};
          bufferBitmap := Bitmap(nextBitmapId, bitmapWidth, imageHeight, true);
          nextBitmapId := nextBitmapId + 1;
        }
        var input := GetInputBitmap(imageWidth, imageHeight);
        admitted := Some(input);
      }
      image.closed := true;
    }

    /** `onBoxesDetected`: with the target app visible, show the boxes (in full-screen
        mode the similarity checker's merged history, which also records the frame);
        otherwise try to recycle the frame. Either way the frame counts as a detection. */
    method OnBoxesDetected(boxes: seq<DetectionBox>, source: Bitmap, pixels: Frame) returns (action: OverlayAction)
      requires Valid() && WellFormed(pixels) && source.id < nextBitmapId
      modifies this`lastDetectedFrameNumber, this`recycled, checker`previousFrame, checker`previousBoxes
      ensures Valid()
      ensures lastDetectedFrameNumber == currentFrameNumber
      ensures isTargetAppVisible ==>
                action == ShowDetections(ShownBoxes(fullScreenModeEnabled, old(checker.previousBoxes), boxes), source) &&
                recycled == old(recycled)
      ensures isTargetAppVisible && fullScreenModeEnabled ==>
                checker.previousFrame == Some(pixels) && checker.previousBoxes == action.boxes
      ensures !(isTargetAppVisible && fullScreenModeEnabled) ==>
                checker.previousFrame == old(checker.previousFrame) && checker.previousBoxes == old(checker.previousBoxes)
      ensures !isTargetAppVisible ==>
                action == NoAction &&
                recycled == old(recycled) + (if Recyclable(source, inputBitmap, old(recycled)) then {source.id} else {})
    {
      if isTargetAppVisible {
        var boxesToShow := boxes;
        if fullScreenModeEnabled {
          boxesToShow := checker.OnDetectionSuccess(pixels, boxes);
        }
        action := ShowDetections(boxesToShow, source);
      } else {
        TryRecycleBitmap(source);
        action := NoAction;
      }
      lastDetectedFrameNumber := currentFrameNumber;
    }

    /** `onEmptyDetections`: follow `EmptyPolicy` on the frames since the last detection
        and, past the full-screen grace, the checker's verdict on this frame. Clearing in
        full-screen mode also clears the checker; the frame is offered for recycling in
        every case. */
    method OnEmptyDetections(frame: Bitmap, pixels: Frame) returns (action: OverlayAction)
      requires Valid() && WellFormed(pixels) && frame.id < nextBitmapId
      modifies this`lastDetectedFrameNumber, this`recycled, checker, checker.prevRowBuffer, checker.currRowBuffer
      ensures Valid()
      ensures var decision := EmptyPolicy(fullScreenModeEnabled, old(currentFrameNumber - lastDetectedFrameNumber),
                                          old(KeepOverlay(checker.previousFrame, checker.previousBoxes, pixels)));
              (action == ClearDetections <==> decision == ClearAll) && (action != ClearDetections ==> action == NoAction) &&
              (decision == Keep ==> lastDetectedFrameNumber == currentFrameNumber) &&
              (decision != Keep ==> lastDetectedFrameNumber == old(lastDetectedFrameNumber)) &&
              (decision == ClearAll && fullScreenModeEnabled ==> checker.previousFrame == None && checker.previousBoxes == []) &&
              (!(decision == ClearAll && fullScreenModeEnabled) ==>
                 checker.previousFrame == old(checker.previousFrame) && checker.previousBoxes == old(checker.previousBoxes))
      ensures recycled == old(recycled) + (if Recyclable(frame, inputBitmap, old(recycled)) then {frame.id} else {})
    {
      var framesSinceLastDetection := currentFrameNumber - lastDetectedFrameNumber;
      action := NoAction;
      if fullScreenModeEnabled {
        if framesSinceLastDetection < FullscreenEmptyFramesThreshold {
          TryRecycleBitmap(frame);
          return;
        }
        var keep := checker.ShouldKeepOverlay(pixels);
        if keep {
          lastDetectedFrameNumber := currentFrameNumber;
          TryRecycleBitmap(frame);
          return;
        }
        checker.Clear();
      } else {
        if framesSinceLastDetection < EmptyFramesThreshold {
          TryRecycleBitmap(frame);
          return;
        }
      }
      action := ClearDetections;
      TryRecycleBitmap(frame);
    }

    /** The detection coroutine of `processImage`: run the detector on the admitted
        frame and dispatch its outcome to the two callbacks; if detection throws, offer
        the frame for recycling. The in-flight flag is reset in every case. A throw is
        modelled as happening inside a ready detector, before either callback runs. */
    method RunDetection(frame: Bitmap, pixels: Frame, output: seq<real>, detectThrows: bool) returns (action: OverlayAction)
      requires Valid() && WellFormed(pixels) && frame.id < nextBitmapId
      requires detector != null && detector.isReady ==> |output| == detector.maxDetections * detector.numChannel
      modifies this`isProcessing, this`lastDetectedFrameNumber, this`recycled, detector,
               checker, checker.prevRowBuffer, checker.currRowBuffer
      ensures Valid() && !isProcessing
      ensures detector != null ==>
                unchanged(detector`isReady, detector`hasInterpreter, detector`confidenceThreshold,
                          detector`maxDetections, detector`numChannel, detector`tensorWidth, detector`tensorHeight)
      ensures detector == null || !detector.isReady ==>
                action == NoAction && lastDetectedFrameNumber == old(lastDetectedFrameNumber) && recycled == old(recycled)
      ensures detectThrows && detector != null && detector.isReady ==>
                action == NoAction && lastDetectedFrameNumber == old(lastDetectedFrameNumber) &&
                recycled == old(recycled) + (if Recyclable(frame, inputBitmap, old(recycled)) then {frame.id} else {})
      ensures !detectThrows && detector != null && detector.isReady && detector.Extraction(output) != [] ==>
                var found := detector.Extraction(output);
                lastDetectedFrameNumber == currentFrameNumber &&
                action == (if isTargetAppVisible
                           then ShowDetections(ShownBoxes(fullScreenModeEnabled, old(checker.previousBoxes), found), frame)
                           else NoAction) &&
                (isTargetAppVisible && fullScreenModeEnabled ==>
                   checker.previousFrame == Some(pixels) && checker.previousBoxes == action.boxes) &&
                (!(isTargetAppVisible && fullScreenModeEnabled) ==>
                   checker.previousFrame == old(checker.previousFrame) && checker.previousBoxes == old(checker.previousBoxes)) &&
                recycled == old(recycled) +
                  (if !isTargetAppVisible && Recyclable(frame, inputBitmap, old(recycled)) then {frame.id} else {})
      ensures !detectThrows && detector != null && detector.isReady && detector.Extraction(output) == [] ==>
                var decision := EmptyPolicy(fullScreenModeEnabled, old(currentFrameNumber - lastDetectedFrameNumber),
                                            old(KeepOverlay(checker.previousFrame, checker.previousBoxes, pixels)));
                (action == ClearDetections <==> decision == ClearAll) && (action != ClearDetections ==> action == NoAction) &&
                (decision == Keep ==> lastDetectedFrameNumber == currentFrameNumber) &&
                (decision != Keep ==> lastDetectedFrameNumber == old(lastDetectedFrameNumber)) &&
                (decision == ClearAll && fullScreenModeEnabled ==> checker.previousFrame == None && checker.previousBoxes == []) &&
                (!(decision == ClearAll && fullScreenModeEnabled) ==>
                   checker.previousFrame == old(checker.previousFrame) && checker.previousBoxes == old(checker.previousBoxes)) &&
                recycled == old(recycled) + (if Recyclable(frame, inputBitmap, old(recycled)) then {frame.id} else {})
    {
      action := NoAction;
      if detector != null && detector.isReady {
        if detectThrows {
          TryRecycleBitmap(frame);
        } else {
          var outcome := detector.Detect(output);
          match outcome {
            case Skipped =>
            case EmptyDetections =>
              action := OnEmptyDetections(frame, pixels);
            case BoxesDetected(boxes) =>
              action := OnBoxesDetected(boxes, frame, pixels);
          }
        }
      }
      isProcessing := false;
    }

    /** `setupDetector`: release the current detector, then build one for the chosen
        model (`load` is the outcome of loading `ModelPath(useBigModel)`); a failed
        setup leaves no detector. */
    method SetupDetector(useBigModel: bool, threshold: real, load: ModelLoad) returns (ok: bool)
      requires Valid()
      requires load.Loaded? ==> 6 <= load.numChannel
      modifies this`detector, detector
      ensures Valid()
      ensures old(detector) != null ==> !old(detector).isReady && !old(detector).hasInterpreter
      ensures ok == load.Loaded?
      ensures ok ==> detector != null && fresh(detector) && detector.isReady &&
                     detector.confidenceThreshold == threshold &&
                     detector.tensorWidth == load.tensorWidth && detector.tensorHeight == load.tensorHeight
      ensures ok ==> detector.modelPath == ModelPath(useBigModel)
      ensures !ok ==> detector == null
    {
      if detector != null {
        detector.Clear();
      }
      var built := new Detector(ModelPath(useBigModel));
      ok := built.Setup(threshold, load);
      detector := if ok then built else null;
    }

    /** `updateVirtualDisplayConfig`: nothing happens without a detector or a display,
        or when neither the size nor the rotation changed (unless forced). Otherwise the
        new configuration is recorded, and when a projection is running the display is
        reconfigured and the overlay cleared. */
    method UpdateVirtualDisplayConfig(force: bool, display: Option<DisplayInfo>, projectionActive: bool)
      returns (action: OverlayAction)
      requires Valid()
      modifies this`screenDensity, this`screenWidth, this`screenHeight, this`currentRotation
      ensures Valid()
      ensures (detector == null || display.None? ||
               !ConfigChanged(force, old(screenWidth), old(screenHeight), old(currentRotation),
                              TargetWidth(detector.tensorWidth),
                              TargetHeight(detector.tensorHeight, display.value.boundsWidth, display.value.boundsHeight),
                              display.value.rotation)) ==>
                action == NoAction && screenDensity == old(screenDensity) && screenWidth == old(screenWidth) &&
                screenHeight == old(screenHeight) && currentRotation == old(currentRotation)
      ensures detector != null && display.Some? &&
              ConfigChanged(force, old(screenWidth), old(screenHeight), old(currentRotation),
                            TargetWidth(detector.tensorWidth),
                            TargetHeight(detector.tensorHeight, display.value.boundsWidth, display.value.boundsHeight),
                            display.value.rotation) ==>
                screenWidth == TargetWidth(detector.tensorWidth) &&
                screenHeight == TargetHeight(detector.tensorHeight, display.value.boundsWidth, display.value.boundsHeight) &&
                currentRotation == display.value.rotation && screenDensity == display.value.densityDpi &&
                action == (if projectionActive then ClearDetections else NoAction)
      ensures detector != null && display.Some? ==>
                !ConfigChanged(false, screenWidth, screenHeight, currentRotation,
                               TargetWidth(detector.tensorWidth),
                               TargetHeight(detector.tensorHeight, display.value.boundsWidth, display.value.boundsHeight),
                               display.value.rotation)
    {
      action := NoAction;
      if detector == null || display.None? {
        return;
      }
      var d := display.value;
      var newWidth := TargetWidth(detector.tensorWidth);
      var newHeight := TargetHeight(detector.tensorHeight, d.boundsWidth, d.boundsHeight);
      var changed := force || newWidth != screenWidth || newHeight != screenHeight || d.rotation != currentRotation;
      if !changed {
        return;
      }
      screenDensity := d.densityDpi;
      screenWidth := newWidth;
      screenHeight := newHeight;
      currentRotation := d.rotation;
      if projectionActive {
        action := ClearDetections;
      }
    }

    /** `rebuildDetector` (the performance-mode handler): set the detector up again with
        the current threshold and, when that succeeds, re-check the display
        configuration. */
    method RebuildDetector(usePowerModel: bool, load: ModelLoad, display: Option<DisplayInfo>, projectionActive: bool)
      returns (action: OverlayAction)
      requires Valid()
      requires load.Loaded? ==> 6 <= load.numChannel
      modifies this`detector, detector, this`screenDensity, this`screenWidth, this`screenHeight, this`currentRotation
      ensures Valid()
      ensures old(detector) != null ==> !old(detector).isReady && !old(detector).hasInterpreter
      ensures load.LoadFailed? ==>
                detector == null && action == NoAction && screenDensity == old(screenDensity) &&
                screenWidth == old(screenWidth) && screenHeight == old(screenHeight) &&
                currentRotation == old(currentRotation)
      ensures load.Loaded? ==>
                detector != null && fresh(detector) && detector.isReady &&
                detector.modelPath == ModelPath(usePowerModel) &&
                detector.confidenceThreshold == confidenceThreshold &&
                detector.tensorWidth == load.tensorWidth && detector.tensorHeight == load.tensorHeight
      ensures load.Loaded? &&
              (display.None? ||
               !ConfigChanged(false, old(screenWidth), old(screenHeight), old(currentRotation),
                              TargetWidth(load.tensorWidth),
                              TargetHeight(load.tensorHeight, display.value.boundsWidth, display.value.boundsHeight),
                              display.value.rotation)) ==>
                action == NoAction && screenDensity == old(screenDensity) && screenWidth == old(screenWidth) &&
                screenHeight == old(screenHeight) && currentRotation == old(currentRotation)
      ensures load.Loaded? && display.Some? &&
              ConfigChanged(false, old(screenWidth), old(screenHeight), old(currentRotation),
                            TargetWidth(load.tensorWidth),
                            TargetHeight(load.tensorHeight, display.value.boundsWidth, display.value.boundsHeight),
                            display.value.rotation) ==>
                screenWidth == TargetWidth(load.tensorWidth) &&
                screenHeight == TargetHeight(load.tensorHeight, display.value.boundsWidth, display.value.boundsHeight) &&
                currentRotation == display.value.rotation && screenDensity == display.value.densityDpi &&
                action == (if projectionActive then ClearDetections else NoAction)
    {
      var rebuilt := SetupDetector(usePowerModel, confidenceThreshold, load);
      action := NoAction;
      if rebuilt {
        action := UpdateVirtualDisplayConfig(false, display, projectionActive);
      }
    }

    /** The confidence flow handler: store the clamped fraction and pass it to the
        detector if there is one. */
    method OnConfidencePercentChanged(value: real)
      requires Valid()
      modifies this`confidenceThreshold, detector
      ensures Valid()
      ensures confidenceThreshold == ThresholdFor(value)
      ensures detector != null ==> detector.confidenceThreshold == ThresholdFor(value)
    {
      var threshold := ThresholdFor(value);
      confidenceThreshold := threshold;
      if detector != null {
        detector.UpdateThreshold(threshold);
      }
    }

    /** The full-screen flow handler: turning the mode off forgets the checker's frame
        and history. */
    method OnFullScreenModeChanged(enabled: bool)
      requires Valid()
      modifies this`fullScreenModeEnabled, checker
      ensures Valid()
      ensures fullScreenModeEnabled == enabled
      ensures !enabled ==> checker.previousFrame == None && checker.previousBoxes == []
      ensures enabled ==> checker.previousFrame == old(checker.previousFrame) && checker.previousBoxes == old(checker.previousBoxes)
    {
      fullScreenModeEnabled := enabled;
      if !enabled {
        checker.Clear();
      }
    }

    /** The opacity flow handler: remember the value and pass it to the overlay registry. */
    method OnOverlayOpacityChanged(value: real, manager: Manager.OverlayManager)
      requires Valid() && manager.Valid()
      modifies this`overlayOpacity, manager`pendingOpacity, manager.Views()`opacity
      ensures Valid() && manager.Valid()
      ensures overlayOpacity == value && manager.pendingOpacity == Clamp(value, 0.0, 100.0)
      ensures manager.overlayView.Some? ==> manager.overlayView.value.opacity == Overlay.OpacityFor(value)
    {
      overlayOpacity := value;
      manager.SetOpacity(value);
    }

    /** The pixelation flow handler: pass the level to the overlay registry. */
    method OnPixelationLevelChanged(level: Int32, manager: Manager.OverlayManager)
      requires Valid() && manager.Valid()
      modifies manager`pixelationLevel, manager.Views()`downsampleFactor, manager.Views()`bitmapPool,
               manager.Views()`recycled,
               if manager.overlayView.Some? then {manager.overlayView.value.cachedRegions} else {}
      ensures Valid() && manager.Valid()
      ensures manager.pixelationLevel == level
      ensures manager.overlayView.Some? ==>
                var view := manager.overlayView.value;
                view.downsampleFactor == ClampInt(level, Overlay.MinDownsampleFactor, Overlay.MaxDownsampleFactor) &&
                view.cachedRegions.items == [] && view.currentRegions.items == [] &&
                view.Pool() == Overlay.ReturnAll(old(view.Pool()), Overlay.Bitmaps(old(view.cachedRegions.items))) &&
                (Overlay.Owned(old(view.Pool()), old(view.cachedRegions.items), view.nextBitmapId) ==>
                   Overlay.Owned(view.Pool(), [], view.nextBitmapId))
    {
      manager.SetPixelationLevel(level);
    }

    /** The clear intent: clear the overlay and forget the checker's frame and history. */
    method OnClearAction() returns (action: OverlayAction)
      requires Valid()
      modifies checker
      ensures Valid()
      ensures action == ClearDetections
      ensures checker.previousFrame == None && checker.previousBoxes == []
    {
      checker.Clear();
      action := ClearDetections;
    }

    /** Run a posted action on the main thread: show the boxes, or clear the overlay. */
    method Deliver(action: OverlayAction, manager: Manager.OverlayManager)
      requires Valid() && manager.Valid()
      requires action.ShowDetections? ==> action.source.id < nextBitmapId
      modifies this`recycled,
               manager.Views()`currentRegions, manager.Views()`cachedRegions, manager.Views()`tempNewRegions,
               manager.Views()`bitmapPool, manager.Views()`recycled, manager.Views()`nextBitmapId,
               if manager.overlayView.Some?
               then {manager.overlayView.value.tempNewRegions, manager.overlayView.value.tempReusedFromCache,
                     manager.overlayView.value.cachedRegions}
               else {}
      ensures Valid() && manager.Valid()
      ensures !action.ShowDetections? ==> recycled == old(recycled)
      ensures action.ShowDetections? ==>
                recycled == old(recycled) + (if Recyclable(action.source, inputBitmap, old(recycled)) then {action.source.id} else {})
      ensures action.NoAction? && manager.overlayView.Some? ==>
                var view := manager.overlayView.value;
                view.Pool() == old(view.Pool()) && view.nextBitmapId == old(view.nextBitmapId) &&
                view.currentRegions == old(view.currentRegions) && view.cachedRegions == old(view.cachedRegions) &&
                view.cachedRegions.items == old(view.cachedRegions.items)
      ensures action.ShowDetections? && manager.overlayView.Some? ==>
                var view := manager.overlayView.value;
                view.currentRegions == view.cachedRegions &&
                Overlay.Progress(view.cachedRegions.items, view.Pool(), view.nextBitmapId) ==
                  Overlay.Updated(old(view.Pool()), old(view.nextBitmapId), old(view.cachedRegions.items), action.boxes,
                                  Overlay.GeometryFor(action.source.width, action.source.height, view.downsampleFactor),
                                  view.viewWidth, view.viewHeight)
      ensures action.ClearDetections? && manager.overlayView.Some? ==>
                var view := manager.overlayView.value;
                view.currentRegions.items == [] && view.cachedRegions.items == [] &&
                view.nextBitmapId == old(view.nextBitmapId) &&
                (old(view.currentRegions.items) == [] ==> view.Pool() == old(view.Pool())) &&
                (old(view.currentRegions.items) != [] ==>
                   view.Pool() == Overlay.ReturnAll(Overlay.ReturnAll(old(view.Pool()), Overlay.Bitmaps(old(view.cachedRegions.items))),
                                                    Overlay.Bitmaps(old(view.cachedRegions.items))))
    {
      match action {
        case NoAction =>
        case ShowDetections(boxes, source) =>
          ShowOnOverlay(boxes, source, manager);
        case ClearDetections =>
          manager.ClearDetections();
      }
    }

    /** The body `updateDetections` posts: hand the boxes to the overlay registry, then
        offer the source bitmap for recycling. */
    method ShowOnOverlay(boxes: seq<DetectionBox>, source: Bitmap, manager: Manager.OverlayManager)
      requires Valid() && manager.Valid() && source.id < nextBitmapId
      modifies this`recycled,
               manager.Views()`currentRegions, manager.Views()`cachedRegions, manager.Views()`tempNewRegions,
               manager.Views()`bitmapPool, manager.Views()`recycled, manager.Views()`nextBitmapId,
               if manager.overlayView.Some?
               then {manager.overlayView.value.tempNewRegions, manager.overlayView.value.tempReusedFromCache}
               else {}
      ensures Valid() && manager.Valid()
      ensures recycled == old(recycled) + (if Recyclable(source, inputBitmap, old(recycled)) then {source.id} else {})
      ensures manager.overlayView.Some? ==>
                var view := manager.overlayView.value;
                view.currentRegions == view.cachedRegions &&
                Overlay.Progress(view.cachedRegions.items, view.Pool(), view.nextBitmapId) ==
                  Overlay.Updated(old(view.Pool()), old(view.nextBitmapId), old(view.cachedRegions.items), boxes,
                                  Overlay.GeometryFor(source.width, source.height, view.downsampleFactor),
                                  view.viewWidth, view.viewHeight) &&
                (Overlay.Owned(old(view.Pool()), old(view.cachedRegions.items), old(view.nextBitmapId)) ==>
                   Overlay.Owned(view.Pool(), view.cachedRegions.items, view.nextBitmapId))
    {
      manager.UpdateDetections(boxes, source);
      TryRecycleBitmap(source);
    }
  }
}
