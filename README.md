# Shade: verified model of the detection and overlay pipeline

Shade is an Android app that pixelates people on screen. A screen-capture service receives
frames from a virtual display and copies each into an input bitmap. A TensorFlow Lite detector
turns the frame into up to fifteen normalised boxes. An accessibility overlay then draws a
pixelated, pooled bitmap over every box. A frame-similarity checker keeps the overlay up in
full-screen mode while the scene around the last boxes has not changed.

This project models that pipeline in Dafny, one module per source file:

| module | file | form |
|---|---|---|
| `Shared` | (common types) | `DetectionBox`, `Bitmap` handles, Kotlin `coerceIn`/`toInt` |
| `Detection` | `detection/Detector.kt` | class `Detector`; the extraction loop as a method proved against `Scan` |
| `Similarity` | `detection/FrameSimilarityChecker.kt` | class `FrameSimilarityChecker`; the sampling loops over row arrays proved against `SampleRows` |
| `Regions` | `detection/PixelatedRegion.kt` | datatype `PixelatedRegion` with its `equals`/`hashCode` |
| `Overlay` | `detection/OverlayView.kt` | class `OverlayView` with a bitmap pool, region lists as shared `RegionList` objects |
| `Manager` | `service/OverlayManager.kt` | class `OverlayManager` holding an optional view |
| `Capture` | `service/ScreenCaptureService.kt` | class `ScreenCaptureService`: frame admission, bitmap reuse, the detector callbacks, display reconfiguration, settings handlers |

Main modelling choices:

- A `Bitmap` is a value handle: an id, a size and a mutability flag. Recycling is a set of ids held
  by the component that recycles (the view's pool, the service). Allocation takes the next id from
  a counter.
- `OverlayView`'s three region lists are `RegionList` objects. After `updateDetections`,
  `currentRegions` and `cachedRegions` are the same object, as in the source. So
  `setPixelationLevel` empties both, and `clear` hands each cached bitmap back to the pool twice
  (see "## Findings").
- The model does not run the network. `detect` takes the raw output tensor as a `seq<real>`.
  Model loading is a `ModelLoad` value: `LoadFailed` or the tensor shapes.
- A pixel is an `int` (ARGB). `shr`/`and` channel extraction is Euclidean `/` and `%`. These agree
  with Kotlin for every 32-bit value.
- Work posted to the main thread (`mainHandler.post`) becomes an `OverlayAction` value returned by
  the callback. `ScreenCaptureService.Deliver` carries it out on the `OverlayManager`.
- Android's `float` is modelled as `real`. `toInt` on a non-negative value is `Floor`.

Two points where the code's behaviour is easy to misread; the model follows the code:

- A reconfiguration of the virtual display stores the new width, height, rotation and density
  before it tries the resize (ScreenCaptureService.kt:347-350). So a failed resize still leaves the
  new values in place.
- In normal mode the overlay is cleared on the third empty frame after a detection
  (`framesSinceLastDetection < 3` waits, ScreenCaptureService.kt:479). In full-screen mode it is
  cleared on the fourth, unless the scene is unchanged.

## Model

| member | source | states |
|---|---|---|
| Detection.ScanIsTakeOfFilteredPrefix | app/src/main/java/com/mhss/app/shade/detection/Detector.kt:154-180 | the loop's result is: keep the leading run of candidates above the threshold, drop other classes and degenerate boxes, clamp, then take at most the room left |
| Detection.ConfidentIsMaximalPrefix | app/src/main/java/com/mhss/app/shade/detection/Detector.kt:161-162 | the scan stops at the first candidate whose confidence is at most the threshold; every earlier one is above it |
| Detection.FilteredAppend | app/src/main/java/com/mhss/app/shade/detection/Detector.kt:163-179 | class and shape filtering is applied candidate by candidate, so it distributes over concatenation |
| Detection.FilteredSources | app/src/main/java/com/mhss/app/shade/detection/Detector.kt:163-179 | every kept box lies in the unit square and is the clamp of a class-0, non-degenerate candidate |
| Detection.ScanProperties | app/src/main/java/com/mhss/app/shade/detection/Detector.kt:154-180 | at most `room` boxes, all in the unit square, each from a candidate in the confident prefix |
| Detection.ScanIgnoresTail | app/src/main/java/com/mhss/app/shade/detection/Detector.kt:161-162 | nothing after the first low-confidence candidate can change the result |
| Detection.Detector.constructor | app/src/main/java/com/mhss/app/shade/detection/Detector.kt:21-47 | a new detector remembers the model file it was built for, is not ready, has no interpreter and uses the default threshold 0.6 |
| Detection.Detector.Setup | app/src/main/java/com/mhss/app/shade/detection/Detector.kt:49-90 | readiness and the tensor shapes are set exactly when the model loads; the threshold is stored either way |
| Detection.Detector.Clear | app/src/main/java/com/mhss/app/shade/detection/Detector.kt:108-114 | the detector is no longer ready and holds no interpreter |
| Detection.Detector.UpdateThreshold | app/src/main/java/com/mhss/app/shade/detection/Detector.kt:135-137 | the new threshold is stored |
| Detection.Detector.ExtractBoxes | app/src/main/java/com/mhss/app/shade/detection/Detector.kt:145-183 | the box list equals the specification scan of the output tensor with room `MAX_DETECTIONS`; `null` exactly when it is empty |
| Detection.Detector.Detect | app/src/main/java/com/mhss/app/shade/detection/Detector.kt:116-133 | a detector that is not ready does nothing; otherwise an empty extraction reports empty detections and a non-empty one reports those boxes |
| Similarity.FastPathChannelBound | app/src/main/java/com/mhss/app/shade/detection/FrameSimilarityChecker.kt:119-121 | when the masked xor is zero, each channel differs by at most 15 |
| Similarity.IsSimilarToIffDistance | app/src/main/java/com/mhss/app/shade/detection/FrameSimilarityChecker.kt:116-133 | the fast path never changes the answer: two pixels are similar exactly when their channel distance is at most 75 |
| Similarity.ContainsPointIff | app/src/main/java/com/mhss/app/shade/detection/FrameSimilarityChecker.kt:101-114 | a sample point is inside exactly when some box, widened by the 0.03 margin, contains its normalised position |
| Similarity.Step | app/src/main/java/com/mhss/app/shade/detection/FrameSimilarityChecker.kt:52-53 | the sampling step is at least 1 |
| Similarity.DecideCases | app/src/main/java/com/mhss/app/shade/detection/FrameSimilarityChecker.kt:88-98 | the decision keeps the overlay exactly when coverage is at most 0.70, there are at least 129 outside samples and the match ratio is at least 0.6 |
| Similarity.DecideRule | app/src/main/java/com/mhss/app/shade/detection/FrameSimilarityChecker.kt:88-98 | the same decision in integer form: `10*inside <= 7*total`, `outside >= 129`, `5*matches >= 3*outside` |
| Similarity.NoHistoryNoKeep | app/src/main/java/com/mhss/app/shade/detection/FrameSimilarityChecker.kt:42-50 | with no previous frame, no previous boxes or a size change, the overlay is never kept |
| Similarity.MergeHistoryProperties | app/src/main/java/com/mhss/app/shade/detection/FrameSimilarityChecker.kt:25-27 | the history is the last `min(5, n)` boxes of previous followed by new; the new boxes are its suffix when there are at most five of them |
| Similarity.GetRowPixels | app/src/main/java/com/mhss/app/shade/detection/FrameSimilarityChecker.kt:70-71 | the row buffer holds exactly row `y` of the frame |
| Similarity.SampleBufferedRow | app/src/main/java/com/mhss/app/shade/detection/FrameSimilarityChecker.kt:73-82 | the inner loop's counters equal the specification `SampleRow` over the two buffered rows, and matches never exceed outside samples |
| Similarity.SampleFrames | app/src/main/java/com/mhss/app/shade/detection/FrameSimilarityChecker.kt:68-86 | the outer loop, with its early exit, computes the specification `SampleRows` from `stepY / 2` |
| Similarity.FrameSimilarityChecker.constructor | app/src/main/java/com/mhss/app/shade/detection/FrameSimilarityChecker.kt:17-21 | no previous frame, no boxes, no row buffers |
| Similarity.FrameSimilarityChecker.OnDetectionSuccess | app/src/main/java/com/mhss/app/shade/detection/FrameSimilarityChecker.kt:24-34 | the returned list is the merged history; it and the frame become the stored history |
| Similarity.FrameSimilarityChecker.Clear | app/src/main/java/com/mhss/app/shade/detection/FrameSimilarityChecker.kt:136-142 | the history and the row buffers are dropped |
| Similarity.FrameSimilarityChecker.ShouldKeepOverlay | app/src/main/java/com/mhss/app/shade/detection/FrameSimilarityChecker.kt:41-99 | the answer is the specification `KeepOverlay` of the stored history and the current frame; the history is unchanged |
| Regions.Equals | app/src/main/java/com/mhss/app/shade/detection/PixelatedRegion.kt:18-22 | a region equals another object exactly when that object is a region with the same source box |
| Regions.EqualsReflexive | app/src/main/java/com/mhss/app/shade/detection/PixelatedRegion.kt:19 | every region equals itself |
| Regions.EqualsIgnoresPayload | app/src/main/java/com/mhss/app/shade/detection/PixelatedRegion.kt:18-22 | equality depends only on the source box and is symmetric |
| Regions.EqualRegionsEqualHashes | app/src/main/java/com/mhss/app/shade/detection/PixelatedRegion.kt:24 | equal regions have equal hash codes |
| Regions.In | app/src/main/java/com/mhss/app/shade/detection/PixelatedRegion.kt:18-22 | Kotlin's `in` on a region list holds exactly when some element has the same source box |
| Overlay.NextPowerOf2Properties | app/src/main/java/com/mhss/app/shade/detection/OverlayView.kt:216-219 | at most 8 gives 8; up to 2^30 gives a power of two in `[n, 2n)`; above 2^30 the 32-bit shift overflows to a negative value |
| Overlay.NextPowerOf2AtLeastMin | app/src/main/java/com/mhss/app/shade/detection/OverlayView.kt:216-219 | for sizes up to 2^30 the result is a power of two of at least 8 |
| Overlay.AxisProperties | app/src/main/java/com/mhss/app/shade/detection/OverlayView.kt:141-156 | along one axis the span is non-empty and inside the source, and the content size lies in `[1, span]` and fits its power-of-two bitmap |
| Overlay.RegionGeometryProperties | app/src/main/java/com/mhss/app/shade/detection/OverlayView.kt:141-156 | a geometry exists exactly when the source has positive size; its rectangle is inside the source; content sizes are `max(1, span / factor)`; bitmap sizes are powers of two of at least 8 |
| Overlay.FirstIndexIsFirst | app/src/main/java/com/mhss/app/shade/detection/OverlayView.kt:98-100 | the search returns the first element satisfying the predicate, or reports that none does |
| Overlay.PoolTakeFits | app/src/main/java/com/mhss/app/shade/detection/OverlayView.kt:184-197 | a pool hit is an unrecycled, mutable bitmap of the exact size from the pool; a miss means none exists |
| Overlay.AfterTakeProperties | app/src/main/java/com/mhss/app/shade/detection/OverlayView.kt:184-197 | a hit removes exactly that one bitmap; a miss leaves the pool unchanged |
| Overlay.AfterReturnProperties | app/src/main/java/com/mhss/app/shade/detection/OverlayView.kt:199-207 | recycled or immutable bitmaps are ignored; otherwise the bitmap is appended, evicting and recycling the oldest when the pool holds 10 |
| Overlay.ReturnAllBounded | app/src/main/java/com/mhss/app/shade/detection/OverlayView.kt:199-207 | any sequence of returns keeps the pool at most 10 and never un-recycles |
| Overlay.ReturnAllAccounts | app/src/main/java/com/mhss/app/shade/detection/OverlayView.kt:199-207 | no bitmap is lost: each pooled or returned mutable bitmap is still pooled or has been recycled |
| Overlay.ReturnTwiceDuplicates | app/src/main/java/com/mhss/app/shade/detection/OverlayView.kt:61-71 | offering one live, mutable bitmap twice to any pool with room for both puts it in the pool twice: the pool does not deduplicate |
| Overlay.ReturnTwiceAccounts | app/src/main/java/com/mhss/app/shade/detection/OverlayView.kt:61-71 | even with the double return, every bitmap is still pooled or recycled |
| Overlay.ClearSharesBitmap | app/src/main/java/com/mhss/app/shade/detection/OverlayView.kt:61-71 | with one region shown, `clear` leaves its bitmap pooled twice, so the pool and the regions no longer hold each bitmap once; when no other pooled bitmap fits, the next two takes of that size both hand out that bitmap |
| Overlay.FirstUsable | app/src/main/java/com/mhss/app/shade/detection/OverlayView.kt:184-197 | a take hands out, and removes, the first usable bitmap in pool order |
| Overlay.ReturnOnceKeepsOwnership | app/src/main/java/com/mhss/app/shade/detection/OverlayView.kt:54-59 | offering each bitmap of the cache once to the pool keeps every bitmap held at most once |
| Overlay.ReturnAllFrom | app/src/main/java/com/mhss/app/shade/detection/OverlayView.kt:199-207 | returns never create bitmaps: the pool afterwards holds only what it held or was offered, with no more copies |
| Overlay.FindSound | app/src/main/java/com/mhss/app/shade/detection/OverlayView.kt:98-100 | a found region is cached, similar to the box and not yet claimed; no region qualifies when none is found |
| Overlay.FindIsFirst | app/src/main/java/com/mhss/app/shade/detection/OverlayView.kt:98-100 | the found region is the first qualifying one in cache order |
| Overlay.ClaimsSound | app/src/main/java/com/mhss/app/shade/detection/OverlayView.kt:94-105 | every reused region is cached and similar to the box that reuses it |
| Overlay.ClaimsMissOnlyWhenTaken | app/src/main/java/com/mhss/app/shade/detection/OverlayView.kt:98-112 | a box misses the cache only if each similar cached region was already claimed by an earlier box |
| Overlay.ClaimsDecision | app/src/main/java/com/mhss/app/shade/detection/OverlayView.kt:94-113 | each box's decision is the search over the cache given the claims of the boxes before it |
| Overlay.ClaimsDistinct | app/src/main/java/com/mhss/app/shade/detection/OverlayView.kt:98-105 | no cached region is claimed twice, and every claimed region comes from the cache |
| Overlay.RealizesLength | app/src/main/java/com/mhss/app/shade/detection/OverlayView.kt:102-112 | with a drawable source, one region per box; otherwise only the reused ones |
| Overlay.UnclaimedProperties | app/src/main/java/com/mhss/app/shade/detection/OverlayView.kt:115-120 | the regions returned to the pool are exactly the cached ones that no box reused |
| Overlay.OpacityFor | app/src/main/java/com/mhss/app/shade/detection/OverlayView.kt:47-52 | the alpha lies in `[0, 255]`, is 0 at or below 0 percent and 255 at or above 100 percent |
| Overlay.OpacityMonotone | app/src/main/java/com/mhss/app/shade/detection/OverlayView.kt:47-52 | a higher percentage never gives a lower alpha |
| Overlay.MissTakesShrink | app/src/main/java/com/mhss/app/shade/detection/OverlayView.kt:108-111 | cache misses only take bitmaps from the pool, at most one per box, and recycle nothing |
| Overlay.MadeRegionBitmap | app/src/main/java/com/mhss/app/shade/detection/OverlayView.kt:157-159 | a new region's bitmap is mutable and of the rounded size; it is a live pooled bitmap exactly when the pool has one of that size, and otherwise carries the next id |
| Overlay.DecideAgrees | app/src/main/java/com/mhss/app/shade/detection/OverlayView.kt:98-112 | one pass of the loop appends the reused region on a hit, one region for the box on a miss with a drawable source, nothing otherwise, and takes from the pool only on a miss |
| Overlay.RealizeAgrees | app/src/main/java/com/mhss/app/shade/detection/OverlayView.kt:94-113 | the loop realises the claim plan box by box, its pool is the pool after the misses' takes, and the bitmap counter never decreases |
| Overlay.UpdateOutcome | app/src/main/java/com/mhss/app/shade/detection/OverlayView.kt:85-130 | `updateDetections`' outcome realises the claim plan, its pool is the misses' takes followed by the unclaimed bitmaps offered back, and bitmaps held once before are held once after |
| Overlay.UpdateKeepsOwnership | app/src/main/java/com/mhss/app/shade/detection/OverlayView.kt:85-130 | if the pool and the cache held each of the view's bitmaps once, the pool and the new cache do afterwards, and every id stays below the counter |
| Overlay.RegionList.constructor | app/src/main/java/com/mhss/app/shade/detection/OverlayView.kt:24 | a new list is empty |
| Overlay.OverlayView.constructor | app/src/main/java/com/mhss/app/shade/detection/OverlayView.kt:23-45 | empty lists, default factor 15, opacity 255, empty pool |
| Overlay.OverlayView.OnSizeChanged | app/src/main/java/com/mhss/app/shade/detection/OverlayView.kt:91-92 | a layout pass sets the view size that the next `updateDetections` uses for the bounds of new regions; nothing else changes |
| Overlay.OverlayView.SetOpacity | app/src/main/java/com/mhss/app/shade/detection/OverlayView.kt:47-52 | the alpha becomes `OpacityFor` of the percentage |
| Overlay.OverlayView.ReturnBitmapToPool | app/src/main/java/com/mhss/app/shade/detection/OverlayView.kt:199-207 | the pool becomes `AfterReturn` of the old pool |
| Overlay.OverlayView.ReturnRegionBitmaps | app/src/main/java/com/mhss/app/shade/detection/OverlayView.kt:56 | each region's bitmap is returned in list order |
| Overlay.OverlayView.GetBitmapFromPool | app/src/main/java/com/mhss/app/shade/detection/OverlayView.kt:184-197 | the result is the first fitting bitmap, removed from the pool, or none with the pool unchanged |
| Overlay.OverlayView.CreatePixelatedRegion | app/src/main/java/com/mhss/app/shade/detection/OverlayView.kt:132-182 | no region for an empty source; otherwise a region with the computed content size, the view bounds of the box, and a pooled or new bitmap of the power-of-two size |
| Overlay.OverlayView.SetPixelationLevel | app/src/main/java/com/mhss/app/shade/detection/OverlayView.kt:54-59 | the factor is clamped to `[5, 30]`; cached bitmaps are offered to the pool once; both lists become empty; bitmaps held once stay held once |
| Overlay.OverlayView.Clear | app/src/main/java/com/mhss/app/shade/detection/OverlayView.kt:61-71 | an empty overlay is untouched; otherwise both lists are emptied and the cached bitmaps are returned twice |
| Overlay.OverlayView.ClearOnce | app/src/main/java/com/mhss/app/shade/detection/OverlayView.kt:61-71 | `clear` as intended: an empty overlay is untouched; otherwise both lists are emptied, each shown bitmap is offered once, and bitmaps held once stay held once |
| Overlay.OverlayView.ClaimOrCreate | app/src/main/java/com/mhss/app/shade/detection/OverlayView.kt:98-112 | one box: the hit is the first similar unclaimed cached region and is appended to both lists; on a miss with a drawable source the appended region is exactly the one `createPixelatedRegion` makes (view bounds, content size, pooled or next-id bitmap), with its pool take and counter step |
| Overlay.OverlayView.ClaimBox | app/src/main/java/com/mhss/app/shade/detection/OverlayView.kt:94-113 | one iteration keeps the loop invariant: the reused list is the hits of the claims on the first `k+1` boxes, and the new list, pool and counter are the specification loop over them |
| Overlay.OverlayView.ClaimRegions | app/src/main/java/com/mhss/app/shade/detection/OverlayView.kt:86-113 | after the loop, the reused list is the hits of `Claims` of all boxes, and the new list, pool and counter are the specification loop over the whole plan |
| Overlay.OverlayView.ReturnUnclaimed | app/src/main/java/com/mhss/app/shade/detection/OverlayView.kt:115-120 | the bitmaps of the unclaimed cached regions are returned in order |
| Overlay.OverlayView.UpdateDetections | app/src/main/java/com/mhss/app/shade/detection/OverlayView.kt:85-130 | the lists are swapped so current and cached are the new regions; cache, pool and counter are exactly `Updated` of the old ones (see `UpdateOutcome`); bitmaps held once stay held once |
| Overlay.OverlayView.BuildRegions | app/src/main/java/com/mhss/app/shade/detection/OverlayView.kt:86-120 | the two loops build the new list, pool and counter of `Updated` into the spare list before the swap, keeping each bitmap held once |
| Overlay.OverlayView.ShowNewRegions | app/src/main/java/com/mhss/app/shade/detection/OverlayView.kt:122-127 | the new list becomes both current and cached, and the old cached list becomes the scratch list |
| Overlay.OverlayView.OnDetachedFromWindow | app/src/main/java/com/mhss/app/shade/detection/OverlayView.kt:209-214 | the lists and pool are emptied; every pooled or cached mutable bitmap ends up recycled |
| Overlay.OverlayView.RecyclePool | app/src/main/java/com/mhss/app/shade/detection/OverlayView.kt:212-213 | every pooled bitmap is recycled and the pool is emptied |
| Manager.ClampedOpacityAgrees | app/src/main/java/com/mhss/app/shade/service/OverlayManager.kt:40-43 | clamping the percentage before forwarding gives the view the same alpha |
| Manager.OverlayManager.constructor | app/src/main/java/com/mhss/app/shade/service/OverlayManager.kt:10-16 | no view, pending opacity 100, pixelation level 15 |
| Manager.OverlayManager.RegisterOverlayView | app/src/main/java/com/mhss/app/shade/service/OverlayManager.kt:18-22 | the view is held and receives the pending opacity and the clamped pixelation level |
| Manager.OverlayManager.UnregisterOverlayView | app/src/main/java/com/mhss/app/shade/service/OverlayManager.kt:24-26 | the view is dropped |
| Manager.OverlayManager.OnAccessibilityServiceDisconnected | app/src/main/java/com/mhss/app/shade/service/OverlayManager.kt:28-30 | the view is dropped |
| Manager.OverlayManager.UpdateDetections | app/src/main/java/com/mhss/app/shade/service/OverlayManager.kt:32-34 | a held view ends with the swapped lists, and cache, pool and counter equal to `Updated` of its old ones; only the view's list, pool and counter fields change |
| Manager.OverlayManager.ClearDetections | app/src/main/java/com/mhss/app/shade/service/OverlayManager.kt:36-38 | a held view ends with no regions; its pool is unchanged when nothing was shown and otherwise has the cached bitmaps offered twice; its factor, opacity and counter are untouched |
| Manager.OverlayManager.SetOpacity | app/src/main/java/com/mhss/app/shade/service/OverlayManager.kt:40-43 | the clamped percentage is remembered, and a held view gets its alpha; only the view's opacity changes |
| Manager.OverlayManager.SetPixelationLevel | app/src/main/java/com/mhss/app/shade/service/OverlayManager.kt:45-48 | the raw level is remembered; a held view gets the clamped factor, empty lists and its cached bitmaps offered once to the pool; its opacity and counter are untouched |
| Capture.ThresholdForProperties | app/src/main/java/com/mhss/app/shade/service/ScreenCaptureService.kt:133-138 | the threshold lies in `[0, 1]`, equals percent/100 inside `[0, 100]` and saturates outside |
| Capture.ThresholdForMonotone | app/src/main/java/com/mhss/app/shade/service/ScreenCaptureService.kt:133-138 | a higher percentage never lowers the threshold |
| Capture.EmptyPolicyCases | app/src/main/java/com/mhss/app/shade/service/ScreenCaptureService.kt:461-487 | normal mode waits below 3 frames and never keeps; full-screen mode waits below 4 and keeps exactly when the scene is similar |
| Capture.NormalModeClearsOnThirdFrame | app/src/main/java/com/mhss/app/shade/service/ScreenCaptureService.kt:478-485 | after a detection, the third consecutive empty frame clears the overlay in normal mode |
| Capture.NormalModeWaitsTwoFrames | app/src/main/java/com/mhss/app/shade/service/ScreenCaptureService.kt:479-481 | two empty frames are not enough to clear in normal mode |
| Capture.FullScreenClearsOnFourthFrame | app/src/main/java/com/mhss/app/shade/service/ScreenCaptureService.kt:464-485 | in full-screen mode the fourth empty frame clears when the scene has changed |
| Capture.UnchangedSceneNeverClears | app/src/main/java/com/mhss/app/shade/service/ScreenCaptureService.kt:470-475 | in full-screen mode a scene that stays similar is never cleared |
| Capture.InputNeverRecyclable | app/src/main/java/com/mhss/app/shade/service/ScreenCaptureService.kt:544-546 | the current input bitmap is never recycled by `tryRecycleBitmap` |
| Capture.RowBitmapWidthBounds | app/src/main/java/com/mhss/app/shade/service/ScreenCaptureService.kt:383-385 | the buffer width lies between the image width and the row stride |
| Capture.TargetHeightKeepsAspect | app/src/main/java/com/mhss/app/shade/service/ScreenCaptureService.kt:311-314 | the capture height is at least 1 and is the floor of tensor height times the display aspect ratio |
| Capture.TargetHeightIsQuotient | app/src/main/java/com/mhss/app/shade/service/ScreenCaptureService.kt:311-314 | the float computation agrees with the integer quotient `base * displayH / displayW` |
| Capture.Image.constructor | app/src/main/java/com/mhss/app/shade/service/ScreenCaptureService.kt:373-383 | an image records its size and strides and is open |
| Capture.ScreenCaptureService.constructor | app/src/main/java/com/mhss/app/shade/service/ScreenCaptureService.kt:54-86 | the service's initial fields: not processing, frame numbers 0, no detector, a 416x416 buffer bitmap |
| Capture.ScreenCaptureService.TryRecycleBitmap | app/src/main/java/com/mhss/app/shade/service/ScreenCaptureService.kt:544-546 | a bitmap is recycled exactly when it is not the input bitmap, not already recycled, and mutable |
| Capture.ScreenCaptureService.GetInputBitmap | app/src/main/java/com/mhss/app/shade/service/ScreenCaptureService.kt:528-542 | the input bitmap is reused exactly when it is usable at the requested size; otherwise the old one is recycled and a new one allocated |
| Capture.ScreenCaptureService.ProcessImage | app/src/main/java/com/mhss/app/shade/service/ScreenCaptureService.kt:373-419 | the image is always closed; a frame arriving while one is in flight changes nothing; an admitted frame increments the frame number, keeps the buffer bitmap when its size fits or else recycles it for a new one, and reuses or replaces the input bitmap, with the recycled ids and the bitmap counter stated in each case |
| Capture.ScreenCaptureService.OnBoxesDetected | app/src/main/java/com/mhss/app/shade/service/ScreenCaptureService.kt:445-460 | the frame counts as a detection; a visible target app shows the boxes, merged with the history in full-screen mode; otherwise the frame is recycled |
| Capture.ScreenCaptureService.OnEmptyDetections | app/src/main/java/com/mhss/app/shade/service/ScreenCaptureService.kt:461-487 | the overlay is cleared exactly when the empty-frame policy says so; a similar scene counts as a detection; a full-screen clear drops the history; the frame is recycled |
| Capture.ScreenCaptureService.RunDetection | app/src/main/java/com/mhss/app/shade/service/ScreenCaptureService.kt:400-414 | processing ends; a missing or not-ready detector does nothing; a throwing detector recycles the frame; otherwise the outcome dispatches to the matching callback, with its action, detection frame number, history and recycling |
| Capture.ScreenCaptureService.SetupDetector | app/src/main/java/com/mhss/app/shade/service/ScreenCaptureService.kt:434-502 | the old detector is cleared; success holds exactly when the model loads, and then a fresh, ready detector with the given threshold is installed, built for the large model file exactly when the big model was asked for; otherwise there is no detector |
| Capture.ScreenCaptureService.UpdateVirtualDisplayConfig | app/src/main/java/com/mhss/app/shade/service/ScreenCaptureService.kt:300-337 | nothing happens without a detector, a display or a change; otherwise the new size, rotation and density are stored, and an active projection also clears the overlay; afterwards the same display is no change, so a second unforced call does nothing |
| Capture.ScreenCaptureService.RebuildDetector | app/src/main/java/com/mhss/app/shade/service/ScreenCaptureService.kt:504-508 | the old detector is cleared; a failed rebuild leaves no detector and the display untouched; a successful one installs a fresh, ready detector for the model file the performance mode selects, with the tensor shape and threshold, keeps an unchanged configuration with no action, and otherwise stores the new one, clearing the overlay when projecting |
| Capture.ScreenCaptureService.OnConfidencePercentChanged | app/src/main/java/com/mhss/app/shade/service/ScreenCaptureService.kt:133-138 | the clamped threshold is stored in the service and in the detector |
| Capture.ScreenCaptureService.OnFullScreenModeChanged | app/src/main/java/com/mhss/app/shade/service/ScreenCaptureService.kt:157-162 | the flag is stored; turning it off drops the similarity history |
| Capture.ScreenCaptureService.OnOverlayOpacityChanged | app/src/main/java/com/mhss/app/shade/service/ScreenCaptureService.kt:147-155 | the raw value is stored and the overlay manager receives it; only the view's opacity changes |
| Capture.ScreenCaptureService.OnPixelationLevelChanged | app/src/main/java/com/mhss/app/shade/service/ScreenCaptureService.kt:164-171 | the overlay manager receives the level; a held view gets the clamped factor, empty lists and its cached bitmaps offered once to the pool |
| Capture.ScreenCaptureService.OnClearAction | app/src/main/java/com/mhss/app/shade/service/ScreenCaptureService.kt:186-189 | the overlay is cleared and the similarity history dropped |
| Capture.ScreenCaptureService.Deliver | app/src/main/java/com/mhss/app/shade/service/ScreenCaptureService.kt:521-526 | a posted show updates the overlay to `Updated` of its old state and then tries to recycle the source; a posted clear empties the overlay with the double return; no action changes nothing |
| Capture.ScreenCaptureService.ShowOnOverlay | app/src/main/java/com/mhss/app/shade/service/ScreenCaptureService.kt:521-526 | the overlay's cache, pool and counter become `Updated` of the old ones, keeping each bitmap held once, and the source bitmap is then offered for recycling |

## Left out

- TensorFlow Lite, the GPU delegate, `ImageProcessor` and the tensor buffers: inference is outside the model, and its output is a parameter.
- Pixel rendering (`draw`, `Canvas.drawBitmap`, `copyPixelsFromBuffer`, `Bitmap.copy`): only bitmap identities, sizes and recycling are modelled. The similarity checker receives the frame's pixels as a separate `Frame` value.
- MediaProjection, VirtualDisplay, ImageReader, display listeners, notifications, toasts and `stopCapture`: platform I/O. The display metrics and "is a projection running" are parameters of `UpdateVirtualDisplayConfig`.
- `onStartCommand`'s start-up sequence (preference reads and the first sizing of the capture): it calls the modelled handlers. Its own height formula at ScreenCaptureService.kt:175-177 is not modelled.
- Coroutines, `Flow` debouncing, `synchronized` and `AtomicBoolean`: every operation is modelled as one atomic step. `ProcessImage` admits the frame, and `RunDetection` is the background job that ends it.
- Capture.ScreenCaptureService.RunDetection: a throw is modelled only from inside a ready detector, before either callback runs. A throw part-way through a callback is not modelled.
- Detection.Detector.Setup: the early `return` when the interpreter reports no tensor shape (Detector.kt:68-69) is folded into `LoadFailed`. In the source that path leaves a not-ready detector installed and `setupDetector` returns true.
- Overlay.OverlayView.CreatePixelatedRegion: the `catch (_: Exception)` at OverlayView.kt:179-181 is not modelled, because drawing is not. It catches, for example, `drawBitmap` (:165) on a source bitmap that `getInputBitmap` recycled on a size change (ScreenCaptureService.kt:538) while an `updateDetections` post for it was pending (:521-525). On that path the box gets no region, and the bitmap taken from the pool at :159 is neither returned nor recycled. The model always makes the region.
- Capture.ScreenCaptureService.ProcessImage: requires a positive pixel stride with `pixelStride * width <= rowStride`, the layout of the fixed RGBA_8888 format the reader is created with. With `pixelStride == 0` the division at ScreenCaptureService.kt:385 throws, and a non-positive buffer width makes `createBitmap` throw at :392. Both would happen after `compareAndSet` (:375) and outside the coroutine whose `finally` (:411) clears the flag, so every later frame would be dropped.
- Detection.Detector.Setup: requires `6 <= numChannel` for a loaded model (also in `SetupDetector` and `RebuildDetector`). The detector is built for a six-channel output row (box, confidence, class); with fewer channels `extractBoxes` reads past `outputArray` (Detector.kt:160-161).
- `WeakReference` collection in `OverlayManager`: a registered view stays reachable until it is unregistered.
- `Float` rounding: floats are exact reals, and `toInt` saturation above 2^31 is not modelled. Int overflow is modelled only in `NextPowerOf2`.
- Bitmap ids are allocated per component (the view and the service each keep a counter). The model does not track that the two id spaces refer to one heap.
- `Similarity.HighBitsAgree`: the `xor`/`and 0x00F0F0F0` fast path is stated as equality of the upper nibble of each colour channel, which is the same bit test.

## Findings

| source | as written | input that shows it | evidently intended | confidence | as-written member | corrected member |
|---|---|---|---|---|---|---|
| app/src/main/java/com/mhss/app/shade/detection/OverlayView.kt:61-71 | after `updateDetections`, `currentRegions` and `cachedRegions` are one list, so `clear` offers each shown bitmap to the pool twice | one region shown with a live bitmap b and room for two in the pool: the pool ends with b twice, and two later regions of b's size both take b | each shown bitmap is offered once, so a bitmap is held by the pool or by one region, never twice | not executed | Overlay.OverlayView.Clear, Overlay.ClearSharesBitmap | Overlay.OverlayView.ClearOnce, Overlay.ReturnOnceKeepsOwnership |

`Manager.OverlayManager.ClearDetections` and `Capture.ScreenCaptureService.Deliver` call the
as-written `Clear`, because OverlayManager.kt:36-38 calls that `clear`. The corrected `ClearOnce`
stands beside it, with the ownership property proved.
