/** The overlay registry (OverlayManager.kt): a process-wide holder of the optional
    accessibility overlay view, plus the opacity and pixelation settings that must be
    replayed onto a view registered later. The weak reference is an optional handle. */
module Manager {
  import opened Shared
  import opened Regions
  import opened Overlay

  /** Starting value of the pending opacity, in percent. */
  const DefaultPendingOpacity: real := 100.0
  /** Starting pixelation level. */
  const DefaultPixelationLevel: Int32 := 15

  /** The opacity a view ends up with does not change when the percentage is first
      clamped to [0, 100]: forwarding the clamped pending value is the same as
      forwarding the raw one. */
  lemma ClampedOpacityAgrees(p: real)
    ensures OpacityFor(Clamp(p, 0.0, 100.0)) == OpacityFor(p)
  {
  }

  class OverlayManager {
    var overlayView: Option<OverlayView>
    var pendingOpacity: real
    var pixelationLevel: Int32

    /** A registered view is in a consistent state, and the pending opacity is a percentage. */
    ghost predicate Valid()
      reads this, if overlayView.Some? then {overlayView.value, overlayView.value.currentRegions, overlayView.value.cachedRegions} else {}
    {
      0.0 <= pendingOpacity <= 100.0 &&
      (overlayView.Some? ==> overlayView.value.Valid())
    }

    constructor ()
      ensures Valid()
      ensures overlayView == None && pendingOpacity == DefaultPendingOpacity
      ensures pixelationLevel == DefaultPixelationLevel
    {
      overlayView := None;
      pendingOpacity := DefaultPendingOpacity;
      pixelationLevel := DefaultPixelationLevel;
    }

    /** The registered view, as a set of at most one object (for frames). */
    function Views(): set<OverlayView>
      reads this
    {
      if overlayView.Some? then {overlayView.value} else {}
    }

    /** `registerOverlayView`: hold the view, then replay the pending opacity and the
        pixelation level onto it, in that order. */
    method RegisterOverlayView(view: OverlayView)
      requires Valid() && view.Valid()
      modifies this`overlayView, view`opacity, view`downsampleFactor, view`bitmapPool, view`recycled, view.cachedRegions
      ensures Valid()
      ensures overlayView == Some(view)
      ensures view.opacity == OpacityFor(pendingOpacity)
      ensures view.downsampleFactor == ClampInt(pixelationLevel, MinDownsampleFactor, MaxDownsampleFactor)
      ensures view.Pool() == ReturnAll(old(view.Pool()), Bitmaps(old(view.cachedRegions.items)))
      ensures view.cachedRegions.items == [] && view.currentRegions.items == []
    {
      overlayView := Some(view);
      view.SetOpacity(pendingOpacity);
      view.SetPixelationLevel(pixelationLevel);
    }

    /** `unregisterOverlayView`: drop the handle; the settings are kept. */
    method UnregisterOverlayView()
      requires Valid()
      modifies this`overlayView
      ensures Valid() && overlayView == None
    {
      overlayView := None;
    }

    /** `onAccessibilityServiceDisconnected`: the same as unregistering. */
    method OnAccessibilityServiceDisconnected()
      requires Valid()
      modifies this`overlayView
      ensures Valid() && overlayView == None
    {
      overlayView := None;
    }

    /** `updateDetections`: forwarded to the registered view; with none, nothing changes
        (the frame below is empty then). */
    method UpdateDetections(boxes: seq<DetectionBox>, source: Bitmap)
      requires Valid()
      modifies Views()`currentRegions, Views()`cachedRegions, Views()`tempNewRegions, Views()`bitmapPool,
               Views()`recycled, Views()`nextBitmapId,
               if overlayView.Some? then {overlayView.value.tempNewRegions, overlayView.value.tempReusedFromCache} else {}
      ensures Valid()
      ensures overlayView.Some? ==>
                var view := overlayView.value;
                view.currentRegions == view.cachedRegions == old(view.tempNewRegions) &&
                view.tempNewRegions == old(view.cachedRegions) &&
                view.tempReusedFromCache.items == Hits(Claims(old(view.cachedRegions.items), boxes)) &&
                Progress(view.cachedRegions.items, view.Pool(), view.nextBitmapId) ==
                  Updated(old(view.Pool()), old(view.nextBitmapId), old(view.cachedRegions.items), boxes,
                          GeometryFor(source.width, source.height, view.downsampleFactor), view.viewWidth, view.viewHeight) &&
                (Owned(old(view.Pool()), old(view.cachedRegions.items), old(view.nextBitmapId)) ==>
                   Owned(view.Pool(), view.cachedRegions.items, view.nextBitmapId))
    {
      if overlayView.Some? {
        overlayView.value.UpdateDetections(boxes, source);
      }
    }

    /** `clearDetections`: forwarded to the registered view, whose `clear` offers each
        shown bitmap to the pool twice; with no view, nothing changes. */
    method ClearDetections()
      requires Valid()
      modifies Views()`currentRegions, Views()`bitmapPool, Views()`recycled,
               if overlayView.Some? then {overlayView.value.cachedRegions} else {}
      ensures Valid()
      ensures overlayView.Some? ==>
                var view := overlayView.value;
                view.currentRegions.items == [] && view.cachedRegions.items == [] &&
                (old(view.currentRegions.items) == [] ==> view.Pool() == old(view.Pool())) &&
                (old(view.currentRegions.items) != [] ==>
                   view.Pool() == ReturnAll(ReturnAll(old(view.Pool()), Bitmaps(old(view.cachedRegions.items))),
                                            Bitmaps(old(view.cachedRegions.items))))
    {
      if overlayView.Some? {
        overlayView.value.Clear();
      }
    }

    /** `setOpacity`: remember the clamped percentage whether or not a view is registered,
        and forward it to the view if there is one. */
    method SetOpacity(opacityPercent: real)
      requires Valid()
      modifies this`pendingOpacity, Views()`opacity
      ensures Valid()
      ensures pendingOpacity == Clamp(opacityPercent, 0.0, 100.0)
      ensures overlayView.Some? ==> overlayView.value.opacity == OpacityFor(opacityPercent)
    {
      pendingOpacity := Clamp(opacityPercent, 0.0, 100.0);
      if overlayView.Some? {
        overlayView.value.SetOpacity(pendingOpacity);
        ClampedOpacityAgrees(opacityPercent);
      }
    }

    /** `setPixelationLevel`: remember the level as given (the view clamps it) and forward
        it to the view if there is one, which offers its cached bitmaps to the pool and
        empties its lists. */
    method SetPixelationLevel(level: Int32)
      requires Valid()
      modifies this`pixelationLevel, Views()`downsampleFactor, Views()`bitmapPool, Views()`recycled,
               if overlayView.Some? then {overlayView.value.cachedRegions} else {}
      ensures Valid()
      ensures pixelationLevel == level
      ensures overlayView.Some? ==>
                var view := overlayView.value;
                view.downsampleFactor == ClampInt(level, MinDownsampleFactor, MaxDownsampleFactor) &&
                view.cachedRegions.items == [] && view.currentRegions.items == [] &&
                view.Pool() == ReturnAll(old(view.Pool()), Bitmaps(old(view.cachedRegions.items))) &&
                (Owned(old(view.Pool()), old(view.cachedRegions.items), view.nextBitmapId) ==>
                   Owned(view.Pool(), [], view.nextBitmapId))
    {
      pixelationLevel := level;
      if overlayView.Some? {
        overlayView.value.SetPixelationLevel(level);
      }
    }
  }
}
