/** A pixelated overlay region (PixelatedRegion.kt): an immutable record of a pooled
    bitmap, its destination rectangle on screen, the detection box it was made from, and
    the size of the content actually drawn into the (possibly larger) bitmap. */
module Regions {
  import opened Shared

  /** `RectF`: a rectangle in view pixels. */
  datatype RectF = RectF(left: real, top: real, right: real, bottom: real)

  datatype PixelatedRegion = PixelatedRegion(
    bitmap: Bitmap,
    bounds: RectF,
    sourceBox: DetectionBox,
    contentWidth: int,
    contentHeight: int)

  /** The argument of `equals(other: Any?)`: a region, or anything else (including null). */
  datatype Other = AsRegion(region: PixelatedRegion) | NotARegion

  /** `PixelatedRegion.equals`: the identity shortcut, the type test, then equality of the
      source boxes only. The identity shortcut never changes the answer. */
  predicate Equals(self: PixelatedRegion, other: Other)
    ensures Equals(self, other) <==> other.AsRegion? && other.region.sourceBox == self.sourceBox
  {
    match other
    case NotARegion => false
    case AsRegion(o) => o == self || self.sourceBox == o.sourceBox
  }

  /** `PixelatedRegion.hashCode`, given the hash of a detection box (the box type's own
      value-based hash, which is not part of this model). */
  function HashCode(self: PixelatedRegion, boxHash: DetectionBox -> int): int
  {
    boxHash(self.sourceBox)
  }

  /** A region equals itself. */
  lemma EqualsReflexive(r: PixelatedRegion)
    ensures Equals(r, AsRegion(r))
  {
  }

  /** Equality of regions ignores the bitmap, the bounds and the content size, and is
      symmetric. */
  lemma EqualsIgnoresPayload(a: PixelatedRegion, b: PixelatedRegion)
    ensures Equals(a, AsRegion(b)) <==> a.sourceBox == b.sourceBox
    ensures Equals(a, AsRegion(b)) <==> Equals(b, AsRegion(a))
  {
  }

  /** Equal regions have equal hash codes, whatever the box hash. */
  lemma EqualRegionsEqualHashes(a: PixelatedRegion, b: PixelatedRegion, boxHash: DetectionBox -> int)
    requires Equals(a, AsRegion(b))
    ensures HashCode(a, boxHash) == HashCode(b, boxHash)
  {
  }

  /** `region in list`: some element of the list equals the region. */
  predicate In(r: PixelatedRegion, list: seq<PixelatedRegion>)
    ensures In(r, list) <==> exists i :: 0 <= i < |list| && list[i].sourceBox == r.sourceBox
  {
    if list == [] then false
    else Equals(r, AsRegion(list[0])) || In(r, list[1..])
  }
}
