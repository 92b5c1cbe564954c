/** Types and small helpers shared by the detection pipeline: detection boxes,
    bitmap handles, Kotlin's `Int`, `coerceIn` and `toInt()`. */
module Shared {

  datatype Option<T> = None | Some(value: T)

  /** Kotlin's 32-bit `Int`. */
  type Int32 = x: int | -0x8000_0000 <= x < 0x8000_0000

  /** A detection rectangle in normalized coordinates; a value compared field by field. */
  datatype DetectionBox = DetectionBox(x1: real, y1: real, x2: real, y2: real)

  /** A bitmap as a handle: identity, allocated size and mutability. Whether it has been
      recycled is state owned by whoever recycles it (a set of recycled ids). */
  datatype Bitmap = Bitmap(id: nat, width: Int32, height: Int32, mutable: bool)

  /** `Float.coerceIn(lo, hi)`. */
  function Clamp(v: real, lo: real, hi: real): (r: real)
    requires lo <= hi
    ensures lo <= r <= hi
    ensures lo <= v <= hi ==> r == v
    ensures v < lo ==> r == lo
    ensures hi < v ==> r == hi
  {
    if v < lo then lo else if hi < v then hi else v
  }

  /** `Int.coerceIn(lo, hi)`, defined only when `lo <= hi` (Kotlin throws otherwise). */
  function ClampInt(v: int, lo: int, hi: int): (r: int)
    requires lo <= hi
    ensures lo <= r <= hi
    ensures lo <= v <= hi ==> r == v
  {
    if v < lo then lo else if hi < v then hi else v
  }

  function Max(a: int, b: int): int { if a < b then b else a }

  function Min(a: int, b: int): int { if a < b then a else b }

  function Abs(x: int): nat { if x < 0 then -x else x }

  function AbsReal(x: real): real { if x < 0.0 then -x else x }

  /** `Float.toInt()`: rounds toward zero. */
  function Trunc(v: real): (r: int)
    ensures 0.0 <= v ==> r == v.Floor
    ensures 0.0 <= v ==> 0 <= r
  {
    if 0.0 <= v then v.Floor else -((-v).Floor)
  }
}
