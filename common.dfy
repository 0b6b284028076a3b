/** Values shared by the whole model: bytes, C# 32-bit integers, and the
    error outcomes of the frame pipeline. */
module Common {

  /** An unsigned 8-bit value, as C#'s `byte`. */
  newtype byte = x: int | 0 <= x < 256

  const INT32_MIN: int := -0x8000_0000
  const INT32_MAX: int := 0x7FFF_FFFF
  const UINT32_MAX: int := 0xFFFF_FFFF

  predicate IsInt32(x: int) { INT32_MIN <= x <= INT32_MAX }

  predicate IsUInt32(x: int) { 0 <= x <= UINT32_MAX }

  /** The value C# gives to an `int` expression whose exact value is `x`
      (unchecked arithmetic keeps the low 32 bits, read as two's complement). */
  function WrapInt32(x: int): (r: int)
    ensures IsInt32(r)
    ensures IsInt32(x) ==> r == x
  {
    (x + 0x8000_0000) % 0x1_0000_0000 - 0x8000_0000
  }

  /** The wrapped value differs from the exact one by a multiple of 2^32. */
  lemma WrapInt32Congruent(x: int)
    ensures (x - WrapInt32(x)) % 0x1_0000_0000 == 0
  {
    var m := (x + 0x8000_0000) % 0x1_0000_0000;
    assert x - (m - 0x8000_0000) == 0x1_0000_0000 * ((x + 0x8000_0000) / 0x1_0000_0000);
  }

  /** The C# cast `(int)u` of an unsigned 32-bit value. */
  function UIntToInt(u: int): (r: int)
    requires IsUInt32(u)
    ensures IsInt32(r)
    ensures u <= INT32_MAX ==> r == u
    ensures u > INT32_MAX ==> r < 0 && r == u - 0x1_0000_0000
  {
    WrapInt32(u)
  }

  /** Wrapping keeps divisibility by four, because 2^32 is a multiple of four. */
  lemma WrapKeepsMultipleOfFour(x: int)
    requires x % 4 == 0
    ensures WrapInt32(x) % 4 == 0
  {
  }

  /** The exceptions that end an operation of the bridge. */
  datatype Error =
    | SurfaceNotFound   // `Draw`: the view has no CPU-readable surface
    | ArrayOverflow     // `new byte[n]` with a negative `n`

  datatype Result<T> = Success(value: T) | Failure(error: Error)

  datatype Option<T> = None | Some(value: T)

  /** How a void C# method ended: it returned, or it threw. */
  datatype Outcome = Completed | Threw(error: Error)
}
