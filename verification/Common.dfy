/** Small shared vocabulary: optional values, and Go's 64-bit integers. */
module Common {

  datatype Option<+T> = None | Some(value: T)

  const INT64_MIN := -0x8000_0000_0000_0000
  const INT64_MAX := 0x7FFF_FFFF_FFFF_FFFF

  predicate IsInt64(i: int) {
    INT64_MIN <= i <= INT64_MAX
  }

  /** A byte of a Go slice. */
  type byte = b: int | 0 <= b < 0x100

  /** Two's complement: the unsigned 64-bit reading of a signed value, and back. */
  function ToUint64(i: int): (u: nat)
    requires IsInt64(i)
    ensures u < 0x1_0000_0000_0000_0000
  {
    if i < 0 then i + 0x1_0000_0000_0000_0000 else i
  }

  function FromUint64(u: nat): (i: int)
    requires u < 0x1_0000_0000_0000_0000
    ensures IsInt64(i) && ToUint64(i) == u
  {
    if u > INT64_MAX then u - 0x1_0000_0000_0000_0000 else u
  }

  /** Reduces an unbounded result to the int64 that Go's wrapping arithmetic leaves. */
  function WrapInt64(i: int): (w: int)
    ensures IsInt64(w)
    ensures IsInt64(i) ==> w == i
  {
    FromUint64(i % 0x1_0000_0000_0000_0000)
  }
}
