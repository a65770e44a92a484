/** Small shared vocabulary: an optional value (a Go pointer that may be nil,
    or a lookup that may fail) and the fixed-width integer types of the source. */
module Wrappers {

  datatype Option<+T> = None | Some(value: T) {
    function GetOr(default: T): T {
      match this
      case Some(v) => v
      case None => default
    }
  }

  /** Go's `byte`. */
  type byte = x: int | 0 <= x < 0x100
  /** Go's `uint16`. */
  type uint16 = x: int | 0 <= x < 0x1_0000
  /** Go's `uint32`. */
  type uint32 = x: int | 0 <= x < 0x1_0000_0000

  /** Go's conversion `uint16(x)` of a (possibly negative) integer: keep the low
      sixteen bits of its two's-complement form. Dafny's `%` is Euclidean, so a
      negative `x` lands in range exactly as the Go conversion does. */
  function ToUint16(x: int): (r: uint16)
    ensures (r - x) % 0x1_0000 == 0
    ensures 0 <= x < 0x1_0000 ==> r == x
  {
    x % 0x1_0000
  }
}
