/** The fixed-width Go integer types that the model needs written out. */
module GoTypes {

  const TwoTo32: int := 0x1_0000_0000
  const TwoTo63: int := 0x8000_0000_0000_0000
  const TwoTo64: int := 0x1_0000_0000_0000_0000

  /** Go's `int` on a 64-bit platform. */
  newtype int64 = x: int | -0x8000_0000_0000_0000 <= x < 0x8000_0000_0000_0000

  /** The largest value of Go's 64-bit `int`. */
  const MaxInt: int := 0x7FFF_FFFF_FFFF_FFFF

  /** Go's `uint32`, the width of tile coordinates and zoom levels in the tile library. */
  newtype uint32 = x: int | 0 <= x < 0x1_0000_0000

  newtype byte = x: int | 0 <= x < 256

  /** Go's conversion `uint32(v)`: keeps the low 32 bits of the two's complement value. */
  function ToUint32(v: int): (r: uint32)
    ensures 0 <= v < TwoTo32 ==> r as int == v
    ensures (r as int - v) % TwoTo32 == 0
  {
    (v % TwoTo32) as uint32
  }
}
