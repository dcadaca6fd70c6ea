/** Go's fixed-width unsigned integers and the narrowing conversions of `int`. */
module GoInts {

  newtype Uint8 = x: int | 0 <= x < 0x100
  newtype Uint16 = x: int | 0 <= x < 0x1_0000
  newtype Uint32 = x: int | 0 <= x < 0x1_0000_0000

  /** The range of Go's `int` on a 64-bit platform. */
  const MaxInt64: int := 0x7FFF_FFFF_FFFF_FFFF
  const MinInt64: int := -0x8000_0000_0000_0000

  /** `uint8(v)`: keeps the low 8 bits of the two's complement form of `v`,
      i.e. the value congruent to `v` modulo 2^8. */
  function ToUint8(v: int): (r: Uint8)
    ensures (r as int - v) % 0x100 == 0
    ensures 0 <= v < 0x100 ==> r as int == v
  {
    (v % 0x100) as Uint8
  }

  /** `uint16(v)`: the value congruent to `v` modulo 2^16. */
  function ToUint16(v: int): (r: Uint16)
    ensures (r as int - v) % 0x1_0000 == 0
    ensures 0 <= v < 0x1_0000 ==> r as int == v
  {
    (v % 0x1_0000) as Uint16
  }

  /** `uint32(v)`: the value congruent to `v` modulo 2^32. */
  function ToUint32(v: int): (r: Uint32)
    ensures (r as int - v) % 0x1_0000_0000 == 0
    ensures 0 <= v < 0x1_0000_0000 ==> r as int == v
  {
    (v % 0x1_0000_0000) as Uint32
  }

  /** Negative values wrap around: -1 becomes the largest value of each width. */
  lemma MinusOneWraps()
    ensures ToUint8(-1) == 0xFF && ToUint16(-1) == 0xFFFF && ToUint32(-1) == 0xFFFF_FFFF
  {
  }

  /** The conversion depends only on `v` modulo the width: adding 2^16 changes nothing. */
  lemma ToUint16Periodic(v: int)
    ensures ToUint16(v + 0x1_0000) == ToUint16(v)
  {
  }
}
