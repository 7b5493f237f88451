/** Fixed-width unsigned integers of the emulated machine, as bounded integers.
    C++ `uint8_t`/`uint16_t` arithmetic wraps; the wrap is written out here. */
module Bytes {

  type Byte = x: int | 0 <= x < 0x100
  type Word = x: int | 0 <= x < 0x1_0000

  /** Truncation to `uint8_t`. */
  function Wrap8(x: int): (r: Byte)
    ensures 0 <= x < 0x100 ==> r == x
    ensures 0x100 <= x < 0x200 ==> r == x - 0x100
  {
    x % 0x100
  }

  /** Truncation to `uint16_t`. */
  function Wrap16(x: int): (r: Word)
    ensures 0 <= x < 0x1_0000 ==> r == x
    ensures 0x1_0000 <= x < 0x2_0000 ==> r == x - 0x1_0000
  {
    x % 0x1_0000
  }

  /** `(hi << 8) | lo` on 16 bits: the little-endian word made of two bytes. */
  function MakeWord(lo: Byte, hi: Byte): (w: Word)
    ensures w % 0x100 == lo && w / 0x100 == hi
  {
    hi * 0x100 + lo
  }

  /** Bit 7 of a byte, or of a byte plus a carry (at most 0x100):
      `(x & 0x80) != 0` as 0 or 1. */
  function Bit7(x: nat): (b: nat)
    requires x <= 0x100
    ensures b == 0 || b == 1
  {
    if 0x80 <= x < 0x100 then 1 else 0
  }

  /** The sign bit of a byte is set iff the byte is at least 0x80. */
  predicate SignBit(b: Byte) {
    b >= 0x80
  }
}
