/** The one-byte bit-mapped register used for the CPU status flags.
    Every operation is parameterised by a mask; in the CPU the masks are the
    eight flag constants below, each a single bit. */
module StatusRegister {

  /** Status flag masks, in their bit positions. */
  const C: bv8 := 0x01  // carry
  const Z: bv8 := 0x02  // zero
  const I: bv8 := 0x04  // interrupt disable
  const D: bv8 := 0x08  // decimal (unused on the NES)
  const B: bv8 := 0x10  // break
  const U: bv8 := 0x20  // unused
  const V: bv8 := 0x40  // overflow
  const N: bv8 := 0x80  // negative

  /** The flag masks in bit order. */
  const Flags: seq<bv8> := [C, Z, I, D, B, U, V, N]

  predicate IsSingleBit(m: bv8) {
    m != 0 && m & (m - 1) == 0
  }

  /** Every flag mask is exactly bit i of the byte, so the masks are distinct single bits. */
  lemma FlagsAreDistinctSingleBits()
    ensures |Flags| == 8
    ensures Flags == Bits
    ensures forall i :: 0 <= i < 8 ==> IsSingleBit(Flags[i])
    ensures forall i, j :: 0 <= i < j < 8 ==> Flags[i] & Flags[j] == 0
  {
  }

  /** 1 when some bit of the mask is set in the value, otherwise 0. */
  function Test(value: bv8, mask: bv8): (r: int)
    ensures r == 0 || r == 1
    ensures r == 1 <==> value & mask != 0
  {
    if value & mask == 0 then 0 else 1
  }

  lemma SameBitsSameTest(v: bv8, w: bv8, mask: bv8)
    requires v & mask == w & mask
    ensures Test(v, mask) == Test(w, mask)
  {
  }

  /** Sets every bit of the mask. */
  function Set(value: bv8, mask: bv8): (r: bv8)
    ensures r & mask == mask
    ensures r & !mask == value & !mask
  {
    value | mask
  }

  /** Clears every bit of the mask. */
  function Clear(value: bv8, mask: bv8): (r: bv8)
    ensures r & mask == 0
    ensures r & !mask == value & !mask
  {
    value & !mask
  }

  /** Sets or clears the bits of the mask according to `on`: the
      `if (...) Set<m>(); else Clear<m>();` pattern of the instruction bodies. */
  function SetIf(value: bv8, mask: bv8, on: bool): (r: bv8)
    ensures r & mask == (if on then mask else 0)
    ensures r & !mask == value & !mask
  {
    if on then Set(value, mask) else Clear(value, mask)
  }

  /** Inverts the bits of the mask. */
  function Toggle(value: bv8, mask: bv8): (r: bv8)
    ensures r & mask == !value & mask
    ensures r & !mask == value & !mask
  {
    value ^ mask
  }

  /** Bit i of a byte, for i in 0..7. */
  const Bits: seq<bv8> := [0x01, 0x02, 0x04, 0x08, 0x10, 0x20, 0x40, 0x80]

  /** The position of the first set bit of the mask at or above position i,
      8 if there is none. */
  function CountTrailingZerosFrom(mask: bv8, i: nat): (n: nat)
    requires i <= 8
    ensures i <= n <= 8
    ensures n < 8 ==> mask & Bits[n] != 0
    decreases 8 - i
  {
    if i == 8 then 8
    else if mask & Bits[i] != 0 then i
    else CountTrailingZerosFrom(mask, i + 1)
  }

  /** Every bit between the starting position and the one found is clear. */
  lemma {:induction false} NoSetBitBelowCount(mask: bv8, i: nat, j: nat)
    requires i <= 8 && i <= j < CountTrailingZerosFrom(mask, i)
    ensures mask & Bits[j] == 0
    decreases 8 - i
  {
    assert i < 8;
    assert mask & Bits[i] == 0;
    if j > i {
      assert CountTrailingZerosFrom(mask, i) == CountTrailingZerosFrom(mask, i + 1);
      NoSetBitBelowCount(mask, i + 1, j);
    }
  }

  /** The position of the lowest set bit of the mask (std::countr_zero), 8 when the mask is zero. */
  function CountTrailingZeros(mask: bv8): (n: nat)
    ensures n <= 8
    ensures n < 8 ==> mask & Bits[n] != 0
  {
    CountTrailingZerosFrom(mask, 0)
  }

  /** The bit found is the lowest one set, and none is found exactly for the zero mask. */
  lemma CountTrailingZerosIsLowest(mask: bv8)
    ensures forall j :: 0 <= j < CountTrailingZeros(mask) ==> mask & Bits[j] == 0
    ensures CountTrailingZeros(mask) == 8 <==> mask == 0
  {
    var n := CountTrailingZeros(mask);
    forall j | 0 <= j < n
      ensures mask & Bits[j] == 0
    {
      NoSetBitBelowCount(mask, 0, j);
    }
    if n == 8 {
      assert mask & 0x01 == 0 && mask & 0x02 == 0 && mask & 0x04 == 0 && mask & 0x08 == 0 by {
        assert Bits[0] == 0x01 && Bits[1] == 0x02 && Bits[2] == 0x04 && Bits[3] == 0x08;
      }
      assert mask & 0x10 == 0 && mask & 0x20 == 0 && mask & 0x40 == 0 && mask & 0x80 == 0 by {
        assert Bits[4] == 0x10 && Bits[5] == 0x20 && Bits[6] == 0x40 && Bits[7] == 0x80;
      }
    }
  }

  /** Writes `val` into the register at the position of the mask's lowest bit:
      the mask's bits are cleared and `val` shifted there is or-ed in. The shift
      is truncated to eight bits. */
  function Assign(value: bv8, mask: bv8, val: bv8): (r: bv8)
    ensures IsSingleBit(mask) && val <= 1 ==>
              Test(r, mask) == val as int && r & !mask == value & !mask
  {
    var shifted := val << CountTrailingZeros(mask);
    (value & !mask) | shifted
  }

  lemma {:induction false} SetIdempotent(value: bv8, mask: bv8)
    ensures Set(Set(value, mask), mask) == Set(value, mask)
    ensures Test(Set(value, mask), mask) == (if mask == 0 then 0 else 1)
  {
  }

  lemma {:induction false} ClearIdempotent(value: bv8, mask: bv8)
    ensures Clear(Clear(value, mask), mask) == Clear(value, mask)
    ensures Test(Clear(value, mask), mask) == 0
  {
  }

  lemma {:induction false} ToggleTwiceIsIdentity(value: bv8, mask: bv8)
    ensures Toggle(Toggle(value, mask), mask) == value
  {
  }

  /** With a value above 1 the shifted bits land outside the mask: assigning 2 to
      the carry flag sets the zero flag instead. */
  lemma AssignLeaksAboveMask()
    ensures Assign(0x00, C, 2) == Z
    ensures Test(Assign(0x00, C, 2), C) == 0
  {
    assert CountTrailingZeros(C) == 0;
  }
}
