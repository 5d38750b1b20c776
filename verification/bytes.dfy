/** Little-endian integers read from bytes, as `u16::from_le_bytes`,
    `u32::from_le_bytes`, `i16::from_le_bytes` and `i32::from_le_bytes` do,
    and the two's-complement readings of unsigned values. */
module Bytes {
  const TWO_8: nat := 0x100
  const TWO_15: nat := 0x8000
  const TWO_16: nat := 0x1_0000
  const TWO_23: nat := 0x80_0000
  const TWO_24: nat := 0x100_0000
  const TWO_31: nat := 0x8000_0000
  const TWO_32: nat := 0x1_0000_0000

  /** The value of one byte. */
  function ByteVal(b: bv8): (r: nat)
    ensures r < TWO_8
  {
    b as nat
  }

  /** `u16::from_le_bytes([b0, b1])`. */
  function U16Le(b0: bv8, b1: bv8): (r: nat)
    ensures r < TWO_16
  {
    ByteVal(b0) + TWO_8 * ByteVal(b1)
  }

  /** `u32::from_le_bytes([b0, b1, b2, b3])`. */
  function U32Le(b0: bv8, b1: bv8, b2: bv8, b3: bv8): (r: nat)
    ensures r < TWO_32
  {
    U16Le(b0, b1) + TWO_16 * U16Le(b2, b3)
  }

  /** The two's-complement value of an unsigned `width`-bit number whose
      sign bit is `half`. */
  function Signed(u: nat, half: nat): (r: int)
    requires 0 < half && u < 2 * half
    ensures -(half as int) <= r < half
    ensures r >= 0 <==> u < half
  {
    if u >= half then u - 2 * half else u
  }

  /** `i16::from_le_bytes([b0, b1])`. */
  function I16Le(b0: bv8, b1: bv8): (r: int)
    ensures -(TWO_15 as int) <= r < TWO_15
  {
    Signed(U16Le(b0, b1), TWO_15)
  }

  /** The signed little-endian 24-bit value of three bytes. */
  function I24Le(b0: bv8, b1: bv8, b2: bv8): (r: int)
    ensures -(TWO_23 as int) <= r < TWO_23
  {
    Signed(U16Le(b0, b1) + TWO_16 * ByteVal(b2), TWO_23)
  }

  /** `i32::from_le_bytes([b0, b1, b2, b3])`. */
  function I32Le(b0: bv8, b1: bv8, b2: bv8, b3: bv8): (r: int)
    ensures -(TWO_31 as int) <= r < TWO_31
  {
    Signed(U32Le(b0, b1, b2, b3), TWO_31)
  }

  /** The low and high byte of a 16-bit two's-complement value
      (`i16::to_le_bytes`). */
  function I16Bytes(x: int): (r: (bv8, bv8))
    requires -(TWO_15 as int) <= x < TWO_15
  {
    var u := if x < 0 then x + TWO_16 else x;
    ((u % TWO_8) as bv8, (u / TWO_8) as bv8)
  }

  /** A number below 256 survives the trip through a byte. */
  lemma ByteOf(h: nat)
    requires h < 0x100
    ensures (h as bv8) as nat == h
  {
    assert h % 256 == h;
  }

  /** Writing a 16-bit value and reading it back gives the value. */
  lemma I16RoundTrip(x: int)
    requires -(TWO_15 as int) <= x < TWO_15
    ensures I16Le(I16Bytes(x).0, I16Bytes(x).1) == x
  {
    var u := if x < 0 then x + TWO_16 else x;
    ByteOf(u % TWO_8);
    ByteOf(u / TWO_8);
  }

  /** Byte `k` (0 the least significant) of a 32-bit word. */
  function ByteAt(x: bv32, k: nat): bv8
    requires k < 4
  {
    var w := if k == 0 then x else if k == 1 then x >> 8 else if k == 2 then x >> 16 else x >> 24;
    (w & 0xFF) as bv8
  }

  /** A 32-bit word read as an `i32`. */
  function I32Of(x: bv32): (r: int)
    ensures -(TWO_31 as int) <= r < TWO_31
  {
    I32Le(ByteAt(x, 0), ByteAt(x, 1), ByteAt(x, 2), ByteAt(x, 3))
  }
}
