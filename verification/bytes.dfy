/** Fixed-width unsigned integers as the wire format uses them, little-endian
    assembly of multi-byte values, and single-bit tests on a byte. */
module Bytes {

  type u8 = x: int | 0 <= x < 0x100
  type u16 = x: int | 0 <= x < 0x1_0000
  type u32 = x: int | 0 <= x < 0x1_0000_0000

  datatype Option<+T> = None | Some(value: T)

  function Min(a: int, b: int): int {
    if a <= b then a else b
  }

  /** The 16-bit value whose little-endian bytes are `lo`, `hi`. */
  function Le16(lo: u8, hi: u8): u16 {
    lo + 0x100 * hi
  }

  /** The 32-bit value whose little-endian bytes are `b0` .. `b3`. */
  function Le32(b0: u8, b1: u8, b2: u8, b3: u8): u32 {
    b0 + 0x100 * b1 + 0x1_0000 * b2 + 0x100_0000 * b3
  }

  /** The two little-endian bytes of `v` (Rust's `u16::to_le_bytes`). */
  function Le16Bytes(v: u16): (s: seq<u8>)
    ensures |s| == 2 && Le16(s[0], s[1]) == v
  {
    [v % 0x100, v / 0x100]
  }

  /** The four little-endian bytes of `v` (Rust's `u32::to_le_bytes`). */
  function Le32Bytes(v: u32): (s: seq<u8>)
    ensures |s| == 4 && Le32(s[0], s[1], s[2], s[3]) == v
  {
    var q1 := v / 0x100;
    var q2 := q1 / 0x100;
    assert v == v % 0x100 + 0x100 * q1 && q1 == q1 % 0x100 + 0x100 * q2;
    assert q2 == q2 % 0x100 + 0x100 * (q2 / 0x100);
    [v % 0x100, q1 % 0x100, q2 % 0x100, q2 / 0x100]
  }

  /** Little-endian assembly loses nothing: the bytes are recovered from the value. */
  lemma Le16Injective(lo: u8, hi: u8)
    ensures Le16Bytes(Le16(lo, hi)) == [lo, hi]
  {
  }

  lemma Le32Injective(b0: u8, b1: u8, b2: u8, b3: u8)
    ensures Le32Bytes(Le32(b0, b1, b2, b3)) == [b0, b1, b2, b3]
  {
    var v := Le32(b0, b1, b2, b3);
    var q1 := b1 + 0x100 * b2 + 0x1_0000 * b3;
    assert v / 0x100 == q1;
    assert q1 / 0x100 == b2 + 0x100 * b3;
    assert (b2 + 0x100 * b3) / 0x100 == b3;
  }

  /** `flags & mask != 0`, as Rust tests a flag bit of a byte. */
  predicate HasBits(flags: u8, mask: u8) {
    (flags as bv8) & (mask as bv8) != 0
  }
}
