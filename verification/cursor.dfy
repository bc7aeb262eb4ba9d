/** The forward-only reader over a configuration buffer (`UhkCursor`), and the
    failures every decode step can end in.

    Each read is specified by a function of the buffer and the position it
    starts at, returning the value read and the position after it. A failed
    read also reports the position it leaves behind: a primitive read that
    runs out of bytes is taken not to move, as `std::io::Cursor::read_exact`
    behaved in the standard library of the nightly toolchain the program is
    built with (it checked the length before copying; later versions move
    the position to the end of the data instead), while a composite read
    keeps what its earlier steps consumed. */
module Cursor {
  import opened Bytes
  import opened Utf8

  /** Why a decode stops. `UnexpectedEof` is the I/O error of a read past the
      end, `InvalidUtf8` the error of `String::from_utf8`, `UnknownModuleSlot`
      the error of `ModuleSlots::try_from`, and `Unimplemented` stands for the
      `unimplemented!()` panic on a tag the program does not decode. */
  datatype Failure =
    | UnexpectedEof
    | InvalidUtf8
    | UnknownModuleSlot(number: u8)
    | Unimplemented(id: u8)

  datatype Result<+T> = Ok(value: T) | Err(error: Failure) {
    predicate IsFailure() {
      Err?
    }

    function PropagateFailure<U>(): Result<U>
      requires Err?
    {
      Err(error)
    }

    function Extract(): T
      requires Ok?
    {
      value
    }
  }

  /** The outcome of decoding at some position: the value and the position
      after it, or the failure and the position the cursor is left at. */
  datatype Decoded<+T> = Done(value: T, next: nat) | Failed(error: Failure, next: nat) {
    predicate IsFailure() {
      Failed?
    }

    function PropagateFailure<U>(): Decoded<U>
      requires Failed?
    {
      Failed(error, next)
    }

    function Extract(): Decoded<T>
      requires Done?
    {
      this
    }

    /** What the Rust function returns. */
    function Result(): Result<T> {
      match this
      case Done(v, _) => Ok(v)
      case Failed(e, _) => Err(e)
    }
  }

  /** `e` occurs in `d` starting at position `p`. */
  predicate Placed(d: seq<u8>, p: nat, e: seq<u8>) {
    p + |e| <= |d| && d[p..p + |e|] == e
  }

  /** The two halves of a placed sequence are placed one after the other. */
  lemma PlacedSplit(d: seq<u8>, p: nat, x: seq<u8>, y: seq<u8>)
    requires Placed(d, p, x + y)
    ensures Placed(d, p, x) && Placed(d, p + |x|, y)
  {
    assert d[p..p + |x|] == (x + y)[..|x|];
    assert d[p + |x|..p + |x| + |y|] == (x + y)[|x|..];
  }

  function U8At(d: seq<u8>, p: nat): Decoded<u8> {
    if p < |d| then Done(d[p], p + 1) else Failed(UnexpectedEof, p)
  }

  function BoolAt(d: seq<u8>, p: nat): Decoded<bool> {
    var b :- U8At(d, p);
    Done(b.value != 0, b.next)
  }

  function U16At(d: seq<u8>, p: nat): Decoded<u16> {
    if p + 2 <= |d| then Done(Le16(d[p], d[p + 1]), p + 2) else Failed(UnexpectedEof, p)
  }

  function U32At(d: seq<u8>, p: nat): Decoded<u32> {
    if p + 4 <= |d| then Done(Le32(d[p], d[p + 1], d[p + 2], d[p + 3]), p + 4)
    else Failed(UnexpectedEof, p)
  }

  /** One byte, or the escape byte 0xFF followed by a little-endian u16. */
  function CompactLengthAt(d: seq<u8>, p: nat): Decoded<u16> {
    var b :- U8At(d, p);
    if b.value == 0xFF then U16At(d, b.next) else Done(b.value, b.next)
  }

  /** A compact length `n`, then `n` bytes that must be UTF-8. */
  function StringAt(d: seq<u8>, p: nat): Decoded<Text> {
    var n :- CompactLengthAt(d, p);
    var end := n.next + n.value;
    if end <= |d| then
      var bytes := d[n.next..end];
      if ValidUtf8(bytes) then Done(bytes, end) else Failed(InvalidUtf8, end)
    else Failed(UnexpectedEof, n.next)
  }

  /** Fixed-width reads consume exactly their width, assemble the bytes
      little-endian, and fail without moving when fewer bytes remain. */
  lemma FixedWidthReads(d: seq<u8>, p: nat)
    ensures U8At(d, p).Done? <==> p + 1 <= |d|
    ensures U16At(d, p).Done? <==> p + 2 <= |d|
    ensures U32At(d, p).Done? <==> p + 4 <= |d|
    ensures U8At(d, p).Done? ==> U8At(d, p) == Done(d[p], p + 1)
    ensures U16At(d, p).Done? ==> U16At(d, p) == Done(d[p] as int + 0x100 * (d[p + 1] as int), p + 2)
    ensures U32At(d, p).Done? ==>
              && U32At(d, p).next == p + 4
              && U32At(d, p).value
                 == d[p] as int + 0x100 * (d[p + 1] as int) + 0x1_0000 * (d[p + 2] as int) + 0x100_0000 * (d[p + 3] as int)
    ensures U8At(d, p).Failed? ==> U8At(d, p) == Failed(UnexpectedEof, p)
    ensures U16At(d, p).Failed? ==> U16At(d, p) == Failed(UnexpectedEof, p)
    ensures U32At(d, p).Failed? ==> U32At(d, p) == Failed(UnexpectedEof, p)
  {
  }

  /** `read_bool` is true exactly when the byte read is non-zero. */
  lemma BoolIsNonZero(d: seq<u8>, p: nat)
    ensures BoolAt(d, p).Done? <==> p < |d|
    ensures BoolAt(d, p).Done? ==> BoolAt(d, p) == Done(d[p] != 0, p + 1)
  {
  }

  /** A byte other than 0xFF is the length itself and takes one byte; 0xFF
      is followed by the little-endian length and takes three. */
  lemma CompactLengthForms(d: seq<u8>, p: nat)
    ensures p < |d| && d[p] != 0xFF ==> CompactLengthAt(d, p) == Done(d[p], p + 1)
    ensures p + 3 <= |d| && d[p] == 0xFF ==> CompactLengthAt(d, p) == Done(Le16(d[p + 1], d[p + 2]), p + 3)
    ensures CompactLengthAt(d, p).Failed? <==> p >= |d| || (d[p] == 0xFF && p + 3 > |d|)
    ensures CompactLengthAt(d, p).Failed? ==> CompactLengthAt(d, p).error == UnexpectedEof
  {
  }

  /** One-byte lengths go up to 254; 0xFF escapes to a little-endian u16;
      a string one byte short of its declared length runs out. */
  lemma CompactLengthExamples()
    ensures CompactLengthAt([0x05], 0) == Done(5, 1)
    ensures CompactLengthAt([0xFE], 0) == Done(254, 1)
    ensures CompactLengthAt([0xFF, 0x00, 0x01], 0) == Done(256, 3)
    ensures StringAt([0x03, 0x61, 0x62], 0) == Failed(UnexpectedEof, 1)
  {
  }

  /** The shortest encoding of a compact length (the inverse of the reader). */
  function CompactLengthBytes(n: u16): (e: seq<u8>)
    ensures |e| == if n < 0xFF then 1 else 3
  {
    if n < 0xFF then [n] else [0xFF] + Le16Bytes(n)
  }

  lemma CompactLengthRoundTrip(d: seq<u8>, p: nat, n: u16)
    requires Placed(d, p, CompactLengthBytes(n))
    ensures CompactLengthAt(d, p) == Done(n, p + |CompactLengthBytes(n)|)
  {
    var e := CompactLengthBytes(n);
    assert d[p] == e[0];
    if n >= 0xFF {
      assert d[p + 1] == e[1] && d[p + 2] == e[2];
    }
  }

  /** `read_string` consumes the length prefix and exactly that many bytes;
      it fails with `UnexpectedEof` when fewer remain and with `InvalidUtf8`
      when they are not UTF-8. */
  lemma StringConsumes(d: seq<u8>, p: nat)
    ensures var n := CompactLengthAt(d, p);
      && (n.Failed? ==> StringAt(d, p) == Failed(n.error, n.next))
      && (n.Done? && n.next + n.value > |d| ==> StringAt(d, p) == Failed(UnexpectedEof, n.next))
      && (n.Done? && n.next + n.value <= |d| ==>
            var bytes := d[n.next..n.next + n.value];
            StringAt(d, p) == if ValidUtf8(bytes) then Done(bytes, n.next + n.value)
                              else Failed(InvalidUtf8, n.next + n.value))
  {
  }

  /** The encoding of a string: its compact length, then its bytes. */
  function StringBytes(t: Text): (e: seq<u8>)
    requires |t| < 0x1_0000
    ensures |e| == |CompactLengthBytes(|t|)| + |t|
  {
    CompactLengthBytes(|t|) + t
  }

  lemma StringRoundTrip(d: seq<u8>, p: nat, t: Text)
    requires |t| < 0x1_0000 && Placed(d, p, StringBytes(t))
    ensures StringAt(d, p) == Done(t, p + |StringBytes(t)|)
  {
    PlacedSplit(d, p, CompactLengthBytes(|t|), t);
    CompactLengthRoundTrip(d, p, |t|);
  }

  /** The reader of `std::io::Cursor` over an owned buffer: the bytes never
      change, only the position moves forward. */
  class UhkCursor {
    const data: seq<u8>
    var pos: nat

    constructor (data: seq<u8>)
      ensures this.data == data && pos == 0
    {
      this.data := data;
      pos := 0;
    }

    method ReadU8() returns (r: Result<u8>)
      modifies this
      ensures r == U8At(data, old(pos)).Result() && pos == U8At(data, old(pos)).next
    {
      if pos < |data| {
        r := Ok(data[pos]);
        pos := pos + 1;
      } else {
        r := Err(UnexpectedEof);
      }
    }

    method ReadBool() returns (r: Result<bool>)
      modifies this
      ensures r == BoolAt(data, old(pos)).Result() && pos == BoolAt(data, old(pos)).next
    {
      var b :- ReadU8();
      r := Ok(b != 0);
    }

    method ReadU16() returns (r: Result<u16>)
      modifies this
      ensures r == U16At(data, old(pos)).Result() && pos == U16At(data, old(pos)).next
    {
      if pos + 2 <= |data| {
        r := Ok(Le16(data[pos], data[pos + 1]));
        pos := pos + 2;
      } else {
        r := Err(UnexpectedEof);
      }
    }

    method ReadU32() returns (r: Result<u32>)
      modifies this
      ensures r == U32At(data, old(pos)).Result() && pos == U32At(data, old(pos)).next
    {
      if pos + 4 <= |data| {
        r := Ok(Le32(data[pos], data[pos + 1], data[pos + 2], data[pos + 3]));
        pos := pos + 4;
      } else {
        r := Err(UnexpectedEof);
      }
    }

    method ReadCompactLength() returns (r: Result<u16>)
      modifies this
      ensures r == CompactLengthAt(data, old(pos)).Result() && pos == CompactLengthAt(data, old(pos)).next
    {
      var length :- ReadU8();
      if length == 0xFF {
        r := ReadU16();
      } else {
        r := Ok(length);
      }
    }

    method ReadString() returns (r: Result<Text>)
      modifies this
      ensures r == StringAt(data, old(pos)).Result() && pos == StringAt(data, old(pos)).next
    {
      var length :- ReadCompactLength();
      if pos + length > |data| {
        return Err(UnexpectedEof);
      }
      var buf := data[pos..pos + length];
      pos := pos + length;
      if ValidUtf8(buf) {
        r := Ok(buf);
      } else {
        r := Err(InvalidUtf8);
      }
    }
  }
}
