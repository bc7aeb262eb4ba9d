/** Well-formed UTF-8 byte sequences as RFC 3629 (section 4, "Syntax of UTF-8
    Byte Sequences") defines them. Rust's `String::from_utf8` accepts exactly
    these sequences and keeps their bytes unchanged, so a decoded string is
    represented here by its bytes. */
module Utf8 {
  import opened Bytes

  /** A continuation byte, `UTF8-tail = %x80-BF`. */
  predicate IsTail(b: u8) {
    0x80 <= b <= 0xBF
  }

  /** The number of bytes of the well-formed character that starts `s`,
      or 0 when `s` does not start with one. */
  function LeadWidth(s: seq<u8>): (w: nat)
    requires |s| > 0
    ensures w <= 4 && w <= |s|
  {
    var b0 := s[0];
    if b0 <= 0x7F then 1
    else if 0xC2 <= b0 <= 0xDF then
      (if |s| >= 2 && IsTail(s[1]) then 2 else 0)
    else if b0 == 0xE0 then
      (if |s| >= 3 && 0xA0 <= s[1] <= 0xBF && IsTail(s[2]) then 3 else 0)
    else if 0xE1 <= b0 <= 0xEC || 0xEE <= b0 <= 0xEF then
      (if |s| >= 3 && IsTail(s[1]) && IsTail(s[2]) then 3 else 0)
    else if b0 == 0xED then
      (if |s| >= 3 && 0x80 <= s[1] <= 0x9F && IsTail(s[2]) then 3 else 0)
    else if b0 == 0xF0 then
      (if |s| >= 4 && 0x90 <= s[1] <= 0xBF && IsTail(s[2]) && IsTail(s[3]) then 4 else 0)
    else if 0xF1 <= b0 <= 0xF3 then
      (if |s| >= 4 && IsTail(s[1]) && IsTail(s[2]) && IsTail(s[3]) then 4 else 0)
    else if b0 == 0xF4 then
      (if |s| >= 4 && 0x80 <= s[1] <= 0x8F && IsTail(s[2]) && IsTail(s[3]) then 4 else 0)
    else 0
  }

  /** `UTF8-octets = *( UTF8-char )`. */
  predicate ValidUtf8(s: seq<u8>)
    decreases |s|
  {
    s == [] || (LeadWidth(s) > 0 && ValidUtf8(s[LeadWidth(s)..]))
  }

  /** The text a `String` holds. */
  type Text = s: seq<u8> | ValidUtf8(s) witness []

  /** The width of a character depends only on its own bytes. */
  lemma LeadWidthPrefix(s: seq<u8>, t: seq<u8>)
    requires |s| > 0 && LeadWidth(s) > 0
    ensures LeadWidth(s + t) == LeadWidth(s)
  {
    assert (s + t)[0] == s[0];
    assert |s| >= 2 ==> (s + t)[1] == s[1];
    assert |s| >= 3 ==> (s + t)[2] == s[2];
    assert |s| >= 4 ==> (s + t)[3] == s[3];
  }

  /** Concatenating two well-formed texts gives a well-formed text. */
  lemma {:induction false} ConcatValid(s: seq<u8>, t: seq<u8>)
    requires ValidUtf8(s) && ValidUtf8(t)
    ensures ValidUtf8(s + t)
    decreases |s|
  {
    if s != [] {
      var w := LeadWidth(s);
      LeadWidthPrefix(s, t);
      assert (s + t)[w..] == s[w..] + t;
      ConcatValid(s[w..], t);
    } else {
      assert s + t == t;
    }
  }

  /** Every 7-bit ASCII sequence is well-formed. */
  lemma {:induction false} AsciiValid(s: seq<u8>)
    requires forall i :: 0 <= i < |s| ==> s[i] <= 0x7F
    ensures ValidUtf8(s)
    decreases |s|
  {
    if s != [] {
      assert LeadWidth(s) == 1;
      AsciiValid(s[1..]);
    }
  }

  /** A text never starts with a continuation byte, nor with one of the
      bytes RFC 3629 excludes altogether (C0, C1, F5..FF). */
  lemma BadLeadInvalid(s: seq<u8>)
    requires |s| > 0 && (IsTail(s[0]) || s[0] == 0xC0 || s[0] == 0xC1 || s[0] >= 0xF5)
    ensures !ValidUtf8(s)
  {
  }
}
