/**
 * Bytes and their hexadecimal text form: Python's `bytes.hex()` (lower-case,
 * two digits per byte) and `bytes.fromhex(s)` (either case, ASCII whitespace
 * allowed between byte pairs, `ValueError` otherwise).
 */
module Hex {
  import opened Wrappers

  newtype byte = x: int | 0 <= x < 256

  /** The lower-case hexadecimal digit of a value below 16. */
  function HexDigit(n: int): (c: char)
    requires 0 <= n < 16
    ensures IsHexDigit(c) && DigitValue(c) == n
    ensures '0' <= c <= '9' || 'a' <= c <= 'f'
  {
    if n < 10 then ('0' as int + n) as char else ('a' as int + n - 10) as char
  }

  predicate IsHexDigit(c: char) {
    ('0' <= c <= '9') || ('a' <= c <= 'f') || ('A' <= c <= 'F')
  }

  function DigitValue(c: char): (n: int)
    requires IsHexDigit(c)
    ensures 0 <= n < 16
  {
    if '0' <= c <= '9' then c as int - '0' as int
    else if 'a' <= c <= 'f' then c as int - 'a' as int + 10
    else c as int - 'A' as int + 10
  }

  /** The characters `bytes.fromhex` skips between byte pairs. */
  predicate IsAsciiSpace(c: char) {
    c == ' ' || c == '\t' || c == '\n' || c == '\r' || c == 11 as char || c == 12 as char
  }

  /** `bytes.hex()`: two lower-case digits per byte, high nibble first. */
  function Encode(b: seq<byte>): (s: string)
    ensures |s| == 2 * |b|
    ensures forall i :: 0 <= i < |s| ==> ('0' <= s[i] <= '9') || ('a' <= s[i] <= 'f')
  {
    if b == [] then []
    else [HexDigit(b[0] as int / 16), HexDigit(b[0] as int % 16)] + Encode(b[1..])
  }

  /** The number of characters of s that are not ASCII whitespace. */
  function NonSpaceCount(s: string): (n: nat)
    ensures n <= |s|
  {
    if s == [] then 0 else (if IsAsciiSpace(s[0]) then 0 else 1) + NonSpaceCount(s[1..])
  }

  /**
   * `bytes.fromhex(s)`; `None` where Python raises `ValueError`. A decoded text
   * holds only hex digits besides whitespace, and two of them per byte: a
   * character that is neither, or an odd number of digits, raises.
   */
  function Decode(s: string): (r: Option<seq<byte>>)
    ensures r.Some? ==> forall i :: 0 <= i < |s| && !IsAsciiSpace(s[i]) ==> IsHexDigit(s[i])
    ensures r.Some? ==> NonSpaceCount(s) == 2 * |r.value|
    ensures r.Some? ==> |r.value| <= |s| / 2
  {
    if s == [] then Some([])
    else if IsAsciiSpace(s[0]) then Decode(s[1..])
    else if |s| < 2 || !IsHexDigit(s[0]) || !IsHexDigit(s[1]) then None
    else
      match Decode(s[2..])
      case None => None
      case Some(rest) => Some([(16 * DigitValue(s[0]) + DigitValue(s[1])) as byte] + rest)
  }

  /** What `bytes.hex()` writes, `bytes.fromhex` reads back. */
  lemma {:induction false} DecodeEncode(b: seq<byte>)
    ensures Decode(Encode(b)) == Some(b)
  {
    if b != [] {
      var s := Encode(b);
      assert s[2..] == Encode(b[1..]);
      DecodeEncode(b[1..]);
      assert [b[0]] + b[1..] == b;
    }
  }

  /** Conversely, an even run of hex digits without whitespace always decodes, one byte per pair. */
  lemma {:induction false} DecodeDigitPairs(s: string)
    requires |s| % 2 == 0 && forall i :: 0 <= i < |s| ==> IsHexDigit(s[i])
    ensures Decode(s).Some? && |Decode(s).value| == |s| / 2
  {
    if s != [] {
      assert !IsAsciiSpace(s[0]) && IsHexDigit(s[0]) && IsHexDigit(s[1]);
      DecodeDigitPairs(s[2..]);
    }
  }
}
