/// The character-level building blocks the dumpers in log.c rely on:
/// bytes, the `%02x` rendering of a byte, the C-locale `isprint` test,
/// and what `%s` reads out of a NUL-terminated char buffer.
module Bytes {

  /// One byte of the dumped buffer, read as an unsigned char.
  type byte = x: int | 0 <= x < 256

  /// The C string terminator.
  const NUL: char := '\0'

  /// A lowercase hexadecimal digit.
  predicate IsLowerHexDigit(ch: char)
  {
    '0' <= ch <= '9' || 'a' <= ch <= 'f'
  }

  /// One lowercase hexadecimal digit, as `%x` writes it.
  function HexDigit(d: int): (ch: char)
    requires 0 <= d < 16
    ensures IsLowerHexDigit(ch)
  {
    if d < 10 then ('0' as int + d) as char else ('a' as int + d - 10) as char
  }

  /// Reading a digit back gives its value.
  lemma DigitRoundTrip(d: int)
    requires 0 <= d < 16
    ensures DigitValue(HexDigit(d)) == d
  {
  }

  /// The value of a lowercase hexadecimal digit (anything else reads as 0).
  function DigitValue(ch: char): (d: nat)
    ensures d < 16
  {
    if '0' <= ch <= '9' then ch as int - '0' as int
    else if 'a' <= ch <= 'f' then ch as int - 'a' as int + 10
    else 0
  }

  /// `%02x` of a byte: exactly two lowercase digits, most significant first.
  function Hex2(b: byte): (s: string)
    ensures |s| == 2
    ensures IsLowerHexDigit(s[0]) && IsLowerHexDigit(s[1])
  {
    [HexDigit(b / 16), HexDigit(b % 16)]
  }

  /// `%02x` loses nothing: the two digits read back as the byte.
  lemma Hex2RoundTrip(b: byte)
    ensures ByteOfHex2(Hex2(b)[0], Hex2(b)[1]) == b
  {
    DigitRoundTrip(b / 16);
    DigitRoundTrip(b % 16);
  }

  /// The byte read back from its two `%02x` digits.
  function ByteOfHex2(hi: char, lo: char): byte
  {
    DigitValue(hi) * 16 + DigitValue(lo)
  }

  /// `isprint` in the C locale: the ASCII range from space to tilde.
  predicate IsPrint(b: byte)
    ensures IsPrint(b) ==> b != 0
  {
    0x20 <= b <= 0x7E
  }

  /// The character `%c` writes for a byte.
  function ByteChar(b: byte): (ch: char)
    ensures ch as int == b
  {
    b as char
  }

  /// What `%s` reads from a char buffer: every character before the first
  /// NUL. (A buffer without a NUL is read to its end; the dumpers always
  /// terminate theirs.)
  function CString(s: string): (r: string)
    ensures |r| <= |s| && r == s[..|r|]
    ensures NUL !in r
    ensures |r| < |s| ==> s[|r|] == NUL
  {
    if |s| == 0 || s[0] == NUL then "" else [s[0]] + CString(s[1..])
  }

  /// A buffer whose first NUL is at `m` reads as its first `m` characters.
  lemma CStringAt(s: string, m: nat)
    requires m < |s| && s[m] == NUL && NUL !in s[..m]
    ensures CString(s) == s[..m]
  {
  }

  /// Whatever follows a terminator is never read.
  lemma {:induction false} CStringStopsAtNul(s: string, m: nat)
    requires m < |s| && s[m] == NUL
    ensures CString(s) == CString(s[..m])
  {
    if m > 0 && s[0] != NUL {
      assert s[1..][..m - 1] == s[..m][1..];
      CStringStopsAtNul(s[1..], m - 1);
    }
  }
}
