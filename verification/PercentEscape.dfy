/** Hexadecimal digits and percent-escapes, shared by the URI functions and URLSearchParams. */
module PercentEscape {
  import opened ByteStrings

  const PERCENT: Byte := 0x25

  function HexDigit(n: int): Byte
    requires 0 <= n < 16
  {
    if n < 10 then 0x30 + n else 0x41 + (n - 10)
  }

  /** The value of a digit of either case, or -1. */
  function HexValue(c: Byte): (n: int)
    ensures -1 <= n < 16
  {
    if 0x30 <= c <= 0x39 then c - 0x30
    else if 0x41 <= c <= 0x46 then c - 0x41 + 10
    else if 0x61 <= c <= 0x66 then c - 0x61 + 10
    else -1
  }

  function Escape(c: Byte): Bytes {
    [PERCENT, HexDigit(c / 16), HexDigit(c % 16)]
  }

  /** The byte that the escape at `i` stands for, if there is one. */
  function EscapeAt(s: Bytes, i: int): (b: int)
    requires 0 <= i
    ensures -1 <= b < 256
  {
    if i + 2 < |s| && s[i] == PERCENT && HexValue(s[i + 1]) >= 0 && HexValue(s[i + 2]) >= 0
    then HexValue(s[i + 1]) * 16 + HexValue(s[i + 2])
    else -1
  }

  lemma {:induction false} EscapeReads(c: Byte, before: Bytes, after: Bytes)
    ensures EscapeAt(before + Escape(c) + after, |before|) == c
  {
    var s := before + Escape(c) + after;
    assert s[|before|] == PERCENT && s[|before| + 1] == HexDigit(c / 16) && s[|before| + 2] == HexDigit(c % 16);
  }
}
