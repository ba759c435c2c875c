/** Strings of bytes, and 32-bit numbers in them. */
module ByteStrings {

  type Byte = b: int | 0 <= b < 256

  type Bytes = seq<Byte>

  const WORD := 0x1_0000_0000

  /** A byte as a number to calculate with. */
  function At(s: Bytes, i: nat): (v: int)
    requires i < |s|
    ensures 0 <= v < 256
  {
    s[i]
  }

  /** Four bytes, the most significant first. */
  function BigEndian(v: int): (r: Bytes)
    requires 0 <= v < WORD
    ensures |r| == 4
  {
    [v / 0x100_0000, v / 0x1_0000 % 256, v / 256 % 256, v % 256]
  }

  function ReadBigEndian(s: Bytes, i: nat): (v: int)
    requires i + 4 <= |s|
    ensures 0 <= v < WORD
  {
    At(s, i) * 0x100_0000 + At(s, i + 1) * 0x1_0000 + At(s, i + 2) * 256 + At(s, i + 3)
  }

  lemma {:induction false} Digits(v: int)
    requires 0 <= v < WORD
    ensures v / 0x100_0000 * 0x100_0000 + v / 0x1_0000 % 256 * 0x1_0000 + v / 256 % 256 * 256 + v % 256 == v
  {
    assert v / 0x1_0000 / 256 == v / 0x100_0000 && v / 256 / 256 == v / 0x1_0000;
  }

  lemma {:induction false} BigEndianReads(v: int, before: Bytes, after: Bytes)
    requires 0 <= v < WORD
    ensures ReadBigEndian(before + BigEndian(v) + after, |before|) == v
  {
    var s, i := before + BigEndian(v) + after, |before|;
    assert s[i] == v / 0x100_0000 && s[i + 1] == v / 0x1_0000 % 256 && s[i + 2] == v / 256 % 256 && s[i + 3] == v % 256;
    Digits(v);
  }
}
