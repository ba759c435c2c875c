/** The zlib stream of stored blocks that the PNG encoder writes, and a reader for it. */
module Zlib {
  import opened ByteStrings

  const MODULUS := 65521

  const LONGEST := 65535

  datatype Result = Ok(data: Bytes) | Bad

  // ----- Adler-32

  /** One plus the sum of the bytes, and the sum of all such sums of the prefixes, as section 8.2 of RFC 1950
      defines them. */
  function Sum(data: Bytes): int {
    if data == [] then 1 else Sum(data[..|data| - 1]) + data[|data| - 1]
  }

  function SumOfSums(data: Bytes): int {
    if data == [] then 0 else SumOfSums(data[..|data| - 1]) + Sum(data)
  }

  function Adler32(data: Bytes): (v: int)
    ensures 0 <= v < WORD
  {
    SumOfSums(data) % MODULUS * 0x1_0000 + Sum(data) % MODULUS
  }

  /** The loop stays within 32 bits and computes the sums modulo 65521. */
  method ComputeAdler32(data: Bytes) returns (v: int)
    ensures v == Adler32(data)
    ensures v / 0x1_0000 == SumOfSums(data) % 65521 && v % 0x1_0000 == Sum(data) % 65521
  {
    var a, b := 1, 0;
    for i := 0 to |data|
      invariant a == Sum(data[..i]) % MODULUS && b == SumOfSums(data[..i]) % MODULUS
    {
      assert a + data[i] < WORD && b + a < WORD;
      assert data[..i + 1][..i] == data[..i];
      ModularStep(Sum(data[..i]), data[i]);
      ModularStep(SumOfSums(data[..i]), Sum(data[..i + 1]));
      a := (a + data[i]) % MODULUS;
      b := (b + a) % MODULUS;
    }
    assert data[..|data|] == data;
    v := b * 0x1_0000 + a;
  }

  lemma {:induction false} ModularStep(x: int, y: int)
    ensures (x % MODULUS + y) % MODULUS == (x + y) % MODULUS
    ensures (x % MODULUS + y % MODULUS) % MODULUS == (x + y) % MODULUS
  {
    SameRemainder(x % MODULUS + y, x / MODULUS);
    SameRemainder(x % MODULUS + y % MODULUS, x / MODULUS + y / MODULUS);
  }

  lemma {:induction false} SameRemainder(x: int, k: int)
    ensures (x + k * MODULUS) % MODULUS == x % MODULUS
  {
  }

  // ----- stored blocks

  function Header(last: bool, length: int): Bytes
    requires 0 <= length <= LONGEST
  {
    [if last then 1 else 0, length % 256, length / 256, 255 - length % 256, 255 - length / 256]
  }

  /** At least one block; all but the last are as long as a block can be. */
  function Blocks(data: Bytes): Bytes
    decreases |data|
  {
    if |data| <= LONGEST then Header(true, |data|) + data
    else Header(false, LONGEST) + data[..LONGEST] + Blocks(data[LONGEST..])
  }

  /** How many blocks `n` bytes take. */
  function BlockCount(n: nat): nat {
    if n <= LONGEST then 1 else 1 + (n - 1) / LONGEST
  }

  lemma {:induction false} BlocksLength(data: Bytes)
    ensures |Blocks(data)| == |data| + 5 * BlockCount(|data|)
    decreases |data|
  {
    if |data| > LONGEST {
      BlocksLength(data[LONGEST..]);
      BlockMore(|data|);
    }
  }

  lemma {:induction false} BlockMore(n: nat)
    requires n > LONGEST
    ensures BlockCount(n) == 1 + BlockCount(n - LONGEST)
  {
    assert (n - 1) / LONGEST == 1 + (n - LONGEST - 1) / LONGEST;
  }

  function Stored(data: Bytes): Bytes {
    [0x78, 0x01] + Blocks(data) + BigEndian(Adler32(data))
  }

  // ----- reading

  /** Stored blocks as in section 3.2.4 of RFC 1951, up to the final one, and how many bytes they take. */
  datatype Inflated = Inflated(data: Bytes, length: nat) | Broken

  function Inflate(s: Bytes): (r: Inflated)
    ensures r.Inflated? ==> r.length <= |s|
    decreases |s|
  {
    if |s| < 5 || At(s, 0) / 2 % 4 != 0 || At(s, 1) + At(s, 3) != 255 || At(s, 2) + At(s, 4) != 255 then Broken
    else
      var length := At(s, 1) + At(s, 2) * 256;
      if |s| < 5 + length then Broken
      else if At(s, 0) % 2 == 1 then Inflated(s[5..5 + length], 5 + length)
      else
        var rest := Inflate(s[5 + length..]);
        if rest.Broken? then Broken else Inflated(s[5..5 + length] + rest.data, 5 + length + rest.length)
  }

  /** The header of section 2.2 of RFC 1950, the blocks, and the checksum; nothing may follow. */
  function Unstored(s: Bytes): Result {
    if
      || |s| < 2 || At(s, 0) % 16 != 8 || At(s, 0) / 16 > 7
      || (At(s, 0) * 256 + At(s, 1)) % 31 != 0 || At(s, 1) / 32 % 2 != 0
    then Bad
    else
      var r := Inflate(s[2..]);
      if r.Broken? || |s| != 2 + r.length + 4 || ReadBigEndian(s, 2 + r.length) != Adler32(r.data) then Bad
      else Ok(r.data)
  }

  /** What the reader finds at the beginning of a block. */
  lemma {:induction false} FirstBlock(data: Bytes, after: Bytes)
    ensures var s := Blocks(data) + after; var n := if |data| <= LONGEST then |data| else LONGEST;
      && |s| >= 5 + n && At(s, 0) == (if |data| <= LONGEST then 1 else 0)
      && At(s, 1) + At(s, 2) * 256 == n && At(s, 1) + At(s, 3) == 255 && At(s, 2) + At(s, 4) == 255
      && s[5..5 + n] == data[..n]
      && s[5 + n..] == (if |data| <= LONGEST then [] else Blocks(data[LONGEST..])) + after
      && |Blocks(data)| == 5 + n + if |data| <= LONGEST then 0 else |Blocks(data[LONGEST..])|
  {
    var s := Blocks(data) + after;
    var n := if |data| <= LONGEST then |data| else LONGEST;
    var head := Header(|data| <= LONGEST, n);
    assert s[..5] == head;
    assert s[0] == head[0] && s[1] == head[1] && s[2] == head[2] && s[3] == head[3] && s[4] == head[4];
  }

  lemma {:induction false} InflateBlocks(data: Bytes, after: Bytes)
    ensures Inflate(Blocks(data) + after) == Inflated(data, |Blocks(data)|)
    decreases |data|
  {
    hide Blocks, At;
    FirstBlock(data, after);
    if |data| > LONGEST {
      InflateBlocks(data[LONGEST..], after);
      assert data == data[..LONGEST] + data[LONGEST..];
    } else {
      assert data[..|data|] == data;
    }
  }

  /** Whatever is stored is read back. */
  lemma {:induction false} RoundTrip(data: Bytes)
    ensures Unstored(Stored(data)) == Ok(data)
  {
    hide Inflate, Blocks, Adler32;
    var s, sum := Stored(data), BigEndian(Adler32(data));
    InflateBlocks(data, sum);
    assert s[2..] == Blocks(data) + sum;
    BigEndianReads(Adler32(data), [0x78, 0x01] + Blocks(data), []);
    assert [0x78, 0x01] + Blocks(data) + sum + [] == s;
  }

  /** A stream that was cut off is not read. */
  lemma {:induction false} CutBlocks(data: Bytes, k: nat)
    requires k < |Blocks(data)|
    ensures Inflate(Blocks(data)[..k]).Broken?
    decreases |data|
  {
    var b := Blocks(data);
    var s := b[..k];
    var n := if |data| <= LONGEST then |data| else LONGEST;
    var head := Header(|data| <= LONGEST, n);
    assert b[..5] == head;
    if k >= 5 {
      assert s[0] == head[0] && s[1] == head[1] && s[2] == head[2] && s[3] == head[3] && s[4] == head[4];
      assert At(s, 1) + At(s, 2) * 256 == n;
      if k >= 5 + n {
        assert s[5 + n..] == Blocks(data[LONGEST..])[..k - 5 - n];
        CutBlocks(data[LONGEST..], k - 5 - n);
      }
    }
  }

  lemma {:induction false} CutStored(data: Bytes, k: nat)
    requires k < |Stored(data)|
    ensures Unstored(Stored(data)[..k]).Bad?
  {
    hide Inflate, Blocks, Adler32;
    var s, blocks := Stored(data)[..k], Blocks(data);
    if k >= 2 {
      if k - 2 < |blocks| {
        assert s[2..] == blocks[..k - 2];
        CutBlocks(data, k - 2);
      } else {
        var after := BigEndian(Adler32(data))[..k - 2 - |blocks|];
        assert s[2..] == blocks + after;
        InflateBlocks(data, after);
      }
    }
  }

  // ----- the loop

  /** One round of the loop. */
  lemma {:induction false} BlocksStep(data: Bytes, offset: nat, chunk: nat)
    requires offset <= |data| && chunk == if |data| - offset < LONGEST then |data| - offset else LONGEST
    ensures Blocks(data[offset..]) == Header(offset + chunk >= |data|, chunk) + data[offset..offset + chunk]
              + (if offset + chunk >= |data| then [] else Blocks(data[offset + chunk..]))
  {
    var rest := data[offset..];
    assert rest[..chunk] == data[offset..offset + chunk];
    if offset + chunk < |data| { assert rest[LONGEST..] == data[offset + chunk..]; }
  }

  method Store(data: Bytes) returns (out: Bytes)
    ensures out == Stored(data)
  {
    hide Blocks, Adler32;
    out := [0x78, 0x01];
    var offset := 0;
    assert data[0..] == data;
    while true
      invariant offset <= |data| && [0x78, 0x01] + Blocks(data) == out + Blocks(data[offset..])
      decreases |data| - offset
    {
      var chunk := if |data| - offset < LONGEST then |data| - offset else LONGEST;
      var last := offset + chunk >= |data|;
      BlocksStep(data, offset, chunk);
      ghost var before := out;
      out := out + [if last then 1 else 0];
      out := out + [chunk % 256, chunk / 256];
      out := out + [255 - chunk % 256, 255 - chunk / 256];
      assert out == before + Header(last, chunk);
      out := out + data[offset..offset + chunk];
      if last { break; }
      offset := offset + chunk;
    }
    var sum := ComputeAdler32(data);
    out := out + BigEndian(sum);
  }
}
