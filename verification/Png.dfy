/** The PNG encoder of the canvas, and an independent reader for what it writes. */
module Png {
  import opened ByteStrings
  import opened Collections
  import Crc
  import Zlib

  /** Four bytes a pixel, row after row. */
  datatype Bitmap = Bitmap(width: int, height: int, pixels: Bytes)

  ghost predicate Valid(b: Bitmap) {
    0 < b.width < 0x8000_0000 && 0 < b.height < 0x8000_0000 && |b.pixels| == b.height * (4 * b.width)
  }

  const SIGNATURE: Bytes := [0x89, 0x50, 0x4E, 0x47, 0x0D, 0x0A, 0x1A, 0x0A]
  const IHDR: Bytes := [0x49, 0x48, 0x44, 0x52]
  const IDAT: Bytes := [0x49, 0x44, 0x41, 0x54]
  const IEND: Bytes := [0x49, 0x45, 0x4E, 0x44]

  /** The longest chunk that section 5.3 of the PNG specification allows. */
  const LONGEST := 0x7FFF_FFFF

  // ----- chunks

  /** The length field has 32 bits. */
  function Chunk(kind: Bytes, data: Bytes): Bytes {
    BigEndian(|data| % WORD) + kind + data + BigEndian(Crc.Checksum(kind + data))
  }

  datatype Read = Read(kind: Bytes, data: Bytes, length: nat) | Nothing

  /** The chunk that `s` begins with: length, type, data, and the checksum of type and data. */
  function ReadChunk(s: Bytes): (r: Read)
    ensures r.Read? ==> r.length <= |s|
  {
    if |s| < 12 then Nothing
    else
      var n := ReadBigEndian(s, 0);
      if n > LONGEST || 12 + n > |s| || ReadBigEndian(s, 8 + n) != Crc.Checksum(s[4..8 + n]) then Nothing
      else Read(s[4..8], s[8..8 + n], 12 + n)
  }

  lemma {:induction false} ChunkReads(kind: Bytes, data: Bytes, after: Bytes)
    requires |kind| == 4 && |data| <= LONGEST
    ensures ReadChunk(Chunk(kind, data) + after) == Read(kind, data, |Chunk(kind, data)|)
    ensures (Chunk(kind, data) + after)[|Chunk(kind, data)|..] == after
  {
    hide Crc.Checksum, ReadBigEndian, BigEndian;
    var s, crc := Chunk(kind, data) + after, Crc.Checksum(kind + data);
    BigEndianReads(|data|, [], kind + data + BigEndian(crc) + after);
    assert s == [] + BigEndian(|data|) + (kind + data + BigEndian(crc) + after);
    BigEndianReads(crc, BigEndian(|data|) + kind + data, after);
    assert s == BigEndian(|data|) + kind + data + BigEndian(crc) + after;
    assert s[4..8 + |data|] == kind + data;
  }

  /** A chunk that was damaged within 32 neighbouring bits of its type and data is rejected. */
  lemma {:induction false} DamageIsNoticed(kind: Bytes, data: Bytes, damaged: Bytes, a: nat, after: Bytes)
    requires |kind| == 4 && |data| <= LONGEST && damaged != kind + data && Crc.Burst(kind + data, damaged, a)
    ensures ReadChunk(BigEndian(|data|) + damaged + BigEndian(Crc.Checksum(kind + data)) + after) == Nothing
  {
    hide Crc.Checksum, ReadBigEndian, BigEndian, Crc.Burst;
    SameLength(kind + data, damaged, a);
    var crc := Crc.Checksum(kind + data);
    var s := BigEndian(|data|) + damaged + BigEndian(crc) + after;
    BigEndianReads(|data|, [], damaged + BigEndian(crc) + after);
    assert s == [] + BigEndian(|data|) + (damaged + BigEndian(crc) + after);
    BigEndianReads(crc, BigEndian(|data|) + damaged, after);
    assert s[4..8 + |data|] == damaged;
    Crc.BurstNoticed(kind + data, damaged, a);
  }

  lemma {:induction false} SameLength(s: Bytes, t: Bytes, a: nat)
    requires Crc.Burst(s, t, a)
    ensures |s| == |t|
  {
  }

  /** Too much data does not fit: at most a beginning of it is read, and never all. */
  lemma {:induction false} LongChunkReads(kind: Bytes, data: Bytes, after: Bytes)
    requires |kind| == 4 && |data| > LONGEST
    ensures var r := ReadChunk(Chunk(kind, data) + after);
      r.Nothing? || exists k: nat :: k < |data| && r.data == data[..k]
  {
    hide Crc.Checksum, ReadBigEndian, BigEndian;
    var s, n := Chunk(kind, data) + after, |data| % WORD;
    var rest := kind + data + BigEndian(Crc.Checksum(kind + data)) + after;
    BigEndianReads(n, [], rest);
    assert s == [] + BigEndian(n) + rest;
    if n <= LONGEST {
      assert n < |data|;
      assert s[8..8 + n] == data[..n];
    }
  }

  // ----- rows

  /** The size of a picture in bytes. */
  function Area(stride: nat, height: nat): nat { if height == 0 then 0 else stride + Area(stride, height - 1) }

  lemma {:induction false} AreaIsProduct(stride: nat, height: nat)
    ensures Area(stride, height) == height * stride
  {
    if height > 0 {
      AreaIsProduct(stride, height - 1);
      assert height * stride == stride + (height - 1) * stride;
    }
  }

  /** Every row is preceded by its filter type, none. */
  function Rows(pixels: Bytes, stride: nat, height: nat): Bytes
    requires |pixels| == Area(stride, height)
    decreases height
  {
    if height == 0 then [] else
      [0] + pixels[..stride] + Rows(pixels[stride..], stride, height - 1)
  }

  function Unfiltered(raw: Bytes, stride: nat, height: nat): Option<Bytes>
    decreases height
  {
    if height == 0 then if raw == [] then Some([]) else None
    else if |raw| < 1 + stride || raw[0] != 0 then None
    else
      var rest := Unfiltered(raw[1 + stride..], stride, height - 1);
      if rest.None? then None else Some(raw[1..1 + stride] + rest.value)
  }

  lemma {:induction false} RowsRead(pixels: Bytes, stride: nat, height: nat)
    requires |pixels| == Area(stride, height)
    ensures Unfiltered(Rows(pixels, stride, height), stride, height) == Some(pixels)
    decreases height
  {
    if height > 0 {
      RowsRead(pixels[stride..], stride, height - 1);
      var raw := Rows(pixels, stride, height);
      assert raw[1 + stride..] == Rows(pixels[stride..], stride, height - 1);
      assert raw[1..1 + stride] == pixels[..stride];
      assert pixels == pixels[..stride] + pixels[stride..];
    }
  }

  // ----- the file

  function HeaderOf(width: int, height: int): Bytes
    requires 0 < width < WORD && 0 < height < WORD
  {
    BigEndian(width) + BigEndian(height) + [8, 6, 0, 0, 0]
  }

  function Raw(b: Bitmap): Bytes
    requires Valid(b)
  {
    AreaIsProduct(4 * b.width, b.height);
    Rows(b.pixels, 4 * b.width, b.height)
  }

  /** The size of the zlib stream of a picture: the rows with their filter bytes, the blocks that hold them, and
      the header and checksum. */
  function StreamSize(width: nat, height: nat): nat {
    var raw := height * (4 * width + 1);
    raw + 5 * Zlib.BlockCount(raw) + 6
  }

  lemma {:induction false} RowsSize(pixels: Bytes, stride: nat, height: nat)
    requires |pixels| == Area(stride, height)
    ensures |Rows(pixels, stride, height)| == Area(stride + 1, height)
    decreases height
  {
    if height > 0 { RowsSize(pixels[stride..], stride, height - 1); }
  }

  lemma {:induction false} StreamSizeIs(b: Bitmap)
    requires Valid(b)
    ensures |Zlib.Stored(Raw(b))| == StreamSize(b.width, b.height)
  {
    AreaIsProduct(4 * b.width, b.height);
    AreaIsProduct(4 * b.width + 1, b.height);
    RowsSize(b.pixels, 4 * b.width, b.height);
    Zlib.BlocksLength(Raw(b));
  }

  function Encoded(b: Bitmap): Bytes
    requires Valid(b)
  {
    SIGNATURE + Chunk(IHDR, HeaderOf(b.width, b.height)) + Chunk(IDAT, Zlib.Stored(Raw(b))) + Chunk(IEND, [])
  }

  /** Every file starts with the signature of section 5.2 of the PNG specification and a header chunk of 13 bytes:
      width, height, eight bits a channel, colour with alpha, and the only methods there are, without interlacing. */
  lemma {:induction false} FileBegins(b: Bitmap)
    requires Valid(b)
    ensures var s := Encoded(b);
      && |s| >= 33 && s[..8] == [137, 80, 78, 71, 13, 10, 26, 10] && ReadBigEndian(s, 8) == 13
      && s[12..16] == ['I' as int, 'H' as int, 'D' as int, 'R' as int]
      && ReadBigEndian(s, 16) == b.width && ReadBigEndian(s, 20) == b.height && s[24..29] == [8, 6, 0, 0, 0]
  {
    hide Crc.Checksum, ReadBigEndian, BigEndian, Zlib.Stored, Rows;
    var header, rest := HeaderOf(b.width, b.height), Chunk(IDAT, Zlib.Stored(Raw(b))) + Chunk(IEND, []);
    var crc := BigEndian(Crc.Checksum(IHDR + header));
    var s, w, h := Encoded(b), BigEndian(b.width), BigEndian(b.height);
    assert s == SIGNATURE + BigEndian(13) + IHDR + (w + h + [8, 6, 0, 0, 0]) + crc + rest;
    BigEndianReads(13, SIGNATURE, IHDR + header + crc + rest);
    assert s == SIGNATURE + BigEndian(13) + (IHDR + header + crc + rest);
    BigEndianReads(b.width, SIGNATURE + BigEndian(13) + IHDR, h + [8, 6, 0, 0, 0] + crc + rest);
    assert s == SIGNATURE + BigEndian(13) + IHDR + w + (h + [8, 6, 0, 0, 0] + crc + rest);
    BigEndianReads(b.height, SIGNATURE + BigEndian(13) + IHDR + w, [8, 6, 0, 0, 0] + crc + rest);
    assert s == SIGNATURE + BigEndian(13) + IHDR + w + h + ([8, 6, 0, 0, 0] + crc + rest);
  }

  /** Eight bits a channel, colour with alpha, no interlacing, rows without filter, one data chunk. */
  function Decoded(s: Bytes): Option<Bitmap> {
    if |s| < 8 || s[..8] != SIGNATURE then None
    else
      var header := ReadChunk(s[8..]);
      if header.Nothing? || header.kind != IHDR || |header.data| != 13 || header.data[8..] != [8, 6, 0, 0, 0] then None
      else
        var width, height := ReadBigEndian(header.data, 0), ReadBigEndian(header.data, 4);
        var body := s[8..][header.length..];
        var pixels := if width == 0 || height == 0 then None else DecodedBody(body, 4 * width, height);
        if pixels.None? then None else Some(Bitmap(width, height, pixels.value))
  }

  function DecodedBody(s: Bytes, stride: nat, height: nat): Option<Bytes> {
    var data := ReadChunk(s);
    if data.Nothing? || data.kind != IDAT then None
    else
      var end := ReadChunk(s[data.length..]);
      var raw := Zlib.Unstored(data.data);
      if end.Nothing? || end.kind != IEND || end.data != [] || end.length != |s| - data.length || raw.Bad? then None
      else Unfiltered(raw.data, stride, height)
  }

  lemma {:induction false} BodyReads(raw: Bytes, pixels: Bytes, stride: nat, height: nat)
    requires |pixels| == Area(stride, height) && raw == Rows(pixels, stride, height)
    ensures DecodedBody(Chunk(IDAT, Zlib.Stored(raw)) + Chunk(IEND, []), stride, height)
         == if |Zlib.Stored(raw)| <= LONGEST then Some(pixels) else None
  {
    hide Chunk, ReadChunk, Zlib.Stored, Zlib.Unstored, Rows, Unfiltered;
    var data, end := Zlib.Stored(raw), Chunk(IEND, []);
    if |data| <= LONGEST {
      ChunkReads(IDAT, data, end);
      ChunkReads(IEND, [], []);
      assert end + [] == end;
      Zlib.RoundTrip(raw);
      RowsRead(pixels, stride, height);
    } else {
      LongChunkReads(IDAT, data, end);
      var r := ReadChunk(Chunk(IDAT, data) + end);
      if r.Read? {
        var k: nat :| k < |data| && r.data == data[..k];
        Zlib.CutStored(raw, k);
      }
    }
  }

  /** The picture comes back exactly if its stream fits into one chunk; otherwise the file cannot be read. */
  lemma {:induction false} RoundTrip(b: Bitmap)
    requires Valid(b)
    ensures Decoded(Encoded(b)) == if StreamSize(b.width, b.height) <= LONGEST then Some(b) else None
  {
    hide StreamSize, Chunk, ReadChunk, Zlib.Stored, Rows, DecodedBody, BigEndian, ReadBigEndian;
    var header := HeaderOf(b.width, b.height);
    var body := Chunk(IDAT, Zlib.Stored(Raw(b))) + Chunk(IEND, []);
    var s := Encoded(b);
    assert s == SIGNATURE + (Chunk(IHDR, header) + body);
    assert s[..8] == SIGNATURE && s[8..] == Chunk(IHDR, header) + body;
    HeaderReads(b.width, b.height);
    ChunkReads(IHDR, header, body);
    AreaIsProduct(4 * b.width, b.height);
    BodyReads(Raw(b), b.pixels, 4 * b.width, b.height);
    StreamSizeIs(b);
  }

  /** A picture of 23171 by 23171 pixels is already too large. */
  lemma {:induction false} TooLarge(b: Bitmap)
    requires b.width == 23171 && b.height == 23171 && Valid(b)
    ensures Decoded(Encoded(b)) == None
  {
    hide Decoded, Encoded;
    RoundTrip(b);
    assert StreamSize(23171, 23171) > LONGEST;
  }

  lemma {:induction false} HeaderReads(width: int, height: int)
    requires 0 < width < WORD && 0 < height < WORD
    ensures var h := HeaderOf(width, height);
      |h| == 13 && h[8..] == [8, 6, 0, 0, 0] && ReadBigEndian(h, 0) == width && ReadBigEndian(h, 4) == height
  {
    hide ReadBigEndian;
    var h := HeaderOf(width, height);
    BigEndianReads(width, [], BigEndian(height) + [8, 6, 0, 0, 0]);
    assert h == [] + BigEndian(width) + (BigEndian(height) + [8, 6, 0, 0, 0]);
    BigEndianReads(height, BigEndian(width), [8, 6, 0, 0, 0]);
  }

  // ----- the encoder

  method AppendChunk(out: Bytes, kind: Bytes, data: Bytes) returns (r: Bytes)
    ensures r == out + Chunk(kind, data)
  {
    r := out + BigEndian(|data| % WORD);
    r := r + kind;
    r := r + data;
    var crc := Crc.Compute(kind + data);
    r := r + BigEndian(crc);
  }

  /** Fails on empty pictures. */
  method EncodePng(b: Bitmap) returns (r: Option<Bytes>)
    requires b.width < 0x8000_0000 && b.height < 0x8000_0000
    requires b.width > 0 && b.height > 0 ==> |b.pixels| == b.height * (4 * b.width)
    ensures r == if b.width <= 0 || b.height <= 0 then None else Some(Encoded(b))
  {
    hide Chunk, Zlib.Stored;
    if b.width <= 0 || b.height <= 0 { return None; }
    var out := SIGNATURE;
    out := AppendChunk(out, IHDR, BigEndian(b.width) + BigEndian(b.height) + [8, 6, 0, 0, 0]);
    AreaIsProduct(4 * b.width, b.height);
    var raw := FilteredRows(b.pixels, 4 * b.width, b.height);
    var stream := Zlib.Store(raw);
    out := AppendChunk(out, IDAT, stream);
    out := AppendChunk(out, IEND, []);
    r := Some(out);
  }

  lemma {:induction false} RowsStep(pixels: Bytes, stride: nat, height: nat, start: nat)
    requires height > 0 && start <= |pixels| && |pixels[start..]| == Area(stride, height)
    ensures start + stride <= |pixels| && |pixels[start + stride..]| == Area(stride, height - 1)
    ensures Rows(pixels[start..], stride, height) ==
      [0] + pixels[start..start + stride] + Rows(pixels[start + stride..], stride, height - 1)
  {
    assert pixels[start..][..stride] == pixels[start..start + stride];
    assert pixels[start..][stride..] == pixels[start + stride..];
  }

  method FilteredRows(pixels: Bytes, stride: nat, height: nat) returns (raw: Bytes)
    requires |pixels| == Area(stride, height)
    ensures raw == Rows(pixels, stride, height)
  {
    hide Rows, Area;
    raw := [];
    var start := 0;
    assert pixels[0..] == pixels;
    for y := 0 to height
      invariant 0 <= start <= |pixels| && |pixels[start..]| == Area(stride, height - y)
      invariant Rows(pixels, stride, height) == raw + Rows(pixels[start..], stride, height - y)
    {
      RowsStep(pixels, stride, height - y, start);
      raw := raw + [0];
      raw := raw + pixels[start..start + stride];
      start := start + stride;
    }
    NoRows(pixels[start..], stride);
  }

  lemma {:induction false} NoRows(pixels: Bytes, stride: nat)
    requires |pixels| == Area(stride, 0)
    ensures Rows(pixels, stride, 0) == []
  {
  }
}
