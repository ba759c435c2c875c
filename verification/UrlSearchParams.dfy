/** URLSearchParams: a list of pairs, parsed from and serialised to application/x-www-form-urlencoded text. */
module UrlSearchParams {
  import opened ByteStrings
  import opened PercentEscape

  const SPACE: Byte := 0x20
  const PLUS: Byte := 0x2B
  const AMPERSAND: Byte := 0x26
  const EQUALS: Byte := 0x3D
  const QUESTION: Byte := 0x3F

  datatype Pair = Pair(key: Bytes, value: Bytes)

  // ----- bytes

  predicate Unreserved(c: Byte) {
    0x61 <= c <= 0x7A || 0x41 <= c <= 0x5A || 0x30 <= c <= 0x39 || c == 0x2A || c == 0x2D || c == 0x2E || c == 0x5F
  }

  function EncodedByte(c: Byte): Bytes {
    if c == SPACE then [PLUS] else if Unreserved(c) then [c] else Escape(c)
  }

  function Encoded(s: Bytes): Bytes {
    if s == [] then [] else EncodedByte(s[0]) + Encoded(s[1..])
  }

  /** Whatever is not an escape stands for itself. */
  function Decoded(s: Bytes): Bytes
    decreases |s|
  {
    if s == [] then []
    else if s[0] == PLUS then [SPACE] + Decoded(s[1..])
    else if EscapeAt(s, 0) >= 0 then [EscapeAt(s, 0)] + Decoded(s[3..])
    else [s[0]] + Decoded(s[1..])
  }

  lemma {:induction false} DecodedEncoded(s: Bytes)
    ensures Decoded(Encoded(s)) == s
  {
    if s != [] {
      var e, rest := Encoded(s), Encoded(s[1..]);
      DecodedEncoded(s[1..]);
      if s[0] != SPACE && !Unreserved(s[0]) {
        EscapeReads(s[0], [], rest);
        assert e == [] + Escape(s[0]) + rest && e[3..] == rest;
      } else {
        assert e[1..] == rest;
      }
    }
  }

  /** What encoding produces has no byte that separates. */
  lemma {:induction false} EncodedIsSafe(s: Bytes)
    ensures AMPERSAND !in Encoded(s) && EQUALS !in Encoded(s) && QUESTION !in Encoded(s)
  {
    if s != [] {
      EncodedIsSafe(s[1..]);
      assert forall c | c in EncodedByte(s[0]) :: c != AMPERSAND && c != EQUALS && c != QUESTION;
    }
  }

  // ----- text

  /** The first place of `c`, or the end. */
  function Find(s: Bytes, c: Byte): (n: nat)
    ensures n <= |s| && c !in s[..n] && (n < |s| ==> s[n] == c)
  {
    if s == [] || s[0] == c then 0 else
      assert s[..1 + Find(s[1..], c)] == [s[0]] + s[1..][..Find(s[1..], c)];
      1 + Find(s[1..], c)
  }

  function ParsedItem(item: Bytes): Pair {
    var e := Find(item, EQUALS);
    Pair(Decoded(item[..e]), if e < |item| then Decoded(item[e + 1..]) else [])
  }

  /** Items are separated by ampersands; empty ones are skipped. */
  function ParsedItems(s: Bytes): seq<Pair>
    decreases |s|
  {
    var e := Find(s, AMPERSAND);
    (if e > 0 then [ParsedItem(s[..e])] else []) + (if e < |s| then ParsedItems(s[e + 1..]) else [])
  }

  function Parsed(s: Bytes): seq<Pair> {
    ParsedItems(if s != [] && s[0] == QUESTION then s[1..] else s)
  }

  function SerializedPair(p: Pair): Bytes {
    Encoded(p.key) + [EQUALS] + Encoded(p.value)
  }

  function Serialized(entries: seq<Pair>): Bytes {
    if entries == [] then []
    else if |entries| == 1 then SerializedPair(entries[0])
    else Serialized(entries[..|entries| - 1]) + [AMPERSAND] + SerializedPair(entries[|entries| - 1])
  }

  // ----- parsing what was serialised

  lemma {:induction false} FindIn(before: Bytes, c: Byte, after: Bytes)
    requires c !in before
    ensures Find(before + [c] + after, c) == |before|
    ensures Find(before, c) == |before|
  {
    if before != [] {
      FindIn(before[1..], c, after);
      assert (before + [c] + after)[1..] == before[1..] + [c] + after;
    }
  }

  lemma {:induction false} PairRoundTrip(p: Pair)
    ensures ParsedItem(SerializedPair(p)) == p && SerializedPair(p) != [] && AMPERSAND !in SerializedPair(p)
    ensures SerializedPair(p)[0] != QUESTION
  {
    EncodedIsSafe(p.key);
    EncodedIsSafe(p.value);
    FindIn(Encoded(p.key), EQUALS, Encoded(p.value));
    DecodedEncoded(p.key);
    DecodedEncoded(p.value);
    var item := SerializedPair(p);
    assert item[..|Encoded(p.key)|] == Encoded(p.key) && item[|Encoded(p.key)| + 1..] == Encoded(p.value);
    if p.key != [] { assert item[0] in Encoded(p.key); }
  }

  /** The text before the first ampersand is an item, and the rest is parsed in the same way. */
  lemma {:induction false} ParsedSplit(before: Bytes, after: Bytes)
    requires AMPERSAND !in before
    ensures ParsedItems(before + [AMPERSAND] + after) ==
      (if before == [] then [] else [ParsedItem(before)]) + ParsedItems(after)
    ensures ParsedItems(before) == if before == [] then [] else [ParsedItem(before)]
  {
    hide ParsedItem;
    FindIn(before, AMPERSAND, after);
    var t := before + [AMPERSAND] + after;
    assert t[..|before|] == before && t[|before| + 1..] == after;
    assert before[..|before|] == before;
  }

  /** Appending an item to a text that ends with one appends what it stands for. */
  lemma {:induction false} ParsedAppended(s: Bytes, item: Bytes)
    requires item != [] && AMPERSAND !in item
    ensures ParsedItems(s + [AMPERSAND] + item) == ParsedItems(s) + [ParsedItem(item)]
    ensures ParsedItems(item) == [ParsedItem(item)]
    decreases |s|
  {
    hide ParsedItem, ParsedItems;
    ParsedSplit(item, []);
    var e, t := Find(s, AMPERSAND), s + [AMPERSAND] + item;
    if e < |s| {
      var first, rest := s[..e], s[e + 1..];
      assert s == first + [AMPERSAND] + rest && t == first + [AMPERSAND] + (rest + [AMPERSAND] + item);
      ParsedSplit(first, rest);
      ParsedSplit(first, rest + [AMPERSAND] + item);
      ParsedAppended(rest, item);
    } else {
      assert s[..e] == s;
      ParsedSplit(s, item);
    }
  }

  lemma {:induction false} ItemsRoundTrip(entries: seq<Pair>)
    ensures ParsedItems(Serialized(entries)) == entries
    ensures entries != [] ==> Serialized(entries) != [] && Serialized(entries)[0] != QUESTION
  {
    hide SerializedPair, ParsedItem, ParsedItems;
    if entries == [] {
      ParsedNothing();
    } else {
      var n := |entries| - 1;
      PairRoundTrip(entries[n]);
      ItemsRoundTrip(entries[..n]);
      ParsedAppended(Serialized(entries[..n]), SerializedPair(entries[n]));
      assert entries == entries[..n] + [entries[n]];
    }
  }

  lemma {:induction false} ParsedNothing()
    ensures ParsedItems([]) == []
  {
  }

  /** Any list of pairs of byte strings comes back as it was. */
  lemma {:induction false} RoundTrip(entries: seq<Pair>)
    ensures Parsed(Serialized(entries)) == entries
  {
    ItemsRoundTrip(entries);
  }

  /** Serialising what was parsed normalises: doing so again changes nothing. */
  lemma {:induction false} NormalForm(s: Bytes)
    ensures Serialized(Parsed(Serialized(Parsed(s)))) == Serialized(Parsed(s))
  {
    RoundTrip(Parsed(s));
  }

  // ----- what parsing makes of any text

  /** Texts on both sides of an ampersand are parsed independently. */
  lemma {:induction false} ItemsConcat(s: Bytes, t: Bytes)
    ensures ParsedItems(s + [AMPERSAND] + t) == ParsedItems(s) + ParsedItems(t)
    decreases |s|
  {
    hide ParsedItem, ParsedItems;
    var e := Find(s, AMPERSAND);
    if e < |s| {
      var first, rest := s[..e], s[e + 1..];
      assert s == first + [AMPERSAND] + rest;
      assert s + [AMPERSAND] + t == first + [AMPERSAND] + (rest + [AMPERSAND] + t);
      ParsedSplit(first, rest);
      ParsedSplit(first, rest + [AMPERSAND] + t);
      ItemsConcat(rest, t);
    } else {
      assert s[..e] == s;
      ParsedSplit(s, t);
    }
  }

  /** An item is split at its first equals sign; one without an equals sign has an empty value, and an empty one is
      skipped. */
  lemma {:induction false} ItemSplit(key: Bytes, value: Bytes)
    requires AMPERSAND !in key + value && EQUALS !in key
    ensures ParsedItems(key + [EQUALS] + value) == [Pair(Decoded(key), Decoded(value))]
    ensures ParsedItems(key) == if key == [] then [] else [Pair(Decoded(key), [])]
  {
    hide Decoded;
    var item := key + [EQUALS] + value;
    FindIn(key, EQUALS, value);
    assert item[..|key|] == key && item[|key| + 1..] == value && key[..|key|] == key;
    ParsedSplit(item, []);
    ParsedSplit(key, []);
  }

  lemma {:induction false} DecodedShrinks(s: Bytes)
    ensures |Decoded(s)| <= |s|
    decreases |s|
  {
    hide EscapeAt;
    if s != [] {
      DecodedShrinks(s[1..]);
      if s[0] != PLUS && EscapeAt(s, 0) >= 0 {
        EscapeFits(s);
        DecodedShrinks(s[3..]);
      }
    }
  }

  lemma {:induction false} EscapeFits(s: Bytes)
    requires EscapeAt(s, 0) >= 0
    ensures |s| >= 3
  {
  }

  lemma {:induction false} EscapeBehind(s: Bytes, i: nat)
    requires 0 < |s|
    ensures EscapeAt(s, i + 1) == EscapeAt(s[1..], i)
  {
  }

  /** Decoding leaves alone exactly the texts without a plus sign and without an escape: a percent sign that begins no
      escape stands for itself. */
  lemma {:induction false} DecodedUnchanged(s: Bytes)
    ensures Decoded(s) == s <==> PLUS !in s && forall i: nat | i < |s| :: EscapeAt(s, i) < 0
    decreases |s|
  {
    hide EscapeAt;
    if s != [] {
      assert s == [s[0]] + s[1..];
      if s[0] != PLUS && EscapeAt(s, 0) >= 0 {
        EscapeFits(s);
        DecodedShrinks(s[3..]);
      } else {
        DecodedUnchanged(s[1..]);
        assert Decoded(s)[1..] == Decoded(s[1..]);
        forall i: nat | i < |s| - 1 ensures EscapeAt(s, i + 1) == EscapeAt(s[1..], i) { EscapeBehind(s, i); }
        forall i: nat | 0 < i < |s| ensures EscapeAt(s, i) == EscapeAt(s[1..], i - 1) { EscapeBehind(s, i - 1); }
      }
    }
  }

  /** A leading question mark makes no difference. */
  lemma {:induction false} QuestionMarkSkipped(s: Bytes)
    requires s == [] || s[0] != QUESTION
    ensures Parsed(['?' as int] + s) == Parsed(s)
  {
    assert (['?' as int] + s)[1..] == s;
  }

  // ----- the loops

  method Encode(s: Bytes) returns (out: Bytes)
    ensures out == Encoded(s)
  {
    hide Escape, Unreserved;
    out := [];
    assert s[0..] == s;
    for i := 0 to |s|
      invariant Encoded(s) == out + Encoded(s[i..])
    {
      var c := s[i];
      assert s[i..][1..] == s[i + 1..];
      assert Encoded(s) == out + EncodedByte(c) + Encoded(s[i + 1..]);
      if c == SPACE {
        out := out + [PLUS];
      } else if Unreserved(c) {
        out := out + [c];
      } else {
        EscapeIs(c);
        out := out + [PERCENT, HexDigit(c / 16), HexDigit(c % 16)];
      }
    }
  }

  lemma {:induction false} EscapeIs(c: Byte)
    ensures Escape(c) == [PERCENT, HexDigit(c / 16), HexDigit(c % 16)]
  {
  }

  /** One round of the decoding loop. */
  lemma {:induction false} DecodedStep(s: Bytes, i: nat, out: Bytes)
    requires i < |s| && Decoded(s) == out + Decoded(s[i..])
    ensures s[i] == PLUS ==> Decoded(s) == out + [SPACE] + Decoded(s[i + 1..])
    ensures s[i] != PLUS && EscapeAt(s, i) < 0 ==> Decoded(s) == out + [s[i]] + Decoded(s[i + 1..])
    ensures s[i] != PLUS && EscapeAt(s, i) >= 0 ==>
      i + 3 <= |s| && Decoded(s) == out + [EscapeAt(s, i)] + Decoded(s[i + 3..])
  {
    var t := s[i..];
    assert EscapeAt(t, 0) == EscapeAt(s, i);
    assert t[1..] == s[i + 1..];
    if EscapeAt(s, i) >= 0 { assert t[3..] == s[i + 3..]; }
  }

  /** The bytes from `start` to `end`. */
  method Decode(s: Bytes, start: nat, end: nat) returns (out: Bytes)
    requires start <= end <= |s|
    ensures out == Decoded(s[start..end])
  {
    hide Decoded;
    var item := s[start..end];
    out := [];
    var i := 0;
    assert item[0..] == item;
    while i < |item|
      invariant i <= |item| && Decoded(item) == out + Decoded(item[i..])
      decreases |item| - i
    {
      var c := item[i];
      DecodedStep(item, i, out);
      if c == PLUS {
        out := out + [SPACE];
      } else if c == PERCENT && i + 2 < |item| {
        var high, low := HexValue(item[i + 1]), HexValue(item[i + 2]);
        if high >= 0 && low >= 0 {
          out := out + [high * 16 + low];
          i := i + 2;
        } else {
          out := out + [c];
        }
      } else {
        out := out + [c];
      }
      i := i + 1;
    }
    DecodedNothing(item[i..]);
  }

  lemma {:induction false} DecodedNothing(s: Bytes)
    requires s == []
    ensures Decoded(s) == []
  {
  }

  /** One item of the text. */
  method ParseItem(s: Bytes, start: nat, end: nat) returns (pair: Pair)
    requires start <= end <= |s|
    ensures pair == ParsedItem(s[start..end])
  {
    hide Decoded, Find;
    var equals := FindFrom(s, EQUALS, start, end);
    var key := Decode(s, start, equals);
    var value := [];
    ghost var item := s[start..end];
    assert item[..equals - start] == s[start..equals];
    if equals < end {
      value := Decode(s, equals + 1, end);
      assert item[equals - start + 1..] == s[equals + 1..end];
    }
    pair := Pair(key, value);
  }

  /** One round of the parsing loop. */
  lemma {:induction false} ParsedStep(s: Bytes, start: nat, end: nat)
    requires start <= |s| && end == start + Find(s[start..], AMPERSAND)
    ensures end <= |s|
    ensures ParsedItems(s[start..]) ==
      (if end > start then [ParsedItem(s[start..end])] else []) + (if end < |s| then ParsedItems(s[end + 1..]) else [])
  {
    hide ParsedItem, ParsedItems, Find;
    var t, e := s[start..], end - start;
    assert t[..e] == s[start..end];
    if end < |s| {
      assert t == s[start..end] + [AMPERSAND] + s[end + 1..];
      ParsedSplit(s[start..end], s[end + 1..]);
    } else {
      assert t == s[start..end];
      ParsedSplit(t, []);
    }
  }

  class Params {
    var entries: seq<Pair>
    var size: nat

    constructor ()
      ensures entries == [] && size == 0
    {
      entries, size := [], 0;
    }

    method ParseInto(s: Bytes)
      modifies this
      ensures entries == old(entries) + Parsed(s) && size == |entries|
    {
      hide ParsedItem, ParsedItems, Find;
      var start := if |s| > 0 && s[0] == QUESTION then 1 else 0;
      assert s[0..] == s;
      while start <= |s|
        invariant start <= |s| && old(entries) + Parsed(s) == entries + ParsedItems(s[start..])
        decreases |s| - start
      {
        assert s[start..|s|] == s[start..];
        var end := FindFrom(s, AMPERSAND, start, |s|);
        ParsedStep(s, start, end);
        if end > start {
          var pair := ParseItem(s, start, end);
          entries := entries + [pair];
        }
        if end >= |s| {
          assert entries == old(entries) + Parsed(s);
          break;
        }
        start := end + 1;
      }
      size := |entries|;
    }

    method ToString() returns (out: Bytes)
      ensures out == Serialized(entries)
    {
      hide Encoded;
      out := [];
      for i := 0 to |entries|
        invariant out == Serialized(entries[..i])
      {
        assert entries[..i + 1][..i] == entries[..i];
        if i > 0 { out := out + [AMPERSAND]; }
        var key := Encode(entries[i].key);
        out := out + key;
        out := out + [EQUALS];
        var value := Encode(entries[i].value);
        out := out + value;
      }
      assert entries[..|entries|] == entries;
    }
  }

  lemma {:induction false} FindNext(s: Bytes, c: Byte)
    requires s != [] && s[0] != c
    ensures Find(s, c) == 1 + Find(s[1..], c)
  {
  }

  lemma {:induction false} FindHere(s: Bytes, c: Byte)
    requires s == [] || s[0] == c
    ensures Find(s, c) == 0
  {
  }

  method FindFrom(s: Bytes, c: Byte, start: nat, end: nat) returns (i: nat)
    requires start <= end <= |s|
    ensures start <= i <= end && i - start == Find(s[start..end], c)
  {
    hide Find;
    i := start;
    while i < end && s[i] != c
      invariant start <= i <= end && Find(s[start..end], c) == i - start + Find(s[i..end], c)
    {
      FindNext(s[i..end], c);
      assert s[i..end][1..] == s[i + 1..end];
      i := i + 1;
    }
    FindHere(s[i..end], c);
  }
}
