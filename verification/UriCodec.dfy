/** `encodeURI`, `encodeURIComponent` and their inverses on strings stored as UTF-8. */
module UriCodec {
  import opened ByteStrings
  import opened PercentEscape

  datatype Result = Ok(bytes: Bytes) | Malformed

  // ----- well-formed UTF-8

  predicate Tail(s: Bytes, k: nat) {
    k < |s| && 0x80 <= s[k] <= 0xBF
  }

  predicate Within(s: Bytes, k: nat, low: int, high: int) {
    k < |s| && low <= s[k] <= high
  }

  /** The length of the character that `s` begins with, by the grammar in section 4 of RFC 3629; 0 if there is none. */
  function CharLength(s: Bytes): (n: nat)
    ensures n <= |s| && n <= 4
  {
    if s == [] then 0
    else if s[0] <= 0x7F then 1
    else if 0xC2 <= s[0] <= 0xDF && Tail(s, 1) then 2
    else if s[0] == 0xE0 && Within(s, 1, 0xA0, 0xBF) && Tail(s, 2) then 3
    else if 0xE1 <= s[0] <= 0xEC && Tail(s, 1) && Tail(s, 2) then 3
    else if s[0] == 0xED && Within(s, 1, 0x80, 0x9F) && Tail(s, 2) then 3
    else if 0xEE <= s[0] <= 0xEF && Tail(s, 1) && Tail(s, 2) then 3
    else if s[0] == 0xF0 && Within(s, 1, 0x90, 0xBF) && Tail(s, 2) && Tail(s, 3) then 4
    else if 0xF1 <= s[0] <= 0xF3 && Tail(s, 1) && Tail(s, 2) && Tail(s, 3) then 4
    else if s[0] == 0xF4 && Within(s, 1, 0x80, 0x8F) && Tail(s, 2) && Tail(s, 3) then 4
    else 0
  }

  predicate WellFormed(s: Bytes)
    decreases |s|
  {
    s == [] || (CharLength(s) > 0 && WellFormed(s[CharLength(s)..]))
  }

  // ----- encoding

  function EncodedByte(c: Byte, allowed: set<Byte>): Bytes {
    if c in allowed then [c] else Escape(c)
  }

  function Encoded(s: Bytes, allowed: set<Byte>): Bytes {
    if s == [] then [] else EncodedByte(s[0], allowed) + Encoded(s[1..], allowed)
  }

  // ----- decoding

  /** How many continuation bytes follow the lead byte `b`; -1 if `b` leads nothing. */
  function Extra(b: Byte): int {
    if 0xC2 <= b <= 0xDF then 1 else if 0xE0 <= b <= 0xEF then 2 else if 0xF0 <= b <= 0xF4 then 3 else -1
  }

  /** The bytes that `n` escapes from `i` on stand for, if those after the first are continuation bytes. */
  function Continued(s: Bytes, i: nat, n: nat): (r: Result)
    ensures r.Ok? ==> |r.bytes| == n
  {
    if n == 0 then Ok([])
    else
      var before := Continued(s, i, n - 1);
      var b := EscapeAt(s, i + 3 * (n - 1));
      if before.Malformed? || b < 0 || (n > 1 && !(0x80 <= b < 0xC0)) then Malformed else Ok(before.bytes + [b])
  }

  /** The low bits of a byte. */
  function Low(b: Byte, range: int): int
    requires range > 0
  {
    b % range
  }

  function CodePoint(c: Bytes): int
    requires 2 <= |c| <= 4
  {
    if |c| == 2 then Low(c[0], 0x20) * 0x40 + Low(c[1], 0x40)
    else if |c| == 3 then Low(c[0], 0x10) * 0x1000 + Low(c[1], 0x40) * 0x40 + Low(c[2], 0x40)
    else Low(c[0], 8) * 0x40000 + Low(c[1], 0x40) * 0x1000 + Low(c[2], 0x40) * 0x40 + Low(c[3], 0x40)
  }

  predicate Acceptable(c: Bytes)
    requires 2 <= |c| <= 4
  {
    var minimum := if |c| == 2 then 0x80 else if |c| == 3 then 0x800 else 0x10000;
    minimum <= CodePoint(c) <= 0x10FFFF && !(0xD800 <= CodePoint(c) <= 0xDFFF)
  }

  /** What the decoder reads next: some bytes of output for some bytes of input. */
  datatype Unit = Unit(out: Bytes, length: nat) | Bad

  function Next(s: Bytes, keep: set<Byte>): (u: Unit)
    requires s != []
    ensures u.Unit? ==> 0 < u.length <= |s|
  {
    if s[0] != PERCENT then Unit([s[0]], 1)
    else
      var b := EscapeAt(s, 0);
      if b < 0 then Bad
      else if b < 0x80 then Unit(if b in keep then s[..3] else [b], 3)
      else if Extra(b) < 0 then Bad
      else
        var c := Continued(s, 0, Extra(b) + 1);
        if c.Malformed? || !Acceptable(c.bytes) then Bad
        else ContinuedFits(s, Extra(b) + 1); Unit(c.bytes, 3 * (Extra(b) + 1))
  }

  lemma {:induction false} ContinuedFits(s: Bytes, n: nat)
    requires n > 0 && Continued(s, 0, n).Ok?
    ensures 3 * n <= |s|
  {
  }

  function Prepend(out: Bytes, r: Result): Result {
    if r.Ok? then Ok(out + r.bytes) else Malformed
  }

  function Decoded(s: Bytes, keep: set<Byte>): Result
    decreases |s|
  {
    if s == [] then Ok([])
    else
      var u := Next(s, keep);
      if u.Bad? then Malformed else Prepend(u.out, Decoded(s[u.length..], keep))
  }

  // ----- the code points that are accepted

  /** The arithmetic of the decoder accepts what the grammar does. */
  lemma {:induction false} AcceptableIsGrammar(s: Bytes, n: nat)
    requires 1 < n <= |s| && Extra(s[0]) == n - 1 && forall k | 1 <= k < n :: 0x80 <= s[k] < 0xC0
    ensures Acceptable(s[..n]) <==> CharLength(s) == n
  {
  }

  // ----- decoding what was encoded

  /** Sets of characters that the encoders leave alone: ASCII, but no percent sign. */
  predicate Plain(allowed: set<Byte>) {
    PERCENT !in allowed && forall c | c in allowed :: c < 0x80
  }

  lemma {:induction false} EncodedSplit(s: Bytes, t: Bytes, allowed: set<Byte>)
    ensures Encoded(s + t, allowed) == Encoded(s, allowed) + Encoded(t, allowed)
  {
    if s == [] {
      assert s + t == t;
    } else {
      assert (s + t)[1..] == s[1..] + t;
      EncodedSplit(s[1..], t, allowed);
    }
  }

  /** Byte `k`, if it and those before it are escaped, is at three times `k`. */
  lemma {:induction false} EncodedAt(s: Bytes, k: nat, allowed: set<Byte>)
    requires k < |s| && forall j | 0 <= j < k :: s[j] !in allowed
    ensures |Encoded(s[..k], allowed)| == 3 * k
    ensures Encoded(s, allowed) == Encoded(s[..k], allowed) + EncodedByte(s[k], allowed) + Encoded(s[k + 1..], allowed)
    ensures s[k] !in allowed ==> EscapeAt(Encoded(s, allowed), 3 * k) == s[k]
  {
    EscapedLength(s[..k], allowed);
    assert s == s[..k] + s[k..] && s[k..][1..] == s[k + 1..];
    EncodedSplit(s[..k], s[k..], allowed);
    if s[k] !in allowed { EscapeReads(s[k], Encoded(s[..k], allowed), Encoded(s[k + 1..], allowed)); }
  }

  lemma {:induction false} EscapedLength(s: Bytes, allowed: set<Byte>)
    requires forall j | 0 <= j < |s| :: s[j] !in allowed
    ensures |Encoded(s, allowed)| == 3 * |s|
  {
    if s != [] { EscapedLength(s[1..], allowed); }
  }

  /** At a byte that is missing, or that is kept, there is no escape. */
  lemma {:induction false} NoEscapeAt(s: Bytes, k: nat, allowed: set<Byte>)
    requires Plain(allowed) && k <= |s| && (forall j | 0 <= j < k :: s[j] !in allowed) && (k < |s| ==> s[k] in allowed)
    ensures EscapeAt(Encoded(s, allowed), 3 * k) == -1
  {
    if k < |s| {
      EncodedAt(s, k, allowed);
      assert Encoded(s, allowed)[3 * k] == s[k];
    } else {
      EscapedLength(s, allowed);
    }
  }

  /** The decoder reads the bytes of a character back, and stops where they are not continuation bytes. */
  lemma {:induction false} ContinuedEncoded(s: Bytes, n: nat, allowed: set<Byte>)
    requires Plain(allowed) && s != [] && s[0] >= 0x80 && 0 < n
    ensures Continued(Encoded(s, allowed), 0, n) ==
      if n <= |s| && forall k | 1 <= k < n :: 0x80 <= s[k] < 0xC0 then Ok(s[..n]) else Malformed
  {
    hide Encoded, EscapeAt;
    if n > 1 { ContinuedEncoded(s, n - 1, allowed); }
    if n - 1 <= |s| && forall k | 1 <= k < n - 1 :: 0x80 <= s[k] < 0xC0 {
      if n - 1 < |s| && s[n - 1] !in allowed {
        EncodedAt(s, n - 1, allowed);
        assert s[..n] == s[..n - 1] + [s[n - 1]];
      } else {
        NoEscapeAt(s, n - 1, allowed);
      }
    }
  }

  /** The decoder reads one character back, or rejects what is none. Characters that it would keep escaped were not
      escaped. */
  lemma {:induction false} NextEncoded(s: Bytes, allowed: set<Byte>, keep: set<Byte>)
    requires Plain(allowed) && keep <= allowed && s != []
    ensures Encoded(s, allowed) != []
    ensures var u := Next(Encoded(s, allowed), keep); var n := CharLength(s);
      if n == 0 then u.Bad?
      else u.Unit? && u.out == s[..n] && Encoded(s, allowed)[u.length..] == Encoded(s[n..], allowed)
  {
    hide CharLength, Acceptable, Encoded, EscapeAt, Continued;
    EncodedAt(s, 0, allowed);
    EncodedHead(s, allowed);
    CharLengths(s);
    var e := Encoded(s, allowed);
    if s[0] >= 0x80 && Extra(s[0]) > 0 {
      var n := Extra(s[0]) + 1;
      ContinuedEncoded(s, n, allowed);
      if n <= |s| && forall k | 1 <= k < n :: 0x80 <= s[k] < 0xC0 {
        AcceptableIsGrammar(s, n);
        EncodedTail(s, n, allowed);
      }
    }
  }

  lemma {:induction false} EncodedHead(s: Bytes, allowed: set<Byte>)
    requires s != []
    ensures Encoded(s, allowed) == EncodedByte(s[0], allowed) + Encoded(s[1..], allowed)
    ensures Encoded(s, allowed) != []
    ensures s[0] in allowed ==> Encoded(s, allowed)[0] == s[0] && Encoded(s, allowed)[1..] == Encoded(s[1..], allowed)
    ensures s[0] !in allowed ==>
      Encoded(s, allowed)[0] == PERCENT && |Encoded(s, allowed)| >= 3
        && Encoded(s, allowed)[3..] == Encoded(s[1..], allowed)
  {
  }

  lemma {:induction false} EncodedTail(s: Bytes, n: nat, allowed: set<Byte>)
    requires n <= |s| && forall j | 0 <= j < n :: s[j] !in allowed
    ensures 3 * n <= |Encoded(s, allowed)| && Encoded(s, allowed)[3 * n..] == Encoded(s[n..], allowed)
  {
    EscapedLength(s[..n], allowed);
    assert s == s[..n] + s[n..];
    EncodedSplit(s[..n], s[n..], allowed);
  }

  /** When a character begins with its lead byte. */
  lemma {:induction false} CharLengths(s: Bytes)
    requires s != []
    ensures s[0] < 0x80 ==> CharLength(s) == 1 && s[..1] == [s[0]]
    ensures s[0] >= 0x80 && CharLength(s) > 0 ==> CharLength(s) == Extra(s[0]) + 1 && 1 < CharLength(s)
    ensures forall k | 1 <= k < CharLength(s) :: 0x80 <= s[k] < 0xC0
  {
  }

  /** Decoding what was encoded gives the same bytes back exactly if they are well-formed UTF-8, and fails otherwise. */
  lemma {:induction false} DecodedEncoded(s: Bytes, allowed: set<Byte>, keep: set<Byte>)
    requires Plain(allowed) && keep <= allowed
    ensures Decoded(Encoded(s, allowed), keep) == if WellFormed(s) then Ok(s) else Malformed
    decreases |s|
  {
    hide CharLength, Next, Encoded;
    if s == [] {
      EncodedNothing(allowed);
    } else {
      NextEncoded(s, allowed, keep);
      var n := CharLength(s);
      if n > 0 {
        DecodedEncoded(s[n..], allowed, keep);
        assert s == s[..n] + s[n..];
      }
    }
  }

  lemma {:induction false} EncodedNothing(allowed: set<Byte>)
    ensures Encoded([], allowed) == []
  {
  }

  // ----- the four functions

  predicate Alphanumeric(c: Byte) {
    0x41 <= c <= 0x5A || 0x61 <= c <= 0x7A || 0x30 <= c <= 0x39
  }

  /** `- _ . ! ~ * ' ( )` */
  const MARKS: set<Byte> := {0x2D, 0x5F, 0x2E, 0x21, 0x7E, 0x2A, 0x27, 0x28, 0x29}

  /** `; , / ? : @ & = + $ #` */
  const RESERVED: set<Byte> := {0x3B, 0x2C, 0x2F, 0x3F, 0x3A, 0x40, 0x26, 0x3D, 0x2B, 0x24, 0x23}

  const COMPONENT: set<Byte> := set c: Byte | 0 <= c < 0x80 && (Alphanumeric(c) || c in MARKS)

  const WHOLE: set<Byte> := COMPONENT + RESERVED

  function EncodeURIComponent(s: Bytes): Bytes { Encoded(s, COMPONENT) }

  function EncodeURI(s: Bytes): Bytes { Encoded(s, WHOLE) }

  function DecodeURIComponent(s: Bytes): Result { Decoded(s, {}) }

  function DecodeURI(s: Bytes): Result { Decoded(s, RESERVED) }

  lemma {:induction false} ComponentRoundTrip(s: Bytes)
    ensures DecodeURIComponent(EncodeURIComponent(s)) == if WellFormed(s) then Ok(s) else Malformed
  {
    DecodedEncoded(s, COMPONENT, {});
  }

  lemma {:induction false} WholeRoundTrip(s: Bytes)
    ensures DecodeURI(EncodeURI(s)) == if WellFormed(s) then Ok(s) else Malformed
  {
    DecodedEncoded(s, WHOLE, RESERVED);
  }

  /** The encoded form of a surrogate is written out by the encoder and rejected by the decoder. */
  lemma {:induction false} SurrogateFails()
    ensures EncodeURIComponent([0xED, 0xA0, 0x80]) ==
      Escape(0xED) + Escape(0xA0) + Escape(0x80)
    ensures DecodeURIComponent(EncodeURIComponent([0xED, 0xA0, 0x80])) == Malformed
  {
    var s: Bytes := [0xED, 0xA0, 0x80];
    assert CharLength(s) == 0;
    ComponentRoundTrip(s);
    EncodedStep(s, 0, COMPONENT);
    EncodedStep(s, 1, COMPONENT);
    EncodedStep(s, 2, COMPONENT);
    assert s[0..] == s && s[3..] == [];
  }

  // ----- what is decoded is well-formed

  lemma {:induction false} DropAscii(s: Bytes, k: nat)
    requires WellFormed(s) && k <= |s| && forall j | 0 <= j < k :: s[j] < 0x80
    ensures WellFormed(s[k..])
  {
    if k > 0 {
      CharLengths(s);
      DropAscii(s[1..], k - 1);
      assert s[1..][k - 1..] == s[k..];
    } else {
      assert s[k..] == s;
    }
  }

  /** A character is recognised by its own bytes alone. */
  lemma {:induction false} CharPrefix(s: Bytes, rest: Bytes)
    requires CharLength(s) > 0 && WellFormed(rest)
    ensures WellFormed(s[..CharLength(s)] + rest)
  {
    var n := CharLength(s);
    var t := s[..n] + rest;
    assert CharLength(t) == n;
    assert t[n..] == rest;
  }

  lemma {:induction false} EscapesAreAscii(s: Bytes, n: nat)
    requires Continued(s, 0, n).Ok?
    ensures 3 * n <= |s| && forall j | 0 <= j < 3 * n :: s[j] < 0x80
  {
    if n > 0 { EscapesAreAscii(s, n - 1); }
  }

  lemma {:induction false} PrependTwice(a: Bytes, b: Bytes, r: Result)
    ensures Prepend(a, Prepend(b, r)) == Prepend(a + b, r)
  {
    if r.Ok? { assert a + (b + r.bytes) == a + b + r.bytes; }
  }

  /** What is not an escape is copied. */
  lemma {:induction false} CopiedBytes(s: Bytes, n: nat, keep: set<Byte>)
    requires n <= |s| && forall j | 0 <= j < n :: s[j] != PERCENT
    ensures Decoded(s, keep) == Prepend(s[..n], Decoded(s[n..], keep))
  {
    hide Continued, Acceptable, EscapeAt;
    if n == 0 {
      assert s[..0] == [] && s[0..] == s;
      PrependNothing(Decoded(s, keep));
    } else {
      CopiedBytes(s[1..], n - 1, keep);
      assert s[1..][n - 1..] == s[n..] && [s[0]] + s[1..][..n - 1] == s[..n];
      PrependTwice([s[0]], s[1..][..n - 1], Decoded(s[n..], keep));
    }
  }

  lemma {:induction false} PrependNothing(r: Result)
    ensures Prepend([], r) == r
  {
  }

  /** Decoding keeps well-formed UTF-8 well-formed. */
  lemma {:induction false} DecodedWellFormed(s: Bytes, keep: set<Byte>)
    requires WellFormed(s) && Decoded(s, keep).Ok?
    ensures WellFormed(Decoded(s, keep).bytes)
    decreases |s|
  {
    hide Acceptable, CharLength, EscapeAt, Continued;
    if s != [] {
      CharLengths(s);
      var n := CharLength(s);
      if s[0] != PERCENT {
        CopiedBytes(s, n, keep);
        DecodedWellFormed(s[n..], keep);
        CharPrefix(s, Decoded(s[n..], keep).bytes);
      } else {
        var u := Next(s, keep);
        NextIsChar(s, keep);
        DropAscii(s, u.length);
        DecodedWellFormed(s[u.length..], keep);
        OutWellFormed(u.out, Decoded(s[u.length..], keep).bytes);
      }
    }
  }

  /** An escape yields one character, or stays as three ASCII characters. */
  lemma {:induction false} NextIsChar(s: Bytes, keep: set<Byte>)
    requires s != [] && s[0] == PERCENT && Next(s, keep).Unit?
    ensures var u := Next(s, keep);
      && (forall j | 0 <= j < u.length :: s[j] < 0x80)
      && ((forall j | 0 <= j < |u.out| :: u.out[j] < 0x80) || (u.out != [] && CharLength(u.out) == |u.out|))
  {
    hide Acceptable;
    var b := EscapeAt(s, 0);
    if b >= 0x80 {
      var n := Extra(b) + 1;
      var c := Continued(s, 0, n).bytes;
      EscapesAreAscii(s, n);
      ContinuedBytes(s, n);
      AcceptableIsGrammar(c, n);
      assert c[..n] == c;
    }
  }

  lemma {:induction false} ContinuedBytes(s: Bytes, n: nat)
    requires n > 0 && Continued(s, 0, n).Ok?
    ensures Continued(s, 0, n).bytes[0] == EscapeAt(s, 0)
    ensures forall k | 1 <= k < n :: 0x80 <= Continued(s, 0, n).bytes[k] < 0xC0
  {
    if n > 1 { ContinuedBytes(s, n - 1); }
  }

  lemma {:induction false} OutWellFormed(out: Bytes, rest: Bytes)
    requires (forall j | 0 <= j < |out| :: out[j] < 0x80) || (out != [] && CharLength(out) == |out|)
    requires WellFormed(rest)
    ensures WellFormed(out + rest)
  {
    hide CharLength;
    if out == [] {
      assert out + rest == rest;
    } else if CharLength(out) == |out| {
      CharPrefix(out, rest);
      assert out[..|out|] == out;
    } else {
      OutWellFormed(out[1..], rest);
      CharLengths(out + rest);
      assert (out + rest)[1..] == out[1..] + rest;
    }
  }

  // ----- the loops

  /** One round of the encoding loop. */
  lemma {:induction false} EncodedStep(s: Bytes, i: nat, allowed: set<Byte>)
    requires i < |s|
    ensures Encoded(s[i..], allowed) == EncodedByte(s[i], allowed) + Encoded(s[i + 1..], allowed)
  {
    assert s[i..][1..] == s[i + 1..];
  }

  method Encode(s: Bytes, allowed: set<Byte>) returns (out: Bytes)
    ensures out == Encoded(s, allowed)
  {
    hide Encoded;
    out := [];
    assert s[0..] == s;
    for i := 0 to |s|
      invariant Encoded(s, allowed) == out + Encoded(s[i..], allowed)
    {
      EncodedStep(s, i, allowed);
      var c := s[i];
      assert Encoded(s, allowed) == out + EncodedByte(c, allowed) + Encoded(s[i + 1..], allowed);
      if c in allowed { out := out + [c]; } else { out := out + [PERCENT, HexDigit(c / 16), HexDigit(c % 16)]; }
    }
    EncodedEnd(s[|s|..], allowed);
  }

  lemma {:induction false} EncodedEnd(s: Bytes, allowed: set<Byte>)
    requires s == []
    ensures Encoded(s, allowed) == []
  {
  }

  lemma {:induction false} EscapeWithin(s: Bytes, i: nat, j: nat)
    requires i <= |s|
    ensures EscapeAt(s[i..], j) == EscapeAt(s, i + j)
  {
  }

  /** The escapes of one character from `i` on, after the first. */
  method Continue(s: Bytes, i: nat, extra: nat, b: Byte) returns (r: Result)
    requires i < |s| && EscapeAt(s[i..], 0) == b
    ensures r == Continued(s[i..], 0, extra + 1)
  {
    hide Continued, HexValue;
    ghost var t := s[i..];
    var c: Bytes := [b];
    FirstContinued(t, b);
    for k := 1 to extra + 1
      invariant Continued(t, 0, k) == Ok(c)
    {
      var pos := i + 3 * k;
      EscapeWithin(s, i, 3 * k);
      NextContinued(t, k, c, extra + 1);
      if pos + 2 >= |s| || s[pos] != PERCENT { return Malformed; }
      var c1, c2 := HexValue(s[pos + 1]), HexValue(s[pos + 2]);
      if c1 < 0 || c2 < 0 { return Malformed; }
      var cb := c1 * 16 + c2;
      if !(0x80 <= cb < 0xC0) { return Malformed; }
      c := c + [cb];
    }
    r := Ok(c);
  }

  lemma {:induction false} FirstContinued(s: Bytes, b: Byte)
    requires EscapeAt(s, 0) == b
    ensures Continued(s, 0, 1) == Ok([b])
  {
    assert Continued(s, 0, 0) == Ok([]);
  }

  /** One round: the next continuation byte, or none and then never. */
  lemma {:induction false} NextContinued(s: Bytes, k: nat, c: Bytes, n: nat)
    requires 0 < k < n && Continued(s, 0, k) == Ok(c)
    ensures var b := EscapeAt(s, 3 * k);
      if b < 0 || !(0x80 <= b < 0xC0) then Continued(s, 0, n).Malformed? else Continued(s, 0, k + 1) == Ok(c + [b])
  {
    hide EscapeAt;
    var b := EscapeAt(s, 3 * k);
    if b < 0 || !(0x80 <= b < 0xC0) { NeverMore(s, k + 1, n); }
  }

  lemma {:induction false} NeverMore(s: Bytes, m: nat, n: nat)
    requires m <= n && Continued(s, 0, m).Malformed?
    ensures Continued(s, 0, n).Malformed?
  {
    if m < n { NeverMore(s, m, n - 1); }
  }

  /** One round of the loop. */
  lemma {:induction false} DecodedStep(s: Bytes, keep: set<Byte>, out: Bytes, i: nat)
    requires i < |s| && Decoded(s, keep) == Prepend(out, Decoded(s[i..], keep))
    ensures var u := Next(s[i..], keep);
      if u.Bad? then Decoded(s, keep) == Malformed
      else i + u.length <= |s| && Decoded(s, keep) == Prepend(out + u.out, Decoded(s[i + u.length..], keep))
  {
    hide Next;
    var u := Next(s[i..], keep);
    if u.Unit? {
      assert s[i..][u.length..] == s[i + u.length..];
      PrependTwice(out, u.out, Decoded(s[i + u.length..], keep));
    }
  }

  method Decode(s: Bytes, keep: set<Byte>) returns (r: Result)
    ensures r == Decoded(s, keep)
  {
    hide EscapeAt, Continued, Acceptable, Decoded, Prepend;
    var out: Bytes := [];
    var i := 0;
    assert s[0..] == s;
    PrependNothing(Decoded(s, keep));
    while i < |s|
      invariant i <= |s| && Decoded(s, keep) == Prepend(out, Decoded(s[i..], keep))
    {
      ghost var t := s[i..];
      DecodedStep(s, keep, out, i);
      if s[i] != PERCENT {
        out := out + [s[i]];
        i := i + 1;
        continue;
      }
      EscapeWithin(s, i, 0);
      var b := EscapeAt(s, i);
      if b < 0 { return Malformed; }
      if b < 0x80 {
        EscapeFits(s, i);
        if b in keep { out := out + [s[i], s[i + 1], s[i + 2]]; } else { out := out + [b]; }
        i := i + 3;
        continue;
      }
      var extra := Extra(b);
      if extra < 0 { return Malformed; }
      var c := Continue(s, i, extra, b);
      if c.Malformed? || !Acceptable(c.bytes) { return Malformed; }
      out := out + c.bytes;
      i := i + 3 * (extra + 1);
    }
    DecodedNothing(s[i..], keep, out);
    r := Ok(out);
  }

  lemma {:induction false} DecodedNothing(s: Bytes, keep: set<Byte>, out: Bytes)
    requires s == []
    ensures Prepend(out, Decoded(s, keep)) == Ok(out)
  {
  }

  lemma {:induction false} EscapeFits(s: Bytes, i: nat)
    requires EscapeAt(s, i) >= 0
    ensures i + 2 < |s| && s[i..][..3] == [s[i], s[i + 1], s[i + 2]]
  {
  }
}
