/** The characters that the URI functions and form encoding write, keep and read, letter by letter. */
module UriAlphabets {
  import opened ByteStrings
  import opened PercentEscape
  import U = UriCodec
  import F = UrlSearchParams

  /** What `encodeURIComponent` leaves alone besides letters and digits. */
  const MARKS := "-_.!~*'()"

  /** What only `encodeURI` leaves alone, and `decodeURI` does not decode. */
  const RESERVED := ";,/?:@&=+$#"

  /** What form encoding leaves alone besides letters and digits. */
  const FORM_MARKS := "*-._"

  const UPPER_DIGITS := "0123456789ABCDEF"

  const LOWER_DIGITS := "0123456789abcdef"

  predicate In(c: Byte, alphabet: string) {
    c as char in alphabet
  }

  /** Letters, digits and some marks. */
  predicate Kept(c: Byte, marks: string) {
    'A' <= c as char <= 'Z' || 'a' <= c as char <= 'z' || '0' <= c as char <= '9' || In(c, marks)
  }

  // ----- digits

  /** Digits are written in upper case and read in either; no other character is a digit. */
  lemma {:induction false} DigitsRead(c: Byte)
    ensures forall n | 0 <= n < 16 :: HexDigit(n) as char == UPPER_DIGITS[n]
    ensures forall n | 0 <= n < 16 && (c as char == UPPER_DIGITS[n] || c as char == LOWER_DIGITS[n]) :: HexValue(c) == n
    ensures HexValue(c) >= 0 <==> In(c, UPPER_DIGITS + LOWER_DIGITS)
  {
  }

  // ----- what is kept

  lemma {:induction false} KeptAre(c: Byte)
    ensures c in U.COMPONENT <==> Kept(c, MARKS)
    ensures c in U.WHOLE <==> Kept(c, MARKS + RESERVED)
    ensures c in U.RESERVED <==> In(c, RESERVED)
    ensures F.Unreserved(c) <==> Kept(c, FORM_MARKS)
    ensures Kept(c, MARKS) ==> !In(c, RESERVED)
  {
  }

  /** `allowed` is what is left alone besides letters and digits. */
  ghost predicate Allows(allowed: set<Byte>, marks: string) {
    forall c: Byte :: c in allowed <==> Kept(c, marks)
  }

  lemma {:induction false} AllowedAre()
    ensures Allows(U.COMPONENT, MARKS) && Allows(U.WHOLE, MARKS + RESERVED)
  {
    hide Kept, In;
    forall c: Byte ensures c in U.COMPONENT <==> Kept(c, MARKS) { KeptAre(c); }
    forall c: Byte ensures c in U.WHOLE <==> Kept(c, MARKS + RESERVED) { KeptAre(c); }
  }

  // ----- what encoding writes

  lemma {:induction false} EncodedBytes(s: Bytes, allowed: set<Byte>, marks: string)
    requires Allows(allowed, marks)
    ensures forall c | c in U.Encoded(s, allowed) :: Kept(c, marks) || c as char == '%'
  {
    hide HexDigit, In;
    if s != [] {
      DigitsRead(s[0]);
      EncodedBytes(s[1..], allowed, marks);
      assert forall c | c in U.EncodedByte(s[0], allowed) :: Kept(c, marks) || c as char == '%' by {
        HexIsKept(s[0] / 16, marks);
        HexIsKept(s[0] % 16, marks);
      }
    }
  }

  lemma {:induction false} HexIsKept(n: int, marks: string)
    requires 0 <= n < 16
    ensures Kept(HexDigit(n), marks)
  {
  }

  /** What is encoded consists of percent signs and of what is left alone; for `encodeURIComponent` this leaves out
      every reserved character. */
  lemma {:induction false} EncodedWrites(s: Bytes)
    ensures forall c | c in U.EncodeURIComponent(s) :: (Kept(c, MARKS) || c as char == '%') && !In(c, RESERVED)
    ensures forall c | c in U.EncodeURI(s) :: Kept(c, MARKS + RESERVED) || c as char == '%'
  {
    hide U.Encoded, U.COMPONENT, U.WHOLE, Allows, In, Kept;
    AllowedAre();
    EncodedBytes(s, U.COMPONENT, MARKS);
    EncodedBytes(s, U.WHOLE, MARKS + RESERVED);
    forall c | c in U.EncodeURIComponent(s) ensures !In(c, RESERVED) {
      if c as char == '%' { PercentIsNot(); } else { KeptAre(c); }
    }
  }

  lemma {:induction false} PercentIsNot()
    ensures !In('%' as int, RESERVED)
  {
  }

  lemma {:induction false} EncodedGrows(s: Bytes, allowed: set<Byte>)
    ensures |U.Encoded(s, allowed)| >= |s|
    ensures if forall c | c in s :: c in allowed then U.Encoded(s, allowed) == s else |U.Encoded(s, allowed)| > |s|
  {
    if s != [] {
      EncodedGrows(s[1..], allowed);
      assert s == [s[0]] + s[1..];
    }
  }

  lemma {:induction false} AllowedAll(s: Bytes, allowed: set<Byte>, marks: string)
    requires Allows(allowed, marks)
    ensures U.Encoded(s, allowed) == s <==> forall c | c in s :: Kept(c, marks)
  {
    hide U.Encoded, Kept;
    EncodedGrows(s, allowed);
  }

  /** Encoding changes nothing exactly if there is nothing to escape. */
  lemma {:induction false} UnchangedIff(s: Bytes)
    ensures U.EncodeURIComponent(s) == s <==> forall c | c in s :: Kept(c, MARKS)
    ensures U.EncodeURI(s) == s <==> forall c | c in s :: Kept(c, MARKS + RESERVED)
  {
    hide U.Encoded, U.COMPONENT, U.WHOLE, Allows, Kept;
    AllowedAre();
    AllowedAll(s, U.COMPONENT, MARKS);
    AllowedAll(s, U.WHOLE, MARKS + RESERVED);
  }

  // ----- what decoding keeps

  lemma {:induction false} DecodedOne(s: Bytes, keep: set<Byte>)
    requires 0 <= EscapeAt(s, 0) < 0x80 && |s| >= 3
    ensures U.Decoded(s, keep) ==
      U.Prepend(if EscapeAt(s, 0) in keep then s[..3] else [EscapeAt(s, 0)], U.Decoded(s[3..], keep))
  {
    hide HexValue;
  }

  /** An escape of an ASCII character is decoded, but `decodeURI` keeps the escape of a reserved one. */
  lemma {:induction false} DecodedAscii(s: Bytes)
    requires 0 <= EscapeAt(s, 0) < 0x80 && |s| >= 3
    ensures U.DecodeURIComponent(s) == U.Prepend([EscapeAt(s, 0)], U.DecodeURIComponent(s[3..]))
    ensures U.DecodeURI(s) ==
      U.Prepend(if In(EscapeAt(s, 0), RESERVED) then s[..3] else [EscapeAt(s, 0)], U.DecodeURI(s[3..]))
  {
    hide EscapeAt, U.Prepend, U.Decoded, In;
    KeptAre(EscapeAt(s, 0));
    DecodedOne(s, {});
    DecodedOne(s, U.RESERVED);
  }

  // ----- form encoding

  /** Form-encoded text consists of letters, digits, a few marks, plus signs and percent signs. */
  lemma {:induction false} FormWrites(s: Bytes)
    ensures forall c | c in F.Encoded(s) :: Kept(c, FORM_MARKS) || c as char == '+' || c as char == '%'
  {
    hide HexDigit, In, Kept, F.Unreserved;
    if s != [] {
      FormWrites(s[1..]);
      KeptAre(s[0]);
      HexIsKept(s[0] / 16, FORM_MARKS);
      HexIsKept(s[0] % 16, FORM_MARKS);
      assert forall c | c in F.EncodedByte(s[0]) :: Kept(c, FORM_MARKS) || c as char == '+' || c as char == '%';
    }
  }

  /** Form encoding leaves letters, digits and the marks alone, and only these. */
  lemma {:induction false} FormUnchangedIff(s: Bytes)
    ensures F.Encoded(s) == s <==> forall c | c in s :: Kept(c, FORM_MARKS)
  {
    hide Kept, HexDigit;
    if s != [] {
      KeptAre(s[0]);
      FormGrows(s[1..]);
      FormUnchangedIff(s[1..]);
      assert s == [s[0]] + s[1..] && s[0] in s;
      if F.Encoded(s) == s {
        assert |F.EncodedByte(s[0])| == 1;
        assert F.Encoded(s)[1..] == F.Encoded(s[1..]);
      }
    }
  }

  lemma {:induction false} FormGrows(s: Bytes)
    ensures |F.Encoded(s)| >= |s|
  {
    if s != [] { FormGrows(s[1..]); }
  }

  /** A space becomes a plus sign, wherever it stands. */
  lemma {:induction false} FormSpace(s: Bytes, t: Bytes)
    ensures F.Encoded(s + [' ' as int] + t) == F.Encoded(s) + ['+' as int] + F.Encoded(t)
  {
    var u := s + [' ' as int] + t;
    if s != [] {
      FormSpace(s[1..], t);
      assert u[1..] == s[1..] + [' ' as int] + t;
    }
  }
}
