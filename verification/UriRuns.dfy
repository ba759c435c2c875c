/** What decoding a URI means, run by run: the escapes that stand next to each other are one piece of text. */
module UriRuns {
  import opened ByteStrings
  import opened PercentEscape
  import opened UriCodec

  /** The bytes of the escapes that `s` begins with, as many as follow each other. */
  function Run(s: Bytes): (c: Bytes)
    ensures 3 * |c| <= |s|
  {
    if EscapeAt(s, 0) < 0 then [] else [EscapeAt(s, 0)] + Run(s[3..])
  }

  /** A run with the bytes `c` once it is decoded: what is in `keep` stays as it was written. */
  function RunText(s: Bytes, c: Bytes, keep: set<Byte>): Bytes
    requires 3 * |c| <= |s|
  {
    if c == [] then [] else (if c[0] in keep then s[..3] else [c[0]]) + RunText(s[3..], c[1..], keep)
  }

  /** Text is copied, a run of escapes has to be well-formed UTF-8, and a percent sign alone is an error. */
  function RunDecoded(s: Bytes, keep: set<Byte>): Result {
    if s == [] then Ok([])
    else if s[0] != PERCENT then Prepend([s[0]], RunDecoded(s[1..], keep))
    else
      var c := Run(s);
      if c == [] || !WellFormed(c) then Malformed
      else Prepend(RunText(s, c, keep), RunDecoded(s[3 * |c|..], keep))
  }

  ghost predicate Ascii(keep: set<Byte>) {
    forall b | b in keep :: b < 0x80
  }

  /** From the start of `s` on there are escapes for exactly the bytes `c`, and then no escape. */
  ghost predicate Escapes(s: Bytes, c: Bytes) {
    && 3 * |c| <= |s|
    && (forall k | 0 <= k < |c| :: EscapeAt(s, 3 * k) == c[k])
    && EscapeAt(s, 3 * |c|) < 0
  }

  lemma {:induction false} RunEscapes(s: Bytes)
    ensures Escapes(s, Run(s))
  {
    if EscapeAt(s, 0) >= 0 {
      RunEscapes(s[3..]);
      var c := Run(s);
      forall k | 0 <= k < |c|
        ensures EscapeAt(s, 3 * k) == c[k]
      {
        if k > 0 { EscapeWithin(s, 3, 3 * (k - 1)); }
      }
      EscapeWithin(s, 3, 3 * |Run(s[3..])|);
    }
  }

  lemma {:induction false} DropEscapes(s: Bytes, c: Bytes, n: nat)
    requires Escapes(s, c) && n <= |c|
    ensures Escapes(s[3 * n..], c[n..])
  {
    hide EscapeAt;
    var t, d := s[3 * n..], c[n..];
    forall k | 0 <= k < |d|
      ensures EscapeAt(t, 3 * k) == d[k]
    {
      EscapeWithin(s, 3 * n, 3 * k);
      assert EscapeAt(s, 3 * (n + k)) == c[n + k];
    }
    EscapeWithin(s, 3 * n, 3 * |d|);
  }

  /** The decoder reads a character from a run as far as the run has bytes that continue it. */
  lemma {:induction false} ContinuedRun(s: Bytes, c: Bytes, n: nat)
    requires Escapes(s, c) && c != [] && n > 0
    ensures Continued(s, 0, n) ==
      if n <= |c| && forall k | 1 <= k < n :: 0x80 <= c[k] < 0xC0 then Ok(c[..n]) else Malformed
  {
    hide EscapeAt;
    if n == 1 {
      FirstContinued(s, c[0]);
      assert c[..1] == [c[0]];
    } else {
      ContinuedRun(s, c, n - 1);
      if n <= |c| { assert c[..n] == c[..n - 1] + [c[n - 1]]; }
    }
  }

  /** The text of a run begins with its first `n` bytes if none of them is kept. */
  lemma {:induction false} TextSplit(s: Bytes, c: Bytes, n: nat, keep: set<Byte>)
    requires 3 * |c| <= |s| && n <= |c| && forall k | 0 <= k < n :: c[k] !in keep
    ensures RunText(s, c, keep) == c[..n] + RunText(s[3 * n..], c[n..], keep)
  {
    if n == 0 {
      assert s[0..] == s && c[0..] == c;
    } else {
      TextSplit(s[3..], c[1..], n - 1, keep);
      assert s[3..][3 * (n - 1)..] == s[3 * n..] && c[1..][n - 1..] == c[n..];
      assert c[..n] == [c[0]] + c[1..][..n - 1];
    }
  }

  /** What the decoder reads first from a run is its first character, and it fails if there is none. */
  lemma {:induction false} NextInRun(s: Bytes, c: Bytes, keep: set<Byte>)
    requires Escapes(s, c) && c != [] && Ascii(keep)
    ensures s != []
    ensures var u := Next(s, keep); var n := CharLength(c);
      if n == 0 then u.Bad?
      else u.Unit? && u.length == 3 * n && RunText(s, c, keep) == u.out + RunText(s[3 * n..], c[n..], keep)
  {
    hide CharLength, Acceptable, Continued;
    CharLengths(c);
    assert EscapeAt(s, 3 * 0) == c[0];
    if c[0] >= 0x80 && Extra(c[0]) > 0 {
      var n := Extra(c[0]) + 1;
      ContinuedRun(s, c, n);
      if n <= |c| && forall k | 1 <= k < n :: 0x80 <= c[k] < 0xC0 {
        AcceptableIsGrammar(c, n);
        TextSplit(s, c, n, keep);
      }
    }
  }

  /** A run of escapes is decoded exactly if its bytes are well-formed UTF-8. */
  lemma {:induction false} RunIsRead(s: Bytes, c: Bytes, keep: set<Byte>)
    requires Escapes(s, c) && Ascii(keep)
    ensures Decoded(s, keep) ==
      if WellFormed(c) then Prepend(RunText(s, c, keep), Decoded(s[3 * |c|..], keep)) else Malformed
    decreases |c|
  {
    hide CharLength, Next, EscapeAt;
    if c == [] {
      assert s[0..] == s;
      PrependNothing(Decoded(s, keep));
    } else {
      NextInRun(s, c, keep);
      var n := CharLength(c);
      if n > 0 {
        DropEscapes(s, c, n);
        RunIsRead(s[3 * n..], c[n..], keep);
        assert s[3 * n..][3 * |c[n..]|..] == s[3 * |c|..];
        PrependTwice(Next(s, keep).out, RunText(s[3 * n..], c[n..], keep), Decoded(s[3 * |c|..], keep));
      }
    }
  }

  /** Decoding is decoding run by run, for every string. */
  lemma {:induction false} DecodedByRuns(s: Bytes, keep: set<Byte>)
    requires Ascii(keep)
    ensures Decoded(s, keep) == RunDecoded(s, keep)
    decreases |s|
  {
    hide WellFormed, EscapeAt, RunText;
    if s != [] {
      if s[0] != PERCENT {
        DecodedByRuns(s[1..], keep);
      } else {
        var c := Run(s);
        RunEscapes(s);
        RunIsRead(s, c, keep);
        if c != [] { DecodedByRuns(s[3 * |c|..], keep); }
      }
    }
  }

  /** A string of escapes, with digits of either case, is accepted exactly if the escaped bytes are well-formed
      UTF-8. */
  lemma {:induction false} EscapesAccepted(s: Bytes, c: Bytes)
    requires |s| == 3 * |c| && forall k | 0 <= k < |c| :: EscapeAt(s, 3 * k) == c[k]
    ensures DecodeURIComponent(s) == if WellFormed(c) then Ok(c) else Malformed
  {
    hide WellFormed;
    RunIsRead(s, c, {});
    TextSplit(s, c, |c|, {});
    assert c[..|c|] == c;
  }
}
