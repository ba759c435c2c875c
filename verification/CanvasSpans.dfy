/**
  From the crossings of one sub-scanline to its covered spans: sorting, the nonzero and even-odd scans,
  and how much of a pixel the spans cover.
 */
module CanvasSpans {
  import opened CanvasGeometry
  import opened Collections

  datatype Span = Span(xa: real, xb: real)

  // ----- sorting

  ghost predicate SortedBy<T>(xs: seq<T>, key: T -> real) {
    forall i, j | 0 <= i < j < |xs| :: key(xs[i]) <= key(xs[j])
  }

  /** `xs` with element `i` moved down to place `j`. */
  function Moved<T>(xs: seq<T>, i: nat, j: nat): seq<T>
    requires j <= i < |xs|
  {
    xs[..j] + [xs[i]] + xs[j..i] + xs[i + 1..]
  }

  lemma {:induction false} MovedKeeps<T>(xs: seq<T>, i: nat, j: nat)
    requires j <= i < |xs|
    ensures multiset(Moved(xs, i, j)) == multiset(xs)
  {
    assert xs == xs[..j] + xs[j..i] + [xs[i]] + xs[i + 1..];
  }

  lemma {:induction false} MovedSorted<T>(xs: seq<T>, i: nat, j: nat, key: T -> real)
    requires j <= i < |xs| && SortedBy(xs[..i], key)
    requires (j > 0 ==> key(xs[j - 1]) <= key(xs[i])) && (j < i ==> key(xs[i]) <= key(xs[j]))
    ensures SortedBy(Moved(xs, i, j)[..i + 1], key)
  {
    var s, t := xs[..i], Moved(xs, i, j)[..i + 1];
    forall p | 0 <= p <= i ensures t[p] == if p < j then s[p] else if p == j then xs[i] else s[p - 1] { }
    forall p, q | 0 <= p < q <= i ensures key(t[p]) <= key(t[q]) {
      if p == j { assert key(s[j]) <= key(s[q - 1]); }
      if q == j { assert key(s[p]) <= key(s[j - 1]); }
    }
  }

  lemma {:induction false} IsMoved<T>(xs: seq<T>, ys: seq<T>, i: nat, j: nat)
    requires j <= i < |xs| == |ys| && ys[j] == xs[i]
    requires (forall p | 0 <= p < j :: ys[p] == xs[p]) && (forall p | j < p <= i :: ys[p] == xs[p - 1])
    requires forall p | i < p < |xs| :: ys[p] == xs[p]
    ensures ys == Moved(xs, i, j)
  {
  }

  /** Moves `a[i]` down to its place among the sorted elements before it. */
  method InsertInOrder<T>(a: array<T>, i: nat, key: T -> real)
    requires i < a.Length && SortedBy(a[..i], key)
    modifies a
    ensures multiset(a[..]) == multiset(old(a[..])) && SortedBy(a[..i + 1], key)
  {
    hide SortedBy, Moved;
    ghost var all := a[..];
    var value := a[i];
    var j := i;
    while j > 0 && key(a[j - 1]) > key(value)
      invariant 0 <= j <= i
      invariant forall p | 0 <= p < j :: a[p] == all[p]
      invariant forall p | j < p <= i :: a[p] == all[p - 1]
      invariant forall p | i < p < a.Length :: a[p] == all[p]
      invariant j < i ==> key(value) < key(all[j])
    {
      a[j] := a[j - 1];
      j := j - 1;
    }
    a[j] := value;
    IsMoved(all, a[..], i, j);
    MovedKeeps(all, i, j);
    assert all[..i] == old(a[..i]);
    MovedSorted(all, i, j, key);
    assert a[..i + 1] == a[..][..i + 1];
  }

  /** Insertion sort in place. */
  method InsertionSort<T>(a: array<T>, key: T -> real)
    modifies a
    ensures multiset(a[..]) == multiset(old(a[..]))
    ensures SortedBy(a[..], key)
  {
    var i := 1;
    while i < a.Length
      invariant 1 <= i && (i <= a.Length || a.Length == 0)
      invariant multiset(a[..]) == multiset(old(a[..]))
      invariant a.Length > 0 ==> SortedBy(a[..i], key)
    {
      InsertInOrder(a, i, key);
      i := i + 1;
    }
    assert a.Length > 0 ==> a[..i] == a[..];
  }

  function CrossingKey(): Crossing -> real {
    (c: Crossing) => c.x
  }

  // ----- spans

  ghost predicate InSpans(spans: seq<Span>, x: real) {
    exists i :: 0 <= i < |spans| && spans[i].xa < x < spans[i].xb
  }

  /** Spans from left to right that meet in end points at most. */
  ghost predicate Ordered(spans: seq<Span>) {
    && (forall i | 0 <= i < |spans| :: spans[i].xa <= spans[i].xb)
    && (forall i, j | 0 <= i < j < |spans| :: spans[i].xb <= spans[j].xa)
  }

  /** The state of the nonzero scan: spans closed so far, the running winding, and where the open span began. */
  datatype Scan = Scan(spans: seq<Span>, winding: int, start: real)

  function ScanStep(s: Scan, c: Crossing): Scan {
    var start := if s.winding == 0 then c.x else s.start;
    var winding := s.winding + c.winding;
    Scan(if winding == 0 then s.spans + [Span(start, c.x)] else s.spans, winding, start)
  }

  function NonzeroScan(cs: seq<Crossing>): Scan {
    if cs == [] then Scan([], 0, 0.0) else ScanStep(NonzeroScan(cs[..|cs| - 1]), cs[|cs| - 1])
  }

  /** The first `n` pairs of crossings as spans. */
  function EvenOddSpans(cs: seq<Crossing>, n: nat): seq<Span>
    requires 2 * n <= |cs|
  {
    if n == 0 then [] else EvenOddSpans(cs, n - 1) + [Span(cs[2 * n - 2].x, cs[2 * n - 1].x)]
  }

  function SpansOf(cs: seq<Crossing>, evenOdd: bool): seq<Span> {
    if evenOdd then EvenOddSpans(cs, |cs| / 2) else NonzeroScan(cs).spans
  }

  /** One crossing scan of the source, both rules. */
  method ScanSpans(cs: seq<Crossing>, evenOdd: bool) returns (spans: seq<Span>)
    ensures spans == SpansOf(cs, evenOdd)
  {
    spans := [];
    if evenOdd {
      var i := 0;
      while i + 1 < |cs|
        invariant i % 2 == 0 && 0 <= i <= |cs|
        invariant spans == EvenOddSpans(cs, i / 2)
      {
        spans := spans + [Span(cs[i].x, cs[i + 1].x)];
        i := i + 2;
      }
    } else {
      var winding, spanStart := 0, 0.0;
      for k := 0 to |cs|
        invariant NonzeroScan(cs[..k]) == Scan(spans, winding, spanStart)
      {
        assert cs[..k + 1][..k] == cs[..k];
        if winding == 0 { spanStart := cs[k].x; }
        winding := winding + cs[k].winding;
        if winding == 0 { spans := spans + [Span(spanStart, cs[k].x)]; }
      }
      assert cs[..|cs|] == cs;
    }
  }

  lemma {:induction false} InSpansSnoc(spans: seq<Span>, s: Span, x: real)
    ensures InSpans(spans + [s], x) <==> InSpans(spans, x) || s.xa < x < s.xb
  {
    var all := spans + [s];
    if InSpans(spans, x) {
      var i :| 0 <= i < |spans| && spans[i].xa < x < spans[i].xb;
      assert all[i] == spans[i];
    }
    if s.xa < x < s.xb {
      assert all[|spans|] == s;
    }
  }

  /** What the nonzero scan has established after the crossings `cs`, for a point off them. */
  lemma {:induction false} NonzeroScanMeaning(cs: seq<Crossing>, x: real)
    requires SortedBy(cs, CrossingKey()) && OffCrossings(cs, x)
    ensures var s := NonzeroScan(cs);
      && s.winding == TotalWinding(cs)
      && (cs != [] && x < cs[|cs| - 1].x ==>
           (LeftWinding(cs, x) != 0 <==> InSpans(s.spans, x) || (s.winding != 0 && s.start < x)))
      && (cs == [] || x > cs[|cs| - 1].x ==>
           LeftWinding(cs, x) == s.winding && !InSpans(s.spans, x) && (s.winding != 0 ==> s.start < x))
  {
    if cs != [] {
      var front, c := cs[..|cs| - 1], cs[|cs| - 1];
      assert SortedBy(front, CrossingKey()) && OffCrossings(front, x);
      NonzeroScanMeaning(front, x);
      if front != [] { assert CrossingKey()(front[|front| - 1]) <= CrossingKey()(c); }
      var s := NonzeroScan(front);
      InSpansSnoc(s.spans, Span(if s.winding == 0 then c.x else s.start, c.x), x);
    }
  }

  /** Closed spans of the scan are ordered and end before the open span and the last crossing. */
  lemma {:induction false} NonzeroScanOrdered(cs: seq<Crossing>)
    requires SortedBy(cs, CrossingKey())
    ensures var s := NonzeroScan(cs);
      && Ordered(s.spans)
      && (forall i | 0 <= i < |s.spans| ::
            cs != [] && s.spans[i].xb <= cs[|cs| - 1].x && (s.winding != 0 ==> s.spans[i].xb <= s.start))
      && (s.winding != 0 && cs != [] ==> s.start <= cs[|cs| - 1].x)
  {
    if cs != [] {
      var front, c := cs[..|cs| - 1], cs[|cs| - 1];
      assert SortedBy(front, CrossingKey());
      NonzeroScanOrdered(front);
      if front != [] { assert CrossingKey()(front[|front| - 1]) <= CrossingKey()(c); }
    }
  }

  lemma {:induction false} SortedAt(cs: seq<Crossing>, i: nat, j: nat)
    requires SortedBy(cs, CrossingKey()) && i < j < |cs|
    ensures cs[i].x <= cs[j].x
  {
    assert CrossingKey()(cs[i]) <= CrossingKey()(cs[j]);
  }

  lemma {:induction false} EvenOddMeaning(cs: seq<Crossing>, n: nat, x: real)
    requires SortedBy(cs, CrossingKey()) && OffCrossings(cs, x) && 2 * n <= |cs|
    ensures Ordered(EvenOddSpans(cs, n))
    ensures forall i | 0 <= i < |EvenOddSpans(cs, n)| :: n > 0 && EvenOddSpans(cs, n)[i].xb <= cs[2 * n - 1].x
    ensures LeftCount(cs[..2 * n], x) % 2 != 0 <==> InSpans(EvenOddSpans(cs, n), x)
    ensures n > 0 && x > cs[2 * n - 1].x ==> LeftCount(cs[..2 * n], x) == 2 * n
  {
    hide SortedBy, LeftCount, InSpans;
    if n > 0 {
      EvenOddMeaning(cs, n - 1, x);
      var a, b := cs[2 * n - 2], cs[2 * n - 1];
      SortedAt(cs, 2 * n - 2, 2 * n - 1);
      if n > 1 { SortedAt(cs, 2 * n - 3, 2 * n - 2); }
      CountTwo(cs, n, x);
      InSpansSnoc(EvenOddSpans(cs, n - 1), Span(a.x, b.x), x);
    }
    NothingCounted(x);
    assert cs[..0] == [];
  }

  lemma {:induction false} CountTwo(cs: seq<Crossing>, n: nat, x: real)
    requires 0 < n && 2 * n <= |cs|
    ensures LeftCount(cs[..2 * n], x) == LeftCount(cs[..2 * (n - 1)], x)
              + (if cs[2 * n - 2].x < x then 1 else 0) + if cs[2 * n - 1].x < x then 1 else 0
  {
    assert cs[..2 * n][..2 * n - 1] == cs[..2 * n - 1] && cs[..2 * n - 1][..2 * n - 2] == cs[..2 * (n - 1)];
  }

  lemma {:induction false} NothingCounted(x: real)
    ensures LeftCount([], x) == 0 && !InSpans([], x)
  {
  }

  /** For balanced crossings in order, a point off them lies in a span iff the crossings put it inside. */
  lemma {:induction false} SpansMeanInside(cs: seq<Crossing>, x: real, evenOdd: bool)
    requires SortedBy(cs, CrossingKey()) && OffCrossings(cs, x)
    requires TotalWinding(cs) == 0 && |cs| % 2 == 0
    ensures InSpans(SpansOf(cs, evenOdd), x) <==> InsideBy(cs, x, evenOdd)
  {
    LeftAndRight(cs, x);
    if evenOdd {
      EvenOddMeaning(cs, |cs| / 2, x);
      assert cs[..2 * (|cs| / 2)] == cs;
    } else {
      NonzeroScanMeaning(cs, x);
    }
  }

  lemma {:induction false} SpansOrdered(cs: seq<Crossing>, evenOdd: bool)
    requires SortedBy(cs, CrossingKey())
    ensures Ordered(SpansOf(cs, evenOdd))
  {
    if evenOdd {
      var x := OffPoint(cs, 0.0, 1.0);
      EvenOddMeaning(cs, |cs| / 2, x);
    } else {
      NonzeroScanOrdered(cs);
    }
  }

  /** Every interval has a point off finitely many crossings. */
  lemma {:induction false} OffPoint(cs: seq<Crossing>, a: real, b: real) returns (x: real)
    requires a < b
    ensures a < x < b && OffCrossings(cs, x)
  {
    if cs == [] {
      x := (a + b) / 2.0;
    } else {
      var c := cs[|cs| - 1].x;
      x := OffPoint(cs[..|cs| - 1], a, if a < c < b then c else b);
    }
  }

  // ----- permutations

  lemma {:induction false} SumsPermute(a: seq<Crossing>, b: seq<Crossing>, x: real)
    requires multiset(a) == multiset(b)
    ensures TotalWinding(a) == TotalWinding(b) && |a| == |b|
    ensures RightWinding(a, x) == RightWinding(b, x) && RightCount(a, x) == RightCount(b, x)
    ensures OffCrossings(a, x) <==> OffCrossings(b, x)
  {
    if a == [] {
      assert multiset(b) == multiset{};
      assert |b| == |multiset(b)|;
    } else {
      var k := PickOut(a, b);
      var rest := b[..k] + b[k + 1..];
      SumsPermute(a[..|a| - 1], rest, x);
      SumsConcat(b[..k], b[k + 1..], x);
      SumsConcat(b[..k] + [b[k]], b[k + 1..], x);
      SumsConcat(b[..k], [b[k]], x);
      assert [b[k]][..0] == [];
      OffPermute(a, b, x);
    }
  }

  lemma {:induction false} OffPermute(a: seq<Crossing>, b: seq<Crossing>, x: real)
    requires multiset(a) == multiset(b)
    ensures OffCrossings(a, x) <==> OffCrossings(b, x)
  {
    assert forall c :: c in a <==> c in multiset(a);
    assert forall c :: c in b <==> c in multiset(b);
    assert OffCrossings(a, x) <==> forall c | c in a :: c.x != x;
    assert OffCrossings(b, x) <==> forall c | c in b :: c.x != x;
  }

  // ----- coverage of a pixel

  function Max(a: real, b: real): real { if a < b then b else a }

  function Min(a: real, b: real): real { if a < b then a else b }

  /** How much of the range from `lo` to `hi` the span covers. */
  function Clip(s: Span, lo: real, hi: real): real {
    Max(0.0, Min(hi, s.xb) - Max(lo, s.xa))
  }

  function Length(spans: seq<Span>, lo: real, hi: real): real {
    if spans == [] then 0.0 else Length(spans[..|spans| - 1], lo, hi) + Clip(spans[|spans| - 1], lo, hi)
  }

  /** How much of the pixel `[px, px + 1]` the span covers. */
  function Overlap(s: Span, px: int): real {
    Clip(s, px as real, px as real + 1.0)
  }

  function SumOverlap(spans: seq<Span>, px: int): real {
    Length(spans, px as real, px as real + 1.0)
  }

  /** How far into the range the spans reach. */
  function Reach(spans: seq<Span>, lo: real, hi: real): real {
    if spans == [] then 0.0 else Max(0.0, Min(hi, spans[|spans| - 1].xb) - lo)
  }

  /** Disjoint spans cover at most the whole range. */
  lemma {:induction false} LengthBound(spans: seq<Span>, lo: real, hi: real)
    requires Ordered(spans) && lo <= hi
    ensures 0.0 <= Length(spans, lo, hi) <= Reach(spans, lo, hi) <= hi - lo
  {
    if spans != [] {
      var front := spans[..|spans| - 1];
      assert Ordered(front);
      LengthBound(front, lo, hi);
      if front != [] { assert front[|front| - 1].xb <= spans[|spans| - 1].xa; }
    }
  }

  /** Disjoint spans cover at most the whole pixel. */
  lemma {:induction false} CoverageBound(spans: seq<Span>, px: int)
    requires Ordered(spans)
    ensures 0.0 <= SumOverlap(spans, px) <= 1.0
  {
    LengthBound(spans, px as real, px as real + 1.0);
  }

  lemma {:induction false} BetweenSpans(spans: seq<Span>, k: nat, x: real)
    requires Ordered(spans) && k <= |spans|
    requires (k > 0 ==> spans[k - 1].xb <= x) && (k < |spans| ==> x <= spans[k].xa)
    ensures !InSpans(spans, x)
  {
    forall i | 0 <= i < |spans| ensures !(spans[i].xa < x < spans[i].xb) {
      if i < k - 1 { assert spans[i].xb <= spans[k - 1].xa; }
      if i > k { assert spans[k].xb <= spans[i].xa; }
    }
  }

  /** If every point of the range off the crossings lies in a span, the range is covered. */
  lemma {:induction false} FullLength(spans: seq<Span>, cs: seq<Crossing>, lo: real, hi: real)
    requires Ordered(spans) && lo <= hi
    requires forall x | lo < x < hi && OffCrossings(cs, x) :: InSpans(spans, x)
    ensures Length(spans, lo, hi) == hi - lo
  {
    NoGap(spans, |spans|, cs, lo, hi);
    assert spans[..|spans|] == spans;
    LengthBound(spans, lo, hi);
    if Reach(spans, lo, hi) < hi - lo {
      var x := OffPoint(cs, lo + Reach(spans, lo, hi), hi);
      BetweenSpans(spans, |spans|, x);
    }
  }

  lemma {:induction false} NoGap(spans: seq<Span>, n: nat, cs: seq<Crossing>, lo: real, hi: real)
    requires Ordered(spans) && n <= |spans| && lo <= hi
    requires forall x | lo < x < hi && OffCrossings(cs, x) :: InSpans(spans, x)
    ensures Length(spans[..n], lo, hi) == Reach(spans[..n], lo, hi)
  {
    if n > 0 {
      NoGap(spans, n - 1, cs, lo, hi);
      var front, s := spans[..n - 1], spans[n - 1];
      assert spans[..n][..n - 1] == front;
      if n > 1 { assert spans[n - 2].xb <= s.xa; }
      var from, to := lo + Reach(front, lo, hi), Min(hi, s.xa);
      if from < to {
        var x := OffPoint(cs, from, to);
        BetweenSpans(spans, n - 1, x);
      }
    }
  }

  /** If no point of the range off the crossings lies in a span, nothing of it is covered. */
  lemma {:induction false} NoLength(spans: seq<Span>, cs: seq<Crossing>, lo: real, hi: real)
    requires forall x | lo < x < hi && OffCrossings(cs, x) :: !InSpans(spans, x)
    ensures Length(spans, lo, hi) == 0.0
  {
    if spans != [] {
      var front, s := spans[..|spans| - 1], spans[|spans| - 1];
      assert spans == front + [s];
      forall x | lo < x < hi && OffCrossings(cs, x) ensures !InSpans(front, x) {
        InSpansSnoc(front, s, x);
      }
      NoLength(front, cs, lo, hi);
      var from, to := Max(lo, s.xa), Min(hi, s.xb);
      if from < to {
        var x := OffPoint(cs, from, to);
        InSpansSnoc(front, s, x);
      }
    }
  }

  /** If every point of the pixel off the crossings lies in a span, the pixel is covered. */
  lemma {:induction false} FullCoverage(spans: seq<Span>, cs: seq<Crossing>, px: int)
    requires Ordered(spans)
    requires forall x | px as real < x < px as real + 1.0 && OffCrossings(cs, x) :: InSpans(spans, x)
    ensures SumOverlap(spans, px) == 1.0
  {
    FullLength(spans, cs, px as real, px as real + 1.0);
  }

  /** If no point of the pixel off the crossings lies in a span, nothing of it is covered. */
  lemma {:induction false} NoCoverage(spans: seq<Span>, cs: seq<Crossing>, px: int)
    requires forall x | px as real < x < px as real + 1.0 && OffCrossings(cs, x) :: !InSpans(spans, x)
    ensures SumOverlap(spans, px) == 0.0
  {
    NoLength(spans, cs, px as real, px as real + 1.0);
  }

  lemma {:induction false} LengthConcat(a: seq<Span>, b: seq<Span>, lo: real, hi: real)
    ensures Length(a + b, lo, hi) == Length(a, lo, hi) + Length(b, lo, hi)
  {
    if b == [] {
      assert a + b == a;
    } else {
      LengthConcat(a, b[..|b| - 1], lo, hi);
      assert (a + b)[..|a + b| - 1] == a + b[..|b| - 1];
    }
  }

  /** The length over two ranges that meet. */
  lemma {:induction false} LengthSplit(spans: seq<Span>, lo: real, mid: real, hi: real)
    requires Ordered(spans) && lo <= mid <= hi
    ensures Length(spans, lo, hi) == Length(spans, lo, mid) + Length(spans, mid, hi)
  {
    if spans != [] {
      assert Ordered(spans[..|spans| - 1]);
      LengthSplit(spans[..|spans| - 1], lo, mid, hi);
    }
  }

  lemma {:induction false} NothingInside()
    ensures forall x :: !InSpans([], x)
  {
  }

  /** Where in the range the last span begins and ends: before it are only the other spans, behind it are none. */
  lemma {:induction false} LastSpan(spans: seq<Span>, lo: real, hi: real) returns (m: real, n: real)
    requires Ordered(spans) && spans != [] && lo <= hi
    ensures lo <= m <= n <= hi && Ordered(spans[..|spans| - 1])
    ensures Length(spans, lo, m) == Length(spans[..|spans| - 1], lo, m)
    ensures forall x | lo < x < m :: InSpans(spans, x) <==> InSpans(spans[..|spans| - 1], x)
    ensures forall x | m < x < n :: InSpans(spans, x)
    ensures forall x | n < x < hi :: !InSpans(spans, x)
  {
    var front, s := spans[..|spans| - 1], spans[|spans| - 1];
    assert spans == front + [s];
    m, n := Min(hi, Max(lo, s.xa)), Min(hi, Max(lo, s.xb));
    forall x ensures InSpans(spans, x) <==> InSpans(front, x) || s.xa < x < s.xb { InSpansSnoc(front, s, x); }
    forall x | n < x < hi ensures !InSpans(spans, x) { BetweenSpans(spans, |spans|, x); }
  }

  /** Spans with the same inside, off finitely many points, cover the same length of every range. */
  lemma {:induction false} SameLength(a: seq<Span>, b: seq<Span>, cs: seq<Crossing>, lo: real, hi: real)
    requires Ordered(a) && Ordered(b) && lo <= hi
    requires forall x | lo < x < hi && OffCrossings(cs, x) :: InSpans(a, x) <==> InSpans(b, x)
    ensures Length(a, lo, hi) == Length(b, lo, hi)
    decreases |b|
  {
    hide Length, InSpans, OffCrossings, Ordered;
    if b == [] {
      NothingInside();
      NoLength(a, cs, lo, hi);
      NoLength(b, cs, lo, hi);
    } else {
      var front, s := b[..|b| - 1], b[|b| - 1];
      var m, n := LastSpan(b, lo, hi);
      LengthSplit(a, lo, m, hi);
      LengthSplit(a, m, n, hi);
      LengthSplit(b, lo, m, hi);
      LengthSplit(b, m, n, hi);
      SameLength(a, front, cs, lo, m);
      FullLength(a, cs, m, n);
      FullLength(b, cs, m, n);
      NoLength(a, cs, n, hi);
      NoLength(b, cs, n, hi);
    }
  }
}
