/**
  The scan converter. Each row of the grid stores, for every pixel of the path's box, one quarter of what
  the spans of its four sub-scanlines cover; the spans are exactly the points that hit testing puts inside.
 */
module CanvasCoverage {
  import opened CanvasGeometry
  import opened CanvasSpans
  import opened CanvasEdges

  const SUB_SAMPLES := 4
  const WEIGHT: real := 0.25

  function SampleY(py: int, sample: nat): real {
    py as real + (sample as real + 0.5) / SUB_SAMPLES as real
  }

  /** `spans` is the inside of the path along the scanline at `y`, off its finitely many crossings. */
  ghost predicate ScanlineSpans(spans: seq<Span>, loops: seq<Loop>, y: real, evenOdd: bool) {
    && Ordered(spans)
    && forall x | OffCrossings(Crossings(loops, 3, y), x) :: InSpans(spans, x) <==> Inside(loops, x, y, evenOdd)
  }

  lemma {:induction false} SortedSpansAreInside(cs: seq<Crossing>, loops: seq<Loop>, y: real, evenOdd: bool)
    requires SortedBy(cs, CrossingKey()) && multiset(cs) == multiset(Crossings(loops, 3, y))
    ensures ScanlineSpans(SpansOf(cs, evenOdd), loops, y, evenOdd)
  {
    SpansOrdered(cs, evenOdd);
    ClosedLoopsBalance(loops, 3, y);
    forall x | OffCrossings(Crossings(loops, 3, y), x)
      ensures InSpans(SpansOf(cs, evenOdd), x) <==> Inside(loops, x, y, evenOdd)
    {
      SumsPermute(cs, Crossings(loops, 3, y), x);
      SpansMeanInside(cs, x, evenOdd);
      SmallLoopsDoNotMatter(loops, x, y);
    }
  }

  /** Above 16 crossings the source calls the library sort; any sort by position will do. */
  method SortCrossings(cs: seq<Crossing>) returns (sorted: seq<Crossing>)
    ensures multiset(sorted) == multiset(cs) && SortedBy(sorted, CrossingKey())
  {
    var a := new Crossing[|cs|](i requires 0 <= i < |cs| => cs[i]);
    assert a[..] == cs;
    InsertionSort(a, CrossingKey());
    sorted := a[..];
  }

  method CollectCrossings(edges: seq<Edge>, active: seq<nat>, y: real) returns (crossings: seq<Crossing>)
    requires InRange(active, |edges|)
    ensures crossings == IndexedCrossings(edges, active, y)
  {
    crossings := [];
    for k := 0 to |active|
      invariant crossings == IndexedCrossings(edges, active[..k], y)
    {
      var edge := edges[active[k]];
      NextCrossing(edges, active, k, y);
      if y < edge.y0 || y >= edge.y1 { assert !Meets(edge, y); continue; }
      var t := (y - edge.y0) / (edge.y1 - edge.y0);
      var x := edge.x0 + t * (edge.x1 - edge.x0);
      assert Meets(edge, y);
      assert EdgeCrossing(edge, y).x == x;
      crossings := crossings + [Crossing(x, edge.winding)];
    }
    assert active[..|active|] == active;
  }

  lemma NextCrossing(edges: seq<Edge>, active: seq<nat>, k: nat, y: real)
    requires InRange(active, |edges|) && k < |active|
    ensures var e, before := edges[active[k]], IndexedCrossings(edges, active[..k], y);
      IndexedCrossings(edges, active[..k + 1], y) == if Meets(e, y) then before + [EdgeCrossing(e, y)] else before
  {
    assert active[..k + 1][..k] == active[..k];
  }

  method SampleSpans(edges: seq<Edge>, active: seq<nat>, y: real, evenOdd: bool,
      ghost loops: seq<Loop>) returns (spans: seq<Span>)
    requires InRange(active, |edges|)
    requires multiset(IndexedCrossings(edges, active, y)) == multiset(Crossings(loops, 3, y))
    ensures ScanlineSpans(spans, loops, y, evenOdd)
  {
    var crossings := CollectCrossings(edges, active, y);
    var sorted := SortCrossings(crossings);
    SortedSpansAreInside(sorted, loops, y, evenOdd);
    spans := ScanSpans(sorted, evenOdd);
  }

  // ----- accumulating a row

  /** Clipping to a range of whole pixels changes the share of no pixel in the range. */
  lemma ClippedOverlap(span: Span, clipX0: int, clipX1: int, px: int)
    requires clipX0 <= px < clipX1
    ensures var clipped := Span(Max(span.xa, clipX0 as real), Min(span.xb, clipX1 as real));
      Overlap(clipped, px) == Overlap(span, px)
  {
  }

  /** The share of each pixel, from the first one to the last one. */
  function Share(xa: real, xb: real, px: int): real {
    var ia, ib := xa.Floor, Ceil(xb) - 1;
    if px < ia || px > ib then 0.0
    else if ia == ib then xb - xa
    else if px == ia then (ia + 1) as real - xa
    else if px < ib then 1.0
    else xb - ib as real
  }

  lemma ShareIsOverlap(xa: real, xb: real, px: int)
    requires xa < xb
    ensures Overlap(Span(xa, xb), px) == Share(xa, xb, px)
    ensures xa.Floor <= Ceil(xb) - 1 && 0.0 < xb - (Ceil(xb) - 1) as real
  {
  }

  /** Adds `weight` times the share of a nonempty span that lies inside the row. */
  method AddShares(row: array<real>, rowOriginX: int, xa: real, xb: real, weight: real)
    requires xa < xb && rowOriginX <= xa.Floor && Ceil(xb) <= rowOriginX + row.Length
    modifies row
    ensures forall px | rowOriginX <= px < rowOriginX + row.Length ::
              row[px - rowOriginX] == old(row[px - rowOriginX]) + Share(xa, xb, px) * weight
  {
    ShareIsOverlap(xa, xb, 0);
    var ia, ib := xa.Floor, Ceil(xb) - 1;
    if ib < ia { return; }
    if ia == ib {
      row[ia - rowOriginX] := row[ia - rowOriginX] + (xb - xa) * weight;
      return;
    }
    row[ia - rowOriginX] := row[ia - rowOriginX] + ((ia + 1) as real - xa) * weight;
    for x := ia + 1 to ib
      invariant forall px | rowOriginX <= px < x ::
                  row[px - rowOriginX] == old(row[px - rowOriginX]) + Share(xa, xb, px) * weight
      invariant forall j | x - rowOriginX <= j < row.Length :: row[j] == old(row[j])
    {
      row[x - rowOriginX] := row[x - rowOriginX] + weight;
    }
    var last := xb - ib as real;
    if last > 0.0 {
      row[ib - rowOriginX] := row[ib - rowOriginX] + last * weight;
    }
  }

  /** Adds `weight` times the overlap of `span` with every pixel of the row. */
  method AddSpan(row: array<real>, rowOriginX: int, span: Span, weight: real, clipX0: int, clipX1: int)
    requires clipX0 <= rowOriginX && rowOriginX + row.Length <= clipX1
    requires rowOriginX == clipX0 || rowOriginX <= span.xa.Floor
    requires rowOriginX + row.Length == clipX1 || Ceil(span.xb) <= rowOriginX + row.Length
    modifies row
    ensures forall px | rowOriginX <= px < rowOriginX + row.Length ::
              row[px - rowOriginX] == old(row[px - rowOriginX]) + Overlap(span, px) * weight
  {
    hide Share;
    var xa, xb := span.xa, span.xb;
    if xb <= xa { return; }
    if xa < clipX0 as real { xa := clipX0 as real; }
    if xb > clipX1 as real { xb := clipX1 as real; }
    if xb <= xa { return; }
    AddShares(row, rowOriginX, xa, xb, weight);
    forall px | rowOriginX <= px < rowOriginX + row.Length ensures Share(xa, xb, px) == Overlap(span, px) {
      ShareIsOverlap(xa, xb, px);
      ClippedOverlap(span, clipX0, clipX1, px);
    }
  }

  /** What a row that starts at `rx` stores for pixel `px`; nothing stored means no coverage. */
  function Stored(vals: seq<real>, rx: int, px: int): real {
    if rx <= px < rx + |vals| then vals[px - rx] else 0.0
  }

  function SumSamples(samples: seq<seq<Span>>, px: int): real {
    if samples == [] then 0.0 else SumSamples(samples[..|samples| - 1], px) + SumOverlap(samples[|samples| - 1], px)
  }

  ghost predicate SamplesOf(samples: seq<seq<Span>>, py: int, loops: seq<Loop>, evenOdd: bool) {
    forall s | 0 <= s < |samples| :: ScanlineSpans(samples[s], loops, SampleY(py, s), evenOdd)
  }

  /** The row stores a quarter of the summed overlaps, inside the box. */
  ghost predicate RowOf(samples: seq<seq<Span>>, vals: seq<real>, rx: int, x0: int, x1: int) {
    && (vals != [] ==> x0 <= rx && rx + |vals| <= x1)
    && forall px | x0 <= px < x1 :: Stored(vals, rx, px) == SumSamples(samples, px) * WEIGHT
  }

  ghost predicate RowCorrect(vals: seq<real>, rx: int, x0: int, x1: int, py: int, loops: seq<Loop>, evenOdd: bool) {
    exists samples: seq<seq<Span>> ::
      |samples| == SUB_SAMPLES && SamplesOf(samples, py, loops, evenOdd) && RowOf(samples, vals, rx, x0, x1)
  }

  method CollectSpans(edges: seq<Edge>, active: seq<nat>, py: int, evenOdd: bool, ghost loops: seq<Loop>)
    returns (spans: seq<Span>, ghost samples: seq<seq<Span>>)
    requires InRange(active, |edges|)
    requires forall y | py as real < y < py as real + 1.0 ::
               multiset(IndexedCrossings(edges, active, y)) == multiset(Crossings(loops, 3, y))
    ensures |samples| == SUB_SAMPLES && SamplesOf(samples, py, loops, evenOdd)
    ensures forall px :: SumOverlap(spans, px) == SumSamples(samples, px)
  {
    hide ScanlineSpans, IndexedCrossings, Crossings, Length;
    spans, samples := [], [];
    NoSpans();
    for sample := 0 to SUB_SAMPLES
      invariant |samples| == sample && SamplesOf(samples, py, loops, evenOdd)
      invariant forall px :: SumOverlap(spans, px) == SumSamples(samples, px)
    {
      var y := py as real + (sample as real + 0.5) / SUB_SAMPLES as real;
      var more := SampleSpans(edges, active, y, evenOdd, loops);
      ghost var longer := samples + [more];
      forall px ensures SumOverlap(spans + more, px) == SumSamples(longer, px) {
        LengthConcat(spans, more, px as real, px as real + 1.0);
        assert longer[..|longer| - 1] == samples;
      }
      spans, samples := spans + more, longer;
    }
  }

  lemma NoSpans()
    ensures forall px :: SumOverlap([], px) == 0.0
  {
  }

  /** The extent of the spans. */
  method Extent(spans: seq<Span>) returns (minSpan: real, maxSpan: real)
    requires spans != []
    ensures forall i | 0 <= i < |spans| :: minSpan <= spans[i].xa && spans[i].xb <= maxSpan
  {
    minSpan, maxSpan := spans[0].xa, spans[0].xb;
    for i := 0 to |spans|
      invariant forall k | 0 <= k < i :: minSpan <= spans[k].xa && spans[k].xb <= maxSpan
    {
      minSpan, maxSpan := Min(minSpan, spans[i].xa), Max(maxSpan, spans[i].xb);
    }
  }

  lemma {:induction false} NothingBeyond(spans: seq<Span>, minSpan: real, maxSpan: real, px: int)
    requires forall i | 0 <= i < |spans| :: minSpan <= spans[i].xa && spans[i].xb <= maxSpan
    requires px as real + 1.0 <= minSpan || maxSpan <= px as real
    ensures SumOverlap(spans, px) == 0.0
  {
    if spans != [] {
      NothingBeyond(spans[..|spans| - 1], minSpan, maxSpan, px);
    }
  }

  method FillRow(spans: seq<Span>, rx0: int, rx1: int, x0: int, x1: int) returns (vals: seq<real>)
    requires x0 <= rx0 < rx1 <= x1
    requires forall i | 0 <= i < |spans| ::
               (rx0 == x0 || rx0 <= spans[i].xa.Floor) && (rx1 == x1 || Ceil(spans[i].xb) <= rx1)
    ensures |vals| == rx1 - rx0
    ensures forall px | rx0 <= px < rx1 :: vals[px - rx0] == SumOverlap(spans, px) * WEIGHT
  {
    var row := new real[rx1 - rx0](_ => 0.0);
    for k := 0 to |spans|
      invariant forall px | rx0 <= px < rx1 :: row[px - rx0] == SumOverlap(spans[..k], px) * WEIGHT
    {
      ghost var upto := spans[..k + 1];
      assert upto[..|upto| - 1] == spans[..k];
      AddSpan(row, rx0, spans[k], WEIGHT, x0, x1);
      assert forall px :: SumOverlap(upto, px) == SumOverlap(spans[..k], px) + Overlap(spans[k], px);
    }
    assert spans[..|spans|] == spans;
    vals := row[..];
  }

  method ComputeRow(edges: seq<Edge>, active: seq<nat>, py: int, x0: int, x1: int, evenOdd: bool,
      ghost loops: seq<Loop>)
    returns (vals: seq<real>, rx: int)
    requires InRange(active, |edges|) && x0 < x1
    requires forall y | py as real < y < py as real + 1.0 ::
               multiset(IndexedCrossings(edges, active, y)) == multiset(Crossings(loops, 3, y))
    ensures RowCorrect(vals, rx, x0, x1, py, loops, evenOdd)
  {
    hide ScanlineSpans, Overlap, IndexedCrossings, Crossings;
    var spans; ghost var samples;
    spans, samples := CollectSpans(edges, active, py, evenOdd, loops);
    if spans == [] {
      vals, rx := [], 0;
      assert RowOf(samples, vals, rx, x0, x1);
      return;
    }
    var minSpan, maxSpan := Extent(spans);
    var rx0 := if x0 < minSpan.Floor then minSpan.Floor else x0;
    var rx1 := if Ceil(maxSpan) < x1 then Ceil(maxSpan) else x1;
    forall px | x0 <= px < x1 && !(rx0 <= px < rx1) ensures SumOverlap(spans, px) == 0.0 {
      NothingBeyond(spans, minSpan, maxSpan, px);
    }
    if rx1 <= rx0 {
      vals, rx := [], 0;
      assert RowOf(samples, vals, rx, x0, x1);
      return;
    }
    vals := FillRow(spans, rx0, rx1, x0, x1);
    rx := rx0;
    assert RowOf(samples, vals, rx, x0, x1);
  }

  /** Stored coverage lies between none and all of the pixel. */
  lemma RowInUnit(vals: seq<real>, rx: int, x0: int, x1: int, py: int, loops: seq<Loop>, evenOdd: bool, px: int)
    requires RowCorrect(vals, rx, x0, x1, py, loops, evenOdd) && x0 <= px < x1
    ensures 0.0 <= Stored(vals, rx, px) <= 1.0
  {
    var samples: seq<seq<Span>> :| |samples| == SUB_SAMPLES && SamplesOf(samples, py, loops, evenOdd)
      && RowOf(samples, vals, rx, x0, x1);
    SamplesBound(samples, py, loops, evenOdd, px);
  }

  lemma {:induction false} SamplesBound(samples: seq<seq<Span>>, py: int, loops: seq<Loop>, evenOdd: bool, px: int)
    requires SamplesOf(samples, py, loops, evenOdd)
    ensures 0.0 <= SumSamples(samples, px) <= |samples| as real
  {
    if samples != [] {
      SamplesBound(samples[..|samples| - 1], py, loops, evenOdd, px);
      CoverageBound(samples[|samples| - 1], px);
    }
  }

  /** Whether hit testing says `side` at every point of the pixel's sub-scanlines, off the crossings. */
  ghost predicate PixelIs(side: bool, loops: seq<Loop>, px: int, py: int, evenOdd: bool) {
    forall s: nat, x: real | s < SUB_SAMPLES && px as real < x < px as real + 1.0
      && OffCrossings(Crossings(loops, 3, SampleY(py, s)), x) ::
      Inside(loops, x, SampleY(py, s), evenOdd) == side
  }

  /** A pixel that hit testing puts wholly inside is fully covered, one wholly outside not at all. */
  lemma CoverageAgreesWithHitTest(vals: seq<real>, rx: int, x0: int, x1: int, py: int, loops: seq<Loop>,
      evenOdd: bool, px: int)
    requires RowCorrect(vals, rx, x0, x1, py, loops, evenOdd) && x0 <= px < x1
    ensures PixelIs(true, loops, px, py, evenOdd) ==> Stored(vals, rx, px) == 1.0
    ensures PixelIs(false, loops, px, py, evenOdd) ==> Stored(vals, rx, px) == 0.0
  {
    var samples: seq<seq<Span>> :| |samples| == SUB_SAMPLES && SamplesOf(samples, py, loops, evenOdd)
      && RowOf(samples, vals, rx, x0, x1);
    if PixelIs(true, loops, px, py, evenOdd) { SamplesUniform(true, samples, |samples|, py, loops, evenOdd, px); }
    if PixelIs(false, loops, px, py, evenOdd) { SamplesUniform(false, samples, |samples|, py, loops, evenOdd, px); }
    assert samples[..|samples|] == samples;
  }

  lemma {:induction false} SamplesUniform(side: bool, samples: seq<seq<Span>>, n: nat, py: int, loops: seq<Loop>,
      evenOdd: bool, px: int)
    requires n <= |samples| == SUB_SAMPLES && SamplesOf(samples, py, loops, evenOdd)
    requires PixelIs(side, loops, px, py, evenOdd)
    ensures SumSamples(samples[..n], px) == if side then n as real else 0.0
  {
    if n > 0 {
      SamplesUniform(side, samples, n - 1, py, loops, evenOdd, px);
      assert samples[..n][..n - 1] == samples[..n - 1];
      var cs := Crossings(loops, 3, SampleY(py, n - 1));
      assert ScanlineSpans(samples[n - 1], loops, SampleY(py, n - 1), evenOdd);
      if side { FullCoverage(samples[n - 1], cs, px); } else { NoCoverage(samples[n - 1], cs, px); }
    }
  }
}
