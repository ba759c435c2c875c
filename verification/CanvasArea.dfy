/**
  What the stored coverage measures: a quarter of the lengths of the path's inside along four scanlines at the
  odd eighths of the row, and for rectangles on quarters of pixels the area.
 */
module CanvasArea {
  import opened CanvasGeometry
  import opened CanvasSpans
  import opened CanvasEdges
  import opened CanvasCoverage
  import opened CanvasGrid

  /** Whatever spans describe the inside along the four scanlines, the pixel stores a quarter of what they cover. */
  lemma {:induction false} StoredIsMeanLength(vals: seq<real>, rx: int, x0: int, x1: int, py: int, loops: seq<Loop>,
      evenOdd: bool, px: int, a: seq<Span>, b: seq<Span>, c: seq<Span>, d: seq<Span>)
    requires RowCorrect(vals, rx, x0, x1, py, loops, evenOdd) && x0 <= px < x1
    requires ScanlineSpans(a, loops, py as real + 0.125, evenOdd)
    requires ScanlineSpans(b, loops, py as real + 0.375, evenOdd)
    requires ScanlineSpans(c, loops, py as real + 0.625, evenOdd)
    requires ScanlineSpans(d, loops, py as real + 0.875, evenOdd)
    ensures Stored(vals, rx, px) ==
      (SumOverlap(a, px) + SumOverlap(b, px) + SumOverlap(c, px) + SumOverlap(d, px)) / 4.0
  {
    hide ScanlineSpans, SumOverlap;
    var samples: seq<seq<Span>> :| |samples| == SUB_SAMPLES && SamplesOf(samples, py, loops, evenOdd)
      && RowOf(samples, vals, rx, x0, x1);
    FourSamples(samples, px);
    SameScanline(samples[0], a, loops, SampleY(py, 0), evenOdd, px);
    SameScanline(samples[1], b, loops, SampleY(py, 1), evenOdd, px);
    SameScanline(samples[2], c, loops, SampleY(py, 2), evenOdd, px);
    SameScanline(samples[3], d, loops, SampleY(py, 3), evenOdd, px);
  }

  lemma {:induction false} FourSamples(samples: seq<seq<Span>>, px: int)
    requires |samples| == 4
    ensures SumSamples(samples, px) ==
      SumOverlap(samples[0], px) + SumOverlap(samples[1], px) + SumOverlap(samples[2], px) + SumOverlap(samples[3], px)
  {
    hide SumOverlap;
    var three, two, one := samples[..3], samples[..2], samples[..1];
    assert three[..2] == two && two[..1] == one && one[..0] == [];
    assert SumSamples(one, px) == SumSamples([], px) + SumOverlap(samples[0], px);
    assert SumSamples(two, px) == SumSamples(one, px) + SumOverlap(samples[1], px);
    assert SumSamples(three, px) == SumSamples(two, px) + SumOverlap(samples[2], px);
  }

  lemma {:induction false} SameScanline(a: seq<Span>, b: seq<Span>, loops: seq<Loop>, y: real, evenOdd: bool, px: int)
    requires ScanlineSpans(a, loops, y, evenOdd) && ScanlineSpans(b, loops, y, evenOdd)
    ensures SumOverlap(a, px) == SumOverlap(b, px)
  {
    hide Inside, Ordered, InSpans, OffCrossings, Length;
    SameLength(a, b, Crossings(loops, 3, y), px as real, px as real + 1.0);
  }

  // ----- rectangles

  function Rectangle(left: real, top: real, right: real, bottom: real): Loop {
    [Point(left, top), Point(right, top), Point(right, bottom), Point(left, bottom)]
  }

  /** Along a scanline between its top and its bottom the inside of a rectangle goes from its left to its right. */
  function RectangleSpans(left: real, top: real, right: real, bottom: real, y: real): seq<Span> {
    if top <= y < bottom then [Span(left, right)] else []
  }

  lemma {:induction false} RectangleCrossings(left: real, top: real, right: real, bottom: real, y: real, least: nat)
    requires top < bottom && least <= 4
    ensures Crossings([Rectangle(left, top, right, bottom)], least, y) ==
      if top <= y < bottom then [Crossing(right, 1), Crossing(left, -1)] else []
  {
    var r := Rectangle(left, top, right, bottom);
    assert [r][..0] == [] && Crossings([], least, y) == [];
    assert EdgeCrossings(r, 0, y) == [];
    var e1, e2, e3 := EdgeCrossings(r, 1, y), EdgeCrossings(r, 2, y), EdgeCrossings(r, 3, y);
    assert e1 == [];
    assert e2 == if top <= y < bottom then [Crossing(right, 1)] else [];
    assert e3 == e2;
  }

  lemma {:induction false} RectangleScanline(left: real, top: real, right: real, bottom: real, y: real, evenOdd: bool)
    requires left < right && top < bottom
    ensures
      ScanlineSpans(RectangleSpans(left, top, right, bottom, y), [Rectangle(left, top, right, bottom)], y, evenOdd)
  {
    hide Crossings, Rectangle;
    RectangleCrossings(left, top, right, bottom, y, 2);
    RectangleCrossings(left, top, right, bottom, y, 3);
    var spans, loops := RectangleSpans(left, top, right, bottom, y), [Rectangle(left, top, right, bottom)];
    forall x | OffCrossings(Crossings(loops, 3, y), x) ensures InSpans(spans, x) <==> Inside(loops, x, y, evenOdd) {
      if top <= y < bottom {
        var cs := [Crossing(right, 1), Crossing(left, -1)];
        assert cs[0].x != x && cs[1].x != x;
        TwoCrossings(left, right, x);
        assert spans[0] == Span(left, right);
      }
    }
  }

  lemma {:induction false} TwoCrossings(left: real, right: real, x: real)
    ensures var cs := [Crossing(right, 1), Crossing(left, -1)];
      && RightCount(cs, x) == (if right > x then 1 else 0) + (if left > x then 1 else 0)
      && RightWinding(cs, x) == (if right > x then 1 else 0) - (if left > x then 1 else 0)
  {
    RightStep([], Crossing(right, 1), x);
    RightStep([Crossing(right, 1)], Crossing(left, -1), x);
    assert [] + [Crossing(right, 1)] == [Crossing(right, 1)];
  }

  /** What a pixel and a range have in common, in one direction. */
  function Common(p: int, from: real, to: real): real {
    var lo, hi := Max(p as real, from), Min(p as real + 1.0, to);
    if lo < hi then hi - lo else 0.0
  }

  /** One scanline of the rectangle covers its part of the pixel, if the rectangle meets it at all. */
  lemma {:induction false} RectangleOverlap(left: real, top: real, right: real, bottom: real, y: real, px: int)
    ensures SumOverlap(RectangleSpans(left, top, right, bottom, y), px) ==
      if top <= y < bottom then Common(px, left, right) else 0.0
  {
    var lo, hi := px as real, px as real + 1.0;
    assert [Span(left, right)][..0] == [];
    assert Length([Span(left, right)], lo, hi) == Length([], lo, hi) + Clip(Span(left, right), lo, hi);
  }

  /** Scanline `s` of row `py` lies in quarter `4 * py + s`. */
  lemma {:induction false} QuarterOf(py: int, s: int, i: int)
    ensures i as real / 4.0 <= py as real + (2 * s + 1) as real / 8.0 <==> i <= 4 * py + s
  {
    var y := 8 * py + 2 * s + 1;
    assert py as real + (2 * s + 1) as real / 8.0 == y as real / 8.0;
    assert i as real / 4.0 == (2 * i) as real / 8.0;
    if i <= 4 * py + s { assert 2 * i <= y; }
    if 2 * i <= y { assert i <= 4 * py + s; }
  }

  function Both(m: int, n: int, s: int): real { if m <= s < n then 1.0 else 0.0 }

  lemma {:induction false} CommonQuarters(py: int, i: int, j: int)
    requires i < j
    ensures var m, n := i - 4 * py, j - 4 * py;
      4.0 * Common(py, i as real / 4.0, j as real / 4.0)
      == Both(m, n, 0) + Both(m, n, 1) + Both(m, n, 2) + Both(m, n, 3)
  {
    var m, n := i - 4 * py, j - 4 * py;
    var lo, hi := if m < 0 then 0 else m, if n > 4 then 4 else n;
    assert i as real / 4.0 == py as real + m as real / 4.0 && j as real / 4.0 == py as real + n as real / 4.0;
    assert Max(py as real, i as real / 4.0) == py as real + lo as real / 4.0;
    assert Min(py as real + 1.0, j as real / 4.0) == py as real + hi as real / 4.0;
    assert Both(m, n, 0) + Both(m, n, 1) + Both(m, n, 2) + Both(m, n, 3) == if lo < hi then (hi - lo) as real else 0.0;
  }

  /** Of the four scanlines of a row, as many lie in a range of quarters as it has quarters in the row. */
  lemma {:induction false} QuartersCounted(py: int, i: int, j: int)
    requires i < j
    ensures var top, bottom, y := i as real / 4.0, j as real / 4.0, py as real;
      (if top <= y + 0.125 < bottom then 1.0 else 0.0) + (if top <= y + 0.375 < bottom then 1.0 else 0.0)
      + (if top <= y + 0.625 < bottom then 1.0 else 0.0) + (if top <= y + 0.875 < bottom then 1.0 else 0.0)
      == 4.0 * Common(py, top, bottom)
  {
    hide Common;
    CommonQuarters(py, i, j);
    forall s: int | 0 <= s < 4
      ensures i as real / 4.0 <= py as real + (2 * s + 1) as real / 8.0 <==> i - 4 * py <= s
      ensures j as real / 4.0 <= py as real + (2 * s + 1) as real / 8.0 <==> j - 4 * py <= s
    {
      QuarterOf(py, s, i);
      QuarterOf(py, s, j);
    }
    assert 1 as real / 8.0 == 0.125 && 3 as real / 8.0 == 0.375 && 5 as real / 8.0 == 0.625 && 7 as real / 8.0 == 0.875;
    assert (2 * 0 + 1) as real == 1.0 && (2 * 1 + 1) as real == 3.0 && (2 * 2 + 1) as real == 5.0;
    assert (2 * 3 + 1) as real == 7.0;
  }

  /** A rectangle whose top and bottom lie on quarters of a pixel is stored with the area that it has in common with
      each pixel, wherever its sides lie, and for both fill rules. */
  lemma {:induction false} RectangleArea(vals: seq<real>, rx: int, x0: int, x1: int, py: int, left: real, right: real,
      i: int, j: int, evenOdd: bool, px: int)
    requires left < right && i < j && x0 <= px < x1
    requires RowCorrect(vals, rx, x0, x1, py, [Rectangle(left, i as real / 4.0, right, j as real / 4.0)], evenOdd)
    ensures Stored(vals, rx, px) == Common(px, left, right) * Common(py, i as real / 4.0, j as real / 4.0)
  {
    hide Rectangle, RowCorrect, ScanlineSpans, RectangleSpans, SumOverlap, Common, Stored;
    var top, bottom, y := i as real / 4.0, j as real / 4.0, py as real;
    var loops := [Rectangle(left, top, right, bottom)];
    var y0, y1, y2, y3 := y + 0.125, y + 0.375, y + 0.625, y + 0.875;
    RectangleScanline(left, top, right, bottom, y0, evenOdd);
    RectangleScanline(left, top, right, bottom, y1, evenOdd);
    RectangleScanline(left, top, right, bottom, y2, evenOdd);
    RectangleScanline(left, top, right, bottom, y3, evenOdd);
    StoredIsMeanLength(vals, rx, x0, x1, py, loops, evenOdd, px,
                       RectangleSpans(left, top, right, bottom, y0), RectangleSpans(left, top, right, bottom, y1),
                       RectangleSpans(left, top, right, bottom, y2), RectangleSpans(left, top, right, bottom, y3));
    RectangleOverlap(left, top, right, bottom, y0, px);
    RectangleOverlap(left, top, right, bottom, y1, px);
    RectangleOverlap(left, top, right, bottom, y2, px);
    RectangleOverlap(left, top, right, bottom, y3, px);
    QuartersCounted(py, i, j);
    var width := Common(px, left, right);
    Quarter(width, if top <= y0 < bottom then 1.0 else 0.0, if top <= y1 < bottom then 1.0 else 0.0,
            if top <= y2 < bottom then 1.0 else 0.0, if top <= y3 < bottom then 1.0 else 0.0, Common(py, top, bottom));
  }

  lemma {:induction false} Quarter(width: real, a: real, b: real, c: real, d: real, height: real)
    requires a + b + c + d == 4.0 * height
    ensures (width * a + width * b + width * c + width * d) / 4.0 == width * height
  {
    assert width * a + width * b + width * c + width * d == width * (a + b + c + d);
  }

  // ----- the grid of a rectangle

  /** What a grid stores for a pixel; outside of its box that is nothing. */
  ghost function Coverage(grid: CoverageGrid, px: int, py: int): real
    reads grid
  {
    var r := py - grid.y0;
    if grid.x0 <= px < grid.x1 && 0 <= r < |grid.rowX| && r + 1 < |grid.rowOffset|
       && grid.rowOffset[r] <= grid.rowOffset[r + 1] <= |grid.values|
    then Stored(grid.values[grid.rowOffset[r]..grid.rowOffset[r + 1]], grid.rowX[r], px)
    else 0.0
  }

  lemma {:induction false} RectangleInside(left: real, top: real, right: real, bottom: real, x: real, y: real,
      evenOdd: bool)
    requires left < x < right && top < y < bottom
    ensures Inside([Rectangle(left, top, right, bottom)], x, y, evenOdd)
  {
    hide Crossings, Rectangle;
    RectangleCrossings(left, top, right, bottom, y, 2);
    TwoCrossings(left, right, x);
  }

  /** A pixel without an inside has nothing in common with the rectangle. */
  lemma {:induction false} EmptyIsApart(left: real, top: real, right: real, bottom: real, px: int, py: int,
      evenOdd: bool)
    requires left < right && top < bottom && PixelEmpty([Rectangle(left, top, right, bottom)], px, py, evenOdd)
    ensures Common(px, left, right) * Common(py, top, bottom) == 0.0
  {
    hide Inside, Rectangle;
    if Common(px, left, right) > 0.0 && Common(py, top, bottom) > 0.0 {
      var x := (Max(px as real, left) + Min(px as real + 1.0, right)) / 2.0;
      var y := (Max(py as real, top) + Min(py as real + 1.0, bottom)) / 2.0;
      RectangleInside(left, top, right, bottom, x, y, evenOdd);
      assert false;
    }
  }

  lemma {:induction false} RectangleIsNotFlat(left: real, top: real, right: real, bottom: real)
    requires top < bottom
    ensures !AllHorizontal([Rectangle(left, top, right, bottom)])
  {
    var loops: seq<Loop> := [Rectangle(left, top, right, bottom)];
    assert loops[0][1].y != At(loops[0], 2).y;
  }

  /** Computing the coverage of a rectangle on quarters of pixels gives every pixel of the canvas its area. */
  method CoverRectangle(width: int, height: int, left: real, right: real, i: int, j: int, evenOdd: bool)
    returns (grid: CoverageGrid)
    requires left < right && i < j
    ensures forall px, py | 0 <= px < width && 0 <= py < height ::
              Coverage(grid, px, py) == Common(px, left, right) * Common(py, i as real / 4.0, j as real / 4.0)
  {
    hide Rectangle, Common, Stored, RowCorrect, PixelEmpty, AllHorizontal, CoverageGrid.BoxIs;
    var top, bottom := i as real / 4.0, j as real / 4.0;
    var loops := [Rectangle(left, top, right, bottom)];
    grid := new CoverageGrid();
    grid.Compute(width, height, loops, evenOdd);
    RectangleIsNotFlat(left, top, right, bottom);
    forall px, py | 0 <= px < width && 0 <= py < height
      ensures Coverage(grid, px, py) == Common(px, left, right) * Common(py, top, bottom)
    {
      if grid.x0 <= px < grid.x1 && grid.y0 <= py < grid.y1 {
        var r := py - grid.y0;
        assert CoverageGrid.RowDone(grid.values, grid.rowOffset, grid.rowX, r, grid.x0, grid.x1, grid.y0, loops,
                                    evenOdd);
        RectangleArea(grid.values[grid.rowOffset[r]..grid.rowOffset[r + 1]], grid.rowX[r], grid.x0, grid.x1, py,
                      left, right, i, j, evenOdd, px);
      } else {
        EmptyIsApart(left, top, right, bottom, px, py, evenOdd);
      }
    }
  }
}
