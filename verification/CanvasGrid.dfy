/** The coverage grid, and the bounding box outside of which a path has no inside. */
module CanvasGrid {
  import opened CanvasGeometry
  import opened CanvasSpans
  import opened CanvasEdges
  import opened CanvasCoverage

  /** Every point of the path lies in the given range. */
  ghost predicate Within(loops: seq<Loop>, minX: real, maxX: real, minY: real, maxY: real) {
    forall k, i | 0 <= k < |loops| && 0 <= i < |loops[k]| ::
      minX <= loops[k][i].x <= maxX && minY <= loops[k][i].y <= maxY
  }

  /** The ranges reach from point to point. */
  ghost predicate Tight(loops: seq<Loop>, minX: real, maxX: real, minY: real, maxY: real) {
    && Within(loops, minX, maxX, minY, maxY)
    && HasX(loops, minX) && HasX(loops, maxX) && HasY(loops, minY) && HasY(loops, maxY)
  }

  ghost predicate HasX(loops: seq<Loop>, x: real) {
    exists k, i :: 0 <= k < |loops| && 0 <= i < |loops[k]| && loops[k][i].x == x
  }

  ghost predicate HasY(loops: seq<Loop>, y: real) {
    exists k, i :: 0 <= k < |loops| && 0 <= i < |loops[k]| && loops[k][i].y == y
  }

  ghost predicate NoPoints(loops: seq<Loop>) {
    forall k | 0 <= k < |loops| :: loops[k] == []
  }

  method BoundingBox(loops: seq<Loop>) returns (havePoint: bool, minX: real, maxX: real, minY: real, maxY: real)
    ensures havePoint <==> !NoPoints(loops)
    ensures Within(loops, minX, maxX, minY, maxY)
    ensures havePoint ==> Tight(loops, minX, maxX, minY, maxY)
  {
    havePoint, minX, maxX, minY, maxY := false, 0.0, 0.0, 0.0, 0.0;
    for k := 0 to |loops|
      invariant havePoint <==> !NoPoints(loops[..k])
      invariant Within(loops[..k], minX, maxX, minY, maxY)
      invariant havePoint ==> HasX(loops, minX) && HasX(loops, maxX) && HasY(loops, minY) && HasY(loops, maxY)
    {
      var loop := loops[k];
      for i := 0 to |loop|
        invariant havePoint <==> !NoPoints(loops[..k]) || i > 0
        invariant Within(loops[..k], minX, maxX, minY, maxY)
        invariant havePoint ==> HasX(loops, minX) && HasX(loops, maxX) && HasY(loops, minY) && HasY(loops, maxY)
        invariant forall j | 0 <= j < i :: minX <= loop[j].x <= maxX && minY <= loop[j].y <= maxY
      {
        var point := loop[i];
        assert loops[k][i] == point;
        if !havePoint {
          minX, maxX, minY, maxY := point.x, point.x, point.y, point.y;
          havePoint := true;
        } else {
          minX, maxX := Min(minX, point.x), Max(maxX, point.x);
          minY, maxY := Min(minY, point.y), Max(maxY, point.y);
        }
      }
      assert forall m | 0 <= m < k :: loops[..k + 1][m] == loops[..k][m];
      assert loops[..k + 1][k] == loop;
      assert NoPoints(loops[..k + 1]) <==> NoPoints(loops[..k]) && loop == [];
    }
    assert loops[..|loops|] == loops;
  }

  // ----- outside the box there is no inside

  lemma {:induction false} CrossingBetween(p: Point, q: Point, y: real, minX: real, maxX: real)
    requires Crosses(p, q, y) && minX <= p.x <= maxX && minX <= q.x <= maxX
    ensures minX <= CrossingOf(p, q, y).x <= maxX
  {
    var t := (y - p.y) / (q.y - p.y);
    FractionInUnit(y - p.y, q.y - p.y);
    QuotientFirst(y - p.y, q.y - p.y, q.x - p.x);
    Interpolated(t, p.x, q.x, minX, maxX);
    assert CrossingOf(p, q, y).x == p.x + t * (q.x - p.x);
  }

  lemma {:induction false} Interpolated(t: real, a: real, b: real, low: real, high: real)
    requires 0.0 <= t <= 1.0 && low <= a <= high && low <= b <= high
    ensures low <= a + t * (b - a) <= high
  {
    var step := t * (b - a);
    if a <= b {
      ScaledDown(t, b - a, step);
    } else {
      ScaledDown(t, a - b, -step);
    }
    assert low <= a + step <= high;
  }

  lemma {:induction false} ScaledDown(t: real, w: real, step: real)
    requires 0.0 <= t <= 1.0 && 0.0 <= w && step == t * w
    ensures 0.0 <= step <= w
  {
    NotNegative(t, w);
    NotNegative(1.0 - t, w);
    assert step + (1.0 - t) * w == w;
  }

  lemma {:induction false} NotNegative(t: real, w: real)
    requires 0.0 <= t && 0.0 <= w
    ensures 0.0 <= t * w
  {
  }

  lemma {:induction false} FractionInUnit(a: real, d: real)
    requires d != 0.0 && (0.0 <= a <= d || d <= a <= 0.0)
    ensures 0.0 <= a / d <= 1.0
  {
    var t := a / d;
    assert t * d == a && (1.0 - t) * d == d - a;
    SameSign(t, d);
    SameSign(1.0 - t, d);
  }

  lemma {:induction false} SameSign(t: real, d: real)
    requires d != 0.0
    ensures t < 0.0 ==> (t * d < 0.0 <==> d > 0.0)
  {
  }

  lemma {:induction false} EdgesBetween(loop: Loop, n: nat, y: real, minX: real, maxX: real, minY: real, maxY: real)
    requires n <= |loop| && Within([loop], minX, maxX, minY, maxY)
    ensures forall c | c in EdgeCrossings(loop, n, y) :: minX <= c.x <= maxX && minY <= y < maxY
  {
    if n > 0 {
      EdgesBetween(loop, n - 1, y, minX, maxX, minY, maxY);
      var p, q := loop[n - 1], At(loop, n);
      assert [loop][0] == loop;
      assert minX <= p.x <= maxX && minY <= p.y <= maxY && minX <= q.x <= maxX && minY <= q.y <= maxY by {
        assert [loop][0][n - 1] == p;
        assert [loop][0][if n == |loop| then 0 else n] == q;
      }
      if Crosses(p, q, y) {
        CrossingBetween(p, q, y, minX, maxX);
      }
    }
  }

  lemma {:induction false} CrossingsBetween(loops: seq<Loop>, least: nat, y: real, minX: real, maxX: real,
      minY: real, maxY: real)
    requires Within(loops, minX, maxX, minY, maxY)
    ensures forall c | c in Crossings(loops, least, y) :: minX <= c.x <= maxX && minY <= y < maxY
  {
    if loops != [] {
      var k := |loops| - 1;
      CrossingsBetween(loops[..k], least, y, minX, maxX, minY, maxY);
      assert [loops[k]][0] == loops[k];
      EdgesBetween(loops[k], |loops[k]|, y, minX, maxX, minY, maxY);
    }
  }

  lemma {:induction false} OneSided(cs: seq<Crossing>, x: real)
    ensures (forall c | c in cs :: c.x <= x) ==> RightWinding(cs, x) == 0 && RightCount(cs, x) == 0
    ensures (forall c | c in cs :: x < c.x) ==> RightWinding(cs, x) == TotalWinding(cs) && RightCount(cs, x) == |cs|
  {
    if cs != [] {
      OneSided(cs[..|cs| - 1], x);
      assert cs[|cs| - 1] in cs;
    }
  }

  lemma {:induction false} NotInsideBeyond(loops: seq<Loop>, x: real, y: real, evenOdd: bool, minX: real, maxX: real,
      minY: real, maxY: real)
    requires Within(loops, minX, maxX, minY, maxY)
    requires x < minX || maxX <= x || y < minY || maxY <= y
    ensures !Inside(loops, x, y, evenOdd)
  {
    CrossingsBetween(loops, 2, y, minX, maxX, minY, maxY);
    ClosedLoopsBalance(loops, 2, y);
    OneSided(Crossings(loops, 2, y), x);
  }

  /** Hit testing finds nothing in the pixel. */
  ghost predicate PixelEmpty(loops: seq<Loop>, px: int, py: int, evenOdd: bool) {
    forall x: real, y: real | px as real < x < px as real + 1.0 && py as real < y < py as real + 1.0 ::
      !Inside(loops, x, y, evenOdd)
  }

  lemma {:induction false} PointlessIsEmpty(loops: seq<Loop>, evenOdd: bool)
    requires NoPoints(loops)
    ensures forall px: int, py: int :: PixelEmpty(loops, px, py, evenOdd)
  {
    forall px: int, py: int ensures PixelEmpty(loops, px, py, evenOdd) {
      forall x: real, y: real ensures !Inside(loops, x, y, evenOdd) {
        NotInsideBeyond(loops, x, y, evenOdd, x + 1.0, x + 1.0, y, y);
      }
    }
  }

  class CoverageGrid {
    var x0: int
    var y0: int
    var x1: int
    var y1: int
    var values: seq<real>
    var rowOffset: seq<nat>
    var rowX: seq<int>

    predicate Empty()
      reads `x0, `y0, `x1, `y1
    {
      x1 <= x0 || y1 <= y0
    }

    /** The first `n` rows are complete. */
    ghost predicate RowsDone(n: nat, loops: seq<Loop>, evenOdd: bool)
      reads this
    {
      && |rowOffset| == n + 1 && |rowX| == n
      && rowOffset[0] == 0 && rowOffset[n] == |values|
      && forall r | 0 <= r < n :: RowDone(values, rowOffset, rowX, r, x0, x1, y0, loops, evenOdd)
    }

    /** Row `r` owns the values from its offset to the next, and they are correct. */
    static ghost predicate RowDone(values: seq<real>, rowOffset: seq<nat>, rowX: seq<int>, r: nat, x0: int, x1: int,
        y0: int, loops: seq<Loop>, evenOdd: bool)
    {
      && r + 1 < |rowOffset| && r < |rowX| && rowOffset[r] <= rowOffset[r + 1] <= |values|
      && RowCorrect(values[rowOffset[r]..rowOffset[r + 1]], rowX[r], x0, x1, y0 + r, loops, evenOdd)
    }

    /** No canvas pixel outside the box has an inside. */
    ghost predicate BoxHolds(width: int, height: int, loops: seq<Loop>, evenOdd: bool)
      reads `x0, `y0, `x1, `y1
    {
      && (!Empty() ==> 0 <= x0 < x1 <= width && 0 <= y0 < y1 <= height)
      && forall px, py | 0 <= px < width && 0 <= py < height && !(x0 <= px < x1 && y0 <= py < y1) ::
           PixelEmpty(loops, px, py, evenOdd)
    }

    constructor ()
      ensures Empty()
    {
      x0, y0, x1, y1, values, rowOffset, rowX := 0, 0, 0, 0, [], [], [];
    }

    /** The box is the range of the points, rounded outwards to whole pixels and clipped to the canvas. */
    ghost predicate BoxIs(width: int, height: int, loops: seq<Loop>)
      reads `x0, `y0, `x1, `y1
    {
      if width <= 0 || height <= 0 || NoPoints(loops) then (x0, y0, x1, y1) == (0, 0, 0, 0)
      else exists minX, maxX, minY, maxY ::
             Tight(loops, minX, maxX, minY, maxY) && BoxFor(width, height, minX, maxX, minY, maxY)
    }

    ghost predicate BoxFor(width: int, height: int, minX: real, maxX: real, minY: real, maxY: real)
      reads `x0, `y0, `x1, `y1
    {
      var bx0, by0 := if 0 < minX.Floor then minX.Floor else 0, if 0 < minY.Floor then minY.Floor else 0;
      var bx1 := if Ceil(maxX) < width then Ceil(maxX) else width;
      var by1 := if Ceil(maxY) < height then Ceil(maxY) else height;
      (x0, y0, x1, y1) == if bx1 <= bx0 || by1 <= by0 then (0, 0, 0, 0) else (bx0, by0, bx1, by1)
    }

    method ChooseBox(width: int, height: int, loops: seq<Loop>, evenOdd: bool)
      requires (x0, y0, x1, y1) == (0, 0, 0, 0)
      modifies this`x0, this`y0, this`x1, this`y1
      ensures BoxIs(width, height, loops) && BoxHolds(width, height, loops, evenOdd)
    {
      hide PixelEmpty, Inside, Within, Tight;
      if width <= 0 || height <= 0 { return; }
      if loops == [] {
        PointlessIsEmpty(loops, evenOdd);
        return;
      }
      var havePoint, minX, maxX, minY, maxY := BoundingBox(loops);
      if !havePoint {
        PointlessIsEmpty(loops, evenOdd);
        return;
      }
      var bx0 := if 0 < minX.Floor then minX.Floor else 0;
      var bx1 := if Ceil(maxX) < width then Ceil(maxX) else width;
      var by0 := if 0 < minY.Floor then minY.Floor else 0;
      var by1 := if Ceil(maxY) < height then Ceil(maxY) else height;
      forall px, py | 0 <= px < width && 0 <= py < height && !(bx0 <= px < bx1 && by0 <= py < by1)
        ensures PixelEmpty(loops, px, py, evenOdd)
      {
        BeyondBox(loops, evenOdd, minX, maxX, minY, maxY, px, py);
      }
      if bx0 < bx1 && by0 < by1 { x0, x1, y0, y1 := bx0, bx1, by0, by1; }
      assert BoxFor(width, height, minX, maxX, minY, maxY);
    }

    method Compute(width: int, height: int, loops: seq<Loop>, evenOdd: bool)
      modifies this
      ensures BoxIs(width, height, loops) && BoxHolds(width, height, loops, evenOdd)
      ensures Empty() ==> values == [] && rowOffset == [] && rowX == []
      ensures !Empty() && !AllHorizontal(loops) ==> RowsDone(y1 - y0, loops, evenOdd)
      ensures !Empty() && AllHorizontal(loops) ==> values == [] && rowOffset == [0] && rowX == []
      ensures !Empty() ==> (|rowOffset| == y1 - y0 + 1 <==> !AllHorizontal(loops))
    {
      hide PixelEmpty, BoxFor, Tight, RowDone, AllHorizontal, RowsDone;
      x0, y0, x1, y1, values, rowOffset, rowX := 0, 0, 0, 0, [], [], [];
      ChooseBox(width, height, loops, evenOdd);
      if Empty() { return; }
      rowOffset := [0];
      FillBox(loops, evenOdd);
      if !AllHorizontal(loops) { OffsetCount(y1 - y0, loops, evenOdd); }
    }

    /** The grid has one offset more than it has rows. */
    lemma {:induction false} OffsetCount(n: nat, loops: seq<Loop>, evenOdd: bool)
      requires RowsDone(n, loops, evenOdd)
      ensures |rowOffset| == n + 1
    {
    }

    /** Without edges the rows are left as they are. */
    method FillBox(loops: seq<Loop>, evenOdd: bool)
      requires !Empty() && values == [] && rowOffset == [0] && rowX == []
      modifies this`values, this`rowOffset, this`rowX
      ensures AllHorizontal(loops) ==> values == [] && rowOffset == [0] && rowX == []
      ensures !AllHorizontal(loops) ==> RowsDone(y1 - y0, loops, evenOdd)
    {
      hide RowDone, Crossings, RowsOfEdge, AllHorizontal;
      var edges := BuildEdges(loops);
      if edges == [] { return; }
      FillRows(edges, loops, evenOdd);
    }

    method FillRows(unsorted: seq<Edge>, loops: seq<Loop>, evenOdd: bool)
      requires !Empty() && values == [] && rowOffset == [0] && rowX == []
      requires forall e | e in unsorted :: RowsOfEdge(e)
      requires forall y :: CrossingsOf(unsorted, y) == Crossings(loops, 3, y)
      modifies this`values, this`rowOffset, this`rowX
      ensures RowsDone(y1 - y0, loops, evenOdd)
    {
      hide Crossings, CrossingsOf, RowCorrect, CanvasEdges.Kept, ActiveIn;
      var a := new Edge[|unsorted|](i requires 0 <= i < |unsorted| => unsorted[i]);
      assert a[..] == unsorted;
      InsertionSort(a, RowKey());
      var edges := a[..];
      SortedEdges(unsorted, edges, loops);
      var active: seq<nat>, nextEdge := [], 0;
      NothingTracked(edges, y0);
      for py := y0 to y1
        invariant RowsDone(py - y0, loops, evenOdd)
        invariant Tracks(edges, active, nextEdge, py)
      {
        active, nextEdge := UpdateActive(edges, active, nextEdge, py);
        forall y | py as real < y < py as real + 1.0
          ensures multiset(IndexedCrossings(edges, active, y)) == multiset(Crossings(loops, 3, y))
        {
          ActiveSuffices(edges, nextEdge, py, y);
        }
        var vals, rx := ComputeRow(edges, active, py, x0, x1, evenOdd, loops);
        AppendRow(vals, rx, py, loops, evenOdd);
        TracksLater(edges, active, nextEdge, py);
      }
    }

    method AppendRow(vals: seq<real>, rx: int, py: int, loops: seq<Loop>, evenOdd: bool)
      requires py >= y0 && RowsDone(py - y0, loops, evenOdd) && RowCorrect(vals, rx, x0, x1, py, loops, evenOdd)
      modifies this`values, this`rowOffset, this`rowX
      ensures RowsDone(py - y0 + 1, loops, evenOdd)
    {
      hide RowCorrect;
      var n := py - y0;
      rowX := rowX + [rx];
      values := values + vals;
      rowOffset := rowOffset + [|values|];
      forall r | 0 <= r < n + 1 ensures RowDone(values, rowOffset, rowX, r, x0, x1, y0, loops, evenOdd) {
        if r < n {
          assert RowDone(old(values), old(rowOffset), old(rowX), r, x0, x1, y0, loops, evenOdd);
          assert values[rowOffset[r]..rowOffset[r + 1]] == old(values)[rowOffset[r]..rowOffset[r + 1]];
        } else {
          assert values[rowOffset[r]..rowOffset[r + 1]] == vals;
        }
      }
    }
  }

  lemma {:induction false} BeyondBox(loops: seq<Loop>, evenOdd: bool, minX: real, maxX: real, minY: real, maxY: real,
      px: int, py: int)
    requires Within(loops, minX, maxX, minY, maxY)
    requires px < minX.Floor || Ceil(maxX) <= px || py < minY.Floor || Ceil(maxY) <= py
    ensures PixelEmpty(loops, px, py, evenOdd)
  {
    forall x: real, y: real | px as real < x < px as real + 1.0 && py as real < y < py as real + 1.0
      ensures !Inside(loops, x, y, evenOdd)
    {
      NotInsideBeyond(loops, x, y, evenOdd, minX, maxX, minY, maxY);
    }
  }

  lemma {:induction false} SortedEdges(unsorted: seq<Edge>, edges: seq<Edge>, loops: seq<Loop>)
    requires multiset(edges) == multiset(unsorted)
    requires forall e | e in unsorted :: RowsOfEdge(e)
    requires forall y :: CrossingsOf(unsorted, y) == Crossings(loops, 3, y)
    ensures forall e | e in edges :: RowsOfEdge(e)
    ensures forall y :: multiset(CrossingsOf(edges, y)) == multiset(Crossings(loops, 3, y))
  {
    forall e | e in edges ensures RowsOfEdge(e) { assert e in multiset(edges); }
    forall y ensures multiset(CrossingsOf(edges, y)) == multiset(Crossings(loops, 3, y)) {
      CrossingsPermute(edges, unsorted, y);
    }
  }

  lemma {:induction false} NothingTracked(edges: seq<Edge>, py: int)
    ensures Tracks(edges, [], 0, py)
  {
  }

  lemma {:induction false} TracksLater(edges: seq<Edge>, active: seq<nat>, n: nat, py: int)
    requires Tracks(edges, active, n, py)
    ensures Tracks(edges, active, n, py + 1)
  {
  }

  /** A triangle that lies flat at half a pixel's height: its grid has one row, but a single offset. */
  method FlatTriangle(evenOdd: bool) returns (grid: CoverageGrid)
    ensures (grid.x0, grid.y0, grid.x1, grid.y1) == (1, 0, 4, 1) && grid.rowOffset == [0]
  {
    hide Tight, NoPoints, AllHorizontal, CoverageGrid.BoxHolds, CoverageGrid.RowsDone;
    grid := new CoverageGrid();
    grid.Compute(10, 10, FLAT, evenOdd);
    FlatIsFlat();
    ghost var minX, maxX, minY, maxY :|
      Tight(FLAT, minX, maxX, minY, maxY) && grid.BoxFor(10, 10, minX, maxX, minY, maxY);
    FlatRanges(minX, maxX, minY, maxY);
  }

  lemma {:induction false} FlatIsFlat()
    ensures !NoPoints(FLAT) && AllHorizontal(FLAT)
  {
    assert FLAT[0] != [];
  }

  lemma {:induction false} FlatRanges(minX: real, maxX: real, minY: real, maxY: real)
    requires Tight(FLAT, minX, maxX, minY, maxY)
    ensures minX == 1.0 && maxX == 4.0 && minY == 0.5 && maxY == 0.5
  {
    assert FLAT[0][0] == Point(1.0, 0.5) && FLAT[0][1] == Point(4.0, 0.5);
  }

  const FLAT: seq<Loop> := [[Point(1.0, 0.5), Point(4.0, 0.5), Point(2.0, 0.5)]]
}
