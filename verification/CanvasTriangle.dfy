/** Hit testing against geometry: what counting crossings says of a triangle. */
module CanvasTriangle {
  import opened CanvasGeometry

  /** On which side of the line from `p` to `q` the point lies: positive on one side, negative on the other, zero on
      the line. */
  function Side(p: Point, q: Point, z: Point): real {
    (q.x - p.x) * (z.y - p.y) - (q.y - p.y) * (z.x - p.x)
  }

  lemma {:induction false} Divided(a: real, b: real, c: real)
    requires c != 0.0
    ensures c > 0.0 ==> (a / c > b <==> a > b * c)
    ensures c < 0.0 ==> (a / c > b <==> a < b * c)
    ensures a / c * c == a
  {
    var d := a / c;
    assert d * c == a;
    if c > 0.0 {
      if d > b { assert d * c > b * c; } else { assert d * c <= b * c; }
    } else {
      if d > b { assert d * c < b * c; } else { assert d * c >= b * c; }
    }
  }

  /** The crossing lies on the line through the two points, and between them. */
  lemma {:induction false} CrossingOnEdge(p: Point, q: Point, y: real)
    requires Crosses(p, q, y)
    ensures Side(p, q, Point(CrossingOf(p, q, y).x, y)) == 0.0
  {
    var n, d := (y - p.y) * (q.x - p.x), q.y - p.y;
    Divided(n, 0.0, d);
    assert CrossingOf(p, q, y).x - p.x == n / d;
  }

  /** Whether a crossing is to the right of a point is the side of the edge that the point is on. */
  lemma {:induction false} RightBySide(p: Point, q: Point, z: Point)
    requires Crosses(p, q, z.y)
    ensures CrossingOf(p, q, z.y).winding == if q.y > p.y then 1 else -1
    ensures CrossingOf(p, q, z.y).x > z.x <==> if q.y > p.y then Side(p, q, z) > 0.0 else Side(p, q, z) < 0.0
  {
    var n, d := (z.y - p.y) * (q.x - p.x), q.y - p.y;
    Divided(n, z.x - p.x, d);
    assert Side(p, q, z) == n - (z.x - p.x) * d;
  }

  /** What an edge adds to the winding number: it passes the scanline of the point upwards or downwards, and has the
      point on its inner side. */
  function Turn(p: Point, q: Point, z: Point): int {
    if p.y <= z.y < q.y && Side(p, q, z) > 0.0 then 1
    else if q.y <= z.y < p.y && Side(p, q, z) < 0.0 then -1
    else 0
  }

  /** The sums that hit testing forms, edge by edge. */
  lemma {:induction false} TurnOf(loop: Loop, n: nat, z: Point)
    requires 0 < n <= |loop|
    ensures var before, now := EdgeCrossings(loop, n - 1, z.y), EdgeCrossings(loop, n, z.y);
      var t := Turn(loop[n - 1], At(loop, n), z);
      && RightWinding(now, z.x) == RightWinding(before, z.x) + t
      && RightCount(now, z.x) == RightCount(before, z.x) + if t != 0 then 1 else 0
  {
    hide RightWinding, RightCount, Intersection, Side;
    var p, q := loop[n - 1], At(loop, n);
    if Crosses(p, q, z.y) {
      RightBySide(p, q, z);
      RightStep(EdgeCrossings(loop, n - 1, z.y), CrossingOf(p, q, z.y), z.x);
    }
  }

  lemma {:induction false} TriangleTurns(a: Point, b: Point, c: Point, z: Point, evenOdd: bool)
    ensures var s, t, u := Turn(a, b, z), Turn(b, c, z), Turn(c, a, z);
      Inside([[a, b, c]], z.x, z.y, evenOdd) <==> if evenOdd then (s + t + u) % 2 != 0 else s + t + u != 0
  {
    hide EdgeCrossings, Crossings, RightWinding, RightCount, Side;
    var loop := [a, b, c];
    assert At(loop, 1) == b && At(loop, 2) == c && At(loop, 3) == a;
    TurnOf(loop, 1, z);
    TurnOf(loop, 2, z);
    TurnOf(loop, 3, z);
    OneLoop(loop, z.x, z.y);
  }

  lemma {:induction false} OneLoop(loop: Loop, x: real, y: real)
    requires |loop| >= 2
    ensures Crossings([loop], 2, y) == EdgeCrossings(loop, |loop|, y)
    ensures EdgeCrossings(loop, 0, y) == [] && RightWinding([], x) == 0 && RightCount([], x) == 0
  {
    assert [loop][..0] == [];
    assert Crossings([], 2, y) == [];
  }

  /** The heights of the corners above the point, weighted with the sides of the opposite edges, cancel. */
  lemma {:induction false} WeightsCancel(a: Point, b: Point, c: Point, z: Point)
    ensures Side(a, b, z) * (c.y - z.y) + Side(b, c, z) * (a.y - z.y) + Side(c, a, z) * (b.y - z.y) == 0.0
  {
  }

  /** Two edges meet at `a`, which lies on one side of the scanline while the other corners lie on the other: if the
      point is on the inner side of both edges, it is on the inner side of the third. */
  lemma {:induction false} ThirdSide(a: Point, b: Point, c: Point, z: Point)
    requires (a.y > z.y && b.y <= z.y && c.y <= z.y) || (a.y <= z.y && b.y > z.y && c.y > z.y)
    ensures Side(a, b, z) > 0.0 && Side(c, a, z) > 0.0 ==> Side(b, c, z) >= 0.0
    ensures Side(a, b, z) < 0.0 && Side(c, a, z) < 0.0 ==> Side(b, c, z) <= 0.0
  {
    hide Side;
    WeightsCancel(a, b, c, z);
    SignOfThird(Side(a, b, z), Side(c, a, z), Side(b, c, z), c.y - z.y, b.y - z.y, a.y - z.y);
  }

  lemma {:induction false} SignOfThird(s: real, t: real, u: real, c: real, b: real, a: real)
    requires s * c + u * a + t * b == 0.0
    requires (a > 0.0 && b <= 0.0 && c <= 0.0) || (a <= 0.0 && b > 0.0 && c > 0.0)
    ensures s > 0.0 && t > 0.0 ==> u >= 0.0
    ensures s < 0.0 && t < 0.0 ==> u <= 0.0
  {
  }

  /** A point that lies on no edge's line is inside a triangle, by either rule, exactly if it is on the same side of
      all three edges. */
  lemma {:induction false} TriangleInside(a: Point, b: Point, c: Point, z: Point, evenOdd: bool)
    requires Side(a, b, z) != 0.0 && Side(b, c, z) != 0.0 && Side(c, a, z) != 0.0
    ensures Inside([[a, b, c]], z.x, z.y, evenOdd) <==>
      (Side(a, b, z) > 0.0 && Side(b, c, z) > 0.0 && Side(c, a, z) > 0.0)
      || (Side(a, b, z) < 0.0 && Side(b, c, z) < 0.0 && Side(c, a, z) < 0.0)
  {
    hide Inside, Side;
    TriangleTurns(a, b, c, z, evenOdd);
    if (a.y > z.y) == (b.y > z.y) == (c.y > z.y) {
      NotBeside(a, b, c, z);
    } else if (b.y > z.y) == (c.y > z.y) {
      ThirdSide(a, b, c, z);
    } else if (c.y > z.y) == (a.y > z.y) {
      ThirdSide(b, c, a, z);
    } else {
      ThirdSide(c, a, b, z);
    }
  }

  /** No point above or below all corners is on the same side of all edges. */
  lemma {:induction false} NotBeside(a: Point, b: Point, c: Point, z: Point)
    requires (a.y > z.y && b.y > z.y && c.y > z.y) || (a.y <= z.y && b.y <= z.y && c.y <= z.y)
    ensures !(Side(a, b, z) > 0.0 && Side(b, c, z) > 0.0 && Side(c, a, z) > 0.0)
    ensures !(Side(a, b, z) < 0.0 && Side(b, c, z) < 0.0 && Side(c, a, z) < 0.0)
  {
    WeightsCancel(a, b, c, z);
    var s, t, u := Side(a, b, z), Side(b, c, z), Side(c, a, z);
    if a.y > z.y {
      SumNotZero(s, t, u, c.y - z.y, a.y - z.y, b.y - z.y);
    } else if a.y == z.y && b.y == z.y && c.y == z.y {
      assert s == 0.0;
    } else {
      SumNotZero(s, t, u, z.y - c.y, z.y - a.y, z.y - b.y);
    }
  }

  lemma {:induction false} SumNotZero(s: real, t: real, u: real, c: real, a: real, b: real)
    requires c >= 0.0 && a >= 0.0 && b >= 0.0 && (a > 0.0 || b > 0.0 || c > 0.0)
    ensures s > 0.0 && t > 0.0 && u > 0.0 ==> s * c + t * a + u * b > 0.0
    ensures s < 0.0 && t < 0.0 && u < 0.0 ==> s * c + t * a + u * b < 0.0
  {
  }
}
