/**
  Hit testing of closed polygon loops by counting crossings, and why a closed loop crosses every
  scanline an even number of times with windings that cancel. Coordinates are reals.
 */
module CanvasGeometry {

  datatype Point = Point(x: real, y: real)

  type Loop = seq<Point>

  /** Where an edge meets a scanline, and in which direction it passes. */
  datatype Crossing = Crossing(x: real, winding: int)

  /** The point at index `i` modulo the length: the point after the last one is the first. */
  function At(loop: Loop, i: nat): Point
    requires i <= |loop| && 0 < |loop|
  {
    if i == |loop| then loop[0] else loop[i]
  }

  predicate Crosses(p: Point, q: Point, y: real) {
    (p.y > y) != (q.y > y)
  }

  /** Where the line through `p` and `q` meets the scanline. */
  function Intersection(p: Point, q: Point, y: real): real
    requires p.y != q.y
  {
    p.x + (y - p.y) * (q.x - p.x) / (q.y - p.y)
  }

  function CrossingOf(p: Point, q: Point, y: real): Crossing
    requires Crosses(p, q, y)
  {
    Crossing(Intersection(p, q, y), if q.y > p.y then 1 else -1)
  }

  /** The crossings of the first `n` edges of a loop with the scanline at `y`. */
  function EdgeCrossings(loop: Loop, n: nat, y: real): seq<Crossing>
    requires n <= |loop|
  {
    if n == 0 then []
    else
      var front := EdgeCrossings(loop, n - 1, y);
      if Crosses(loop[n - 1], At(loop, n), y)
      then front + [CrossingOf(loop[n - 1], At(loop, n), y)]
      else front
  }

  /** The crossings of all loops with at least `least` points. */
  function Crossings(loops: seq<Loop>, least: nat, y: real): seq<Crossing> {
    if loops == [] then []
    else
      var i := |loops| - 1;
      Crossings(loops[..i], least, y) + if |loops[i]| < least then [] else EdgeCrossings(loops[i], |loops[i]|, y)
  }

  // ----- sums over crossings

  function TotalWinding(cs: seq<Crossing>): int {
    if cs == [] then 0 else TotalWinding(cs[..|cs| - 1]) + cs[|cs| - 1].winding
  }

  /** The windings of the crossings to the left of `x`. */
  function LeftWinding(cs: seq<Crossing>, x: real): int {
    if cs == [] then 0
    else LeftWinding(cs[..|cs| - 1], x) + if cs[|cs| - 1].x < x then cs[|cs| - 1].winding else 0
  }

  function RightWinding(cs: seq<Crossing>, x: real): int {
    if cs == [] then 0
    else RightWinding(cs[..|cs| - 1], x) + if cs[|cs| - 1].x > x then cs[|cs| - 1].winding else 0
  }

  function LeftCount(cs: seq<Crossing>, x: real): nat {
    if cs == [] then 0
    else LeftCount(cs[..|cs| - 1], x) + if cs[|cs| - 1].x < x then 1 else 0
  }

  function RightCount(cs: seq<Crossing>, x: real): nat {
    if cs == [] then 0
    else RightCount(cs[..|cs| - 1], x) + if cs[|cs| - 1].x > x then 1 else 0
  }

  predicate OffCrossings(cs: seq<Crossing>, x: real) {
    forall i | 0 <= i < |cs| :: cs[i].x != x
  }

  /** Inside, by the crossings to the right of the point. */
  predicate InsideBy(cs: seq<Crossing>, x: real, evenOdd: bool) {
    if evenOdd then RightCount(cs, x) % 2 != 0 else RightWinding(cs, x) != 0
  }

  predicate Inside(loops: seq<Loop>, x: real, y: real, evenOdd: bool) {
    InsideBy(Crossings(loops, 2, y), x, evenOdd)
  }

  lemma {:induction false} RightStep(cs: seq<Crossing>, c: Crossing, x: real)
    ensures RightWinding(cs + [c], x) == RightWinding(cs, x) + if c.x > x then c.winding else 0
    ensures RightCount(cs + [c], x) == RightCount(cs, x) + if c.x > x then 1 else 0
  {
    assert (cs + [c])[..|cs|] == cs;
  }

  method CountEdge(p: Point, q: Point, x: real, y: real, ghost so: seq<Crossing>, winding: int, crossings: nat)
    returns (newWinding: int, newCrossings: nat)
    requires winding == RightWinding(so, x) && crossings == RightCount(so, x)
    ensures var now := if Crosses(p, q, y) then so + [CrossingOf(p, q, y)] else so;
      newWinding == RightWinding(now, x) && newCrossings == RightCount(now, x)
  {
    hide Intersection, RightWinding, RightCount;
    if (p.y > y) == (q.y > y) { return winding, crossings; }
    RightStep(so, CrossingOf(p, q, y), x);
    var intersection := Intersection(p, q, y);
    if intersection <= x { return winding, crossings; }
    newWinding := if q.y > p.y then winding + 1 else winding - 1;
    newCrossings := crossings + 1;
  }

  /** Counts the crossings of `loop` on top of those in `before`. */
  method CountLoop(loop: Loop, x: real, y: real, ghost before: seq<Crossing>, winding: int, crossings: nat)
    returns (newWinding: int, newCrossings: nat)
    requires winding == RightWinding(before, x) && crossings == RightCount(before, x)
    ensures newWinding == RightWinding(before + EdgeCrossings(loop, |loop|, y), x)
    ensures newCrossings == RightCount(before + EdgeCrossings(loop, |loop|, y), x)
  {
    hide RightWinding, RightCount, CrossingOf, Crosses;
    newWinding, newCrossings := winding, crossings;
    assert before + EdgeCrossings(loop, 0, y) == before;
    for i := 0 to |loop|
      invariant newWinding == RightWinding(before + EdgeCrossings(loop, i, y), x)
      invariant newCrossings == RightCount(before + EdgeCrossings(loop, i, y), x)
    {
      ghost var so := before + EdgeCrossings(loop, i, y);
      var p, q := loop[i], At(loop, i + 1);
      newWinding, newCrossings := CountEdge(p, q, x, y, so, newWinding, newCrossings);
      assert before + EdgeCrossings(loop, i + 1, y) == if Crosses(p, q, y) then so + [CrossingOf(p, q, y)] else so;
    }
  }

  method PointInLoops(loops: seq<Loop>, x: real, y: real, evenOdd: bool) returns (inside: bool)
    ensures inside == Inside(loops, x, y, evenOdd)
  {
    var winding, crossings: nat := 0, 0;
    for k := 0 to |loops|
      invariant winding == RightWinding(Crossings(loops[..k], 2, y), x)
      invariant crossings == RightCount(Crossings(loops[..k], 2, y), x)
    {
      assert loops[..k + 1][..k] == loops[..k];
      ghost var before := Crossings(loops[..k], 2, y);
      if |loops[k]| >= 2 {
        winding, crossings := CountLoop(loops[k], x, y, before, winding, crossings);
      } else {
        assert before + [] == before;
      }
    }
    assert loops[..|loops|] == loops;
    return if evenOdd then crossings % 2 != 0 else winding != 0;
  }

  // ----- closed loops

  function Above(p: Point, y: real): int {
    if p.y > y then 1 else 0
  }

  /** After `n` edges the windings add up to the change of side. */
  lemma {:induction false} WindingTelescopes(loop: Loop, n: nat, y: real)
    requires n <= |loop| && 0 < |loop|
    ensures TotalWinding(EdgeCrossings(loop, n, y)) == Above(At(loop, n), y) - Above(loop[0], y)
    ensures (|EdgeCrossings(loop, n, y)| + Above(At(loop, n), y) + Above(loop[0], y)) % 2 == 0
  {
    hide Intersection;
    if n > 0 {
      WindingTelescopes(loop, n - 1, y);
      var cs := EdgeCrossings(loop, n, y);
      if Crosses(loop[n - 1], At(loop, n), y) {
        assert cs[..|cs| - 1] == EdgeCrossings(loop, n - 1, y);
      }
    }
  }

  lemma {:induction false} SumsConcat(a: seq<Crossing>, b: seq<Crossing>, x: real)
    ensures TotalWinding(a + b) == TotalWinding(a) + TotalWinding(b)
    ensures LeftWinding(a + b, x) == LeftWinding(a, x) + LeftWinding(b, x)
    ensures RightWinding(a + b, x) == RightWinding(a, x) + RightWinding(b, x)
    ensures LeftCount(a + b, x) == LeftCount(a, x) + LeftCount(b, x)
    ensures RightCount(a + b, x) == RightCount(a, x) + RightCount(b, x)
  {
    if b == [] {
      assert a + b == a;
    } else {
      var i := |b| - 1;
      SumsConcat(a, b[..i], x);
      assert (a + b)[..|a + b| - 1] == a + b[..i];
    }
  }

  /** On every scanline the windings of closed loops cancel, and the number of crossings is even. */
  lemma {:induction false} ClosedLoopsBalance(loops: seq<Loop>, least: nat, y: real)
    requires least >= 1
    ensures TotalWinding(Crossings(loops, least, y)) == 0
    ensures |Crossings(loops, least, y)| % 2 == 0
  {
    if loops != [] {
      var i := |loops| - 1;
      ClosedLoopsBalance(loops[..i], least, y);
      if |loops[i]| >= least {
        WindingTelescopes(loops[i], |loops[i]|, y);
        SumsConcat(Crossings(loops[..i], least, y), EdgeCrossings(loops[i], |loops[i]|, y), 0.0);
      } else {
        assert Crossings(loops, least, y) == Crossings(loops[..i], least, y);
      }
    }
  }

  /** Off the crossings, what lies to the left and to the right is everything. */
  lemma {:induction false} LeftAndRight(cs: seq<Crossing>, x: real)
    requires OffCrossings(cs, x)
    ensures LeftWinding(cs, x) + RightWinding(cs, x) == TotalWinding(cs)
    ensures LeftCount(cs, x) + RightCount(cs, x) == |cs|
  {
    if cs != [] {
      assert OffCrossings(cs[..|cs| - 1], x);
      LeftAndRight(cs[..|cs| - 1], x);
    }
  }

  /** A loop of two points crosses a scanline at one place in both directions: it has no inside. */
  lemma {:induction false} DegenerateLoop(loop: Loop, x: real, y: real)
    requires |loop| == 2
    ensures RightWinding(EdgeCrossings(loop, 2, y), x) == 0 && RightCount(EdgeCrossings(loop, 2, y), x) % 2 == 0
    ensures OffCrossings(EdgeCrossings(loop, 2, y), x) ==> LeftCount(EdgeCrossings(loop, 2, y), x) % 2 == 0
  {
    var p, q := loop[0], loop[1];
    assert At(loop, 1) == q && At(loop, 2) == p;
    assert EdgeCrossings(loop, 0, y) == [];
    if Crosses(p, q, y) {
      var c, d := CrossingOf(p, q, y), CrossingOf(q, p, y);
      SameIntersection(p, q, y);
      assert EdgeCrossings(loop, 1, y) == [c];
      assert EdgeCrossings(loop, 2, y) == [c, d];
      assert [c, d][..1] == [c] && [c][..0] == [];
      assert RightWinding([c], x) == if c.x > x then c.winding else 0;
      assert RightCount([c], x) == if c.x > x then 1 else 0;
      assert LeftCount([c], x) == if c.x < x then 1 else 0;
    } else {
      assert EdgeCrossings(loop, 1, y) == [];
      assert EdgeCrossings(loop, 2, y) == [];
    }
  }

  /** Both ends of an edge give the same intersection. */
  lemma {:induction false} SameIntersection(p: Point, q: Point, y: real)
    requires Crosses(p, q, y)
    ensures CrossingOf(p, q, y).x == CrossingOf(q, p, y).x
    ensures CrossingOf(p, q, y).winding == -CrossingOf(q, p, y).winding
  {
    var d, e := q.y - p.y, q.x - p.x;
    var t, u := (y - p.y) / d, (y - q.y) / (-d);
    PartsOfWhole(t, u, d, y - p.y, q.y - y);
    assert (y - p.y) * e / d == t * e;
    assert (y - q.y) * (-e) / (-d) == u * (-e);
    assert u * (-e) == (1.0 - t) * (-e) == t * e - e;
  }

  lemma {:induction false} PartsOfWhole(t: real, u: real, d: real, a: real, b: real)
    requires d != 0.0 && t * d == a && u * d == b && a + b == d
    ensures t + u == 1.0
  {
    assert (t + u) * d == a + b;
  }

  /** Loops of fewer than three points do not matter. */
  lemma {:induction false} SmallLoopsDoNotMatter(loops: seq<Loop>, x: real, y: real)
    ensures RightWinding(Crossings(loops, 2, y), x) == RightWinding(Crossings(loops, 3, y), x)
    ensures RightCount(Crossings(loops, 2, y), x) % 2 == RightCount(Crossings(loops, 3, y), x) % 2
  {
    hide EdgeCrossings, RightWinding, RightCount, LeftCount, OffCrossings;
    if loops != [] {
      var i := |loops| - 1;
      SmallLoopsDoNotMatter(loops[..i], x, y);
      var added := EdgeCrossings(loops[i], |loops[i]|, y);
      if |loops[i]| >= 2 {
        SumsConcat(Crossings(loops[..i], 2, y), added, x);
      }
      if |loops[i]| >= 3 {
        SumsConcat(Crossings(loops[..i], 3, y), added, x);
      }
      if |loops[i]| == 2 { DegenerateLoop(loops[i], x, y); }
      if |loops[i]| < 2 { assert Crossings(loops, 2, y) == Crossings(loops[..i], 2, y); }
      if |loops[i]| < 3 { assert Crossings(loops, 3, y) == Crossings(loops[..i], 3, y); }
    }
  }
}
