/**
  Edge records, and the active-edge list that gives every sub-scanline the same crossings as a scan of
  all edges of all loops.
 */
module CanvasEdges {
  import opened CanvasGeometry
  import opened Collections
  import opened CanvasSpans

  /** The least whole number that is not below `r`. */
  function Ceil(r: real): (c: int)
    ensures c as real - 1.0 < r <= c as real
  {
    -((-r).Floor)
  }

  /** A non-horizontal segment from its upper end (`x0`, `y0`) to its lower end, and the rows it can cross. */
  datatype Edge = Edge(x0: real, y0: real, x1: real, y1: real, winding: int, firstRow: int, lastRow: int)

  function MakeEdge(p: Point, q: Point): Edge
    requires p.y != q.y
  {
    if p.y < q.y then Edge(p.x, p.y, q.x, q.y, 1, p.y.Floor, Ceil(q.y))
    else Edge(q.x, q.y, p.x, p.y, -1, q.y.Floor, Ceil(p.y))
  }

  predicate Meets(e: Edge, y: real) {
    e.y0 <= y < e.y1
  }

  function EdgeCrossing(e: Edge, y: real): Crossing
    requires Meets(e, y)
  {
    Crossing(e.x0 + (y - e.y0) / (e.y1 - e.y0) * (e.x1 - e.x0), e.winding)
  }

  predicate RowsOfEdge(e: Edge) {
    e.firstRow == e.y0.Floor && e.lastRow == Ceil(e.y1)
  }

  function CrossingsOf(es: seq<Edge>, y: real): seq<Crossing> {
    if es == [] then []
    else
      var front, e := CrossingsOf(es[..|es| - 1], y), es[|es| - 1];
      if Meets(e, y) then front + [EdgeCrossing(e, y)] else front
  }

  /** Dividing first, as the rasteriser does, meets the scanline where dividing last does. */
  lemma {:induction false} SameQuotient(p: Point, q: Point, y: real)
    requires p.y != q.y
    ensures p.x + (y - p.y) / (q.y - p.y) * (q.x - p.x) == Intersection(p, q, y)
  {
    QuotientFirst(y - p.y, q.y - p.y, q.x - p.x);
  }

  lemma {:induction false} QuotientFirst(a: real, d: real, e: real)
    requires d != 0.0
    ensures a / d * e == a * e / d
  {
  }

  /** The rasteriser's crossing of an edge is the hit test's. */
  lemma {:induction false} EdgeMeaning(p: Point, q: Point, y: real)
    ensures p.y == q.y ==> !Crosses(p, q, y)
    ensures p.y != q.y ==> (Meets(MakeEdge(p, q), y) <==> Crosses(p, q, y))
    ensures p.y != q.y && Crosses(p, q, y) ==> EdgeCrossing(MakeEdge(p, q), y) == CrossingOf(p, q, y)
  {
    hide Intersection;
    if p.y != q.y && Crosses(p, q, y) {
      SameIntersection(p, q, y);
      if p.y < q.y { EdgeIs(p, q, y); } else { EdgeIs(q, p, y); }
    }
  }

  lemma {:induction false} EdgeIs(p: Point, q: Point, y: real)
    requires p.y < q.y && Crosses(p, q, y)
    ensures Meets(MakeEdge(p, q), y) && EdgeCrossing(MakeEdge(p, q), y).x == Intersection(p, q, y)
  {
    SameQuotient(p, q, y);
  }

  /** Edges of one loop, in order, on top of `edges`. */
  method AddLoop(loop: Loop, edges: seq<Edge>) returns (all: seq<Edge>)
    requires forall e | e in edges :: RowsOfEdge(e)
    ensures forall e | e in all :: RowsOfEdge(e)
    ensures forall y :: CrossingsOf(all, y) == CrossingsOf(edges, y) + EdgeCrossings(loop, |loop|, y)
    ensures all == edges <==> forall i | 0 <= i < |loop| :: loop[i].y == At(loop, i + 1).y
    ensures |edges| <= |all|
  {
    hide CrossingOf, EdgeCrossing, Crosses, Meets;
    all := edges;
    for i := 0 to |loop|
      invariant forall e | e in all :: RowsOfEdge(e)
      invariant forall y :: CrossingsOf(all, y) == CrossingsOf(edges, y) + EdgeCrossings(loop, i, y)
      invariant |edges| <= |all|
      invariant all == edges <==> forall k | 0 <= k < i :: loop[k].y == At(loop, k + 1).y
      invariant |all| > |edges| || all == edges
    {
      var p, q := loop[i], At(loop, i + 1);
      ghost var before := all;
      if p.y != q.y {
        var edge := MakeEdge(p, q);
        all := all + [edge];
        assert all[..|all| - 1] == before;
      }
      forall y ensures CrossingsOf(all, y) == CrossingsOf(edges, y) + EdgeCrossings(loop, i + 1, y) {
        EdgeMeaning(p, q, y);
      }
    }
  }

  /** Whether no loop with an area has a sloping edge. */
  predicate AllHorizontal(loops: seq<Loop>) {
    forall k, i | 0 <= k < |loops| && |loops[k]| >= 3 && 0 <= i < |loops[k]| :: loops[k][i].y == At(loops[k], i + 1).y
  }

  method BuildEdges(loops: seq<Loop>) returns (edges: seq<Edge>)
    ensures forall e | e in edges :: RowsOfEdge(e)
    ensures forall y :: CrossingsOf(edges, y) == Crossings(loops, 3, y)
    ensures edges == [] <==> AllHorizontal(loops)
  {
    hide CrossingsOf, EdgeCrossings;
    edges := [];
    NoEdges();
    for k := 0 to |loops|
      invariant forall e | e in edges :: RowsOfEdge(e)
      invariant forall y :: CrossingsOf(edges, y) == Crossings(loops[..k], 3, y)
      invariant edges == [] <==> AllHorizontal(loops[..k])
    {
      assert loops[..k + 1][..k] == loops[..k];
      assert AllHorizontal(loops[..k + 1]) <==>
             AllHorizontal(loops[..k])
               && (|loops[k]| >= 3 ==> forall i | 0 <= i < |loops[k]| :: loops[k][i].y == At(loops[k], i + 1).y) by {
        HorizontalStep(loops, k);
      }
      if |loops[k]| >= 3 {
        edges := AddLoop(loops[k], edges);
      }
    }
    assert loops[..|loops|] == loops;
  }

  lemma NoEdges()
    ensures forall y :: CrossingsOf([], y) == []
  {
  }

  lemma HorizontalStep(loops: seq<Loop>, k: nat)
    requires k < |loops|
    ensures AllHorizontal(loops[..k + 1]) <==>
            AllHorizontal(loops[..k])
              && (|loops[k]| >= 3 ==> forall i | 0 <= i < |loops[k]| :: loops[k][i].y == At(loops[k], i + 1).y)
  {
    assert forall j | 0 <= j < k :: loops[..k + 1][j] == loops[..k][j];
    assert loops[..k + 1][k] == loops[k];
  }

  lemma {:induction false} CrossingsConcat(a: seq<Edge>, b: seq<Edge>, y: real)
    ensures CrossingsOf(a + b, y) == CrossingsOf(a, y) + CrossingsOf(b, y)
  {
    if b == [] {
      assert a + b == a;
    } else {
      CrossingsConcat(a, b[..|b| - 1], y);
      assert (a + b)[..|a + b| - 1] == a + b[..|b| - 1];
    }
  }

  /** The order of the edges does not change which crossings there are. */
  lemma {:induction false} CrossingsPermute(a: seq<Edge>, b: seq<Edge>, y: real)
    requires multiset(a) == multiset(b)
    ensures multiset(CrossingsOf(a, y)) == multiset(CrossingsOf(b, y))
  {
    if a == [] {
      assert |b| == |multiset(b)|;
    } else {
      var k := PickOut(a, b);
      var rest := b[..k] + b[k + 1..];
      CrossingsPermute(a[..|a| - 1], rest, y);
      CrossingsConcat(b[..k], b[k + 1..], y);
      CrossingsConcat(b[..k] + [b[k]], b[k + 1..], y);
      CrossingsConcat(b[..k], [b[k]], y);
      assert [b[k]][..0] == [];
    }
  }

  // ----- the active list

  predicate InRange(active: seq<nat>, n: nat) {
    forall k | 0 <= k < |active| :: active[k] < n
  }

  /** The indices in `active` whose edge ends below row `py`, in order. */
  function Kept(edges: seq<Edge>, active: seq<nat>, py: int): seq<nat>
    requires InRange(active, |edges|)
  {
    if active == [] then []
    else
      var front, i := Kept(edges, active[..|active| - 1], py), active[|active| - 1];
      if edges[i].lastRow > py then front + [i] else front
  }

  /** Of the first `n` edges, those that end below row `py`. */
  function ActiveIn(edges: seq<Edge>, n: nat, py: int): (r: seq<nat>)
    requires n <= |edges|
    ensures InRange(r, n)
  {
    if n == 0 then []
    else if edges[n - 1].lastRow > py then ActiveIn(edges, n - 1, py) + [n - 1]
    else ActiveIn(edges, n - 1, py)
  }

  /** From row `py` on, dropping from `active` gives what dropping from the first `n` edges gives. */
  ghost predicate Tracks(edges: seq<Edge>, active: seq<nat>, n: nat, py: int) {
    && n <= |edges|
    && InRange(active, n)
    && forall r | r >= py :: Kept(edges, active, r) == ActiveIn(edges, n, r)
  }

  lemma {:induction false} KeptTwice(edges: seq<Edge>, active: seq<nat>, n: nat, py: int, r: int)
    requires InRange(active, n) && n <= |edges| && py <= r
    ensures InRange(Kept(edges, active, py), n)
    ensures Kept(edges, Kept(edges, active, py), r) == Kept(edges, active, r)
  {
    if active != [] {
      KeptTwice(edges, active[..|active| - 1], n, py, r);
      var kept := Kept(edges, active, py);
      if edges[active[|active| - 1]].lastRow > py {
        assert kept[..|kept| - 1] == Kept(edges, active[..|active| - 1], py);
      }
    }
  }

  function RowKey(): Edge -> real {
    (e: Edge) => e.firstRow as real
  }

  /** The edges that start at or above row `py` are the first `n`. */
  ghost predicate StartedBy(edges: seq<Edge>, n: nat, py: int) {
    n <= |edges| && forall i | n <= i < |edges| :: edges[i].firstRow > py
  }

  /** Admits the edges that start by row `py` and drops those that end above it. */
  method UpdateActive(edges: seq<Edge>, active: seq<nat>, nextEdge: nat, py: int)
    returns (newActive: seq<nat>, newNext: nat)
    requires SortedBy(edges, RowKey()) && Tracks(edges, active, nextEdge, py)
    ensures Tracks(edges, newActive, newNext, py) && StartedBy(edges, newNext, py)
    ensures newActive == ActiveIn(edges, newNext, py)
  {
    newActive, newNext := active, nextEdge;
    while newNext < |edges| && edges[newNext].firstRow <= py
      invariant Tracks(edges, newActive, newNext, py)
    {
      AdmitOne(edges, newActive, newNext, py);
      newActive := newActive + [newNext];
      newNext := newNext + 1;
    }
    if newNext < |edges| {
      forall i | newNext <= i < |edges| ensures edges[i].firstRow > py {
        if i > newNext { assert RowKey()(edges[newNext]) <= RowKey()(edges[i]); }
      }
    }
    ghost var admitted := newActive;
    newActive := DropEnded(edges, newActive, py);
    forall r | r >= py ensures Kept(edges, newActive, r) == ActiveIn(edges, newNext, r) {
      KeptTwice(edges, admitted, newNext, py, r);
    }
    KeptTwice(edges, admitted, newNext, py, py);
  }

  lemma AdmitOne(edges: seq<Edge>, active: seq<nat>, n: nat, py: int)
    requires Tracks(edges, active, n, py) && n < |edges|
    ensures Tracks(edges, active + [n], n + 1, py)
  {
    var longer := active + [n];
    assert longer[..|longer| - 1] == active;
    forall r | r >= py ensures Kept(edges, longer, r) == ActiveIn(edges, n + 1, r) {
      assert Kept(edges, active, r) == ActiveIn(edges, n, r);
    }
  }

  /** Compacts the list in place. */
  method DropEnded(edges: seq<Edge>, admitted: seq<nat>, py: int) returns (active: seq<nat>)
    requires InRange(admitted, |edges|)
    ensures active == Kept(edges, admitted, py)
  {
    active := admitted;
    var kept := 0;
    for i := 0 to |active|
      invariant |active| == |admitted| && kept <= i
      invariant active[i..] == admitted[i..]
      invariant active[..kept] == Kept(edges, admitted[..i], py)
    {
      assert admitted[..i + 1][..i] == admitted[..i];
      assert active[i] == admitted[i];
      if edges[active[i]].lastRow > py {
        active := active[kept := active[i]];
        kept := kept + 1;
      }
    }
    active := active[..kept];
    assert admitted[..|admitted|] == admitted;
  }

  function IndexedCrossings(edges: seq<Edge>, active: seq<nat>, y: real): seq<Crossing>
    requires InRange(active, |edges|)
  {
    if active == [] then []
    else
      var front, e := IndexedCrossings(edges, active[..|active| - 1], y), edges[active[|active| - 1]];
      if Meets(e, y) then front + [EdgeCrossing(e, y)] else front
  }

  /** On a sub-scanline of row `py` the active edges have all the crossings that all edges have. */
  lemma {:induction false} ActiveSuffices(edges: seq<Edge>, n: nat, py: int, y: real)
    requires (forall e | e in edges :: RowsOfEdge(e)) && StartedBy(edges, n, py)
    requires py as real < y < py as real + 1.0
    ensures IndexedCrossings(edges, ActiveIn(edges, n, py), y) == CrossingsOf(edges, y)
  {
    ActivePrefix(edges, n, py, y);
    NoneAfter(edges, n, py, y, |edges|);
    assert edges[..|edges|] == edges;
  }

  lemma {:induction false} ActivePrefix(edges: seq<Edge>, n: nat, py: int, y: real)
    requires (forall e | e in edges :: RowsOfEdge(e)) && n <= |edges| && py as real < y
    ensures IndexedCrossings(edges, ActiveIn(edges, n, py), y) == CrossingsOf(edges[..n], y)
  {
    if n > 0 {
      ActivePrefix(edges, n - 1, py, y);
      assert edges[..n][..n - 1] == edges[..n - 1];
      var active := ActiveIn(edges, n, py);
      assert edges[n - 1] in edges;
      if edges[n - 1].lastRow > py {
        assert active[..|active| - 1] == ActiveIn(edges, n - 1, py);
      }
    }
  }

  lemma {:induction false} NoneAfter(edges: seq<Edge>, n: nat, py: int, y: real, m: nat)
    requires (forall e | e in edges :: RowsOfEdge(e)) && StartedBy(edges, n, py) && n <= m <= |edges|
    requires y < py as real + 1.0
    ensures CrossingsOf(edges[..m], y) == CrossingsOf(edges[..n], y)
  {
    if m > n {
      NoneAfter(edges, n, py, y, m - 1);
      assert edges[..m][..m - 1] == edges[..m - 1] && edges[m - 1] in edges;
    }
  }
}
