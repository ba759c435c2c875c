/** What one quantum of any audio graph computes. */
module AudioQuantum {
  import opened AudioGraph
  import opened Collections

  function Begin<D>(dsp0: map<nat, D>): Progress<D> { Progress(map[], dsp0, {}, []) }

  ghost function Quantum<D>(g: Graph, step: Step<D>, dsp0: map<nat, D>, destination: nat): Progress<D>
    requires dsp0.Keys == g.Keys && destination in g
  {
    Pull(g, step, Begin(dsp0), {}, destination)
  }

  lemma {:induction false} QuantumSound<D>(g: Graph, step: Step<D>, dsp0: map<nat, D>, destination: nat)
    requires dsp0.Keys == g.Keys && destination in g
    ensures Sound(g, step, dsp0, Quantum(g, step, dsp0, destination), {})
    ensures Grows(g, Begin(dsp0), Quantum(g, step, dsp0, destination), destination, {})
    ensures destination in Quantum(g, step, dsp0, destination).out
  {
    PullKeeps(g, step, dsp0, Begin(dsp0), {}, destination);
  }

  /** On every graph, cycles included: each node that is stepped is stepped once, however many nodes it feeds, and
      every output is what its node makes of the outputs of its inputs. */
  lemma {:induction false} EachOnce<D>(g: Graph, step: Step<D>, dsp0: map<nat, D>, destination: nat)
    requires dsp0.Keys == g.Keys && destination in g
    ensures var q := Quantum(g, step, dsp0, destination);
      && Solved(g, step, dsp0, q)
      && (forall a :: a in q.order <==> a in q.out)
      && (forall i, j | 0 <= i < j < |q.order| :: q.order[i] != q.order[j])
  {
    hide Solved, EdgesOk, Pull, Grows, Begin;
    QuantumSound(g, step, dsp0, destination);
  }

  lemma {:induction false} WalkTail(g: Graph, walk: seq<nat>)
    requires Walk(g, walk) && |walk| > 1
    ensures Walk(g, walk[1..]) && Edge(g, walk[0], walk[1])
  {
    forall i | 0 <= i < |walk[1..]| - 1 ensures Edge(g, walk[1..][i], walk[1..][i + 1]) {
      assert Edge(g, walk[i + 1], walk[i + 1 + 1]);
    }
  }

  lemma {:induction false} WalkClosed<D>(g: Graph, q: Progress<D>, walk: seq<nat>)
    requires EdgesOk(g, q, {}) && Walk(g, walk) && walk[0] in q.out
    ensures walk[|walk| - 1] in q.out
    decreases |walk|
  {
    if |walk| > 1 {
      WalkTail(g, walk);
      WalkClosed(g, q, walk[1..]);
    }
  }

  /** Stepped are exactly the nodes that feed the destination, directly or not. */
  lemma {:induction false} ExactlyReached<D>(g: Graph, step: Step<D>, dsp0: map<nat, D>, destination: nat, a: nat)
    requires dsp0.Keys == g.Keys && destination in g
    ensures a in Quantum(g, step, dsp0, destination).out <==> Reaches(g, destination, a)
  {
    hide Solved, OrderOk, EdgesOk, Pull;
    var q := Quantum(g, step, dsp0, destination);
    QuantumSound(g, step, dsp0, destination);
    if Reaches(g, destination, a) {
      var walk :| Walk(g, walk) && walk[0] == destination && walk[|walk| - 1] == a;
      WalkClosed(g, q, walk);
    }
  }

  /** A connection is silent only where it closes a cycle, and some connection is whenever there is a cycle. */
  lemma {:induction false} SilentIffCycle<D>(g: Graph, step: Step<D>, dsp0: map<nat, D>, destination: nat)
    requires dsp0.Keys == g.Keys && destination in g
    ensures var q := Quantum(g, step, dsp0, destination);
      && (forall a, b | (a, b) in q.cut :: Edge(g, a, b) && Reaches(g, b, a))
      && (q.cut == {} <==> forall a, b | a in q.out && Edge(g, a, b) :: !Reaches(g, b, a))
  {
    hide Solved, OrderOk, Pull, Reaches, Grows;
    var q := Quantum(g, step, dsp0, destination);
    QuantumSound(g, step, dsp0, destination);
    if q.cut == {} {
      forall a, b | a in q.out && Edge(g, a, b) ensures !Reaches(g, b, a) { NoWayBack(g, q, a, b); }
    }
    if x :| x in q.cut {
      assert Edge(g, x.0, x.1) && Reaches(g, x.1, x.0);
    }
  }

  /** Without cuts every step of a walk goes back in the order of stepping. */
  lemma {:induction false} WalkDescends<D>(g: Graph, q: Progress<D>, walk: seq<nat>)
    requires OrderOk(g, q) && q.cut == {} && Walk(g, walk) && walk[0] in q.out
    ensures walk[|walk| - 1] in q.out && PositionOf(q.order, walk[|walk| - 1]) <= PositionOf(q.order, walk[0])
    decreases |walk|
  {
    hide PositionOf, OrderOk, Edge;
    if |walk| > 1 {
      WalkTail(g, walk);
      InputsFirst(g, q, walk[0], walk[1]);
      WalkDescends(g, q, walk[1..]);
    }
  }

  lemma {:induction false} InputsFirst<D>(g: Graph, q: Progress<D>, a: nat, b: nat)
    requires OrderOk(g, q) && q.cut == {} && Edge(g, a, b) && a in q.out
    ensures b in q.out && PositionOf(q.order, b) < PositionOf(q.order, a)
  {
    hide PositionOf;
    var i := PositionOf(q.order, a);
    assert After(g, q.cut, q.order[i], q.order[..i]);
    var j :| 0 <= j < i && q.order[..i][j] == b;
    assert q.order[j] == b;
    var k := PositionOf(q.order, b);
  }

  lemma {:induction false} NoWayBack<D>(g: Graph, q: Progress<D>, a: nat, b: nat)
    requires OrderOk(g, q) && q.cut == {} && Edge(g, a, b) && a in q.out
    ensures !Reaches(g, b, a)
  {
    hide PositionOf, OrderOk;
    InputsFirst(g, q, a, b);
    if Reaches(g, b, a) {
      var walk :| Walk(g, walk) && walk[0] == b && walk[|walk| - 1] == a;
      WalkDescends(g, q, walk);
    }
  }

  // ----- graphs without cycles

  /** Every input of a ranked node ranks below it. */
  ghost predicate Ranked(g: Graph, rank: map<nat, nat>) {
    forall a, b | a in rank && Edge(g, a, b) :: b in rank && rank[b] < rank[a]
  }

  /** The plain definition, without memory of what was already computed. */
  ghost function Value<D>(g: Graph, step: Step<D>, dsp0: map<nat, D>, rank: map<nat, nat>, id: nat): Block
    requires Ranked(g, rank) && id in rank && id in g && dsp0.Keys == g.Keys
    decreases rank[id], 1 + |g[id].inputs|
  {
    step(id, dsp0[id], if g[id].mixes then ValueMix(g, step, dsp0, rank, id, g[id].inputs) else Silence()).1
  }

  ghost function ValueMix<D>(g: Graph, step: Step<D>, dsp0: map<nat, D>, rank: map<nat, nat>, id: nat,
      inputs: seq<nat>): Block
    requires Ranked(g, rank) && id in rank && id in g && dsp0.Keys == g.Keys && g[id].mixes
    requires forall k | k in inputs :: k in g[id].inputs
    decreases rank[id], |inputs|
  {
    if inputs == [] then Silence()
    else
      var k := inputs[|inputs| - 1];
      var before := ValueMix(g, step, dsp0, rank, id, inputs[..|inputs| - 1]);
      assert k in inputs;
      if k !in g then before else assert Edge(g, id, k); Add(before, Value(g, step, dsp0, rank, k))
  }

  lemma {:induction false} WalkRanks(g: Graph, rank: map<nat, nat>, walk: seq<nat>)
    requires Ranked(g, rank) && Walk(g, walk) && walk[0] in rank
    ensures walk[|walk| - 1] in rank && rank[walk[|walk| - 1]] <= rank[walk[0]]
    decreases |walk|
  {
    if |walk| > 1 {
      WalkTail(g, walk);
      WalkRanks(g, rank, walk[1..]);
    }
  }

  lemma {:induction false} RankedHasNoCut<D>(g: Graph, step: Step<D>, dsp0: map<nat, D>, destination: nat,
      rank: map<nat, nat>)
    requires dsp0.Keys == g.Keys && destination in g && destination in rank && Ranked(g, rank)
    ensures Quantum(g, step, dsp0, destination).cut == {}
    ensures forall a | a in Quantum(g, step, dsp0, destination).out :: a in rank
  {
    hide Solved, OrderOk, EdgesOk, Pull;
    var q := Quantum(g, step, dsp0, destination);
    QuantumSound(g, step, dsp0, destination);
    forall a | Reaches(g, destination, a) ensures a in rank {
      var walk :| Walk(g, walk) && walk[0] == destination && walk[|walk| - 1] == a;
      WalkRanks(g, rank, walk);
    }
    forall a, b | a in q.out && Edge(g, a, b) ensures !Reaches(g, b, a) {
      if Reaches(g, b, a) {
        var walk :| Walk(g, walk) && walk[0] == b && walk[|walk| - 1] == a;
        WalkRanks(g, rank, walk);
      }
    }
    SilentIffCycle(g, step, dsp0, destination);
  }

  lemma {:induction false} SolvedIsValue<D>(g: Graph, step: Step<D>, dsp0: map<nat, D>, rank: map<nat, nat>,
      q: Progress<D>, id: nat)
    requires Solved(g, step, dsp0, q) && EdgesOk(g, q, {}) && q.cut == {} && Ranked(g, rank)
    requires (forall a | a in q.out :: a in rank) && id in q.out
    ensures q.out[id] == Value(g, step, dsp0, rank, id)
    decreases rank[id], 1 + |g[id].inputs|
  {
    hide Reaches;
    assert SolvedAt(g, step, dsp0, q, id);
    if g[id].mixes { SolvedMixIsValue(g, step, dsp0, rank, q, id, g[id].inputs); }
  }

  lemma {:induction false} SolvedMixIsValue<D>(g: Graph, step: Step<D>, dsp0: map<nat, D>, rank: map<nat, nat>,
      q: Progress<D>, id: nat, inputs: seq<nat>)
    requires Solved(g, step, dsp0, q) && EdgesOk(g, q, {}) && q.cut == {} && Ranked(g, rank)
    requires (forall a | a in q.out :: a in rank) && id in q.out
    requires g[id].mixes && forall k | k in inputs :: k in g[id].inputs
    ensures MixOf(g, q.out, q.cut, id, inputs) == ValueMix(g, step, dsp0, rank, id, inputs)
    decreases rank[id], |inputs|
  {
    hide Reaches, SolvedAt;
    if inputs != [] {
      var k := inputs[|inputs| - 1];
      assert k in inputs;
      SolvedMixIsValue(g, step, dsp0, rank, q, id, inputs[..|inputs| - 1]);
      if k in g {
        assert Edge(g, id, k);
        SolvedIsValue(g, step, dsp0, rank, q, k);
      }
    }
  }

  lemma {:induction false} RankedAgrees<D>(g: Graph, step: Step<D>, dsp0: map<nat, D>, destination: nat,
      rank: map<nat, nat>, id: nat)
    requires dsp0.Keys == g.Keys && destination in g && destination in rank && Ranked(g, rank)
    requires Reaches(g, destination, id)
    ensures id in g && id in rank && id in Quantum(g, step, dsp0, destination).out
    ensures Quantum(g, step, dsp0, destination).out[id] == Value(g, step, dsp0, rank, id)
  {
    hide Pull, Reaches, OrderOk, Solved, EdgesOk, Ranked;
    var q := Quantum(g, step, dsp0, destination);
    QuantumSound(g, step, dsp0, destination);
    ExactlyReached(g, step, dsp0, destination, id);
    RankedHasNoCut(g, step, dsp0, destination, rank);
    InGraph(g, step, dsp0, q);
    SolvedIsValue(g, step, dsp0, rank, q, id);
  }

  /** No connection that feeds the destination closes a cycle. */
  ghost predicate Acyclic(g: Graph, destination: nat) {
    forall a, b | Reaches(g, destination, a) && Edge(g, a, b) :: !Reaches(g, b, a)
  }

  /** Without cycles the order of stepping ranks the nodes. */
  lemma {:induction false} AcyclicRanked<D>(g: Graph, step: Step<D>, dsp0: map<nat, D>, destination: nat)
    returns (rank: map<nat, nat>)
    requires dsp0.Keys == g.Keys && destination in g && Acyclic(g, destination)
    ensures Ranked(g, rank) && destination in rank
  {
    hide Pull, Reaches, OrderOk, Solved, EdgesOk, Grows, PositionOf;
    var q := Quantum(g, step, dsp0, destination);
    QuantumSound(g, step, dsp0, destination);
    OrderHolds(g, q);
    rank := map a | a in q.out :: PositionOf(q.order, a);
    forall a | a in q.out ensures Reaches(g, destination, a) { ExactlyReached(g, step, dsp0, destination, a); }
    SilentIffCycle(g, step, dsp0, destination);
    forall a, b | a in rank && Edge(g, a, b) ensures b in rank && rank[b] < rank[a] { InputsFirst(g, q, a, b); }
  }

  lemma {:induction false} OrderHolds<D>(g: Graph, q: Progress<D>)
    requires OrderOk(g, q)
    ensures forall a | a in q.out :: a in q.order
  {
  }

  /** Without cycles remembering outputs changes nothing: every output is that of the plain definition, along any
      ranking of the nodes, and there is one. */
  lemma {:induction false} AcyclicAgrees<D>(g: Graph, step: Step<D>, dsp0: map<nat, D>, destination: nat, id: nat)
    requires dsp0.Keys == g.Keys && destination in g && Acyclic(g, destination) && Reaches(g, destination, id)
    ensures id in g && id in Quantum(g, step, dsp0, destination).out
    ensures exists rank :: Ranked(g, rank) && destination in rank
    ensures forall rank | Ranked(g, rank) && destination in rank ::
              id in rank && Quantum(g, step, dsp0, destination).out[id] == Value(g, step, dsp0, rank, id)
  {
    hide Quantum, Reaches, Ranked, Acyclic;
    var one := AcyclicRanked(g, step, dsp0, destination);
    RankedAgrees(g, step, dsp0, destination, one, id);
    forall rank | Ranked(g, rank) && destination in rank
      ensures id in rank && Quantum(g, step, dsp0, destination).out[id] == Value(g, step, dsp0, rank, id)
    {
      RankedAgrees(g, step, dsp0, destination, rank, id);
    }
  }

  lemma {:induction false} InGraph<D>(g: Graph, step: Step<D>, dsp0: map<nat, D>, q: Progress<D>)
    requires Solved(g, step, dsp0, q)
    ensures q.out.Keys <= g.Keys
  {
  }
}
