/** What creating, connecting and disconnecting nodes does to the graph and to the stream. */
module AudioEdits {
  import opened AudioGraph
  import opened AudioQuantum
  import opened AudioStream

  ghost function Connected(g: Graph, source: nat, target: nat): Graph {
    if source !in g || target !in g || source in g[target].inputs then g
    else g[target := g[target].(inputs := g[target].inputs + [source])]
  }

  function Removed(inputs: seq<nat>, source: nat): seq<nat> {
    if inputs == [] then []
    else
      var before, last := Removed(inputs[..|inputs| - 1], source), inputs[|inputs| - 1];
      before + if last == source then [] else [last]
  }

  ghost function Disconnected(g: Graph, source: nat, target: nat): Graph {
    if target !in g then g else g[target := g[target].(inputs := Removed(g[target].inputs, source))]
  }

  /** No node is connected to another twice. */
  ghost predicate Simple(g: Graph) {
    forall id, i, j | id in g && 0 <= i < j < |g[id].inputs| :: g[id].inputs[i] != g[id].inputs[j]
  }

  lemma {:induction false} RemovedIs(inputs: seq<nat>, source: nat)
    ensures forall k :: k in Removed(inputs, source) <==> k in inputs && k != source
    ensures source !in inputs ==> Removed(inputs, source) == inputs
    ensures (forall i, j | 0 <= i < j < |inputs| :: inputs[i] != inputs[j]) ==>
              forall i, j | 0 <= i < j < |Removed(inputs, source)| ::
                Removed(inputs, source)[i] != Removed(inputs, source)[j]
  {
    if inputs != [] {
      var rest, last := inputs[..|inputs| - 1], inputs[|inputs| - 1];
      assert inputs == rest + [last];
      RemovedIs(rest, source);
      if forall i, j | 0 <= i < j < |inputs| :: inputs[i] != inputs[j] { assert last !in rest; }
    }
  }

  lemma {:induction false} StaysSimple(g: Graph, source: nat, target: nat)
    requires Simple(g)
    ensures Simple(Connected(g, source, target)) && Simple(Disconnected(g, source, target))
  {
    if target in g { RemovedIs(g[target].inputs, source); }
  }

  lemma {:induction false} RemovedLast(inputs: seq<nat>, source: nat)
    requires source !in inputs
    ensures Removed(inputs + [source], source) == inputs && Removed(inputs, source) == inputs
  {
    RemovedIs(inputs, source);
    assert (inputs + [source])[..|inputs|] == inputs;
  }

  /** Connecting twice is connecting once, and disconnecting undoes a new connection. */
  lemma {:induction false} ConnectOnce(g: Graph, source: nat, target: nat)
    ensures Connected(Connected(g, source, target), source, target) == Connected(g, source, target)
    ensures target in g && source !in g[target].inputs ==>
      Disconnected(Connected(g, source, target), source, target) == g
  {
    hide Removed;
    if target in g && source !in g[target].inputs {
      RemovedLast(g[target].inputs, source);
      var d := Disconnected(Connected(g, source, target), source, target);
      assert d.Keys == g.Keys;
      assert forall k | k in g && k != target :: d[k] == g[k];
    }
  }

  /** Connecting and disconnecting change one connection and leave all others. */
  lemma {:induction false} ConnectsOnly(g: Graph, source: nat, target: nat, a: nat, b: nat)
    ensures Edge(Disconnected(g, source, target), a, b) <==> Edge(g, a, b) && !(a == target && b == source)
    ensures Edge(Connected(g, source, target), a, b) <==>
      Edge(g, a, b) || (a == target && b == source && source in g && target in g && g[target].mixes)
  {
    if target in g { RemovedIs(g[target].inputs, source); }
  }

  // ----- a new node

  ghost predicate Unnamed(g: Graph, id: nat) {
    forall a | a in g :: id !in g[a].inputs
  }

  function WithNode(g: Graph, id: nat, node: Node): Graph { g[id := node] }

  function WithState<D>(p: Progress<D>, id: nat, d: D): Progress<D> {
    Progress(p.out, p.dsp[id := d], p.cut, p.order)
  }

  lemma {:induction false} SteppedBeside<D>(step: Step<D>, k: nat, mix: Mix<D>, id: nat, d: D)
    requires k in mix.progress.dsp && k != id
    ensures Stepped(step, k, Mix(WithState(mix.progress, id, d), mix.block))
         == WithState(Stepped(step, k, mix), id, d)
  {
    var p := mix.progress;
    var x := step(k, p.dsp[k], mix.block);
    assert p.dsp[id := d][k := x.0] == p.dsp[k := x.0][id := d];
  }

  lemma {:induction false} FitsBeside<D>(g: Graph, p: Progress<D>, path: set<nat>, id: nat, node: Node, d: D)
    requires Fits(g, p) && id !in g
    ensures Fits(WithNode(g, id, node), WithState(p, id, d))
    ensures forall k | k in g :: (k in WithNode(g, id, node)) && WithNode(g, id, node)[k] == g[k]
  {
  }

  /** Pulling a node computes the same beside a new node that nothing names. */
  lemma {:induction false} PullBeside<D>(g: Graph, step: Step<D>, p: Progress<D>, path: set<nat>, k: nat, id: nat,
      node: Node, d: D)
    requires Fits(g, p) && k in g && id !in g && Unnamed(g, id)
    ensures Fits(WithNode(g, id, node), WithState(p, id, d)) && k in WithNode(g, id, node)
    ensures Pull(WithNode(g, id, node), step, WithState(p, id, d), path, k)
         == WithState(Pull(g, step, p, path, k), id, d)
    decreases Rest(g, p, path), 0
  {
    hide Fits, Stepped, WithNode, Unnamed;
    FitsBeside(g, p, path, id, node, d);
    if k !in p.out && k !in path {
      assert k in Rest(g, p, path) && k !in Rest(g, p, path + {k});
      var mix := Mix(p, Silence());
      if g[k].mixes {
        InputsUnnamed(g, k, id);
        PullAllBeside(g, step, p, path + {k}, k, g[k].inputs, id, node, d);
        mix := PullAll(g, step, p, path + {k}, k, g[k].inputs);
      }
      FitsHas(g, mix.progress, k);
      SteppedBeside(step, k, mix, id, d);
    }
  }

  lemma {:induction false} InputsUnnamed(g: Graph, k: nat, id: nat)
    requires Unnamed(g, id) && k in g
    ensures id !in g[k].inputs
  {
  }

  lemma {:induction false} FitsHas<D>(g: Graph, p: Progress<D>, k: nat)
    requires Fits(g, p) && k in g
    ensures k in p.dsp
  {
  }

  lemma {:induction false} PullAllBeside<D>(g: Graph, step: Step<D>, p: Progress<D>, path: set<nat>, k: nat,
      inputs: seq<nat>, id: nat, node: Node, d: D)
    requires Fits(g, p) && id !in g && Unnamed(g, id) && id !in inputs
    ensures Fits(WithNode(g, id, node), WithState(p, id, d))
    ensures var m := PullAll(g, step, p, path, k, inputs);
      PullAll(WithNode(g, id, node), step, WithState(p, id, d), path, k, inputs) ==
        Mix(WithState(m.progress, id, d), m.block)
    decreases Rest(g, p, path), 1 + |inputs|
  {
    hide Fits, Unnamed;
    FitsBeside(g, p, path, id, node, d);
    if inputs != [] {
      var rest, i := inputs[..|inputs| - 1], inputs[|inputs| - 1];
      assert i in inputs;
      PullAllBeside(g, step, p, path, k, rest, id, node, d);
      if i in g { PullBeside(g, step, PullAll(g, step, p, path, k, rest).progress, path, i, id, node, d); }
    }
  }

  function Beside<D>(s: Stream<D>, id: nat, d: D): Stream<D> {
    Stream(s.dsp[id := d], s.frames, s.rest)
  }

  lemma {:induction false} RefillBeside<D>(g: Graph, steps: Steps<D>, destination: nat, s: Stream<D>, id: nat,
      node: Node, d: D)
    requires s.dsp.Keys == g.Keys && id !in g && id != destination && Unnamed(g, id)
    ensures Refill(WithNode(g, id, node), steps, destination, Beside(s, id, d))
         == Beside(Refill(g, steps, destination, s), id, d)
  {
    hide Pull, Unnamed, Grows, Sound;
    if destination in g {
      PullBeside(g, steps(s.frames), Begin(s.dsp), {}, destination, id, node, d);
      QuantumFits(g, steps(s.frames), s.dsp, destination);
    }
  }

  /** A new node that is not the destination, and that nothing names, changes nothing that is heard. */
  lemma {:induction false} NewNodeSilent<D>(g: Graph, steps: Steps<D>, destination: nat, s: Stream<D>, id: nat,
      node: Node, d: D, n: nat)
    requires s.dsp.Keys == g.Keys && id !in g && id != destination && Unnamed(g, id)
    ensures Samples(WithNode(g, id, node), steps, destination, Beside(s, id, d), n) ==
      Samples(g, steps, destination, s, n)
    decreases n
  {
    hide Refill, Unnamed;
    if n > 0 {
      RefillBeside(g, steps, destination, s, id, node, d);
      var t := Filled(g, steps, destination, s);
      NewNodeSilent(g, steps, destination, t.(rest := t.rest[1..]), id, node, d, n - 1);
    }
  }

  lemma {:induction false} NewNodeUnheard<D>(g: Graph, destination: nat, s: Stream<D>, id: nat, node: Node, d: D)
    requires s.dsp.Keys == g.Keys && id !in g && id != destination && Unnamed(g, id)
    ensures forall steps: Steps<D>, n: nat ::
      Samples(WithNode(g, id, node), steps, destination, Beside(s, id, d), n) == Samples(g, steps, destination, s, n)
  {
    hide *;
    AddedKeys(g, s, id, node, d);
    forall steps: Steps<D>, n: nat
      ensures Samples(WithNode(g, id, node), steps, destination, Beside(s, id, d), n)
           == Samples(g, steps, destination, s, n)
    {
      NewNodeSilent(g, steps, destination, s, id, node, d, n);
    }
  }

  lemma {:induction false} AddedKeys<D>(g: Graph, s: Stream<D>, id: nat, node: Node, d: D)
    requires s.dsp.Keys == g.Keys
    ensures Beside(s, id, d).dsp.Keys == WithNode(g, id, node).Keys
  {
  }

  /** A destination that nothing is connected to is silent, if it makes silence of silence. */
  ghost predicate Quiet<D(!new)>(g: Graph, steps: Steps<D>, destination: nat) {
    && destination in g && g[destination].inputs == []
    && forall frames, d :: steps(frames)(destination, d, Silence()).1 == Silence()
  }

  lemma {:induction false} QuietRefill<D(!new)>(g: Graph, steps: Steps<D>, destination: nat, s: Stream<D>)
    requires s.dsp.Keys == g.Keys && Quiet(g, steps, destination)
    ensures Refill(g, steps, destination, s).rest == Silence()
  {
    var step := steps(s.frames);
    var p := Begin(s.dsp);
    assert PullAll(g, step, p, {} + {destination}, destination, g[destination].inputs) == Mix(p, Silence());
    QuantumFits(g, step, s.dsp, destination);
    assert Quantum(g, step, s.dsp, destination) == Stepped(step, destination, Mix(p, Silence()));
  }

  lemma {:induction false} QuietStream<D(!new)>(g: Graph, steps: Steps<D>, destination: nat, s: Stream<D>, n: nat)
    requires s.dsp.Keys == g.Keys && Quiet(g, steps, destination) && forall i | 0 <= i < |s.rest| :: s.rest[i] == 0.0
    ensures forall i | 0 <= i < n :: Samples(g, steps, destination, s, n)[i] == 0.0
    decreases n
  {
    hide Refill, Quiet;
    if n > 0 {
      QuietRefill(g, steps, destination, s);
      var t := Filled(g, steps, destination, s);
      QuietStream(g, steps, destination, t.(rest := t.rest[1..]), n - 1);
    }
  }

  /** A new destination lets what is rendered already be heard, and then nothing until something is connected. */
  lemma {:induction false} NewDestinationQuiet<D(!new)>(g: Graph, steps: Steps<D>, destination: nat, s: Stream<D>,
      n: nat)
    requires s.dsp.Keys == g.Keys && Quiet(g, steps, destination)
    ensures var out := Samples(g, steps, destination, s, |s.rest| + n);
      out[..|s.rest|] == s.rest && forall i | |s.rest| <= i < |out| :: out[i] == 0.0
  {
    hide Quiet, Refill, Filled;
    var m := |s.rest|;
    SamplesSplit(g, steps, destination, s, m, n);
    SamplesOfRest(g, steps, destination, s, m);
    QuietStream(g, steps, destination, Behind(g, steps, destination, s, m), n);
  }
}
