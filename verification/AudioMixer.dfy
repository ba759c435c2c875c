/** The mixer: nodes with their cached output and marks, pulled recursively and rendered in pieces. */
module AudioMixer {
  import opened AudioGraph
  import opened AudioQuantum
  import opened AudioStream
  import opened AudioEdits
  import opened AudioSums

  datatype Kind =
    | Destination | Gain | Oscillator | BufferSource | Biquad | Compressor | StereoPanner | ConstantSource | Delay

  /** Sources do not pull their inputs. */
  predicate Mixes(kind: Kind) {
    kind.Destination? || kind.Gain? || kind.Biquad? || kind.Compressor? || kind.StereoPanner? || kind.Delay?
  }

  /** The three kinds that make sound by themselves ignore what is connected to them. */
  lemma {:induction false} SourcesAre(kind: Kind)
    ensures !Mixes(kind) <==> kind in {Oscillator, BufferSource, ConstantSource}
  {
  }

  class AudioNode<D> {
    const kind: Kind
    var inputs: seq<nat>
    var quantum: Block
    var serial: nat
    var rendering: bool
    var dsp: D

    constructor (kind: Kind, dsp: D)
      ensures this.kind == kind && inputs == [] && serial == 0 && !rendering && this.dsp == dsp
    {
      this.kind, this.dsp, inputs, quantum, serial, rendering := kind, dsp, [], Silence(), 0, false;
    }
  }

  class AudioMixer<D> {
    var nodes: map<nat, AudioNode<D>>
    var nextId: nat
    var destination: nat
    var serial: nat
    var pending: seq<real>
    var pendingOffset: nat
    var frames: nat

    ghost predicate Valid()
      reads `nodes
    {
      forall a, b | a in nodes && b in nodes && nodes[a] == nodes[b] :: a == b
    }

    /** Numbers that were not given yet name no node, and no connection leads to them. */
    ghost predicate Numbered()
      reads `nodes, `nextId, `destination, nodes.Values`inputs
    {
      && destination < nextId
      && (forall a | a in nodes :: a < nextId)
      && forall a, k | a in nodes && k in nodes[a].inputs :: k < nextId
    }

    /** The graph as a value. */
    ghost predicate GraphIs(g: Graph)
      reads `nodes, nodes.Values`inputs
    {
      g.Keys == nodes.Keys && forall id | id in nodes :: g[id] == Node(Mixes(nodes[id].kind), nodes[id].inputs)
    }

    /** The marks and caches of the nodes say what of the quantum is done, and `path` is being rendered. */
    ghost predicate Mirrors(p: Progress<D>, path: set<nat>)
      reads `nodes, `serial, nodes.Values`quantum, nodes.Values`serial, nodes.Values`rendering, nodes.Values`dsp
    {
      && p.dsp.Keys == nodes.Keys && p.out.Keys <= nodes.Keys && path <= nodes.Keys
      && forall id | id in nodes ::
           && (nodes[id].serial == serial <==> id in p.out) && (nodes[id].rendering <==> id in path)
           && nodes[id].dsp == p.dsp[id]
           && (id in p.out ==> nodes[id].quantum == p.out[id]) && (id in path ==> nodes[id].quantum == Silence())
    }

    constructor ()
      ensures Valid() && Numbered() && Idle() && Even() && GraphIs(map[]) && StreamIs(Stream(map[], 0, []))
    {
      nodes, nextId, destination, serial, pending, pendingOffset, frames := map[], 1, 0, 0, [], 0, 0;
    }

    /** A new node is connected to nothing and has not been rendered. Only a destination is heard, at the latest
        when what was rendered is used up. */
    method CreateNode(kind: Kind, dsp: D, ghost g: Graph, ghost s: Stream<D>) returns (id: nat)
      requires Valid() && Numbered() && Idle() && GraphIs(g) && StreamIs(s)
      modifies `nodes, `nextId, `destination
      ensures Valid() && Numbered() && Idle() && id !in g && s.dsp.Keys == g.Keys
      ensures GraphIs(WithNode(g, id, Node(Mixes(kind), []))) && StreamIs(Beside(s, id, dsp))
      ensures destination == if kind.Destination? then id else old(destination)
      ensures var g' := WithNode(g, id, Node(Mixes(kind), []));
        forall steps: Steps<D>, n: nat | !kind.Destination? ::
          Samples(g', steps, destination, Beside(s, id, dsp), n) == Samples(g, steps, destination, s, n)
    {
      hide *;
      id := nextId;
      StreamParts(s);
      NextIsFree(g, s);
      if !kind.Destination? { NewNodeUnheard(g, destination, s, id, Node(Mixes(kind), []), dsp); }
      nextId := nextId + 1;
      if kind.Destination? { destination := id; }
      var node := new AudioNode(kind, dsp);
      nodes := nodes[id := node];
      NodeAdded(id, node, g);
      BesideParts(s, id, dsp);
      StreamIntro(Beside(s, id, dsp));
    }

    lemma {:induction false} StreamParts(s: Stream<D>)
      requires StreamIs(s)
      ensures s.dsp.Keys == nodes.Keys && forall id | id in nodes :: nodes[id].dsp == s.dsp[id]
      ensures s.frames == frames && pendingOffset <= |pending| && s.rest == pending[pendingOffset..]
    {
    }

    lemma {:induction false} BesideParts(s: Stream<D>, id: nat, d: D)
      ensures Beside(s, id, d) == Stream(s.dsp[id := d], s.frames, s.rest)
    {
    }

    lemma {:induction false} StreamIntro(s: Stream<D>)
      requires s.dsp.Keys == nodes.Keys && forall id | id in nodes :: nodes[id].dsp == s.dsp[id]
      requires s.frames == frames && pendingOffset <= |pending| && s.rest == pending[pendingOffset..]
      ensures StreamIs(s)
    {
    }

    lemma {:induction false} NextIsFree(g: Graph, s: Stream<D>)
      requires Numbered() && GraphIs(g) && StreamIs(s)
      ensures nextId !in nodes && nextId !in g && s.dsp.Keys == g.Keys && destination < nextId && Unnamed(g, nextId)
    {
    }

    twostate lemma {:induction false} NodeAdded(new id: nat, new node: AudioNode<D>, new g: Graph)
      requires old(Valid() && Numbered() && Idle() && GraphIs(g)) && id == old(nextId)
      requires fresh(node) && node.inputs == [] && node.serial == 0 && !node.rendering
      requires unchanged(`serial) && (forall a | a in old(nodes) :: unchanged(old(nodes)[a]))
      requires nodes == old(nodes)[id := node]
      requires nextId == id + 1 && destination <= id
      ensures Valid() && Numbered() && Idle()
      ensures GraphIs(WithNode(g, id, Node(Mixes(node.kind), [])))
    {
    }

    method Connect(source: nat, target: nat, ghost g: Graph)
      requires Valid() && Numbered() && GraphIs(g)
      modifies nodes.Values`inputs
      ensures Numbered() && GraphIs(Connected(g, source, target))
    {
      if source !in nodes || target !in nodes { return; }
      var inputs := nodes[target].inputs;
      for i := 0 to |inputs|
        invariant source !in inputs[..i]
      {
        if inputs[i] == source { return; }
      }
      assert inputs[..|inputs|] == inputs;
      nodes[target].inputs := inputs + [source];
    }

    method Disconnect(source: nat, target: nat, ghost g: Graph)
      requires Valid() && Numbered() && GraphIs(g)
      modifies nodes.Values`inputs
      ensures Numbered() && GraphIs(Disconnected(g, source, target))
    {
      if target !in nodes { return; }
      var inputs := nodes[target].inputs;
      var kept := [];
      for i := 0 to |inputs|
        invariant kept == Removed(inputs[..i], source)
      {
        assert inputs[..i + 1][..i] == inputs[..i];
        if inputs[i] != source { kept := kept + [inputs[i]]; }
      }
      assert inputs[..|inputs|] == inputs;
      RemovedIs(inputs, source);
      nodes[target].inputs := kept;
    }

    /** No node was rendered after the current quantum began. */
    ghost predicate NotAhead()
      reads `nodes, `serial, nodes.Values`serial
    {
      forall k | k in nodes :: nodes[k].serial <= serial
    }

    lemma {:induction false} MirrorsFits(g: Graph, p: Progress<D>, path: set<nat>)
      requires GraphIs(g) && Mirrors(p, path)
      ensures Fits(g, p) && g.Keys == nodes.Keys
      ensures forall id | id in g :: g[id].inputs == nodes[id].inputs && g[id].mixes == Mixes(nodes[id].kind)
    {
    }

    /** What is cut is known only to the proof. */
    lemma {:induction false} MirrorsMixed(p: Progress<D>, q: Progress<D>, path: set<nat>)
      requires Mirrors(p, path) && q.out == p.out && q.dsp == p.dsp
      ensures Mirrors(q, path)
    {
    }

    /** What the marks say of one node. */
    lemma {:induction false} MirrorsAt(p: Progress<D>, path: set<nat>, id: nat)
      requires id in nodes && Mirrors(p, path)
      ensures nodes[id].serial == serial <==> id in p.out
      ensures nodes[id].rendering <==> id in path
      ensures id in p.out ==> nodes[id].quantum == p.out[id]
      ensures id in path ==> nodes[id].quantum == Silence()
    {
    }

    /** A node that is met again while it is being rendered, because the graph has a cycle. */
    method Silenced(id: nat, ghost p: Progress<D>, ghost path: set<nat>) returns (out: Block)
      requires id in nodes && id in path && Mirrors(p, path)
      modifies nodes.Values`quantum
      ensures Mirrors(p, path) && out == Silence()
    {
      nodes[id].quantum := Silence();
      out := nodes[id].quantum;
    }

    method StartRendering(id: nat, ghost p: Progress<D>, ghost path: set<nat>)
      requires Valid() && id in nodes && Mirrors(p, path) && id !in p.out
      modifies nodes.Values`rendering, nodes.Values`quantum
      ensures Mirrors(p, path + {id})
    {
      var node := nodes[id];
      node.rendering := true;
      node.quantum := Silence();
    }

    method FinishRendering(step: Step<D>, id: nat, input: Block, ghost mix: Mix<D>, ghost path: set<nat>)
      requires Valid() && id in nodes && Mirrors(mix.progress, path + {id}) && id !in path && NotAhead()
      requires input == mix.block
      modifies nodes.Values`quantum, nodes.Values`serial, nodes.Values`rendering, nodes.Values`dsp
      ensures id in mix.progress.dsp && Mirrors(Stepped(step, id, mix), path) && NotAhead()
      ensures nodes[id].quantum == Stepped(step, id, mix).out[id]
    {
      var node := nodes[id];
      var next := step(id, node.dsp, input);
      node.dsp := next.0;
      node.quantum := next.1;
      node.rendering := false;
      node.serial := serial;
    }

    /** The output of a node for this quantum; silence if it is being rendered further up. */
    method Pull(step: Step<D>, id: nat, ghost g: Graph, ghost p: Progress<D>, ghost path: set<nat>) returns (out: Block)
      requires Valid() && id in nodes && GraphIs(g) && Mirrors(p, path) && Apart(p, path) && NotAhead()
      modifies nodes.Values`quantum, nodes.Values`serial, nodes.Values`rendering, nodes.Values`dsp
      ensures Fits(g, p) && Mirrors(AudioGraph.Pull(g, step, p, path, id), path) && NotAhead()
      ensures var q := AudioGraph.Pull(g, step, p, path, id); out == if id in q.out then q.out[id] else Silence()
      ensures Apart(AudioGraph.Pull(g, step, p, path, id), path)
      decreases Rest(g, p, path), 2
    {
      hide Valid, GraphIs, Mirrors, Fits, NotAhead;
      MirrorsFits(g, p, path);
      MirrorsAt(p, path, id);
      var node := nodes[id];
      if node.serial == serial { return node.quantum; }
      if node.rendering {
        out := Silenced(id, p, path);
        return;
      }
      out := PullNode(step, id, g, p, path);
    }

    /** A node that was not met yet. */
    method PullNode(step: Step<D>, id: nat, ghost g: Graph, ghost p: Progress<D>,
        ghost path: set<nat>) returns (out: Block)
      requires Valid() && id in nodes && GraphIs(g) && Mirrors(p, path) && Apart(p, path) && NotAhead()
      requires id !in p.out && id !in path
      modifies nodes.Values`quantum, nodes.Values`serial, nodes.Values`rendering, nodes.Values`dsp
      ensures Fits(g, p) && Mirrors(AudioGraph.Pull(g, step, p, path, id), path) && NotAhead()
      ensures var q := AudioGraph.Pull(g, step, p, path, id); id in q.out && out == q.out[id]
      ensures Apart(AudioGraph.Pull(g, step, p, path, id), path)
      decreases Rest(g, p, path), 1
    {
      hide Valid, GraphIs, Mirrors, Fits, NotAhead, Silence;
      MirrorsFits(g, p, path);
      StartRendering(id, p, path);
      var input := Silence();
      ghost var mix := Mix(p, Silence());
      assert id in Rest(g, p, path) && id !in Rest(g, p, path + {id});
      if Mixes(nodes[id].kind) {
        input, mix := PullInputs(step, id, g, p, path + {id});
      }
      FinishRendering(step, id, input, mix, path);
      return nodes[id].quantum;
    }

    /** The loop over the inputs of a node that is being rendered. */
    method PullInputs(step: Step<D>, id: nat, ghost g: Graph, ghost p: Progress<D>,
        ghost path: set<nat>) returns (input: Block, ghost mix: Mix<D>)
      requires Valid() && id in nodes && id in path && GraphIs(g) && Mirrors(p, path) && Apart(p, path) && NotAhead()
      modifies nodes.Values`quantum, nodes.Values`serial, nodes.Values`rendering, nodes.Values`dsp
      ensures id in g && Fits(g, p) && mix == AudioGraph.PullAll(g, step, p, path, id, g[id].inputs)
      ensures input == mix.block
      ensures forall i: nat | i < SAMPLES :: input[i] == Total(g, mix.progress.out, g[id].inputs, i)
      ensures Mirrors(mix.progress, path) && Apart(mix.progress, path) && NotAhead()
      decreases Rest(g, p, path), 3
    {
      hide Valid, GraphIs, Mirrors, NotAhead, Fits, Silence, Add, Total;
      MirrorsFits(g, p, path);
      var inputs := nodes[id].inputs;
      input := Silence();
      mix := Mix(p, Silence());
      for i := 0 to |inputs|
        invariant GraphIs(g) && Mirrors(mix.progress, path) && Apart(mix.progress, path) && NotAhead()
        invariant mix == AudioGraph.PullAll(g, step, p, path, id, inputs[..i]) && input == mix.block
      {
        var k := inputs[i];
        assert inputs[..i + 1][..i] == inputs[..i];
        MirrorsFits(g, mix.progress, path);
        if k in nodes {
          ghost var before := mix.progress;
          var source := Pull(step, k, g, before, path);
          ghost var q := AudioGraph.Pull(g, step, before, path, k);
          mix := Mixed(id, k, mix.block, q);
          MirrorsMixed(q, mix.progress, path);
          input := Add(input, source);
        }
      }
      assert inputs[..|inputs|] == inputs;
      InputsAdd(g, step, p, path, id, inputs);
    }

    // ----- quanta

    ghost predicate Idle()
      reads `nodes, `serial, nodes.Values`serial, nodes.Values`rendering
    {
      NotAhead() && forall k | k in nodes :: !nodes[k].rendering
    }

    ghost predicate StreamIs(s: Stream<D>)
      reads `nodes, `pending, `pendingOffset, `frames, nodes.Values`dsp
    {
      && s.dsp.Keys == nodes.Keys && (forall id | id in nodes :: nodes[id].dsp == s.dsp[id])
      && s.frames == frames && pendingOffset <= |pending| && s.rest == pending[pendingOffset..]
    }

    lemma {:induction false} MirrorsBegin(dsp: map<nat, D>)
      requires Untouched(dsp)
      ensures Mirrors(Begin(dsp), {}) && NotAhead()
    {
    }

    lemma {:induction false} MirrorsEnd(p: Progress<D>, s: Stream<D>)
      requires Mirrors(p, {}) && NotAhead() && s.dsp == p.dsp && s.frames == frames && s.rest == pending
      requires pendingOffset == 0
      ensures StreamIs(s) && Idle()
    {
    }

    lemma {:induction false} StreamFits(g: Graph, s: Stream<D>)
      requires GraphIs(g) && StreamIs(s)
      ensures s.dsp.Keys == g.Keys == nodes.Keys
    {
    }

    /** Before any node of the current quantum was rendered. */
    ghost predicate Untouched(dsp: map<nat, D>)
      reads `nodes, `serial, nodes.Values`serial, nodes.Values`rendering, nodes.Values`dsp
    {
      && dsp.Keys == nodes.Keys
      && forall k | k in nodes :: nodes[k].dsp == dsp[k] && nodes[k].serial < serial && !nodes[k].rendering
    }

    method PullDestination(step: Step<D>, ghost g: Graph, ghost dsp: map<nat, D>) returns (out: Block)
      requires Valid() && GraphIs(g) && destination in nodes && Untouched(dsp)
      modifies nodes.Values`quantum, nodes.Values`serial, nodes.Values`rendering, nodes.Values`dsp
      ensures dsp.Keys == g.Keys && destination in g && Mirrors(Quantum(g, step, dsp, destination), {}) && NotAhead()
      ensures destination in Quantum(g, step, dsp, destination).out
      ensures out == Quantum(g, step, dsp, destination).out[destination]
    {
      hide Mirrors, AudioGraph.Pull, EdgesOk, OrderOk, Fits, GraphIs;
      MirrorsBegin(dsp);
      MirrorsFits(g, Begin(dsp), {});
      QuantumFits(g, step, dsp, destination);
      out := Pull(step, destination, g, Begin(dsp), {});
    }

    method BeginQuantum(ghost s: Stream<D>)
      requires StreamIs(s) && Idle()
      modifies `serial, `pending, `pendingOffset
      ensures Untouched(s.dsp) && s.frames == frames && pending == Silence() && pendingOffset == 0
    {
      serial := serial + 1;
      pending := Silence();
      pendingOffset := 0;
    }

    /** The quantum of a destination. */
    method RenderDestination(steps: Steps<D>, ghost g: Graph, ghost s: Stream<D>)
      requires Valid() && GraphIs(g) && destination in nodes && Untouched(s.dsp) && s.frames == frames
      requires pendingOffset == 0
      modifies `pending, `frames, nodes.Values`quantum, nodes.Values`serial, nodes.Values`rendering, nodes.Values`dsp
      ensures s.dsp.Keys == g.Keys && StreamIs(Refill(g, steps, destination, s)) && Idle() && |pending| == SAMPLES
    {
      hide Valid, GraphIs, Mirrors, StreamIs, Idle, NotAhead, Untouched, Quantum, Refill;
      var mixed := PullDestination(steps(frames), g, s.dsp);
      pending := mixed;
      frames := frames + QUANTUM;
      RefillIs(g, steps, destination, s);
      MirrorsEnd(Quantum(g, steps(s.frames), s.dsp, destination), Refill(g, steps, destination, s));
    }

    /** Without one the quantum is silent. */
    method RenderSilence(steps: Steps<D>, ghost g: Graph, ghost s: Stream<D>)
      requires GraphIs(g) && destination !in nodes && Untouched(s.dsp) && s.frames == frames
      requires pending == Silence() && pendingOffset == 0
      modifies `frames
      ensures s.dsp.Keys == g.Keys && StreamIs(Refill(g, steps, destination, s)) && Idle()
    {
      frames := frames + QUANTUM;
    }

    method RenderQuantum(steps: Steps<D>, ghost g: Graph, ghost s: Stream<D>)
      requires Valid() && GraphIs(g) && StreamIs(s) && Idle()
      modifies `serial, `pending, `pendingOffset, `frames
      modifies nodes.Values`quantum, nodes.Values`serial, nodes.Values`rendering, nodes.Values`dsp
      ensures Valid() && GraphIs(g) && s.dsp.Keys == g.Keys && StreamIs(Refill(g, steps, destination, s)) && Idle()
      ensures pendingOffset == 0 && |pending| == SAMPLES
    {
      hide *;
      StreamFits(g, s);
      BeginQuantum(s);
      if destination in nodes {
        RenderDestination(steps, g, s);
      } else {
        RenderSilence(steps, g, s);
      }
    }

    /** Quanta and pieces of them hold whole frames. */
    ghost predicate Even()
      reads `pending, `pendingOffset
    {
      |pending| % CHANNELS == 0 && pendingOffset % CHANNELS == 0
    }

    lemma {:induction false} RestIs(s: Stream<D>)
      requires StreamIs(s)
      ensures pendingOffset <= |pending| && s.rest == pending[pendingOffset..]
    {
    }

    /** A new quantum when the last one is used up. */
    method Refilled(steps: Steps<D>, ghost g: Graph, ghost t: Stream<D>)
      requires Valid() && GraphIs(g) && StreamIs(t) && Idle() && Even()
      modifies `serial, `pending, `pendingOffset, `frames
      modifies nodes.Values`quantum, nodes.Values`serial, nodes.Values`rendering, nodes.Values`dsp
      ensures Valid() && GraphIs(g) && Idle() && Even() && t.dsp.Keys == g.Keys
      ensures StreamIs(Filled(g, steps, destination, t))
    {
      hide Valid, GraphIs, Idle, StreamIs, Refill;
      StreamFits(g, t);
      RestIs(t);
      if pendingOffset >= |pending| { RenderQuantum(steps, g, t); }
    }

    /** Pieces of quanta hold whole frames. */
    lemma {:induction false} Halves(take: nat)
      requires Even() && pendingOffset <= |pending| && (take == |pending| - pendingOffset || take % CHANNELS == 0)
      ensures take == take / CHANNELS * CHANNELS
    {
    }

    method Take(count: nat, ghost s: Stream<D>) returns (piece: seq<real>)
      requires StreamIs(s) && count <= |s.rest| && Even() && count % CHANNELS == 0
      modifies `pendingOffset
      ensures Even() && piece == s.rest[..count] && StreamIs(s.(rest := s.rest[count..]))
      ensures pendingOffset == old(pendingOffset) + count
    {
      piece := pending[pendingOffset..pendingOffset + count];
      pendingOffset := pendingOffset + count;
    }

    /** As many of the `left` frames as one quantum still has, and at least one. */
    method RenderPiece(steps: Steps<D>, left: nat, ghost g: Graph, ghost t: Stream<D>)
      returns (piece: seq<real>, frames: nat)
      requires Valid() && GraphIs(g) && StreamIs(t) && Idle() && Even() && left > 0
      modifies `serial, `pending, `pendingOffset, `frames
      modifies nodes.Values`quantum, nodes.Values`serial, nodes.Values`rendering, nodes.Values`dsp
      ensures Valid() && GraphIs(g) && Idle() && Even() && t.dsp.Keys == g.Keys
      ensures 0 < frames <= left && |piece| == CHANNELS * frames
      ensures var filled := Filled(g, steps, destination, t);
        && |piece| <= |filled.rest| && piece == filled.rest[..|piece|]
        && StreamIs(filled.(rest := filled.rest[|piece|..]))
    {
      hide Valid, GraphIs, Idle, StreamIs, Refill, Even, Filled;
      Refilled(steps, g, t);
      ghost var filled := Filled(g, steps, destination, t);
      RestIs(filled);
      var available := |pending| - pendingOffset;
      var wanted := left * CHANNELS;
      var take := if available < wanted then available else wanted;
      Halves(take);
      piece := Take(take, filled);
      frames := take / CHANNELS;
    }

    /** The next frames of the stream, copied piece by piece out of the quanta. */
    method Render(steps: Steps<D>, count: nat, ghost g: Graph, ghost s: Stream<D>) returns (out: seq<real>)
      requires Valid() && GraphIs(g) && StreamIs(s) && Idle() && Even()
      modifies `serial, `pending, `pendingOffset, `frames
      modifies nodes.Values`quantum, nodes.Values`serial, nodes.Values`rendering, nodes.Values`dsp
      ensures Valid() && GraphIs(g) && s.dsp.Keys == g.Keys && Idle() && Even()
      ensures out == Samples(g, steps, destination, s, CHANNELS * count)
      ensures StreamIs(Behind(g, steps, destination, s, CHANNELS * count))
    {
      hide Valid, GraphIs, Idle, NotAhead, StreamIs, Samples, Behind, Refill, Even, Filled, Silence;
      StreamFits(g, s);
      SamplesOfRest(g, steps, destination, s, 0);
      var done := 0;
      out := [];
      ghost var t := s;
      while done < count
        invariant done <= count && Valid() && GraphIs(g) && Idle() && Even() && StreamIs(t) && t.dsp.Keys == g.Keys
        invariant out == Samples(g, steps, destination, s, CHANNELS * done)
        invariant t == Behind(g, steps, destination, s, CHANNELS * done)
        decreases count - done
      {
        var piece, frames := RenderPiece(steps, count - done, g, t);
        Piece(g, steps, destination, s, t, CHANNELS * done, |piece|);
        ghost var filled := Filled(g, steps, destination, t);
        out := out + piece;
        t := filled.(rest := filled.rest[|piece|..]);
        done := done + frames;
      }
    }
  }
}
