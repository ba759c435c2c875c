/** Mixing is adding: what a node mixes is, sample by sample, the sum of what its inputs put out. */
module AudioSums {
  import opened Collections
  import opened AudioGraph
  import opened AudioQuantum

  /** The sum of sample `i` over the inputs that exist and have an output. */
  ghost function Total(g: Graph, out: map<nat, Block>, inputs: seq<nat>, i: nat): real
    requires i < SAMPLES
  {
    if inputs == [] then 0.0
    else
      var k := inputs[|inputs| - 1];
      Total(g, out, inputs[..|inputs| - 1], i) + if k in g && k in out then out[k][i] else 0.0
  }

  lemma {:induction false} TotalConcat(g: Graph, out: map<nat, Block>, a: seq<nat>, b: seq<nat>, i: nat)
    requires i < SAMPLES
    ensures Total(g, out, a + b, i) == Total(g, out, a, i) + Total(g, out, b, i)
  {
    if b == [] {
      assert a + b == a;
    } else {
      TotalConcat(g, out, a, b[..|b| - 1], i);
      assert (a + b)[..|a + b| - 1] == a + b[..|b| - 1];
    }
  }

  /** In which order inputs were connected makes no difference. */
  lemma {:induction false} OrderDoesNotMatter(g: Graph, out: map<nat, Block>, a: seq<nat>, b: seq<nat>, i: nat)
    requires i < SAMPLES && multiset(a) == multiset(b)
    ensures Total(g, out, a, i) == Total(g, out, b, i)
  {
    if a == [] {
      assert |b| == |multiset(b)| == |multiset(a)|;
    } else {
      var k := PickOut(a, b);
      OrderDoesNotMatter(g, out, a[..|a| - 1], b[..k] + b[k + 1..], i);
      TotalConcat(g, out, b[..k], b[k + 1..], i);
      TotalConcat(g, out, b[..k] + [b[k]], b[k + 1..], i);
      TotalConcat(g, out, b[..k], [b[k]], i);
      var one := [b[k]];
      assert one[..0] == [];
      assert Total(g, out, one, i) == Total(g, out, [], i) + if b[k] in g && b[k] in out then out[b[k]][i] else 0.0;
    }
  }

  /** Outputs that the inputs do not need may differ. */
  lemma {:induction false} TotalSame(g: Graph, out: map<nat, Block>, out': map<nat, Block>, inputs: seq<nat>, i: nat)
    requires i < SAMPLES
    requires forall k | k in inputs && k in g :: (k in out <==> k in out') && (k in out ==> out[k] == out'[k])
    ensures Total(g, out, inputs, i) == Total(g, out', inputs, i)
  {
    if inputs != [] { TotalSame(g, out, out', inputs[..|inputs| - 1], i); }
  }

  // ----- while pulling

  /** Pulling leaves the outputs that there are, and gives none to what is being rendered further up. */
  lemma {:induction false} PullFrame<D>(g: Graph, step: Step<D>, p: Progress<D>, path: set<nat>, id: nat)
    requires Fits(g, p) && id in g && Apart(p, path)
    ensures var q := Pull(g, step, p, path, id);
      Apart(q, path) && (id in q.out <==> id !in path) && forall a | a in p.out :: a in q.out && q.out[a] == p.out[a]
    decreases Rest(g, p, path), 0
  {
    if id !in p.out && id !in path {
      assert id in Rest(g, p, path) && id !in Rest(g, p, path + {id});
      if g[id].mixes { PullAllFrame(g, step, p, path + {id}, id, g[id].inputs); }
    }
  }

  lemma {:induction false} PullAllFrame<D>(g: Graph, step: Step<D>, p: Progress<D>, path: set<nat>, id: nat,
      inputs: seq<nat>)
    requires Fits(g, p) && Apart(p, path)
    ensures var q := PullAll(g, step, p, path, id, inputs).progress;
      && Apart(q, path) && (forall a | a in p.out :: a in q.out && q.out[a] == p.out[a])
      && forall k | k in inputs && k in g :: k in q.out <==> k !in path
    decreases Rest(g, p, path), 1 + |inputs|
  {
    if inputs != [] {
      var rest, k := inputs[..|inputs| - 1], inputs[|inputs| - 1];
      assert inputs == rest + [k];
      PullAllFrame(g, step, p, path, id, rest);
      if k in g { PullFrame(g, step, PullAll(g, step, p, path, id, rest).progress, path, k); }
    }
  }

  /** What the inputs of a node are mixed to is the sum of their outputs; an input that is being rendered further up
      is silent. */
  lemma {:induction false} PullAllAdds<D>(g: Graph, step: Step<D>, p: Progress<D>, path: set<nat>, id: nat,
      inputs: seq<nat>, i: nat)
    requires Fits(g, p) && Apart(p, path) && i < SAMPLES
    ensures var m := PullAll(g, step, p, path, id, inputs); m.block[i] == Total(g, m.progress.out, inputs, i)
    decreases |inputs|
  {
    hide Fits, Apart;
    if inputs != [] {
      var rest, k := inputs[..|inputs| - 1], inputs[|inputs| - 1];
      assert inputs == rest + [k];
      PullAllAdds(g, step, p, path, id, rest, i);
      PullAllFrame(g, step, p, path, id, rest);
      var before := PullAll(g, step, p, path, id, rest);
      if k in g {
        PullFrame(g, step, before.progress, path, k);
        var q := Pull(g, step, before.progress, path, k);
        TotalSame(g, before.progress.out, q.out, rest, i);
      }
    }
  }

  lemma {:induction false} InputsAdd<D>(g: Graph, step: Step<D>, p: Progress<D>, path: set<nat>, id: nat,
      inputs: seq<nat>)
    requires Fits(g, p) && Apart(p, path)
    ensures var m := PullAll(g, step, p, path, id, inputs);
      forall i: nat | i < SAMPLES :: m.block[i] == Total(g, m.progress.out, inputs, i)
  {
    hide Fits, Apart, PullAll, Total;
    var m := PullAll(g, step, p, path, id, inputs);
    forall i: nat | i < SAMPLES ensures m.block[i] == Total(g, m.progress.out, inputs, i) {
      PullAllAdds(g, step, p, path, id, inputs, i);
    }
  }

  // ----- in a quantum

  /** The outputs that node `id` hears: not those of the connections that are cut. */
  ghost function HeardBy<D>(q: Progress<D>, id: nat): map<nat, Block> {
    map k | k in q.out && (id, k) !in q.cut :: q.out[k]
  }

  lemma {:induction false} MixAdds<D>(g: Graph, q: Progress<D>, id: nat, inputs: seq<nat>, i: nat)
    requires i < SAMPLES
    ensures MixOf(g, q.out, q.cut, id, inputs)[i] == Total(g, HeardBy(q, id), inputs, i)
  {
    if inputs != [] { MixAdds(g, q, id, inputs[..|inputs| - 1], i); }
  }

  /** In every quantum of every graph a node that mixes is stepped once, from its state before, with the sum of the
      outputs that it hears. */
  lemma {:induction false} QuantumAdds<D>(g: Graph, step: Step<D>, dsp0: map<nat, D>, destination: nat, id: nat)
    returns (input: Block)
    requires dsp0.Keys == g.Keys && destination in g && id in Quantum(g, step, dsp0, destination).out
    ensures id in g && id in Quantum(g, step, dsp0, destination).dsp
    ensures var q := Quantum(g, step, dsp0, destination);
      && (q.dsp[id], q.out[id]) == step(id, dsp0[id], input)
      && forall i: nat | i < SAMPLES ::
           input[i] == if g[id].mixes then Total(g, HeardBy(q, id), g[id].inputs, i) else 0.0
  {
    hide Pull, EdgesOk, OrderOk, Grows, Quantum;
    var q := Quantum(g, step, dsp0, destination);
    QuantumSound(g, step, dsp0, destination);
    assert id in g && SolvedAt(g, step, dsp0, q, id);
    input := InputOf(g, q, id);
    if g[id].mixes {
      forall i: nat | i < SAMPLES ensures input[i] == Total(g, HeardBy(q, id), g[id].inputs, i) {
        MixAdds(g, q, id, g[id].inputs, i);
      }
    }
  }
}
