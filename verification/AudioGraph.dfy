/**
  One quantum of the audio graph. The signal processing of a node is any function `step` of the node, its state
  and its mixed input, to its next state and its output.
 */
module AudioGraph {

  const SAMPLES := 256

  type Block = b: seq<real> | |b| == SAMPLES witness seq(SAMPLES, i => 0.0)

  function Silence(): Block { seq(SAMPLES, i => 0.0) }

  function Add(a: Block, b: Block): Block {
    seq(SAMPLES, i requires 0 <= i < SAMPLES => a[i] + b[i])
  }

  /** Sources (`mixes` is false) ignore what is connected to them. */
  datatype Node = Node(mixes: bool, inputs: seq<nat>)

  type Graph = map<nat, Node>

  type Step<!D> = (nat, D, Block) -> (D, Block)

  /** The part of a quantum that is done: outputs, states of all nodes, the connections that were silent because
      they close a cycle, and the nodes in the order in which they were stepped. */
  datatype Progress<D> = Progress(out: map<nat, Block>, dsp: map<nat, D>, cut: set<(nat, nat)>, order: seq<nat>)

  /** What a node that mixes has summed up so far. */
  datatype Mix<D> = Mix(progress: Progress<D>, block: Block)

  ghost predicate Fits<D>(g: Graph, p: Progress<D>) {
    p.dsp.Keys == g.Keys && p.out.Keys <= g.Keys
  }

  ghost function Rest<D>(g: Graph, p: Progress<D>, path: set<nat>): set<nat> {
    g.Keys - path - p.out.Keys
  }

  // ----- pulling

  /** A node is stepped with its mixed input. */
  ghost function Stepped<D>(step: Step<D>, id: nat, mixed: Mix<D>): Progress<D>
    requires id in mixed.progress.dsp
  {
    var p := mixed.progress;
    Progress(p.out[id := step(id, p.dsp[id], mixed.block).1], p.dsp[id := step(id, p.dsp[id], mixed.block).0],
             p.cut, p.order + [id])
  }

  /** Input `k` of node `id` is added to the mix, or is silent because `k` is being rendered further up. */
  ghost function Mixed<D>(id: nat, k: nat, mix: Block, q: Progress<D>): Mix<D> {
    if k in q.out then Mix(q, Add(mix, q.out[k])) else Mix(q.(cut := q.cut + {(id, k)}), Add(mix, Silence()))
  }

  /** `path` is what is being rendered further up. */
  ghost function Pull<D>(g: Graph, step: Step<D>, p: Progress<D>, path: set<nat>, id: nat): (q: Progress<D>)
    requires Fits(g, p) && id in g
    ensures Fits(g, q) && p.out.Keys <= q.out.Keys && (id in q.out || id in path)
    decreases Rest(g, p, path), 0
  {
    if id in p.out || id in path then p
    else
      assert id in Rest(g, p, path) && id !in Rest(g, p, path + {id});
      Stepped(step, id, if g[id].mixes then PullAll(g, step, p, path + {id}, id, g[id].inputs) else Mix(p, Silence()))
  }

  /** The sum of the outputs of `inputs`, from left to right; connections to nodes that do not exist are skipped. */
  ghost function PullAll<D>(g: Graph, step: Step<D>, p: Progress<D>, path: set<nat>, id: nat,
      inputs: seq<nat>): (q: Mix<D>)
    requires Fits(g, p)
    ensures Fits(g, q.progress) && p.out.Keys <= q.progress.out.Keys
    decreases Rest(g, p, path), 1 + |inputs|
  {
    if inputs == [] then Mix(p, Silence())
    else
      var k := inputs[|inputs| - 1];
      var before := PullAll(g, step, p, path, id, inputs[..|inputs| - 1]);
      if k in g then Mixed(id, k, before.block, Pull(g, step, before.progress, path, k)) else before
  }

  // ----- what a quantum should compute

  ghost predicate Edge(g: Graph, a: nat, b: nat) {
    a in g && g[a].mixes && b in g[a].inputs && b in g
  }

  /** What node `id` mixes, given the outputs of its inputs; connections that were cut are silent. */
  ghost function MixOf(g: Graph, out: map<nat, Block>, cut: set<(nat, nat)>, id: nat, inputs: seq<nat>): Block {
    if inputs == [] then Silence()
    else
      var k := inputs[|inputs| - 1];
      var before := MixOf(g, out, cut, id, inputs[..|inputs| - 1]);
      if k !in g then before else if (id, k) !in cut && k in out then Add(before, out[k]) else Add(before, Silence())
  }

  ghost function InputOf<D>(g: Graph, p: Progress<D>, id: nat): Block
    requires id in g
  {
    if g[id].mixes then MixOf(g, p.out, p.cut, id, g[id].inputs) else Silence()
  }

  /** The node was stepped once, from the state it had when the quantum began. */
  ghost predicate SolvedAt<D>(g: Graph, step: Step<D>, dsp0: map<nat, D>, p: Progress<D>, id: nat)
    requires id in g && id in dsp0 && id in p.dsp && id in p.out
  {
    (p.dsp[id], p.out[id]) == step(id, dsp0[id], InputOf(g, p, id))
  }

  ghost predicate Solved<D>(g: Graph, step: Step<D>, dsp0: map<nat, D>, p: Progress<D>) {
    && Fits(g, p) && dsp0.Keys == g.Keys
    && forall id | id in g :: if id in p.out then SolvedAt(g, step, dsp0, p, id) else p.dsp[id] == dsp0[id]
  }

  // ----- walks

  ghost predicate Walk(g: Graph, walk: seq<nat>) {
    walk != [] && forall i | 0 <= i < |walk| - 1 :: Edge(g, walk[i], walk[i + 1])
  }

  ghost predicate Reaches(g: Graph, a: nat, b: nat) {
    exists walk :: Walk(g, walk) && walk[0] == a && walk[|walk| - 1] == b
  }

  lemma {:induction false} ReachesSelf(g: Graph, a: nat)
    ensures Reaches(g, a, a)
  {
    assert Walk(g, [a]);
  }

  lemma {:induction false} ReachesStep(g: Graph, a: nat, b: nat, c: nat)
    requires Reaches(g, a, b) && Edge(g, b, c)
    ensures Reaches(g, a, c)
  {
    var walk :| Walk(g, walk) && walk[0] == a && walk[|walk| - 1] == b;
    assert Walk(g, walk + [c]);
  }

  lemma {:induction false} ReachesFirst(g: Graph, a: nat, b: nat, c: nat)
    requires Edge(g, a, b) && Reaches(g, b, c)
    ensures Reaches(g, a, c)
  {
    var walk :| Walk(g, walk) && walk[0] == b && walk[|walk| - 1] == c;
    assert Walk(g, [a] + walk);
  }

  // ----- the invariant of pulling

  /** Outputs of a node's inputs are there, or the connection is cut; cut connections close a cycle. */
  ghost predicate EdgesOk<D>(g: Graph, p: Progress<D>, path: set<nat>) {
    && (forall a, b | a in p.out && Edge(g, a, b) :: b in p.out || (a, b) in p.cut)
    && (forall a, b | (a, b) in p.cut ::
          Edge(g, a, b) && Reaches(g, b, a) && (a in p.out || a in path) && (b in p.out || b in path))
  }

  ghost predicate After(g: Graph, cut: set<(nat, nat)>, a: nat, done: seq<nat>) {
    forall b | Edge(g, a, b) && (a, b) !in cut :: b in done
  }

  /** The order lists the stepped nodes, each once, and after its inputs. */
  ghost predicate OrderOk<D>(g: Graph, p: Progress<D>) {
    && (forall i | 0 <= i < |p.order| :: p.order[i] in p.out)
    && (forall i, j | 0 <= i < j < |p.order| :: p.order[i] != p.order[j])
    && (forall a | a in p.out :: a in p.order)
    && (forall i | 0 <= i < |p.order| :: After(g, p.cut, p.order[i], p.order[..i]))
  }

  ghost predicate Apart<D>(p: Progress<D>, path: set<nat>) {
    forall x | x in path :: x !in p.out
  }

  ghost predicate Sound<D>(g: Graph, step: Step<D>, dsp0: map<nat, D>, p: Progress<D>, path: set<nat>) {
    Solved(g, step, dsp0, p) && EdgesOk(g, p, path) && OrderOk(g, p) && Apart(p, path)
  }

  /** What is done stays as it is; new nodes can be reached from `id`, and new cuts leave old nodes alone. */
  ghost predicate Grows<D>(g: Graph, p: Progress<D>, q: Progress<D>, id: nat, frozen: set<nat>) {
    && (forall a | a in p.out :: a in q.out && q.out[a] == p.out[a])
    && (forall a | a in q.out && a !in p.out :: Reaches(g, id, a))
    && p.cut <= q.cut
    && (forall a, b | (a, b) in q.cut && (a, b) !in p.cut :: a !in p.out && a !in frozen)
  }

  lemma {:induction false} MixStable(g: Graph, out: map<nat, Block>, cut: set<(nat, nat)>, out': map<nat, Block>,
      cut': set<(nat, nat)>, id: nat, inputs: seq<nat>)
    requires forall k | k in inputs && k in g ::
               ((id, k) in cut <==> (id, k) in cut') && ((id, k) in cut || (k in out && k in out' && out[k] == out'[k]))
    ensures MixOf(g, out, cut, id, inputs) == MixOf(g, out', cut', id, inputs)
  {
    if inputs != [] {
      assert inputs[|inputs| - 1] in inputs;
      MixStable(g, out, cut, out', cut', id, inputs[..|inputs| - 1]);
    }
  }

  // ----- a node is stepped

  /** The connections of a node that is being rendered: silent iff they lead back to what is being rendered. */
  ghost predicate InputsOk<D>(g: Graph, p: Progress<D>, path: set<nat>, id: nat, inputs: seq<nat>) {
    && (forall k | k in inputs && k in g :: if k in path then (id, k) in p.cut else (id, k) !in p.cut && k in p.out)
    && (forall k | (id, k) in p.cut :: k in inputs && k in path)
  }

  lemma {:induction false} StepSolved<D>(g: Graph, step: Step<D>, dsp0: map<nat, D>, mix: Mix<D>, path: set<nat>,
      id: nat)
    requires Sound(g, step, dsp0, mix.progress, path + {id}) && id in g
    requires g[id].mixes ==> InputsOk(g, mix.progress, path + {id}, id, g[id].inputs)
    requires mix.block == InputOf(g, mix.progress, id)
    ensures Solved(g, step, dsp0, Stepped(step, id, mix))
  {
    hide OrderOk, Reaches, MixOf;
    var p, q := mix.progress, Stepped(step, id, mix);
    if g[id].mixes { MixStable(g, p.out, p.cut, q.out, q.cut, id, g[id].inputs); }
    forall a | a in p.out ensures SolvedAt(g, step, dsp0, q, a) {
      if g[a].mixes { MixStable(g, p.out, p.cut, q.out, q.cut, a, g[a].inputs); }
    }
  }

  /** Appending a node whose inputs are listed to an order. */
  lemma {:induction false} OrderAppended(g: Graph, cut: set<(nat, nat)>, order: seq<nat>, id: nat)
    requires forall i | 0 <= i < |order| :: After(g, cut, order[i], order[..i])
    requires After(g, cut, id, order)
    ensures forall i | 0 <= i < |order + [id]| :: After(g, cut, (order + [id])[i], (order + [id])[..i])
  {
    hide After;
    var longer := order + [id];
    forall i | 0 <= i < |longer| ensures After(g, cut, longer[i], longer[..i]) {
      if i < |order| { assert longer[..i] == order[..i]; } else { assert longer[..i] == order; }
    }
  }

  lemma {:induction false} StepOrder<D>(g: Graph, step: Step<D>, dsp0: map<nat, D>, mix: Mix<D>, path: set<nat>,
      id: nat)
    requires Sound(g, step, dsp0, mix.progress, path + {id}) && id in g
    requires g[id].mixes ==> InputsOk(g, mix.progress, path + {id}, id, g[id].inputs)
    ensures OrderOk(g, Stepped(step, id, mix))
  {
    hide Reaches, SolvedAt, EdgesOk;
    var p, q := mix.progress, Stepped(step, id, mix);
    assert After(g, p.cut, id, p.order);
    OrderAppended(g, p.cut, p.order, id);
    OrderMembers(p, id);
  }

  lemma {:induction false} OrderMembers<D>(p: Progress<D>, id: nat)
    requires id !in p.out && (forall i | 0 <= i < |p.order| :: p.order[i] in p.out)
    requires forall a | a in p.out :: a in p.order
    requires forall i, j | 0 <= i < j < |p.order| :: p.order[i] != p.order[j]
    ensures var longer := p.order + [id];
      && (forall i | 0 <= i < |longer| :: longer[i] in p.out || longer[i] == id)
      && (forall a | a in p.out || a == id :: a in longer)
      && (forall i, j | 0 <= i < j < |longer| :: longer[i] != longer[j])
  {
  }

  lemma {:induction false} StepKeeps<D>(g: Graph, step: Step<D>, dsp0: map<nat, D>, p: Progress<D>, mix: Mix<D>,
      path: set<nat>, id: nat)
    requires Sound(g, step, dsp0, mix.progress, path + {id}) && id in g && id !in p.out && id !in path
    requires Grows(g, p, mix.progress, id, path) && Reaches(g, id, id)
    requires g[id].mixes ==> InputsOk(g, mix.progress, path + {id}, id, g[id].inputs)
    requires mix.block == InputOf(g, mix.progress, id)
    ensures Sound(g, step, dsp0, Stepped(step, id, mix), path) && Grows(g, p, Stepped(step, id, mix), id, path)
  {
    hide Solved, OrderOk, Reaches, InputOf, Fits;
    StepSolved(g, step, dsp0, mix, path, id);
    StepOrder(g, step, dsp0, mix, path, id);
  }

  // ----- an input is added

  lemma {:induction false} InputGrows<D>(g: Graph, p: Progress<D>, b: Progress<D>, r: Progress<D>, q: Progress<D>,
      path: set<nat>, id: nat, k: nat)
    requires Grows(g, p, b, id, path - {id}) && Grows(g, b, r, k, path) && Edge(g, id, k) && id !in p.out
    requires q == r || q == r.(cut := r.cut + {(id, k)})
    ensures Grows(g, p, q, id, path - {id})
  {
    hide Reaches, Edge;
    forall a | a in q.out && a !in p.out ensures Reaches(g, id, a) {
      if a !in b.out { ReachesFirst(g, id, k, a); }
    }
  }

  lemma {:induction false} InputMix<D>(g: Graph, before: Mix<D>, r: Progress<D>, path: set<nat>, id: nat,
      rest: seq<nat>, k: nat)
    requires InputsOk(g, before.progress, path, id, rest)
    requires before.block == MixOf(g, before.progress.out, before.progress.cut, id, rest)
    requires Grows(g, before.progress, r, k, path) && Apart(r, path) && (k in r.out || k in path)
    requires id in path && k in g
    ensures var m := Mixed(id, k, before.block, r);
      InputsOk(g, m.progress, path, id, rest + [k])
        && m.block == MixOf(g, m.progress.out, m.progress.cut, id, rest + [k])
  {
    hide Reaches, Silence, Add;
    var b, m := before.progress, Mixed(id, k, before.block, r);
    MixStable(g, b.out, b.cut, m.progress.out, m.progress.cut, id, rest);
    assert (rest + [k])[..|rest|] == rest;
  }

  lemma {:induction false} InputKeeps<D>(g: Graph, step: Step<D>, dsp0: map<nat, D>, p: Progress<D>, before: Mix<D>,
      r: Progress<D>, path: set<nat>, id: nat, rest: seq<nat>, k: nat)
    requires Sound(g, step, dsp0, before.progress, path) && Grows(g, p, before.progress, id, path - {id})
    requires InputsOk(g, before.progress, path, id, rest)
    requires before.block == MixOf(g, before.progress.out, before.progress.cut, id, rest)
    requires Sound(g, step, dsp0, r, path) && Grows(g, before.progress, r, k, path) && (k in r.out || k in path)
    requires id in path && Edge(g, id, k) && (k in path ==> Reaches(g, k, id))
    requires id !in p.out
    ensures var m := Mixed(id, k, before.block, r);
      && Sound(g, step, dsp0, m.progress, path) && Grows(g, p, m.progress, id, path - {id})
      && InputsOk(g, m.progress, path, id, rest + [k])
        && m.block == MixOf(g, m.progress.out, m.progress.cut, id, rest + [k])
  {
    hide Solved, EdgesOk, OrderOk, Reaches, Fits, InputsOk, MixOf, Grows, Silence, Add;
    var m := Mixed(id, k, before.block, r);
    InputMix(g, before, r, path, id, rest, k);
    CutKeeps(g, step, dsp0, r, m.progress, path, id, k);
    InputGrows(g, p, before.progress, r, m.progress, path, id, k);
  }

  /** Cutting a connection of a node that is being rendered. */
  lemma {:induction false} CutKeeps<D>(g: Graph, step: Step<D>, dsp0: map<nat, D>, r: Progress<D>, q: Progress<D>,
      path: set<nat>, id: nat, k: nat)
    requires Sound(g, step, dsp0, r, path) && id in path && Edge(g, id, k) && (k in path ==> Reaches(g, k, id))
    requires q == r || (k in path && q == r.(cut := r.cut + {(id, k)}))
    ensures Sound(g, step, dsp0, q, path)
  {
    hide Reaches, MixOf;
    if q != r {
      forall a | a in r.out ensures SolvedAt(g, step, dsp0, q, a) {
        if g[a].mixes { MixStable(g, r.out, r.cut, q.out, q.cut, a, g[a].inputs); }
      }
    }
  }

  // ----- pulling keeps it

  lemma {:induction false} SoundFits<D>(g: Graph, step: Step<D>, dsp0: map<nat, D>, p: Progress<D>, path: set<nat>)
    requires Sound(g, step, dsp0, p, path)
    ensures Fits(g, p)
  {
  }

  lemma {:induction false} PullKeeps<D>(g: Graph, step: Step<D>, dsp0: map<nat, D>, p: Progress<D>, path: set<nat>,
      id: nat)
    requires Sound(g, step, dsp0, p, path) && id in g && forall x | x in path :: Reaches(g, x, id)
    ensures var q := Pull(g, step, p, path, id); Sound(g, step, dsp0, q, path) && Grows(g, p, q, id, path)
    decreases Rest(g, p, path), 0
  {
    hide Solved, OrderOk, Reaches, Fits, Stepped, MixOf;
    SoundFits(g, step, dsp0, p, path);
    var q := Pull(g, step, p, path, id);
    if id !in p.out && id !in path {
      assert id in Rest(g, p, path) && id !in Rest(g, p, path + {id});
      ReachesSelf(g, id);
      var mix := Mix(p, Silence());
      if g[id].mixes {
        PullAllKeeps(g, step, dsp0, p, path + {id}, id, g[id].inputs);
        mix := PullAll(g, step, p, path + {id}, id, g[id].inputs);
      }
      StepKeeps(g, step, dsp0, p, mix, path, id);
    }
  }

  lemma {:induction false} PullAllKeeps<D>(g: Graph, step: Step<D>, dsp0: map<nat, D>, p: Progress<D>,
      path: set<nat>, id: nat, inputs: seq<nat>)
    requires Sound(g, step, dsp0, p, path) && id in g && id in path && g[id].mixes
    requires forall x | x in path :: Reaches(g, x, id)
    requires forall k | k in inputs :: k in g[id].inputs
    requires forall k :: (id, k) !in p.cut
    ensures var m := PullAll(g, step, p, path, id, inputs); var q := m.progress;
      && Sound(g, step, dsp0, q, path) && Grows(g, p, q, id, path - {id})
      && InputsOk(g, q, path, id, inputs) && m.block == MixOf(g, q.out, q.cut, id, inputs)
    decreases Rest(g, p, path), 1 + |inputs|
  {
    hide Solved, EdgesOk, OrderOk, Reaches, Fits, Mixed;
    SoundFits(g, step, dsp0, p, path);
    if inputs != [] {
      var rest, k := inputs[..|inputs| - 1], inputs[|inputs| - 1];
      assert k in inputs;
      PullAllKeeps(g, step, dsp0, p, path, id, rest);
      var before := PullAll(g, step, p, path, id, rest);
      if k in g {
        forall x | x in path ensures Reaches(g, x, k) { ReachesStep(g, x, id, k); }
        PullKeeps(g, step, dsp0, before.progress, path, k);
        InputKeeps(g, step, dsp0, p, before, Pull(g, step, before.progress, path, k), path, id, rest, k);
        assert inputs == rest + [k];
      }
    }
  }
}
