/**
  Whole runs: a program that allocates, loads, stores and edits weak collections, with collections at any
  point, never holds a pointer to a released block.
 */
module GcRuns {
  import opened GcGraph
  import opened GcTheorems
  import opened GcHeap

  /** `slots` are registered root slots and what root providers mark; `locals` are the words the running
      code still uses, all of them on a scanned stack. */
  datatype State = State(heap: Graph, slots: seq<Word>, locals: seq<Word>)

  datatype Action =
    | New(address: nat, tag: Tag, kind: Kind, size: nat)
    | Load(from: Word, word: Word)
    | Write(to: Word, node: Node)
    | Keep(slots: seq<Word>, locals: seq<Word>)
    | Collect(junk: seq<Word>)

  ghost function Held(s: State): set<nat> {
    Pointers(s.slots) + Pointers(s.locals)
  }

  // ----- what an object holds

  /** Every word in a block or its buffers, whatever the kind: all that running code may read. */
  function Readable(n: Node): seq<Word> {
    n.slots + n.words + n.keys + n.values + [n.target]
  }

  /** Which structures have fields for pointers, of each sort. A string has some while it is a rope node; BigInts and
      Dates have none; a promise, an async iterator and the weak kinds have nothing but the fields of their own. */
  ghost predicate Layout(n: Node) {
    && (Pointers(n.slots) != {} ==>
          n.kind in {PromiseKind, GeneratorKind, AsyncKind, AsyncIteratorKind} || (n.kind == StringKind && !n.flat))
    && (Pointers(n.words) != {} ==>
          n.kind in {ObjectKind, ErrorKind, ArrayKind, FunctionKind, MapKind, SetKind, SymbolKind, RegExpKind,
                     IteratorKind, GeneratorKind, AsyncKind})
    && (Pointers(n.keys) != {} ==> n.kind == WeakMapKind)
    && (Pointers(n.values) != {} ==> n.kind == WeakMapKind || n.kind == WeakSetKind)
    && (n.target.Boxed? ==> n.kind == WeakRefKind)
    && (n.kind == WeakMapKind ==> |n.keys| == |n.values|)
  }

  /** What tracing follows are the pointers in the strong fields, all of them and no others. */
  lemma {:induction false} TracedAreStrong(n: Node)
    requires Layout(n)
    ensures Pointers(MarkedSlots(n)) == Pointers(n.slots)
    ensures Pointers(ScannedWords(n)) == Pointers(n.words)
  {
    assert Pointers([]) == {};
  }

  lemma {:induction false} ReadableParts(n: Node)
    ensures Pointers(Readable(n)) ==
      Pointers(n.slots) + Pointers(n.words) + Pointers(n.keys) + Pointers(n.values)
      + if n.target.Boxed? then {n.target.pointer} else {}
  {
  }

  /** What a program can do: it reads and writes objects it holds a pointer to, and stores only pointers
      that it holds or that the object had. Stale words (`junk`) may lie on the stack during a collection. */
  ghost predicate Enabled(s: State, action: Action) {
    match action
    case New(address, _, _, _) => address !in s.heap
    case Load(from, word) =>
      Points(from, Held(s)) && from.pointer in s.heap && word in Readable(s.heap[from.pointer])
    case Write(to, node) =>
      && Points(to, Held(s)) && to.pointer in s.heap
      && node.kind == s.heap[to.pointer].kind && Layout(node)
      && Pointers(Readable(node)) <= Held(s) + Pointers(Readable(s.heap[to.pointer]))
    case Keep(slots, locals) => Pointers(slots) + Pointers(locals) <= Held(s)
    case Collect(_) => true
  }

  ghost function Next(s: State, action: Action): State
    requires Enabled(s, action)
  {
    match action
    case New(address, tag, kind, size) =>
      s.(heap := s.heap[address := Fresh(kind, size)], locals := s.locals + [Boxed(tag, address)])
    case Load(_, word) => s.(locals := s.locals + [word])
    case Write(to, node) => s.(heap := s.heap[to.pointer := node])
    case Keep(slots, locals) => s.(slots := slots, locals := locals)
    case Collect(junk) => s.(heap := Collected(s.heap, Roots(s.slots, s.locals + junk)))
  }

  /** Whatever the block at `a` holds leads to blocks that have not been released. */
  ghost predicate SafeBlock(g: Graph, n: Node) {
    Layout(n) && Pointers(Readable(n)) <= g.Keys
  }

  ghost predicate SafeHeap(g: Graph) {
    forall a | a in g :: SafeBlock(g, g[a])
  }

  /** Every pointer the program holds or can read leads to a block that has not been released. */
  ghost predicate Safe(s: State) {
    SafeHeap(s.heap) && Held(s) <= s.heap.Keys
  }

  lemma {:induction false} SafeIsSound(g: Graph)
    requires SafeHeap(g)
    ensures Sound(g)
  {
    hide NodeSound, SafeBlock;
    forall a | a in g ensures NodeSound(g, g[a]) { BlockSound(g, g[a]); }
  }

  lemma {:induction false} BlockSound(g: Graph, n: Node)
    requires SafeBlock(g, n)
    ensures NodeSound(g, n)
  {
    hide MarkedSlots, ScannedWords, Pointers, Readable;
    TracedAreStrong(n);
    ReadableParts(n);
  }

  /** What a survivor holds survives: its strong fields were traced, its weak ones were cleared. */
  lemma {:induction false} SurvivorSafe(g: Graph, roots: Roots, a: nat)
    requires Sound(g) && SoundRoots(g, roots) && a in Live(g, roots) && a in g && SafeBlock(g, g[a])
    ensures SafeBlock(Collected(g, roots), Collected(g, roots)[a])
  {
    hide MarkedSlots, ScannedWords, Live, Closed, Sound, SoundRoots, Readable, Pruned, Layout;
    var g', n := Collected(g, roots), g[a];
    CollectedSound(g, roots);
    SoundAt(g', a);
    TracedAreStrong(n);
    PrunedLayout(n, Live(g, roots));
    TracedAreStrong(g'[a]);
    ReadableParts(g'[a]);
    WeakFields(g', g'[a]);
  }

  lemma {:induction false} SoundAt(g: Graph, a: nat)
    requires Sound(g) && a in g
    ensures NodeSound(g, g[a])
  {
  }

  lemma {:induction false} WeakFields(g: Graph, n: Node)
    requires Layout(n) && NodeSound(g, n)
    ensures Pointers(n.keys) <= g.Keys && Pointers(n.values) <= g.Keys && (n.target.Boxed? ==> n.target.pointer in g)
  {
    hide MarkedSlots, ScannedWords;
  }

  /** Pruning takes words away and changes no kind. */
  lemma {:induction false} PrunedLayout(n: Node, m: set<nat>)
    requires Layout(n)
    ensures Layout(Pruned(n, m))
  {
    hide Surviving;
    var n' := Pruned(n, m);
    if n.kind == WeakMapKind {
      SurvivingInOrder(n.keys, n.keys, m);
      SurvivingInOrder(n.keys, n.values, m);
    } else if n.kind == WeakSetKind {
      SurvivingInOrder(n.values, n.values, m);
    }
  }

  lemma {:induction false} SafeStep(s: State, action: Action)
    requires Safe(s) && Enabled(s, action)
    ensures Safe(Next(s, action))
  {
    hide Readable, Layout, Live, Sound, SoundRoots;
    var s' := Next(s, action);
    match action
    case New(address, tag, kind, size) =>
      FreshSafe(s'.heap, kind, size);
      assert Pointers(s'.locals) == Pointers(s.locals) + {address};
      forall a | a in s'.heap ensures SafeBlock(s'.heap, s'.heap[a]) {
        if a != address { assert SafeBlock(s.heap, s.heap[a]); }
      }
    case Load(from, word) =>
      assert SafeBlock(s.heap, s.heap[from.pointer]);
      assert Pointers(s'.locals) <= Pointers(s.locals) + Pointers(Readable(s.heap[from.pointer]));
    case Write(to, node) =>
      assert SafeBlock(s.heap, s.heap[to.pointer]);
      forall a | a in s'.heap ensures SafeBlock(s'.heap, s'.heap[a]) {
        if a != to.pointer { assert SafeBlock(s.heap, s.heap[a]); }
      }
    case Keep(_, _) =>
    case Collect(junk) => CollectSafe(s, junk);
  }

  lemma {:induction false} FreshSafe(g: Graph, kind: Kind, size: nat)
    ensures SafeBlock(g, Fresh(kind, size))
  {
    var n := Fresh(kind, size);
    assert Pointers([]) == {} && Pointers(Readable(n)) == {};
  }

  lemma {:induction false} CollectSafe(s: State, junk: seq<Word>)
    requires Safe(s)
    ensures Safe(Next(s, Collect(junk)))
  {
    hide Live, SafeBlock;
    var roots := Roots(s.slots, s.locals + junk);
    SafeIsSound(s.heap);
    HeldSurvives(s, junk);
    forall a | a in Collected(s.heap, roots) ensures SafeBlock(Collected(s.heap, roots), Collected(s.heap, roots)[a]) {
      LiveInHeap(s.heap, roots);
      SurvivorSafe(s.heap, roots, a);
    }
  }

  lemma {:induction false} LiveInHeap(g: Graph, roots: Roots)
    ensures Live(g, roots) <= g.Keys
  {
  }

  /** A collection keeps every object the program holds. */
  lemma {:induction false} HeldSurvives(s: State, junk: seq<Word>)
    requires Safe(s)
    ensures Held(s) <= Live(s.heap, Roots(s.slots, s.locals + junk))
  {
    var roots := Roots(s.slots, s.locals + junk);
    SafeIsSound(s.heap);
    LiveIsClosed(s.heap, roots);
    forall w | w in s.locals && w.Boxed? ensures w.pointer in RootSet(s.heap, roots) {
      assert w.pointer in Pointers(s.locals);
      assert w in s.locals + junk && w.Address() in s.heap;
    }
  }

  /** A bare address on the stack, without a tag, keeps its block as well. */
  lemma {:induction false} BareAddressSurvives(s: State, junk: seq<Word>, a: nat)
    requires Safe(s) && a in s.heap && Raw(a) in s.locals + junk
    ensures a in Live(s.heap, Roots(s.slots, s.locals + junk))
  {
    var roots := Roots(s.slots, s.locals + junk);
    SafeIsSound(s.heap);
    LiveIsClosed(s.heap, roots);
    assert Raw(a).Address() in RootSet(s.heap, roots);
  }

  ghost predicate IsRun(states: seq<State>, actions: seq<Action>) {
    && |states| == |actions| + 1
    && states[0] == State(map[], [], [])
    && forall i | 0 <= i < |actions| :: Enabled(states[i], actions[i]) && states[i + 1] == Next(states[i], actions[i])
  }

  /** In every state of every run, no pointer dangles. */
  lemma {:induction false} EveryRunSafe(states: seq<State>, actions: seq<Action>, i: nat)
    requires IsRun(states, actions) && i < |states|
    ensures Safe(states[i])
  {
    if i > 0 {
      EveryRunSafe(states, actions, i - 1);
      SafeStep(states[i - 1], actions[i - 1]);
    }
  }

  lemma {:induction false} TracedWithin(n: Node)
    ensures forall w | w in MarkedSlots(n) :: w in n.slots
    ensures forall w | w in ScannedWords(n) :: w in n.words
  {
  }

  lemma {:induction false} NoEdge(g: Graph, a: nat, b: nat)
    requires a in g && (forall w | w in g[a].slots :: !Points(w, {b})) && forall w | w in g[a].words :: w.Address() != b
    ensures Edges(g, a) !! {b}
  {
    hide MarkedSlots, ScannedWords;
    TracedWithin(g[a]);
  }

  /** An object that only weak references name is dead: no root, no slot and no scanned word names it, and it is the
      value of no WeakMap entry. WeakRefs may point to it, WeakSets and the keys of WeakMaps may contain it. */
  lemma {:induction false} WeaklyHeldDies(g: Graph, roots: Roots, b: nat)
    requires SafeHeap(g) && SoundRoots(g, roots)
    requires forall w | w in roots.slots :: !Points(w, {b})
    requires forall w | w in roots.stack :: w.Address() != b
    requires forall a, w | a in g && w in g[a].slots :: !Points(w, {b})
    requires forall a, w | a in g && w in g[a].words :: w.Address() != b
    requires forall a, w | a in g && g[a].kind == WeakMapKind && w in g[a].values :: !Points(w, {b})
    ensures b !in Live(g, roots)
  {
    hide MarkedSlots, ScannedWords, Live, Sound, SafeHeap;
    SafeIsSound(g);
    forall a | a in g ensures Edges(g, a) !! {b} { NoEdge(g, a, b); }
    forall a, i | a in g && EphemeronEntry(g[a], i) ensures !Points(g[a].values[i], {b}) {
      assert g[a].values[i] in g[a].values;
    }
    IslandIsDead(g, roots, {b});
  }
}
