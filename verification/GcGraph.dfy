/**
  The heap as the collector sees it, as plain values: addresses, tagged words, and one `Node` per
  live allocation. `Live` is the set the collector must keep: the least set that holds the roots and
  is closed under strong references and under the ephemeron rule of WeakMaps.
  `Collected` is the heap a collection must leave behind.
 */
module GcGraph {

  datatype Tag = StringTag | ObjectTag | ArrayTag | FunctionTag | BigIntTag

  /** A 64-bit NaN-boxed word: a tagged heap pointer, or any other bit pattern. */
  datatype Word = Raw(bits: nat) | Boxed(tag: Tag, pointer: nat)
  {
    /** The address a conservative scan looks up for this word. */
    function Address(): nat {
      match this
      case Raw(b) => b
      case Boxed(_, p) => p
    }
  }

  const UNDEFINED := Raw(0xFFF8_0000_0000_0000)

  datatype Kind =
    | StringKind | ObjectKind | ArrayKind | FunctionKind | PromiseKind | MapKind | SetKind | DateKind
    | RegExpKind | SymbolKind | BigIntKind | ErrorKind | GeneratorKind | IteratorKind | AsyncKind
    | AsyncIteratorKind | WeakMapKind | WeakSetKind | WeakRefKind

  /** What one allocation holds. `slots` are the value fields a trace hook marks precisely, `words` the
      payload and backing buffers that are scanned conservatively; `keys`/`values`/`target` belong to the
      weak kinds. `flat` says that a string is no rope node. */
  datatype Node = Node(kind: Kind, size: nat, flat: bool, slots: seq<Word>, words: seq<Word>,
                       keys: seq<Word>, values: seq<Word>, target: Word)

  type Graph = map<nat, Node>

  /** The words of a node that `xt_gc_process` marks by following the pointer they hold. */
  function MarkedSlots(n: Node): seq<Word> {
    match n.kind
    case StringKind => if n.flat then [] else n.slots
    case PromiseKind => n.slots
    case GeneratorKind => n.slots
    case AsyncKind => n.slots
    case AsyncIteratorKind => n.slots
    case _ => []
  }

  /** The words of a node that `xt_gc_process` looks up one by one in the address table. */
  function ScannedWords(n: Node): seq<Word> {
    match n.kind
    case StringKind => []
    case BigIntKind => []
    case DateKind => []
    case PromiseKind => []
    case AsyncIteratorKind => []
    case WeakMapKind => []
    case WeakSetKind => []
    case WeakRefKind => []
    case _ => n.words
  }

  /** Heap addresses named by boxed words. */
  ghost function Pointers(ws: seq<Word>): set<nat> {
    set w | w in ws && w.Boxed? :: w.pointer
  }

  /** The addresses among `heap` that a conservative scan of `ws` finds. */
  ghost function Resolved(heap: set<nat>, ws: seq<Word>): set<nat> {
    set w | w in ws && w.Address() in heap :: w.Address()
  }

  /** Where the strong references of the node at `a` lead. */
  ghost function Edges(g: Graph, a: nat): set<nat>
    requires a in g
  {
    Pointers(MarkedSlots(g[a])) + Resolved(g.Keys, ScannedWords(g[a]))
  }

  datatype Roots = Roots(slots: seq<Word>, stack: seq<Word>)

  ghost function RootSet(g: Graph, roots: Roots): set<nat> {
    Pointers(roots.slots) + Resolved(g.Keys, roots.stack)
  }

  /** Whether word `w` is a heap value whose object is in `m`. */
  predicate Points(w: Word, m: set<nat>) {
    w.Boxed? && w.pointer in m
  }

  ghost predicate StrongClosed(g: Graph, m: set<nat>) {
    forall a | a in m && a in g :: Edges(g, a) <= m
  }

  /** A marked WeakMap with a marked key has its value marked. */
  ghost predicate EphemeronClosed(g: Graph, m: set<nat>) {
    forall a, i | a in m && a in g && EphemeronEntry(g[a], i) ::
      Points(g[a].keys[i], m) && g[a].values[i].Boxed? ==> g[a].values[i].pointer in m
  }

  predicate EphemeronEntry(n: Node, i: int) {
    n.kind.WeakMapKind? && 0 <= i < |n.keys| && i < |n.values|
  }

  ghost predicate Closed(g: Graph, roots: Roots, m: set<nat>) {
    RootSet(g, roots) <= m && StrongClosed(g, m) && EphemeronClosed(g, m)
  }

  ghost predicate InEveryClosed(g: Graph, roots: Roots, a: nat) {
    forall m | Closed(g, roots, m) :: a in m
  }

  /** The least closed set. */
  ghost function Live(g: Graph, roots: Roots): set<nat> {
    set a | a in g && InEveryClosed(g, roots, a)
  }

  /** No word that the program can still use names an address outside the heap. */
  ghost predicate NodeSound(g: Graph, n: Node) {
    && Pointers(MarkedSlots(n)) <= g.Keys
    && Pointers(ScannedWords(n)) <= g.Keys
    && (n.kind.WeakMapKind? ==> |n.keys| == |n.values| && Pointers(n.keys) <= g.Keys && Pointers(n.values) <= g.Keys)
    && (n.kind.WeakSetKind? ==> Pointers(n.values) <= g.Keys)
    && (n.kind.WeakRefKind? ==> (n.target.Boxed? ==> n.target.pointer in g))
  }

  ghost predicate Sound(g: Graph) {
    forall a | a in g :: NodeSound(g, g[a])
  }

  ghost predicate SoundRoots(g: Graph, roots: Roots) {
    Pointers(roots.slots) <= g.Keys
  }

  // ----- what a collection leaves behind

  /** The entries of `xs` whose companion in `keys` is a heap value in `m`, in order. */
  function Surviving(keys: seq<Word>, xs: seq<Word>, m: set<nat>): (r: seq<Word>)
    requires |keys| == |xs|
  {
    if keys == [] then []
    else
      var i := |keys| - 1;
      var front := Surviving(keys[..i], xs[..i], m);
      if Points(keys[i], m) then front + [xs[i]] else front
  }

  function Pruned(n: Node, m: set<nat>): Node {
    match n.kind
    case WeakMapKind =>
      if |n.keys| == |n.values| then n.(keys := Surviving(n.keys, n.keys, m), values := Surviving(n.keys, n.values, m))
      else n
    case WeakSetKind => n.(values := Surviving(n.values, n.values, m))
    case WeakRefKind => n.(target := if Points(n.target, m) then n.target else UNDEFINED)
    case _ => n
  }

  ghost function Collected(g: Graph, roots: Roots): Graph {
    map a | a in Live(g, roots) :: Pruned(g[a], Live(g, roots))
  }

  // ----- weak collections as the program edits them

  /** What a WeakMap key, a WeakSet member and a WeakRef target may be. */
  predicate IsWeakTarget(w: Word) {
    w.Boxed? && (w.tag.ObjectTag? || w.tag.ArrayTag? || w.tag.FunctionTag?)
  }

  ghost predicate HasEntry(n: Node, k: Word, v: Word) {
    exists i :: EphemeronEntry(n, i) && n.keys[i] == k && n.values[i] == v
  }

  ghost predicate Distinct(ws: seq<Word>) {
    forall i, j | 0 <= i < j < |ws| :: ws[i] != ws[j]
  }

  function Fresh(kind: Kind, size: nat): Node {
    Node(kind, size, false, [], [], [], [], UNDEFINED)
  }
}
