/**
  The collector: gray worklist, address table, marking, the ephemeron fixed point, the weak passes and
  the sweep. Pointers that the C code follows are looked up in `memory`, the address space: every such
  lookup carries the obligation that the block has not been freed.
 */
module GcHeap {
  import opened Collections
  import opened GcGraph
  import opened GcTheorems
  import opened GcHeader
  import H = GcHistory

  const INITIAL_THRESHOLD: nat := 0x100_0000
  const UINT32_SPAN: nat := 0x1_0000_0000

  /** `gray1` extends `gray0` by exactly the addresses that `m1` has and `m0` has not. */
  ghost predicate Grew(gray0: seq<Header>, m0: set<nat>, gray1: seq<Header>, m1: set<nat>) {
    && m0 <= m1
    && |gray0| <= |gray1|
    && gray1[..|gray0|] == gray0
    && Addresses(gray1[|gray0|..]) == m1 - m0
  }

  lemma {:induction false} GrewTwice(gray0: seq<Header>, m0: set<nat>, gray1: seq<Header>, m1: set<nat>,
      gray2: seq<Header>, m2: set<nat>)
    requires Grew(gray0, m0, gray1, m1) && Grew(gray1, m1, gray2, m2)
    ensures Grew(gray0, m0, gray2, m2)
  {
    var first, second := gray1[|gray0|..], gray2[|gray1|..];
    assert gray2[|gray0|..] == first + second;
    assert Addresses(first + second) == Addresses(first) + Addresses(second);
  }

  lemma {:induction false} GrewNone(gray: seq<Header>, m: set<nat>)
    ensures Grew(gray, m, gray, m)
  {
  }

  lemma {:induction false} NothingResolved(heap: set<nat>)
    ensures Resolved(heap, []) == {}
  {
  }

  lemma {:induction false} ResolvedStep(heap: set<nat>, ws: seq<Word>, i: nat)
    requires i < |ws|
    ensures Resolved(heap, ws[..i + 1]) ==
      Resolved(heap, ws[..i]) + if ws[i].Address() in heap then {ws[i].Address()} else {}
  {
    assert ws[..i + 1] == ws[..i] + [ws[i]];
  }

  /** The tri-colour invariant: every marked object lies in every closed set, and what is marked and not
      gray has had its strong references marked. */
  ghost predicate TriColour(g: Graph, roots: Roots, m: set<nat>, gray: set<nat>) {
    && gray <= m
    && RootSet(g, roots) <= m <= g.Keys
    && (forall a | a in m :: InEveryClosed(g, roots, a))
    && (forall a | a in m && a !in gray :: Edges(g, a) <= m)
  }

  lemma {:induction false} LookupMisses(t: seq<Header?>, h: Header, pointer: nat, d: nat)
    requires Findable(t, h) && d < |t|
    requires t[Probe(Hash(pointer) % |t|, d, |t|)] == null
    requires forall k: nat | k < d ::
               t[Probe(Hash(pointer) % |t|, k, |t|)] != null && t[Probe(Hash(pointer) % |t|, k, |t|)].address != pointer
    ensures h.address != pointer
  {
    var at: nat :| at < |t| && FoundAt(t, h, at);
  }

  lemma {:induction false} NoAddresses()
    ensures Addresses([]) == {}
  {
  }

  lemma {:induction false} GraySplit(gray0: seq<Header>, gray1: seq<Header>, header: Header, m0: set<nat>, m1: set<nat>)
    requires gray0 != [] && gray0[|gray0| - 1] == header
    requires Grew(gray0[..|gray0| - 1], m0, gray1, m1)
    ensures Addresses(gray0) - {header.address} <= Addresses(gray1) <= Addresses(gray0) + m1
    ensures m1 - m0 <= Addresses(gray1)
    ensures m1 == m0 ==> |gray1| < |gray0|
  {
    var rest := gray0[..|gray0| - 1];
    assert gray0 == rest + [header] && gray1 == rest + gray1[|rest|..];
    assert Addresses(gray1) == Addresses(rest) + Addresses(gray1[|rest|..]);
    if gray1[|rest|..] != [] {
      assert gray1[|rest|..][0].address in Addresses(gray1[|rest|..]);
    }
  }

  /** How many objects are still unmarked. */
  ghost function Left(g: Graph, m: set<nat>): nat {
    |g.Keys - m|
  }

  lemma {:induction false} LeftShrinks(g: Graph, m0: set<nat>, m1: set<nat>)
    requires m0 <= m1
    ensures Left(g, m1) <= Left(g, m0)
  {
    SubsetSize(g.Keys - m1, g.Keys - m0);
  }

  /** Processing the gray object on top of the stack keeps the tri-colour invariant and makes progress. */
  lemma {:induction false} DrainStep(g: Graph, roots: Roots, header: Header, gray0: seq<Header>, m0: set<nat>,
      gray1: seq<Header>, m1: set<nat>)
    requires gray0 != [] && gray0[|gray0| - 1] == header && header.address in m0
    requires TriColour(g, roots, m0, Addresses(gray0)) && Sound(g)
    requires m1 == m0 + Edges(g, header.address)
    requires Grew(gray0[..|gray0| - 1], m0, gray1, m1)
    ensures TriColour(g, roots, m1, Addresses(gray1))
    ensures Left(g, m1) < Left(g, m0) || (m1 == m0 && |gray1| < |gray0|)
  {
    var a := header.address;
    assert NodeSound(g, g[a]);
    EdgesInEveryClosed(g, roots, a);
    GraySplit(gray0, gray1, header, m0, m1);
    if m1 != m0 {
      Progress(g.Keys, m0, m1);
    }
  }

  /** Marking the roots establishes the tri-colour invariant. */
  lemma {:induction false} RootsMarked(g: Graph, roots: Roots, gray0: seq<Header>, m0: set<nat>, gray1: seq<Header>,
      m1: set<nat>)
    requires gray0 == [] && m0 == {} && Grew(gray0, m0, gray1, m1) && SoundRoots(g, roots)
    requires m1 == m0 + Pointers(roots.slots) + Resolved(g.Keys, roots.stack)
    ensures TriColour(g, roots, m1, Addresses(gray1))
  {
    hide Edges;
    assert gray1[0..] == gray1;
    assert m1 == RootSet(g, roots);
  }

  lemma {:induction false} EdgesInEveryClosed(g: Graph, roots: Roots, a: nat)
    requires a in g && InEveryClosed(g, roots, a)
    ensures forall b | b in Edges(g, a) :: InEveryClosed(g, roots, b)
  {
    forall b, m | b in Edges(g, a) && Closed(g, roots, m) ensures b in m { assert a in m; }
  }

  lemma {:induction false} Progress(all: set<nat>, m0: set<nat>, m1: set<nat>)
    requires m0 < m1 <= all
    ensures |all - m1| < |all - m0|
  {
    var b :| b in m1 && b !in m0;
    assert all - m1 <= (all - m0) - {b};
    SubsetSize(all - m1, (all - m0) - {b});
  }

  /** Marking one more object that every closed set holds keeps the tri-colour invariant. */
  lemma {:induction false} PushStep(g: Graph, roots: Roots, gray0: seq<Header>, m0: set<nat>, gray1: seq<Header>,
      m1: set<nat>)
    requires TriColour(g, roots, m0, Addresses(gray0)) && Grew(gray0, m0, gray1, m1)
    requires m1 <= g.Keys && forall b | b in m1 - m0 :: InEveryClosed(g, roots, b)
    ensures TriColour(g, roots, m1, Addresses(gray1))
    ensures m1 == m0 ==> gray1 == gray0
    ensures m1 != m0 ==> Left(g, m1) < Left(g, m0)
  {
    var added := gray1[|gray0|..];
    assert gray1 == gray0 + added;
    assert Addresses(gray1) == Addresses(gray0) + Addresses(added);
    if m1 != m0 {
      Progress(g.Keys, m0, m1);
    }
    if added != [] {
      assert added[0].address in Addresses(added);
    }
  }

  /** Entry `i` of the WeakMap `n` obeys the ephemeron rule for the marked set `m`. */
  ghost predicate EntryDone(n: Node, i: int, m: set<nat>) {
    EphemeronEntry(n, i) && Points(n.keys[i], m) && n.values[i].Boxed? ==> n.values[i].pointer in m
  }

  ghost predicate EntriesDone(a: nat, g: Graph, m: set<nat>) {
    a in m && a in g ==> forall i | EphemeronEntry(g[a], i) :: EntryDone(g[a], i, m)
  }

  lemma {:induction false} EntryInEveryClosed(g: Graph, roots: Roots, a: nat, i: nat, m: set<nat>)
    requires a in g && EphemeronEntry(g[a], i) && a in m && Points(g[a].keys[i], m) && g[a].values[i].Boxed?
    requires forall b | b in m :: InEveryClosed(g, roots, b)
    ensures InEveryClosed(g, roots, g[a].values[i].pointer)
  {
    forall c | Closed(g, roots, c) ensures g[a].values[i].pointer in c {
      assert a in c && Points(g[a].keys[i], c);
    }
  }

  /** A worklist that is empty and an ephemeron pass that changes nothing leave exactly the live set marked. */
  lemma {:induction false} FixedPoint(g: Graph, roots: Roots, m: set<nat>)
    requires Sound(g) && SoundRoots(g, roots)
    requires TriColour(g, roots, m, {}) && EphemeronClosed(g, m)
    ensures m == Live(g, roots)
  {
    LiveIsUnique(g, roots, m);
  }

  lemma {:induction false} WithoutOne(hs: seq<Header>, k: nat)
    requires k < |hs| && NoDuplicates(hs)
    ensures var rest := hs[..k] + hs[k + 1..];
      && (forall h :: h in rest <==> h in hs && h != hs[k])
      && NoDuplicates(rest)
  {
    var rest := hs[..k] + hs[k + 1..];
    assert hs == hs[..k] + [hs[k]] + hs[k + 1..];
    assert forall i | 0 <= i < |rest| :: rest[i] == hs[if i < k then i else i + 1];
  }

  lemma {:induction false} CollectedIs(g: Graph, roots: Roots)
    ensures Collected(g, roots) == map a | a in Live(g, roots) :: Pruned(g[a], Live(g, roots))
  {
  }

  /** Every block of `hs` that `m` keeps holds what `g` says, pruned. */
  ghost predicate PrunedIn(hs: set<Header>, g: Graph, m: set<nat>)
    reads hs`flat, hs`slots, hs`words, hs`keys, hs`values, hs`target
  {
    forall h | h in hs && h.address in m :: h.address in g && h.Contents() == Pruned(g[h.address], m)
  }

  lemma {:induction false} PrunedIntro(hs: set<Header>, g: Graph, m: set<nat>)
    requires forall h | h in hs && h.address in m :: h.address in g && h.Contents() == Pruned(g[h.address], m)
    ensures PrunedIn(hs, g, m)
  {
  }

  /** What compaction makes of a block: the entries of a marked WeakMap or WeakSet are pruned. */
  function Compacted(kind: Kind, marked: bool, n: Node, m: set<nat>): Node {
    if marked && !kind.WeakRefKind? then Pruned(n, m) else n
  }

  lemma {:induction false} CompactedIs(m: set<nat>)
    ensures forall kind, marked, n ::
              Compacted(kind, marked, n, m) == if marked && !kind.WeakRefKind? then Pruned(n, m) else n
  {
  }

  lemma {:induction false} SurvivingNone(m: set<nat>)
    ensures Surviving([], [], m) == []
  {
  }

  lemma {:induction false} SurvivingStep(keys: seq<Word>, xs: seq<Word>, m: set<nat>, i: nat)
    requires i < |keys| == |xs|
    ensures Surviving(keys[..i + 1], xs[..i + 1], m) ==
      Surviving(keys[..i], xs[..i], m) + if Points(keys[i], m) then [xs[i]] else []
  {
    assert keys[..i + 1][..i] == keys[..i] && xs[..i + 1][..i] == xs[..i];
  }

  /** The trigger that follows a live set of `bytes` bytes. */
  function NextThreshold(bytes: nat): nat {
    if bytes * 2 < H.MIN_THRESHOLD then H.MIN_THRESHOLD else bytes * 2
  }

  /** The bytes of the requests that the 32-bit size field of a header does not show. */
  function Truncated(requested: seq<nat>): nat {
    if requested == [] then 0
    else
      var size := requested[|requested| - 1];
      Truncated(requested[..|requested| - 1]) + (size - size % UINT32_SPAN)
  }

  lemma {:induction false} NothingTruncated(requested: seq<nat>)
    ensures Truncated(requested) == 0 <==> forall i | 0 <= i < |requested| :: requested[i] < UINT32_SPAN
  {
    if requested != [] {
      var i := |requested| - 1;
      NothingTruncated(requested[..i]);
      assert requested[i] - requested[i] % UINT32_SPAN == 0 <==> requested[i] < UINT32_SPAN;
    }
  }

  class Heap {
    var head: Header?
    var bytes: nat
    var allocations: nat
    var threshold: nat
    var pinned: bool
    var armed: bool
    var running: bool
    var gray: seq<Header>
    var table: array<Header?>
    ghost var requested: seq<nat>  // every size ever passed to Alloc
    ghost var base: nat            // the bytes at the moment of arming
    ghost var history: seq<H.Event>  // what happened since
    ghost var list: seq<Header>
    ghost var nodes: set<Header>
    var memory: map<nat, Header>

    /** `setting` is the threshold that the environment asks for, or 0. */
    constructor (setting: int)
      ensures Valid() && list == [] && requested == [] && bytes == 0 && !armed
      ensures pinned == (setting > 0) && threshold == if setting > 0 then setting else 0x100_0000
      ensures fresh(table)
    {
      head, bytes, allocations, threshold := null, 0, 0, INITIAL_THRESHOLD;
      pinned, armed, running, gray := false, false, false, [];
      list, nodes, memory, requested := [], {}, map[], [];
      if setting > 0 { threshold, pinned := setting, true; }
      table := new Header?[0];
    }

    /** The intrusive list, the address space and the allocation counter describe the same blocks. */
    ghost predicate Shape()
      reads this`head, this`allocations, this`list, this`nodes, this`memory, nodes`gcNext
    {
      && (forall h | h in list :: h in nodes)
      && (forall h | h in nodes :: h in list)
      && (forall h | h in nodes :: h.address in memory && memory[h.address] == h)
      && (forall a | a in memory :: memory[a] in nodes && memory[a].address == a)
      && NoDuplicates(list)
      && Linked(head, list)
      && allocations == |list|
    }

    /** Between two operations. */
    ghost predicate Idle()
      reads this`head, this`bytes, this`allocations, this`running, this`gray, this`requested
      reads this`list, this`nodes, this`memory, nodes`gcNext, nodes`marked
    {
      Shape() && Marked() == {} && gray == [] && !running && bytes == TotalSize(list) + Truncated(requested)
    }

    /** While the threshold follows the heap, the history accounts for both. */
    ghost predicate Recorded()
      reads this`armed, this`pinned, this`base, this`history, this`bytes, this`threshold
    {
      armed && !pinned ==> H.Recorded(base, history, bytes, threshold)
    }

    ghost predicate Valid()
      reads this, nodes
    {
      Idle() && Recorded()
    }

    /** The heap as a value. */
    ghost function Snapshot(): Graph
      reads this`memory
      reads memory.Values`flat, memory.Values`slots, memory.Values`words
      reads memory.Values`keys, memory.Values`values, memory.Values`target
    {
      map a | a in memory :: memory[a].Contents()
    }

    /** `g` is the heap as a value. */
    ghost predicate Mirrors(g: Graph)
      reads this`memory, this`nodes
      reads nodes`flat, nodes`slots, nodes`words, nodes`keys, nodes`values, nodes`target
    {
      g.Keys == memory.Keys && forall h | h in nodes :: h.address in g && g[h.address] == h.Contents()
    }

    ghost function Marked(): set<nat>
      reads this`nodes, nodes`marked
    {
      set h | h in nodes && h.marked :: h.address
    }

    ghost predicate GrayOk()
      reads this`gray, this`nodes
    {
      forall h | h in gray :: h in nodes
    }

    ghost predicate TableReady()
      reads this`table, table, this`nodes
    {
      && table.Length > 0
      && (forall s | 0 <= s < table.Length && table[s] != null :: table[s] in nodes)
      && (forall h | h in nodes :: Findable(table[..], h))
      && (exists s :: 0 <= s < table.Length && table[s] == null)
    }

    method TableLookup(pointer: nat) returns (found: Header?)
      requires Shape() && TableReady()
      ensures found == if pointer in memory then memory[pointer] else null
    {
      if table.Length == 0 { return null; }
      var slot := Hash(pointer) % table.Length;
      ghost var start := slot;
      ghost var d := 0;
      ghost var e: nat :| e < table.Length && table[e] == null;
      ghost var last := ProbeReaches(start, e, table.Length);
      ghost var t := table[..];
      while true
        invariant d <= last && slot == Probe(start, d, |t|)
        invariant forall k: nat | k < d :: t[Probe(start, k, |t|)] != null && t[Probe(start, k, |t|)].address != pointer
        decreases last - d
      {
        var header := table[slot];
        if header == null {
          assert pointer !in memory by {
            if pointer in memory {
              LookupMisses(t, memory[pointer], pointer, d);
            }
          }
          return null;
        }
        if header.address == pointer { return header; }
        ProbeStep(start, d, table.Length);
        slot := (slot + 1) % table.Length;
        d := d + 1;
      }
    }

    method TableBuild()
      requires Shape()
      modifies this`table
      ensures fresh(table) && TableReady()
      ensures |Used(table[..])| == |list| && 2 * (|list| + 1) <= table.Length
    {
      var capacity := 16;
      while capacity < (allocations + 1) * 2
        decreases (allocations + 1) * 2 - capacity
        invariant capacity >= 16
      {
        capacity := capacity * 2;
      }
      table := new Header?[capacity](_ => null);
      var header := head;
      ghost var i := 0;
      assert Used(table[..]) == {};
      while header != null
        invariant fresh(table) && table.Length == capacity
        invariant 0 <= i <= |list| && header == if i < |list| then list[i] else null
        invariant forall s | 0 <= s < capacity && table[s] != null :: table[s] in nodes
        invariant |Used(table[..])| == i
        invariant forall j | 0 <= j < i :: Findable(table[..], list[j])
        decreases |list| - i
      {
        Insert(header);
        header := header.gcNext;
        i := i + 1;
      }
      var e := EmptySlot(table[..]);
    }

    method Insert(header: Header)
      requires |Used(table[..])| < table.Length
      modifies table
      ensures Findable(table[..], header)
      ensures |Used(table[..])| == |Used(old(table[..]))| + 1
      ensures forall x | Findable(old(table[..]), x) :: Findable(table[..], x)
      ensures forall s | 0 <= s < table.Length :: table[s] == old(table[s]) || table[s] == header
    {
      ghost var t := table[..];
      var slot := Hash(header.address) % table.Length;
      ghost var start, d := slot, 0;
      ghost var e := EmptySlot(t);
      ghost var last := ProbeReaches(start, e, |t|);
      while table[slot] != null
        invariant table[..] == t
        invariant d <= last && slot == Probe(start, d, |t|)
        invariant forall k: nat | k < d :: t[Probe(start, k, |t|)] != null
        decreases last - d
      {
        ProbeStep(start, d, |t|);
        slot := (slot + 1) % table.Length;
        d := d + 1;
      }
      assert t[slot] == null;
      FillSlot(t, slot, d, header);
      table[slot] := header;
      assert table[..] == t[slot := header];
    }

    // ----- marking

    method GrayPush(header: Header)
      requires Shape() && GrayOk() && header in nodes
      modifies this`gray, header`marked
      ensures Marked() == old(Marked()) + {header.address}
      ensures GrayOk() && Grew(old(gray), old(Marked()), gray, Marked())
    {
      if header.marked {
        assert header.address in Marked();
        return;
      }
      header.marked := true;
      gray := gray + [header];
    }

    method MarkValue(value: Word)
      requires Shape() && GrayOk() && (value.Boxed? ==> value.pointer in memory)
      modifies this`gray, nodes`marked
      ensures Marked() == old(Marked()) + Pointers([value])
      ensures GrayOk() && Grew(old(gray), old(Marked()), gray, Marked())
    {
      if value.Boxed? {
        GrayPush(memory[value.pointer]);
      }
    }

    method MarkValues(values: seq<Word>)
      requires Shape() && GrayOk() && Pointers(values) <= memory.Keys
      modifies this`gray, nodes`marked
      ensures Marked() == old(Marked()) + Pointers(values)
      ensures GrayOk() && Grew(old(gray), old(Marked()), gray, Marked())
    {
      for i := 0 to |values|
        invariant Marked() == old(Marked()) + Pointers(values[..i])
        invariant GrayOk() && Grew(old(gray), old(Marked()), gray, Marked())
      {
        ghost var gray1, m1 := gray, Marked();
        assert values[..i + 1] == values[..i] + [values[i]];
        MarkValue(values[i]);
        GrewTwice(old(gray), old(Marked()), gray1, m1, gray, Marked());
      }
      assert values[..|values|] == values;
    }

    method ScanWord(word: Word)
      requires Shape() && GrayOk() && TableReady()
      modifies this`gray, nodes`marked
      ensures Marked() == old(Marked()) + if word.Address() in memory then {word.Address()} else {}
      ensures GrayOk() && Grew(old(gray), old(Marked()), gray, Marked())
    {
      var header := TableLookup(word.Address());
      if header != null { GrayPush(header); }
    }

    method ScanRegion(words: seq<Word>)
      requires Shape() && GrayOk() && TableReady()
      modifies this`gray, nodes`marked
      ensures Marked() == old(Marked()) + Resolved(memory.Keys, words)
      ensures GrayOk() && Grew(old(gray), old(Marked()), gray, Marked())
    {
      hide *;
      NothingResolved(memory.Keys);
      GrewNone(gray, Marked());
      for i := 0 to |words|
        invariant Marked() == old(Marked()) + Resolved(memory.Keys, words[..i])
        invariant GrayOk() && Grew(old(gray), old(Marked()), gray, Marked())
      {
        ghost var gray1, m1 := gray, Marked();
        ResolvedStep(memory.Keys, words, i);
        ScanWord(words[i]);
        GrewTwice(old(gray), old(Marked()), gray1, m1, gray, Marked());
      }
      assert words[..|words|] == words;
    }

    method IsMarked(value: Word) returns (marked: bool)
      requires Shape() && TableReady()
      ensures marked == Points(value, Marked())
    {
      if !value.Boxed? { return false; }
      var header := TableLookup(value.pointer);
      marked := header != null && header.marked;
    }

    method MarkThenScan(slots: seq<Word>, words: seq<Word>)
      requires Shape() && GrayOk() && TableReady() && Pointers(slots) <= memory.Keys
      modifies this`gray, nodes`marked
      ensures Marked() == old(Marked()) + Pointers(slots) + Resolved(memory.Keys, words)
      ensures GrayOk() && Grew(old(gray), old(Marked()), gray, Marked())
    {
      MarkValues(slots);
      ghost var gray1, m1 := gray, Marked();
      ScanRegion(words);
      GrewTwice(old(gray), old(Marked()), gray1, m1, gray, Marked());
    }

    /** Marks everything the strong references of `header` lead to: `MarkedSlots` and `ScannedWords` say,
        kind by kind, which fields are followed and which are looked up. */
    method Process(header: Header)
      requires Shape() && GrayOk() && TableReady()
      requires Pointers(MarkedSlots(header.Contents())) <= memory.Keys
      modifies this`gray, nodes`marked
      ensures var n := header.Contents();
        Marked() == old(Marked()) + (Pointers(MarkedSlots(n)) + Resolved(memory.Keys, ScannedWords(n)))
      ensures GrayOk() && Grew(old(gray), old(Marked()), gray, Marked())
    {
      var contents := header.Contents();
      MarkThenScan(MarkedSlots(contents), ScannedWords(contents));
    }

    method MarkRoots(ghost g: Graph, roots: Roots)
      requires Shape() && TableReady() && gray == [] && Marked() == {}
      requires Mirrors(g) && Sound(g) && SoundRoots(g, roots)
      modifies this`gray, nodes`marked
      ensures Mirrors(g) && GrayOk() && TriColour(g, roots, Marked(), Addresses(gray))
    {
      hide *;
      NoAddresses();
      RootsKnown(g, roots);
      ghost var gray0, m0 := gray, Marked();
      MarkThenScan(roots.slots, roots.stack);
      RootsMarked(g, roots, gray0, m0, gray, Marked());
    }

    lemma {:induction false} RootsKnown(g: Graph, roots: Roots)
      requires Mirrors(g) && SoundRoots(g, roots) && gray == []
      ensures GrayOk() && memory.Keys == g.Keys && Pointers(roots.slots) <= memory.Keys
    {
    }

    /** Empties the gray worklist. */
    method Drain(ghost g: Graph, ghost roots: Roots)
      requires Shape() && TableReady() && GrayOk()
      requires Mirrors(g) && Sound(g) && TriColour(g, roots, Marked(), Addresses(gray))
      modifies this`gray, nodes`marked
      ensures gray == [] && old(Marked()) <= Marked()
      ensures Mirrors(g) && TriColour(g, roots, Marked(), {})
    {
      hide *;
      while |gray| > 0
        invariant GrayOk() && old(Marked()) <= Marked() && Mirrors(g)
        invariant TriColour(g, roots, Marked(), Addresses(gray))
        decreases Left(g, Marked()), |gray|
      {
        DrainOne(g, roots);
      }
      assert Addresses([]) == {} by { NoAddresses(); }
    }

    /** Pops one gray object and traces it. */
    method DrainOne(ghost g: Graph, ghost roots: Roots)
      requires Shape() && TableReady() && GrayOk() && gray != []
      requires Mirrors(g) && Sound(g) && TriColour(g, roots, Marked(), Addresses(gray))
      modifies this`gray, nodes`marked
      ensures Mirrors(g) && GrayOk() && TriColour(g, roots, Marked(), Addresses(gray)) && old(Marked()) <= Marked()
      ensures Left(g, Marked()) < Left(g, old(Marked())) || (Marked() == old(Marked()) && |gray| < old(|gray|))
    {
      hide *;
      GrayTop(g, roots);
      var header := gray[|gray| - 1];
      ghost var gray0, m0 := gray, Marked();
      gray := gray[..|gray| - 1];
      Process(header);
      DrainStep(g, roots, header, gray0, m0, gray, Marked());
    }

    lemma {:induction false} GrayTop(g: Graph, roots: Roots)
      requires Shape() && GrayOk() && gray != []
      requires Mirrors(g) && Sound(g) && TriColour(g, roots, Marked(), Addresses(gray))
      ensures var header, rest := gray[|gray| - 1], gray[..|gray| - 1];
        && header.address in Marked() && header.address in g
        && (forall h | h in rest :: h in nodes)
        && Pointers(MarkedSlots(header.Contents())) <= memory.Keys
        && var n := header.Contents();
           Edges(g, header.address) == Pointers(MarkedSlots(n)) + Resolved(memory.Keys, ScannedWords(n))
    {
      var header := gray[|gray| - 1];
      assert header.address in Addresses(gray);
      assert NodeSound(g, g[header.address]);
    }

    // ----- the ephemeron fixed point

    /** What one WeakMap entry is known to satisfy while marking is under way. */
    lemma {:induction false} EntryFacts(header: Header, i: nat, g: Graph, roots: Roots)
      requires Shape() && header in nodes && header.address in Marked()
      requires header.kind.WeakMapKind? && i < |header.keys| == |header.values|
      requires Mirrors(g) && Sound(g) && TriColour(g, roots, Marked(), Addresses(gray))
      ensures var key, value, m := header.keys[i], header.values[i], Marked();
        && m <= g.Keys
        && (value.Boxed? ==> value.pointer in memory && value.pointer in g && Pointers([value]) == {value.pointer})
        && (value.Boxed? && !Points(value, m) ==> value.pointer !in m)
        && (Points(key, m) && value.Boxed? ==> InEveryClosed(g, roots, value.pointer))
        && (!Points(key, m) || !value.Boxed? || Points(value, m) ==> EntryDone(header.Contents(), i, m))
    {
      hide InEveryClosed, RootSet, Closed;
      var a := header.address;
      assert a in Marked() && g[a] == header.Contents();
      assert NodeSound(g, g[a]) && header.values[i] in g[a].values;
      if Points(header.keys[i], Marked()) && header.values[i].Boxed? {
        EntryInEveryClosed(g, roots, a, i, Marked());
      }
    }

    method EphemeronEntryPass(header: Header, i: nat, ghost g: Graph, ghost roots: Roots) returns (changed: bool)
      requires Shape() && TableReady() && GrayOk() && header in nodes && header.address in Marked()
      requires header.kind.WeakMapKind? && i < |header.keys| == |header.values|
      requires Mirrors(g) && Sound(g) && TriColour(g, roots, Marked(), Addresses(gray))
      modifies this`gray, nodes`marked
      ensures Mirrors(g) && GrayOk() && TriColour(g, roots, Marked(), Addresses(gray))
      ensures old(Marked()) <= Marked()
      ensures !changed ==> Marked() == old(Marked()) && gray == old(gray) && EntryDone(header.Contents(), i, Marked())
      ensures changed ==> Left(g, Marked()) < Left(g, old(Marked()))
    {
      hide *;
      EntryFacts(header, i, g, roots);
      var value := header.values[i];
      ghost var gray0, m0 := gray, Marked();
      var keyMarked := IsMarked(header.keys[i]);
      if !keyMarked { return false; }
      if !value.Boxed? { return false; }
      var valueMarked := IsMarked(value);
      if valueMarked { return false; }
      MarkValue(value);
      PushStep(g, roots, gray0, m0, gray, Marked());
      changed := true;
    }

    method WeakMapPass(header: Header, ghost g: Graph, ghost roots: Roots) returns (changed: bool)
      requires Shape() && TableReady() && GrayOk() && header in nodes && header.address in Marked()
      requires header.kind.WeakMapKind? && |header.keys| == |header.values|
      requires Mirrors(g) && Sound(g) && TriColour(g, roots, Marked(), Addresses(gray))
      modifies this`gray, nodes`marked
      ensures Mirrors(g) && GrayOk() && TriColour(g, roots, Marked(), Addresses(gray))
      ensures old(Marked()) <= Marked()
      ensures !changed ==> Marked() == old(Marked()) && gray == old(gray)
      ensures !changed ==> forall i | 0 <= i < |header.keys| :: EntryDone(header.Contents(), i, Marked())
      ensures changed ==> Left(g, Marked()) < Left(g, old(Marked()))
    {
      hide *;
      changed := false;
      for i := 0 to |header.keys|
        invariant Mirrors(g) && GrayOk() && TriColour(g, roots, Marked(), Addresses(gray))
        invariant old(Marked()) <= Marked()
        invariant !changed ==> Marked() == old(Marked()) && gray == old(gray)
        invariant !changed ==> forall j | 0 <= j < i :: EntryDone(header.Contents(), j, Marked())
        invariant Left(g, Marked()) <= Left(g, old(Marked()))
        invariant changed ==> Left(g, Marked()) < Left(g, old(Marked()))
      {
        var entryChanged := EphemeronEntryPass(header, i, g, roots);
        changed := changed || entryChanged;
      }
    }

    method HeaderPass(header: Header, ghost g: Graph, ghost roots: Roots) returns (changed: bool)
      requires Shape() && TableReady() && GrayOk() && header in nodes
      requires Mirrors(g) && Sound(g) && TriColour(g, roots, Marked(), Addresses(gray))
      modifies this`gray, nodes`marked
      ensures Mirrors(g) && GrayOk() && TriColour(g, roots, Marked(), Addresses(gray))
      ensures old(Marked()) <= Marked()
      ensures !changed ==> Marked() == old(Marked()) && gray == old(gray) && EntriesDone(header.address, g, Marked())
      ensures changed ==> Left(g, Marked()) < Left(g, old(Marked()))
    {
      hide *;
      MapFacts(header, g);
      if !header.marked { return false; }
      if !header.kind.WeakMapKind? { return false; }
      changed := WeakMapPass(header, g, roots);
      MapFacts(header, g);
    }

    lemma {:induction false} MapFacts(header: Header, g: Graph)
      requires Shape() && header in nodes && Mirrors(g) && Sound(g)
      ensures header.marked <==> header.address in Marked()
      ensures header.kind.WeakMapKind? ==> |header.keys| == |header.values|
      ensures header.address !in Marked() || !header.kind.WeakMapKind? ==> EntriesDone(header.address, g, Marked())
      ensures (forall i | 0 <= i < |header.keys| :: EntryDone(header.Contents(), i, Marked())) ==>
        EntriesDone(header.address, g, Marked())
    {
      assert NodeSound(g, g[header.address]) && g[header.address] == header.Contents();
    }

    // ----- walking the intrusive list

    lemma {:induction false} ListHead()
      requires Shape()
      ensures NoDuplicates(list)
      ensures head == if list == [] then null else list[0]
    {
    }

    lemma {:induction false} ListStep(i: nat)
      requires Shape() && i < |list|
      ensures list[i] in nodes && list[i].gcNext == if i + 1 < |list| then list[i + 1] else null
    {
    }

    lemma {:induction false} ListFacts()
      requires Shape()
      ensures head == if list == [] then null else list[0]
      ensures forall h | h in nodes :: h in list
      ensures forall h | h in list :: h in nodes
      ensures forall i, j | 0 <= i < j < |list| :: list[i] != list[j]
      ensures forall i {:trigger list[i].gcNext} | 0 <= i < |list| ::
                list[i].gcNext == if i + 1 < |list| then list[i + 1] else null
    {
    }

    lemma {:induction false} EveryMapDone(g: Graph, m: set<nat>)
      requires Shape() && Mirrors(g)
      requires forall j | 0 <= j < |list| :: EntriesDone(list[j].address, g, m)
      ensures EphemeronClosed(g, m)
    {
      forall a, i | a in m && a in g && EphemeronEntry(g[a], i) ensures EntryDone(g[a], i, m) {
        assert memory[a] in list;
      }
    }

    /** One pass of the ephemeron rule over every marked WeakMap of the heap. */
    method ProcessOnce(ghost g: Graph, ghost roots: Roots) returns (changed: bool)
      requires Shape() && TableReady() && GrayOk()
      requires Mirrors(g) && Sound(g) && TriColour(g, roots, Marked(), Addresses(gray))
      modifies this`gray, nodes`marked
      ensures Mirrors(g) && GrayOk() && TriColour(g, roots, Marked(), Addresses(gray))
      ensures old(Marked()) <= Marked()
      ensures !changed ==> Marked() == old(Marked()) && gray == old(gray) && EphemeronClosed(g, Marked())
      ensures changed ==> Left(g, Marked()) < Left(g, old(Marked()))
    {
      hide *;
      changed := false;
      var header := head;
      ghost var i := 0;
      ListHead();
      while header != null
        invariant 0 <= i <= |list| && header == if i < |list| then list[i] else null
        invariant Mirrors(g) && GrayOk() && TriColour(g, roots, Marked(), Addresses(gray))
        invariant old(Marked()) <= Marked()
        invariant Left(g, Marked()) <= Left(g, old(Marked()))
        invariant changed ==> Left(g, Marked()) < Left(g, old(Marked()))
        invariant !changed ==> Marked() == old(Marked()) && gray == old(gray)
        invariant !changed ==> forall j | 0 <= j < i :: EntriesDone(list[j].address, g, Marked())
        decreases |list| - i
      {
        ListStep(i);
        var mapChanged := HeaderPass(header, g, roots);
        changed := changed || mapChanged;
        header := header.gcNext;
        i := i + 1;
      }
      if !changed { EveryMapDone(g, Marked()); }
    }

    /** Marks exactly the live objects. */
    method Mark(ghost g: Graph, roots: Roots)
      requires Shape() && TableReady() && gray == [] && Marked() == {}
      requires Mirrors(g) && Sound(g) && SoundRoots(g, roots)
      modifies this`gray, nodes`marked
      ensures gray == [] && Mirrors(g) && Marked() == Live(g, roots)
    {
      hide *;
      NoAddresses();
      MarkRoots(g, roots);
      while true
        invariant Mirrors(g) && GrayOk() && TriColour(g, roots, Marked(), Addresses(gray))
        decreases Left(g, Marked())
      {
        ghost var before := Marked();
        Drain(g, roots);
        LeftShrinks(g, before, Marked());
        NothingGray();
        var changed := ProcessOnce(g, roots);
        if !changed { break; }
      }
      FixedPoint(g, roots, Marked());
    }

    lemma {:induction false} NothingGray()
      requires gray == []
      ensures GrayOk()
    {
    }

    // ----- the weak passes

    method ClearHeader(header: Header)
      requires Shape() && TableReady() && header in nodes
      modifies header`target
      ensures header.Contents() ==
        if header.marked && header.kind.WeakRefKind? then Pruned(old(header.Contents()), Marked())
        else old(header.Contents())
    {
      if header.marked && header.kind.WeakRefKind? {
        var targetMarked := IsMarked(header.target);
        if !targetMarked { header.target := UNDEFINED; }
      }
    }

    method WeakClear()
      requires Shape() && TableReady()
      modifies nodes`target
      ensures forall h | h in nodes ::
                h.Contents() ==
                  if h.marked && h.kind.WeakRefKind? then Pruned(old(h.Contents()), Marked()) else old(h.Contents())
    {
      hide *;
      ListFacts();
      var header := head;
      ghost var i := 0;
      while header != null
        invariant 0 <= i <= |list| && header == if i < |list| then list[i] else null
        invariant forall j | 0 <= j < i ::
                    list[j].Contents() ==
                      if list[j].marked && list[j].kind.WeakRefKind? then Pruned(old(list[j].Contents()), Marked())
                      else old(list[j].Contents())
        invariant forall j | i <= j < |list| :: list[j].Contents() == old(list[j].Contents())
        decreases |list| - i
      {
        ClearHeader(header);
        header := header.gcNext;
        i := i + 1;
      }
    }

    method CompactMap(header: Header)
      requires Shape() && TableReady() && header in nodes && |header.keys| == |header.values|
      modifies header`keys, header`values
      ensures header.keys == Surviving(old(header.keys), old(header.keys), Marked())
      ensures header.values == Surviving(old(header.keys), old(header.values), Marked())
    {
      hide Heap.Shape, Heap.TableReady, Surviving;
      ghost var keys0, values0, m := header.keys, header.values, Marked();
      var write := 0;
      SurvivingNone(m);
      for read := 0 to |header.keys|
        invariant |header.keys| == |header.values| == |keys0| && Marked() == m
        invariant write <= read
        invariant header.keys[read..] == keys0[read..] && header.values[read..] == values0[read..]
        invariant header.keys[..write] == Surviving(keys0[..read], keys0[..read], m)
        invariant header.values[..write] == Surviving(keys0[..read], values0[..read], m)
      {
        var key, value := header.keys[read], header.values[read];
        assert key == keys0[read] && value == values0[read];
        SurvivingStep(keys0, keys0, m, read);
        SurvivingStep(keys0, values0, m, read);
        var keyMarked := IsMarked(key);
        if keyMarked {
          header.keys := header.keys[write := key];
          header.values := header.values[write := value];
          write := write + 1;
        }
      }
      header.keys := header.keys[..write];
      header.values := header.values[..write];
      assert keys0[..|keys0|] == keys0 && values0[..|keys0|] == values0;
    }

    method CompactSet(header: Header)
      requires Shape() && TableReady() && header in nodes
      modifies header`values
      ensures header.values == Surviving(old(header.values), old(header.values), Marked())
    {
      hide Heap.Shape, Heap.TableReady, Surviving;
      ghost var values0, m := header.values, Marked();
      var write := 0;
      SurvivingNone(m);
      for read := 0 to |header.values|
        invariant |header.values| == |values0| && Marked() == m
        invariant write <= read
        invariant header.values[read..] == values0[read..]
        invariant header.values[..write] == Surviving(values0[..read], values0[..read], m)
      {
        var value := header.values[read];
        assert value == values0[read];
        SurvivingStep(values0, values0, m, read);
        var valueMarked := IsMarked(value);
        if valueMarked {
          header.values := header.values[write := value];
          write := write + 1;
        }
      }
      header.values := header.values[..write];
      assert values0[..|values0|] == values0;
    }

    method CompactHeader(header: Header)
      requires Shape() && TableReady() && header in nodes
      requires header.kind.WeakMapKind? ==> |header.keys| == |header.values|
      modifies header`keys, header`values
      ensures header.Contents() == Compacted(header.kind, header.marked, old(header.Contents()), Marked())
    {
      hide Heap.Shape, Heap.TableReady, Surviving;
      if !header.marked { return; }
      if header.kind.WeakMapKind? {
        CompactMap(header);
      } else if header.kind.WeakSetKind? {
        CompactSet(header);
      }
    }

    method Compact()
      requires Shape() && TableReady()
      requires forall h | h in nodes && h.kind.WeakMapKind? :: |h.keys| == |h.values|
      modifies nodes`keys, nodes`values
      ensures forall h | h in nodes :: h.Contents() == Compacted(h.kind, h.marked, old(h.Contents()), Marked())
    {
      hide *;
      ListFacts();
      var header := head;
      ghost var i := 0;
      while header != null
        invariant 0 <= i <= |list| && header == if i < |list| then list[i] else null
        invariant forall j | 0 <= j < i :: list[j].Contents() ==
                    Compacted(list[j].kind, list[j].marked, old(list[j].Contents()), Marked())
        invariant forall j | i <= j < |list| :: list[j].Contents() == old(list[j].Contents())
        invariant forall j | i <= j < |list| ::
                    list[j].keys == old(list[j].keys) && list[j].values == old(list[j].values)
        decreases |list| - i
      {
        CompactHeader(header);
        header := header.gcNext;
        i := i + 1;
      }
    }

    // ----- the sweep

    /** Makes the link that leads to the `k`-th block lead to `next`; a null `link` is the list head. */
    method Relink(link: Header?, next: Header?, ghost k: nat)
      requires Linked(head, list) && NoDuplicates(list)
      requires k < |list| && next == list[k].gcNext
      requires link == if k == 0 then null else list[k - 1]
      modifies this`head, this`list, list`gcNext
      ensures list == old(list[..k] + list[k + 1..]) && Linked(head, list)
    {
      ghost var all := list;
      if link == null {
        head := next;
      } else {
        link.gcNext := next;
      }
      list := list[..k] + list[k + 1..];
      assert forall i | 0 <= i < |list| :: list[i] == if i < k then all[i] else all[i + 1];
    }

    /** Takes `header`, the `k`-th block of the list, out of the list and releases it. */
    method Unlink(link: Header?, header: Header, next: Header?, ghost k: nat)
      requires Shape() && k < |list| && header == list[k] && next == header.gcNext
      requires link == if k == 0 then null else list[k - 1]
      requires bytes >= header.size
      modifies this`head, this`bytes, this`allocations, this`list, this`nodes, this`memory, nodes`gcNext
      ensures Shape()
      ensures list == old(list)[..k] + old(list)[k + 1..] && nodes == old(nodes) - {header}
      ensures bytes == old(bytes) - header.size
    {
      hide *;
      LinkedList(k);
      Relink(link, next, k);
      bytes := bytes - header.size;
      allocations := allocations - 1;
      memory := memory - {header.address};
      nodes := nodes - {header};
      UnlinkedShape(header, k);
    }

    lemma {:induction false} LinkedList(k: nat)
      requires Shape() && k < |list|
      ensures Linked(head, list) && NoDuplicates(list) && allocations > 0
      ensures forall h | h in list :: h in nodes
    {
    }

    /** Without the `k`-th block everywhere, the shape is kept. */
    twostate lemma {:induction false} UnlinkedShape(new header: Header, k: nat)
      requires old(Shape()) && k < |old(list)| && header == old(list)[k]
      requires list == old(list)[..k] + old(list)[k + 1..] && Linked(head, list) && allocations == old(allocations) - 1
      requires nodes == old(nodes) - {header} && memory == old(memory) - {header.address}
      ensures Shape()
    {
      hide Linked;
      WithoutOne(old(list), k);
    }

    /** One step of the sweep, at the `k`-th block: unmark it, or release it. */
    method SweepOne(link: Header?, header: Header, next: Header?, ghost k: nat) returns (newLink: Header?)
      requires Shape() && k < |list| && header == list[k] && next == header.gcNext
      requires link == if k == 0 then null else list[k - 1]
      requires bytes >= TotalSize(list)
      modifies this`head, this`bytes, this`allocations, this`list, this`nodes, this`memory, nodes`gcNext, header`marked
      ensures Shape() && nodes <= old(nodes)
      ensures bytes - TotalSize(list) == old(bytes - TotalSize(list))
      ensures old(header.marked) ==> list == old(list) && newLink == header && !header.marked
      ensures !old(header.marked) ==> list == old(list[..k] + list[k + 1..]) && newLink == link && !header.marked
    {
      hide *;
      TotalSizeWithout(list, k);
      ListStep(k);
      if header.marked {
        header.marked := false;
        newLink := header;
      } else {
        Unlink(link, header, next, k);
        newLink := link;
      }
    }

    /** The sweep over `all` has come to position `i`: the list is what survived so far followed by what is
        still to come, survivors are unmarked and the rest carries its marks. */
    ghost predicate SweptTo(all: seq<Header>, m: set<nat>, i: nat, header: Header?, link: Header?)
      reads this`list, all`marked
    {
      && i <= |all| && NoDuplicates(all)
      && list == Survivors(all[..i], m) + all[i..]
      && header == (if i < |all| then all[i] else null)
      && link == (if Survivors(all[..i], m) == [] then null else Survivors(all[..i], m)[|Survivors(all[..i], m)| - 1])
      && (forall h | h in Survivors(all[..i], m) && h in all :: !h.marked)
      && (forall h | h in all[i..] && h in all :: h.marked == (h.address in m))
    }

    method SweepAt(link: Header?, header: Header, ghost all: seq<Header>, ghost m: set<nat>, ghost i: nat)
      returns (newLink: Header?, next: Header?)
      requires Shape() && SweptTo(all, m, i, header, link) && bytes >= TotalSize(list)
      modifies this`head, this`bytes, this`allocations, this`list, this`nodes, this`memory, nodes`gcNext, header`marked
      ensures Shape() && SweptTo(all, m, i + 1, next, newLink) && nodes <= old(nodes)
      ensures bytes - TotalSize(list) == old(bytes - TotalSize(list))
    {
      hide Heap.Shape, Survivors, TotalSize, Linked, NoDuplicates;
      ghost var kept := Survivors(all[..i], m);
      SweepStep(all, m, i);
      NotLater(all, i);
      ListStep(|kept|);
      next := header.gcNext;
      newLink := SweepOne(link, header, next, |kept|);
      assert Survivors(all[..i + 1], m) == if header.address in m then kept + [header] else kept;
    }

    /** Releases every unmarked block and clears the mark of every other. */
    method Sweep()
      requires Shape() && bytes >= TotalSize(list)
      modifies this`head, this`bytes, this`allocations, this`list, this`nodes, this`memory, nodes`gcNext, nodes`marked
      ensures Shape() && Marked() == {}
      ensures list == Survivors(old(list), old(Marked()))
      ensures bytes - TotalSize(list) == old(bytes - TotalSize(list))
      ensures nodes <= old(nodes)
    {
      hide *;
      ghost var all, m := list, Marked();
      var link: Header?, header := null, head;
      ghost var i := 0;
      SweepStarts();
      while header != null
        invariant Shape() && SweptTo(all, m, i, header, link) && nodes <= old(nodes)
        invariant i <= |all| && header == if i < |all| then all[i] else null
        invariant bytes - TotalSize(list) == old(bytes - TotalSize(list))
        decreases |all| - i
      {
        SweepIn(all, m, i, header, link);
        link, header := SweepAt(link, header, all, m, i);
        i := i + 1;
        SweepIn(all, m, i, header, link);
      }
      SweepDone(all, m, link);
    }

    lemma {:induction false} SweepStarts()
      requires Shape()
      ensures SweptTo(list, Marked(), 0, head, null)
      ensures head == if list == [] then null else list[0]
    {
      SweepEnds(list, Marked());
    }

    lemma {:induction false} SweepIn(all: seq<Header>, m: set<nat>, i: nat, header: Header?, link: Header?)
      requires Shape() && SweptTo(all, m, i, header, link)
      ensures i <= |all| && header == if i < |all| then all[i] else null
      ensures header != null ==> header in nodes
    {
      if header != null { assert header in list; }
    }

    lemma {:induction false} SweepDone(all: seq<Header>, m: set<nat>, link: Header?)
      requires Shape() && SweptTo(all, m, |all|, null, link)
      ensures list == Survivors(all, m) && Marked() == {}
    {
      SweepEnds(all, m);
      SurvivorsExactly(all, m);
    }

    // ----- a whole collection

    lemma {:induction false} MirrorsSnapshot(g: Graph)
      requires Shape()
      ensures Mirrors(g) <==> g == Snapshot()
    {
      if Mirrors(g) {
        forall a | a in g ensures g[a] == Snapshot()[a] { assert memory[a] in nodes; }
      }
    }

    lemma {:induction false} EntriesMatch(g: Graph)
      requires Shape() && Mirrors(g) && Sound(g)
      ensures forall h | h in nodes && h.kind.WeakMapKind? :: |h.keys| == |h.values|
    {
      forall h | h in nodes && h.kind.WeakMapKind? ensures |h.keys| == |h.values| {
        assert NodeSound(g, g[h.address]);
      }
    }

    lemma {:induction false} BeforeCollection(g: Graph, roots: Roots)
      requires Idle() && g == Snapshot()
      ensures Shape() && Mirrors(g) && gray == [] && Marked() == {} && !running
      ensures bytes == TotalSize(list) + Truncated(requested)
      ensures Addresses(list) == g.Keys == memory.Keys && Live(g, roots) <= g.Keys
    {
      MirrorsSnapshot(g);
      forall a | a in g ensures a in Addresses(list) { assert memory[a] in list; }
    }

    lemma {:induction false} CollectedKeys(g: Graph, roots: Roots)
      requires Snapshot() == Collected(g, roots)
      ensures memory.Keys <= g.Keys
    {
      assert memory.Keys == Snapshot().Keys;
    }

    lemma {:induction false} IdleIntro()
      requires Shape() && Marked() == {} && gray == [] && !running && bytes == TotalSize(list) + Truncated(requested)
      ensures Idle()
    {
    }

    lemma {:induction false} ValidParts()
      requires Valid()
      ensures Idle() && !running
      ensures armed && !pinned ==> H.Recorded(base, history, bytes, threshold)
    {
    }

    lemma {:induction false} AfterSweep(all: seq<Header>, before: set<Header>, g: Graph, m: set<nat>)
      requires Shape() && list == Survivors(all, m) && nodes <= before
      requires m <= g.Keys == Addresses(all)
      requires PrunedIn(before, g, m)
      ensures Snapshot() == map a | a in m :: Pruned(g[a], m)
    {
      SurvivorsExactly(all, m);
      forall a ensures a in memory <==> a in m {
        if a in m {
          var h :| h in all && h.address == a;
          assert h in list;
        }
        if a in memory { assert memory[a] in list; }
      }
    }

    /** Clears the weak references to dead objects. */
    method PruneWeak(ghost g: Graph, ghost m: set<nat>)
      requires Shape() && TableReady() && Mirrors(g) && Sound(g) && Marked() == m
      modifies nodes`target, nodes`keys, nodes`values
      ensures PrunedIn(nodes, g, m)
    {
      hide *;
      Unpruned(g);
      WeakClear();
      Compact();
      CompactedIs(m);
      PrunedIntro(nodes, g, m);
    }

    lemma {:induction false} Unpruned(g: Graph)
      requires Shape() && Mirrors(g) && Sound(g)
      ensures forall h | h in nodes :: h.address in g && h.Contents() == g[h.address] && h.kind == h.Contents().kind
      ensures forall h | h in nodes :: h.marked <==> h.address in Marked()
      ensures forall h | h in nodes && h.kind.WeakMapKind? :: |h.keys| == |h.values|
    {
      EntriesMatch(g);
    }

    method MarkAndPrune(ghost g: Graph, roots: Roots)
      requires Shape() && gray == [] && Marked() == {}
      requires Mirrors(g) && Sound(g) && SoundRoots(g, roots)
      modifies this`table, this`gray, nodes`marked, nodes`target, nodes`keys, nodes`values
      ensures Marked() == Live(g, roots) && gray == []
      ensures PrunedIn(nodes, g, Live(g, roots))
    {
      hide *;
      TableBuild();
      Mark(g, roots);
      PruneWeak(g, Live(g, roots));
    }

    /** Mark, prune the weak kinds, sweep. */
    method MarkAndSweep(ghost g: Graph, roots: Roots)
      requires Shape() && gray == [] && Marked() == {} && bytes >= TotalSize(list)
      requires Mirrors(g) && Sound(g) && SoundRoots(g, roots)
      requires Addresses(list) == g.Keys && Live(g, roots) <= g.Keys
      modifies this`head, this`bytes, this`allocations, this`list, this`nodes, this`memory, this`table, this`gray, nodes
      ensures Shape() && gray == [] && Marked() == {} && nodes <= old(nodes)
      ensures Snapshot() == Collected(g, roots)
      ensures list == Survivors(old(list), Live(g, roots))
      ensures bytes - TotalSize(list) == old(bytes - TotalSize(list))
    {
      hide *;
      ghost var all, before := list, nodes;
      MarkAndPrune(g, roots);
      Sweep();
      AfterSweep(all, before, g, Live(g, roots));
      CollectedIs(g, roots);
    }

    method SetThreshold()
      modifies this`threshold
      ensures threshold == if pinned then old(threshold) else NextThreshold(bytes)
    {
      if !pinned {
        var next := bytes * 2;
        if next < H.MIN_THRESHOLD { next := H.MIN_THRESHOLD; }
        threshold := next;
      }
    }

    /** Everything but the threshold. */
    method CollectAt(ghost g: Graph, roots: Roots)
      requires Idle() && g == Snapshot() && Sound(g) && SoundRoots(g, roots)
      modifies this`running, this`head, this`bytes, this`allocations, this`list, this`nodes, this`memory, this`table,
        this`gray, nodes
      ensures Idle() && nodes <= old(nodes) && memory.Keys <= g.Keys
      ensures Snapshot() == Collected(g, roots) && list == Survivors(old(list), Live(g, roots))
      ensures bytes - TotalSize(list) == old(bytes - TotalSize(list)) && bytes <= old(bytes)
    {
      hide *;
      BeforeCollection(g, roots);
      running := true;
      MarkAndSweep(g, roots);
      table := new Header?[0];
      running := false;
      IdleIntro();
      SurvivorsSize(old(list), Live(g, roots));
      CollectedKeys(g, roots);
    }

    /** A collection, asked for by the program or `triggered` by an allocation. */
    method Collect(roots: Roots, ghost triggered: bool)
      requires triggered ==> armed && bytes >= threshold
      requires Valid() && Sound(Snapshot()) && SoundRoots(Snapshot(), roots)
      modifies this, nodes
      ensures Valid() && nodes <= old(nodes) && memory.Keys <= old(memory.Keys)
      ensures Snapshot() == Collected(old(Snapshot()), roots)
      ensures list == Survivors(old(list), Live(old(Snapshot()), roots))
      ensures bytes - TotalSize(list) == old(bytes - TotalSize(list)) && bytes <= old(bytes)
      ensures threshold == if pinned then old(threshold) else NextThreshold(bytes)
      ensures pinned == old(pinned) && armed == old(armed) && requested == old(requested)
      ensures base == old(base) && history == old(history) + [H.Sweep(old(bytes), bytes, triggered)]
    {
      hide *;
      ValidParts();
      SnapshotKeys();
      CollectAt(Snapshot(), roots);
      SetThreshold();
      history := history + [H.Sweep(old(bytes), bytes, triggered)];
      SweepRecorded(old(bytes), old(threshold), old(history), triggered);
    }

    lemma {:induction false} SnapshotKeys()
      ensures Snapshot().Keys == memory.Keys
    {
    }

    lemma {:induction false} SweepRecorded(found: nat, trigger: nat, events: seq<H.Event>, triggered: bool)
      requires Idle() && history == events + [H.Sweep(found, bytes, triggered)]
      requires armed && !pinned ==> H.Recorded(base, events, found, trigger) && threshold == NextThreshold(bytes)
      requires triggered ==> found >= trigger
      ensures Valid()
    {
      hide Idle;
      if armed && !pinned { H.RecordSweep(base, events, found, trigger, bytes, threshold, triggered); }
    }

    // ----- allocation

    /** Puts a fresh block in front of the list. */
    method Link(size: nat, kind: Kind, address: nat) returns (header: Header)
      requires Shape()
      modifies this`head, this`list, this`bytes, this`allocations
      ensures fresh(header) && header.address == address && !header.marked
      ensures header.Contents() == Fresh(kind, size % UINT32_SPAN)
      ensures list == [header] + old(list) && bytes == old(bytes) + size && allocations == |list|
      ensures Linked(head, list) && NoDuplicates(list)
      ensures bytes - TotalSize(list) == old(bytes - TotalSize(list)) + (size - size % UINT32_SPAN)
    {
      hide Fresh, Heap.Marked;
      header := new Header(address, kind, size % UINT32_SPAN, head);
      head := header;
      bytes := bytes + size;
      allocations := allocations + 1;
      list := [header] + list;
      assert forall i | 0 < i < |list| :: list[i] == old(list)[i - 1];
      TotalSizeConcat([header], old(list));
      assert [header][..0] == [];
    }

    lemma {:induction false} IdleParts()
      requires Idle()
      ensures Shape() && Marked() == {} && gray == [] && !running && bytes == TotalSize(list) + Truncated(requested)
    {
    }

    /** A fresh block that is linked in front, and that the address space has, keeps the shape. */
    twostate lemma {:induction false} PushedShape(new header: Header)
      requires old(Shape()) && Linked(head, list) && NoDuplicates(list) && allocations == |list|
      requires list == [header] + old(list) && nodes == old(nodes) + {header}
      requires header.address !in old(memory) && memory == old(memory)[header.address := header]
      ensures Shape()
    {
      hide Linked, NoDuplicates;
    }

    twostate lemma {:induction false} PushedUnmarked(new header: Header)
      requires nodes == old(nodes) + {header} && !header.marked && old(Marked()) == {}
      requires forall h | h in old(nodes) :: unchanged(h)
      ensures Marked() == {}
    {
      assert forall h | h in old(nodes) :: old(h.marked) ==> h.address in old(Marked());
    }

    twostate lemma {:induction false} PushedSnapshot(new header: Header, node: Node)
      requires old(Shape()) && header.Contents() == node
      requires memory == old(memory)[header.address := header]
      requires forall h | h in old(nodes) :: unchanged(h)
      ensures Snapshot() == old(Snapshot())[header.address := node]
    {
      hide Linked, NoDuplicates, Header.Contents;
      forall a | a in old(memory) ensures old(memory)[a].Contents() == old(memory[a].Contents()) {
        assert unchanged(old(memory)[a]);
      }
    }

    lemma {:induction false} TruncatedStep(sizes: seq<nat>, size: nat)
      ensures Truncated(sizes + [size]) == Truncated(sizes) + (size - size % UINT32_SPAN)
    {
      assert (sizes + [size])[..|sizes|] == sizes;
    }

    method Push(size: nat, kind: Kind, address: nat) returns (header: Header)
      requires Valid() && address !in memory
      modifies this`head, this`list, this`nodes, this`memory, this`bytes, this`allocations, this`requested, this`history
      ensures Valid() && fresh(header) && requested == old(requested) + [size]
      ensures Snapshot() == old(Snapshot())[address := Fresh(kind, size % UINT32_SPAN)]
      ensures list == [header] + old(list) && bytes == old(bytes) + size && history == old(history) + [H.Request(size)]
    {
      hide *;
      ValidParts();
      IdleParts();
      header := Link(size, kind, address);
      requested := requested + [size];
      TruncatedStep(old(requested), size);
      nodes := nodes + {header};
      memory := memory[address := header];
      history := history + [H.Request(size)];
      PushedShape(header);
      PushedUnmarked(header);
      PushedSnapshot(header, header.Contents());
      IdleIntro();
      RequestRecorded(old(bytes), old(history), size);
    }

    lemma {:induction false} RequestRecorded(before: nat, events: seq<H.Event>, size: nat)
      requires armed && !pinned ==> H.Recorded(base, events, before, threshold)
      requires Idle() && bytes == before + size && history == events + [H.Request(size)]
      ensures Valid()
    {
      hide Idle;
      if armed && !pinned { H.RecordRequest(base, events, before, threshold, size); }
    }

    /** The byte counter is the size of the heap exactly as long as no request reached 4 GiB. */
    lemma {:induction false} BytesExact()
      requires Valid()
      ensures bytes == TotalSize(list) <==> forall i | 0 <= i < |requested| :: requested[i] < UINT32_SPAN
    {
      NothingTruncated(requested);
    }

    /** Lets allocations trigger collections from now on. */
    method Arm()
      requires Valid()
      modifies this`armed, this`base, this`history
      ensures Valid() && armed
      ensures !old(armed) ==> base == bytes && history == []
      ensures old(armed) ==> base == old(base) && history == old(history)
    {
      if !armed { base, history := bytes, []; }
      armed := true;
    }

    /** Fixes the threshold. */
    method PinThreshold(size: nat)
      requires Valid()
      modifies this`threshold, this`pinned
      ensures Valid() && pinned && threshold == if size > 0x10_0000 then size else 0x10_0000
    {
      threshold := if size > H.MIN_THRESHOLD then size else H.MIN_THRESHOLD;
      pinned := true;
    }

    /** Allocates at `address`, a block `calloc` may hand out. The counter `bytes` grows by the requested
        size, the header records only its low 32 bits. */
    method Alloc(size: nat, kind: Kind, address: nat, roots: Roots) returns (header: Header)
      requires Valid() && Sound(Snapshot()) && SoundRoots(Snapshot(), roots)
      requires address !in memory
      modifies this, nodes
      ensures Valid() && fresh(header) && (armed && !pinned ==> bytes < threshold + size)
      ensures var collects := old(armed && bytes >= threshold);
        && Snapshot() == (if collects then Collected(old(Snapshot()), roots) else old(Snapshot()))
          [address := Fresh(kind, size % UINT32_SPAN)]
        && list == [header] + (if collects then Survivors(old(list), Live(old(Snapshot()), roots)) else old(list))
        && bytes >= size
        && (!collects ==> bytes == old(bytes) + size && threshold == old(threshold))
        && (collects ==> bytes - size <= old(bytes))
        && (collects && !pinned ==> threshold == NextThreshold(bytes - size))
        && base == old(base)
        && history == old(history)
                      + (if collects then [H.Sweep(old(bytes), bytes - size, true)] else []) + [H.Request(size)]
      ensures requested == old(requested) + [size] && pinned == old(pinned) && armed == old(armed)
    {
      hide *;
      ValidParts();
      if armed && !running && bytes >= threshold {
        Collect(roots, true);
      }
      header := Push(size, kind, address);
      Headroom(bytes - size);
    }

    lemma {:induction false} Headroom(live: nat)
      ensures live < NextThreshold(live)
    {
    }

    /** In every heap that was collected since it was armed, the threshold follows what the last collection left. */
    lemma {:induction false} ThresholdFollows()
      requires Valid() && armed && !pinned && H.AnySweep(history)
      ensures H.Follows(threshold, H.Left(base, history))
    {
    }

    /** In every heap, the work of triggered collections since the collector was armed is bounded by what the
        program requested since then. */
    lemma {:induction false} CollectionsAmortised()
      requires Valid() && armed && !pinned
      ensures H.Work(history) <= 2 * H.Requested(history) + base
      ensures H.Kept(base, history) <= H.Requested(history)
    {
      H.Amortised(base, history);
    }
  }
}
