/** What a collection guarantees, as facts about `Live` and `Collected`. */
module GcTheorems {
  import opened GcGraph

  // ----- the least closed set

  lemma {:induction false} LiveStrongClosed(g: Graph, roots: Roots)
    requires Sound(g)
    ensures StrongClosed(g, Live(g, roots))
  {
    hide EphemeronClosed, RootSet;
    forall a, b | a in Live(g, roots) && b in Edges(g, a) ensures b in Live(g, roots) {
      assert NodeSound(g, g[a]);
      forall m | Closed(g, roots, m) ensures b in m { assert a in m; }
    }
  }

  lemma {:induction false} LiveEphemeronClosed(g: Graph, roots: Roots)
    requires Sound(g)
    ensures EphemeronClosed(g, Live(g, roots))
  {
    hide StrongClosed, RootSet;
    var live := Live(g, roots);
    forall a, i | a in live && EphemeronEntry(g[a], i) && Points(g[a].keys[i], live) && g[a].values[i].Boxed?
      ensures g[a].values[i].pointer in live
    {
      assert NodeSound(g, g[a]) && g[a].values[i] in g[a].values;
      forall m | Closed(g, roots, m) ensures g[a].values[i].pointer in m {
        assert a in m && Points(g[a].keys[i], m);
      }
    }
  }

  lemma {:induction false} LiveIsClosed(g: Graph, roots: Roots)
    requires Sound(g) && SoundRoots(g, roots)
    ensures Closed(g, roots, Live(g, roots))
  {
    hide StrongClosed, EphemeronClosed, Sound;
    LiveStrongClosed(g, roots);
    LiveEphemeronClosed(g, roots);
    assert RootSet(g, roots) <= Live(g, roots);
  }

  /** `Live` is the only closed set of heap addresses that lies inside every closed set. */
  lemma {:induction false} LiveIsUnique(g: Graph, roots: Roots, m: set<nat>)
    requires Sound(g) && SoundRoots(g, roots)
    ensures m == Live(g, roots) <==>
            m <= g.Keys && Closed(g, roots, m) && forall a | a in m :: InEveryClosed(g, roots, a)
  {
    LiveIsClosed(g, roots);
  }

  /** A group of objects that no root and no outside object leads into is not live. An ephemeron
      entry outside the group may hold a value inside it if its key is in the group too: a key/value
      cycle that hangs on a WeakMap alone is collected. */
  lemma {:induction false} IslandIsDead(g: Graph, roots: Roots, island: set<nat>)
    requires Sound(g) && SoundRoots(g, roots)
    requires RootSet(g, roots) !! island
    requires forall a | a in g && a !in island :: Edges(g, a) !! island
    requires forall a, i | a in g && a !in island && EphemeronEntry(g[a], i) ::
               Points(g[a].values[i], island) ==> Points(g[a].keys[i], island) || !g[a].keys[i].Boxed?
    ensures Live(g, roots) !! island
  {
    var outside := g.Keys - island;
    forall a | a in outside ensures Edges(g, a) <= outside {
      assert NodeSound(g, g[a]);
    }
    forall a, i | a in outside && EphemeronEntry(g[a], i) && Points(g[a].keys[i], outside) && g[a].values[i].Boxed?
      ensures g[a].values[i].pointer in outside
    {
      assert NodeSound(g, g[a]) && g[a].values[i] in g[a].values;
    }
    assert Closed(g, roots, outside);
  }

  // ----- weak collections keep exactly the entries with a surviving key, in order

  predicate Increasing(idx: seq<nat>) {
    forall i, j | 0 <= i < j < |idx| :: idx[i] < idx[j]
  }

  /** The positions whose key survives. */
  function Kept(keys: seq<Word>, m: set<nat>): seq<nat> {
    if keys == [] then []
    else
      var i := |keys| - 1;
      if Points(keys[i], m) then Kept(keys[..i], m) + [i] else Kept(keys[..i], m)
  }

  lemma {:induction false} KeptExactly(keys: seq<Word>, m: set<nat>)
    ensures Increasing(Kept(keys, m))
    ensures forall i :: i in Kept(keys, m) <==> 0 <= i < |keys| && Points(keys[i], m)
  {
    if keys != [] {
      var i := |keys| - 1;
      KeptExactly(keys[..i], m);
      forall j | 0 <= j < |Kept(keys[..i], m)| ensures Kept(keys[..i], m)[j] < i {
        assert Kept(keys[..i], m)[j] in Kept(keys[..i], m);
      }
      if Points(keys[i], m) {
        assert Kept(keys, m) == Kept(keys[..i], m) + [i];
      }
    }
  }

  /** The surviving entries are the entries at the kept positions, in order. */
  lemma {:induction false} SurvivingInOrder(keys: seq<Word>, xs: seq<Word>, m: set<nat>)
    requires |keys| == |xs|
    ensures |Surviving(keys, xs, m)| == |Kept(keys, m)|
    ensures forall j | 0 <= j < |Kept(keys, m)| ::
              Kept(keys, m)[j] < |xs| && Points(keys[Kept(keys, m)[j]], m)
                && Surviving(keys, xs, m)[j] == xs[Kept(keys, m)[j]]
  {
    if keys != [] {
      var i := |keys| - 1;
      SurvivingInOrder(keys[..i], xs[..i], m);
    }
  }

  /** Filtering the entries that survived once more drops nothing. */
  lemma {:induction false} SurvivingTwice(keys: seq<Word>, xs: seq<Word>, m: set<nat>)
    requires |keys| == |xs|
    ensures |Surviving(keys, keys, m)| == |Surviving(keys, xs, m)|
    ensures Surviving(Surviving(keys, keys, m), Surviving(keys, xs, m), m) == Surviving(keys, xs, m)
  {
    SurvivingInOrder(keys, keys, m);
    SurvivingInOrder(keys, xs, m);
    SurvivingAll(Surviving(keys, keys, m), Surviving(keys, xs, m), m);
  }

  lemma {:induction false} SurvivingAll(keys: seq<Word>, xs: seq<Word>, m: set<nat>)
    requires |keys| == |xs|
    requires forall k | k in keys :: Points(k, m)
    ensures Surviving(keys, xs, m) == xs
  {
    if keys != [] {
      var i := |keys| - 1;
      SurvivingAll(keys[..i], xs[..i], m);
      assert xs == xs[..i] + [xs[i]];
    }
  }

  lemma {:induction false} PrunedTwice(n: Node, m: set<nat>)
    ensures Pruned(Pruned(n, m), m) == Pruned(n, m)
  {
    if n.kind.WeakMapKind? && |n.keys| == |n.values| {
      SurvivingTwice(n.keys, n.keys, m);
      SurvivingTwice(n.keys, n.values, m);
    } else if n.kind.WeakSetKind? {
      SurvivingTwice(n.values, n.values, m);
    }
  }

  // ----- after a collection

  lemma {:induction false} PointersOfSurviving(keys: seq<Word>, xs: seq<Word>, m: set<nat>)
    requires |keys| == |xs|
    requires forall i | 0 <= i < |keys| && Points(keys[i], m) :: xs[i].Boxed? ==> xs[i].pointer in m
    ensures Pointers(Surviving(keys, xs, m)) <= m
  {
    SurvivingInOrder(keys, xs, m);
  }

  /** Every entry that a survivor keeps points to survivors. */
  lemma {:induction false} EntriesSurvive(g: Graph, roots: Roots, a: nat)
    requires Closed(g, roots, Live(g, roots)) && a in Live(g, roots) && a in g && NodeSound(g, g[a])
    requires g[a].kind.WeakMapKind?
    ensures Pointers(Surviving(g[a].keys, g[a].keys, Live(g, roots))) <= Live(g, roots)
    ensures Pointers(Surviving(g[a].keys, g[a].values, Live(g, roots))) <= Live(g, roots)
  {
    hide Live, Surviving;
    var live, n := Live(g, roots), g[a];
    PointersOfSurviving(n.keys, n.keys, live);
    forall i | 0 <= i < |n.keys| && Points(n.keys[i], live) && n.values[i].Boxed?
      ensures n.values[i].pointer in live
    {
      assert EphemeronEntry(n, i);
    }
    PointersOfSurviving(n.keys, n.values, live);
  }

  /** A scanned word of a survivor points to a survivor. */
  lemma {:induction false} ScannedSurvive(g: Graph, live: set<nat>, a: nat)
    requires a in g && NodeSound(g, g[a]) && Edges(g, a) <= live
    ensures Pointers(ScannedWords(g[a])) <= live
  {
    var words := ScannedWords(g[a]);
    forall w | w in words && w.Boxed? ensures w.pointer in live {
      assert w.pointer in Pointers(words);
      assert w.Address() in Resolved(g.Keys, words);
    }
  }

  /** Pruning leaves a node sound if its strong references and its kept entries point to survivors. */
  lemma {:induction false} PrunedSound(g: Graph, n: Node, m: set<nat>)
    requires g.Keys == m && Pointers(MarkedSlots(n)) <= m && Pointers(ScannedWords(n)) <= m
    requires n.kind.WeakMapKind? ==> |n.keys| == |n.values|
    requires n.kind.WeakMapKind? ==>
               Pointers(Surviving(n.keys, n.keys, m)) <= m && Pointers(Surviving(n.keys, n.values, m)) <= m
    ensures NodeSound(g, Pruned(n, m))
  {
    hide Surviving, Pointers;
    if n.kind.WeakMapKind? {
      SurvivingInOrder(n.keys, n.keys, m);
      SurvivingInOrder(n.keys, n.values, m);
    } else if n.kind.WeakSetKind? {
      PointersOfSurviving(n.values, n.values, m);
    }
  }

  lemma {:induction false} SurvivorSound(g: Graph, roots: Roots, a: nat)
    requires Closed(g, roots, Live(g, roots)) && a in Live(g, roots) && NodeSound(g, g[a])
    ensures NodeSound(Collected(g, roots), Collected(g, roots)[a])
  {
    hide Surviving, Pruned, MarkedSlots, ScannedWords, Pointers, EphemeronClosed, RootSet;
    var live := Live(g, roots);
    assert Edges(g, a) <= live;
    ScannedSurvive(g, live, a);
    if g[a].kind.WeakMapKind? { EntriesSurvive(g, roots, a); }
    PrunedSound(Collected(g, roots), g[a], live);
  }

  /** No survivor names an address outside the survivors, through any kind of reference, and no root does. */
  lemma {:induction false} CollectedSound(g: Graph, roots: Roots)
    requires Sound(g) && SoundRoots(g, roots)
    ensures Sound(Collected(g, roots)) && SoundRoots(Collected(g, roots), roots)
  {
    hide NodeSound, Pruned;
    LiveIsClosed(g, roots);
    forall a | a in Live(g, roots) ensures NodeSound(Collected(g, roots), Collected(g, roots)[a]) {
      SurvivorSound(g, roots, a);
    }
  }

  lemma {:induction false} CollectedEdges(g: Graph, roots: Roots, a: nat)
    requires Sound(g) && SoundRoots(g, roots) && a in Live(g, roots)
    ensures Edges(Collected(g, roots), a) == Edges(g, a)
  {
    LiveIsClosed(g, roots);
    var g' := Collected(g, roots);
    forall w | w in ScannedWords(g[a]) && w.Address() in g ensures w.Address() in g' {
      assert w.Address() in Edges(g, a);
    }
    assert Resolved(g'.Keys, ScannedWords(g'[a])) == Resolved(g.Keys, ScannedWords(g[a]));
  }

  lemma {:induction false} CollectedRootSet(g: Graph, roots: Roots)
    requires Sound(g) && SoundRoots(g, roots)
    ensures RootSet(Collected(g, roots), roots) == RootSet(g, roots)
  {
    LiveIsClosed(g, roots);
    var g' := Collected(g, roots);
    forall w | w in roots.stack && w.Address() in g ensures w.Address() in g' {
      assert w.Address() in RootSet(g, roots);
    }
    assert Resolved(g'.Keys, roots.stack) == Resolved(g.Keys, roots.stack);
  }

  /** The entry at a kept position is still an entry of the pruned WeakMap. */
  lemma {:induction false} EntryKept(n: Node, i: int, m: set<nat>) returns (j: nat)
    requires EphemeronEntry(n, i) && |n.keys| == |n.values| && Points(n.keys[i], m)
    ensures EphemeronEntry(Pruned(n, m), j)
    ensures Pruned(n, m).keys[j] == n.keys[i] && Pruned(n, m).values[j] == n.values[i]
  {
    KeptExactly(n.keys, m);
    SurvivingInOrder(n.keys, n.keys, m);
    SurvivingInOrder(n.keys, n.values, m);
    assert i in Kept(n.keys, m);
    j :| 0 <= j < |Kept(n.keys, m)| && Kept(n.keys, m)[j] == i;
  }

  /** A set closed in the collected heap is, among the live objects, closed in the heap before. */
  lemma {:induction false} ClosedBefore(g: Graph, roots: Roots, m: set<nat>)
    requires Sound(g) && SoundRoots(g, roots)
    requires Closed(Collected(g, roots), roots, m)
    ensures Closed(g, roots, m * Live(g, roots))
  {
    LiveIsClosed(g, roots);
    CollectedRootSet(g, roots);
    var live, g' := Live(g, roots), Collected(g, roots);
    var t := m * live;
    forall a | a in t ensures Edges(g, a) <= t { CollectedEdges(g, roots, a); }
    forall a, i | a in t && EphemeronEntry(g[a], i) && Points(g[a].keys[i], t) && g[a].values[i].Boxed?
      ensures g[a].values[i].pointer in t
    {
      assert NodeSound(g, g[a]);
      var j := EntryKept(g[a], i, live);
      assert EphemeronEntry(g'[a], j) && Points(g'[a].keys[j], m);
    }
  }

  lemma {:induction false} LiveStays(g: Graph, roots: Roots)
    requires Sound(g) && SoundRoots(g, roots)
    ensures Live(Collected(g, roots), roots) == Live(g, roots)
  {
    hide Sound, SoundRoots;
    CollectedSound(g, roots);
    var live, g' := Live(g, roots), Collected(g, roots);
    LiveIsClosed(g', roots);
    forall a | a in live ensures a in Live(g', roots) {
      forall m | Closed(g', roots, m) ensures a in m {
        ClosedBefore(g, roots, m);
        assert a in m * live;
      }
    }
  }

  /** Collecting again with the same roots keeps every object and every field. */
  lemma {:induction false} CollectedTwice(g: Graph, roots: Roots)
    requires Sound(g) && SoundRoots(g, roots)
    ensures Live(Collected(g, roots), roots) == Live(g, roots)
    ensures Collected(Collected(g, roots), roots) == Collected(g, roots)
  {
    hide Sound, SoundRoots, Closed;
    CollectedSound(g, roots);
    LiveStays(g, roots);
    var live, g' := Live(g, roots), Collected(g, roots);
    forall a | a in live ensures Collected(g', roots)[a] == g'[a] { PrunedTwice(g[a], live); }
  }

  lemma {:induction false} WeakMapEntries(n: Node, m: set<nat>)
    requires n.kind.WeakMapKind? && |n.keys| == |n.values|
    ensures forall k, v :: HasEntry(Pruned(n, m), k, v) <==> HasEntry(n, k, v) && Points(k, m)
  {
    hide Surviving;
    var n' := Pruned(n, m);
    SurvivingInOrder(n.keys, n.keys, m);
    SurvivingInOrder(n.keys, n.values, m);
    forall k, v ensures HasEntry(n', k, v) <==> HasEntry(n, k, v) && Points(k, m) {
      if HasEntry(n', k, v) {
        var j :| EphemeronEntry(n', j) && n'.keys[j] == k && n'.values[j] == v;
        assert EphemeronEntry(n, Kept(n.keys, m)[j]);
      }
      if HasEntry(n, k, v) && Points(k, m) {
        var i :| EphemeronEntry(n, i) && n.keys[i] == k && n.values[i] == v;
        var j := EntryKept(n, i, m);
      }
    }
  }

  /** What survives, field by field: strong fields as they were, a WeakRef's target iff the target
      lives, the WeakSet members and WeakMap entries whose key lives. */
  lemma {:induction false} CollectedNode(g: Graph, roots: Roots, a: nat)
    requires Sound(g) && a in Live(g, roots)
    ensures var n, n' := g[a], Collected(g, roots)[a];
      && n'.kind == n.kind && n'.size == n.size && n'.flat == n.flat && n'.slots == n.slots && n'.words == n.words
      && (n.kind.WeakRefKind? && n.target.Boxed? ==>
           n'.target == if n.target.pointer in Live(g, roots) then n.target else UNDEFINED)
      && (n.kind.WeakSetKind? ==>
           forall w :: w in n'.values <==> w in n.values && w.Boxed? && w.pointer in Live(g, roots))
      && (n.kind.WeakMapKind? ==>
           forall k, v :: HasEntry(n', k, v) <==> HasEntry(n, k, v) && k.Boxed? && k.pointer in Live(g, roots))
  {
    hide HasEntry;
    assert NodeSound(g, g[a]);
    if g[a].kind.WeakSetKind? {
      WeakSetMembers(g[a], Live(g, roots));
    } else if g[a].kind.WeakMapKind? {
      WeakMapEntries(g[a], Live(g, roots));
    }
  }

  lemma {:induction false} WeakSetMembers(n: Node, m: set<nat>)
    requires n.kind.WeakSetKind?
    ensures forall w :: w in Pruned(n, m).values <==> w in n.values && Points(w, m)
  {
    KeptExactly(n.values, m);
    SurvivingInOrder(n.values, n.values, m);
    forall w | w in n.values && Points(w, m) ensures w in Pruned(n, m).values {
      var i :| 0 <= i < |n.values| && n.values[i] == w;
      assert i in Kept(n.values, m);
      var j :| 0 <= j < |Kept(n.values, m)| && Kept(n.values, m)[j] == i;
      assert Pruned(n, m).values[j] == w;
    }
  }
}
