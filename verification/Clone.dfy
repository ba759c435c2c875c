/**
  `structuredClone`: recursion over the object graph with a memo table that is filled before an object's
  children are visited, so that cycles and shared objects find their clone.
 */
module Clone {
  import opened CloneGraph
  import opened Collections

  datatype Outcome = Cloned(value: Value) | CannotClone(kind: string)

  datatype Entry = Entry(source: Value, clone: Value)

  ghost predicate Extends(m0: Renaming, m1: Renaming) {
    forall a | a in m0 :: a in m1 && m1[a] == m0[a]
  }

  /** The first elements of `xs` have been cloned to `ys`. */
  ghost predicate ClonedPrefix(m: Renaming, xs: seq<Value>, ys: seq<Value>) {
    |ys| <= |xs| && forall k | 0 <= k < |ys| :: Covers(m, xs[k]) && ys[k] == Image(m, xs[k])
  }

  /** Copies of all objects that `m` renames, except those in `open`, are complete. */
  ghost predicate Consistent(src: Heap, heap: Heap, m: Renaming, open: set<nat>) {
    && GoodHeap(src) && Injective(m)
    && (forall a | a in src :: a in heap && heap[a] == src[a])
    && (forall a | a in m :: a in src && m[a] !in src && m[a] in heap)
    && open <= m.Keys
    && forall a | a in m && a !in open :: CopyOf(m, src[a], heap[m[a]])
  }

  /** Nothing that had a clone before lost it, and no such clone was touched, except those of `skip`. */
  ghost predicate Undisturbed(skip: set<nat>, heap0: Heap, m0: Renaming, heap1: Heap, m1: Renaming) {
    && Extends(m0, m1)
    && forall a | a in m0 && a !in skip && m0[a] in heap0 :: m0[a] in heap1 && heap1[m0[a]] == heap0[m0[a]]
  }

  /** Work on a clone that did not exist before disturbs nothing that did. */
  lemma {:induction false} UndisturbedByNew(a: nat, heap0: Heap, m0: Renaming, heap1: Heap, m1: Renaming,
      heap2: Heap, m2: Renaming)
    requires Undisturbed({}, heap0, m0, heap1, m1) && Undisturbed({a}, heap1, m1, heap2, m2) && a !in m0
    ensures Undisturbed({}, heap0, m0, heap2, m2)
  {
  }

  /** Where a call sets out from, and the objects whose clones were known then. */
  datatype Start = Start(value: Value, known: set<nat>)

  /** A set that holds everything that is found from the start on without passing a known object. */
  ghost predicate ClosedBeyond(h: Heap, start: Start, s: set<nat>) {
    && (start.value.Ref? ==> start.value.address in s || start.value.address in start.known)
    && forall a, w | a in s && a in h && w in Children(h[a]) :: w.Ref? ==> w.address in s || w.address in start.known
  }

  ghost predicate NewlyReached(h: Heap, start: Start, a: nat) {
    a !in start.known && forall s: set<nat> | ClosedBeyond(h, start, s) :: a in s
  }

  ghost predicate OnTheWay(h: Heap, start: Start, v: Value) {
    v.Ref? && v.address !in start.known ==> NewlyReached(h, start, v.address)
  }

  lemma {:induction false} NewRoot(h: Heap, start: Start)
    ensures OnTheWay(h, start, start.value)
  {
  }

  lemma {:induction false} NewChild(h: Heap, start: Start, a: nat, w: Value)
    requires a in h && NewlyReached(h, start, a) && w in Children(h[a])
    ensures OnTheWay(h, start, w)
  {
  }

  lemma {:induction false} NothingKnown(h: Heap, v: Value, a: nat)
    ensures NewlyReached(h, Start(v, {}), a) <==> Reached(h, v, a)
  {
    forall s: set<nat> ensures ClosedBeyond(h, Start(v, {}), s) <==> ClosedFrom(h, v, s) { }
  }

  /** What has a clone was known at the start or is reached from there. */
  ghost predicate AllReached(src: Heap, start: Start, m: Renaming) {
    start.known <= m.Keys && forall a | a in m && a !in start.known :: NewlyReached(src, start, a)
  }

  /** Some object that the clone would have to contain cannot be cloned. */
  ghost predicate Uncloneable(src: Heap, start: Start) {
    exists a :: a in src && NewlyReached(src, start, a) && src[a].Opaque?
  }

  ghost function Unvisited(src: Heap, m: Renaming): nat {
    |src.Keys - m.Keys|
  }

  lemma {:induction false} UnvisitedShrinks(src: Heap, m0: Renaming, m1: Renaming)
    requires Extends(m0, m1)
    ensures Unvisited(src, m1) <= Unvisited(src, m0)
  {
    SubsetSize(src.Keys - m1.Keys, src.Keys - m0.Keys);
  }

  lemma {:induction false} VisitOne(src: Heap, m: Renaming, a: nat, c: nat)
    requires a in src && a !in m
    ensures Unvisited(src, m[a := c]) < Unvisited(src, m)
  {
    assert src.Keys - m[a := c].Keys == (src.Keys - m.Keys) - {a};
  }

  lemma {:induction false} CopyKept(m0: Renaming, m1: Renaming, o: Object, c: Object)
    requires Extends(m0, m1) && CopyOf(m0, o, c)
    ensures CopyOf(m1, o, c)
  {
  }

  lemma {:induction false} PrefixKept(m0: Renaming, m1: Renaming, xs: seq<Value>, ys: seq<Value>)
    requires Extends(m0, m1) && ClonedPrefix(m0, xs, ys)
    ensures ClonedPrefix(m1, xs, ys)
  {
  }

  /** A new, still empty clone of `a` joins the table. */
  lemma {:induction false} OpenOne(src: Heap, heap: Heap, m: Renaming, open: set<nat>, a: nat, c: nat, empty: Object)
    requires Consistent(src, heap, m, open) && a in src && a !in m && c !in heap
    ensures Consistent(src, heap[c := empty], m[a := c], open + {a})
    ensures Undisturbed({}, heap, m, heap[c := empty], m[a := c])
  {
    var heap', m' := heap[c := empty], m[a := c];
    forall b | b in m' && b !in open + {a} ensures CopyOf(m', src[b], heap'[m'[b]]) {
      CopyKept(m, m', src[b], heap[m[b]]);
    }
  }

  /** A clone in progress is given new contents. */
  lemma {:induction false} FillOne(src: Heap, heap: Heap, m: Renaming, open: set<nat>, a: nat, o: Object)
    requires Consistent(src, heap, m, open) && a in open
    ensures Consistent(src, heap[m[a] := o], m, open)
    ensures forall b | b in m && b != a :: heap[m[a] := o][m[b]] == heap[m[b]]
  {
  }

  /** A clone in progress is complete. */
  lemma {:induction false} CloseOne(src: Heap, heap: Heap, m: Renaming, open: set<nat>, a: nat)
    requires Consistent(src, heap, m, open + {a}) && a !in open && CopyOf(m, src[a], heap[m[a]])
    ensures Consistent(src, heap, m, open)
  {
  }

  class Context {
    var heap: Heap
    var next: nat
    var entries: seq<Entry>
    ghost var m: Renaming

    constructor (heap: Heap, next: nat)
      requires forall a | a in heap :: a < next
      ensures this.heap == heap && m == map[] && TableOk()
    {
      this.heap, this.next, entries, m := heap, next, [], map[];
    }

    /** The memo entries are the renaming `m`, and addresses from `next` on are free. */
    ghost predicate TableOk()
      reads this
    {
      && (forall a | a in heap :: a < next)
      && (forall i | 0 <= i < |entries| ::
            entries[i].source.Ref? && entries[i].source.address in m
              && entries[i].clone == Ref(m[entries[i].source.address]))
      && (forall a | a in m :: exists i :: 0 <= i < |entries| && entries[i].source == Ref(a))
    }

    method Lookup(source: Value) returns (found: Value)
      requires TableOk() && source.Ref?
      ensures found == if source.address in m then Ref(m[source.address]) else Undefined
    {
      for i := 0 to |entries|
        invariant forall k | 0 <= k < i :: entries[k].source != source
      {
        if entries[i].source == source { return entries[i].clone; }
      }
      return Undefined;
    }

    /** Allocates an empty clone of the object at `a` and remembers it. */
    method Open(a: nat, empty: Object, ghost src: Heap, ghost open: set<nat>, ghost start: Start) returns (clone: nat)
      requires TableOk() && Consistent(src, heap, m, open) && AllReached(src, start, m)
      requires a in src && a !in m && NewlyReached(src, start, a)
      modifies this
      ensures TableOk() && Consistent(src, heap, m, open + {a}) && AllReached(src, start, m)
      ensures Undisturbed({}, old(heap), old(m), heap, m) && Unvisited(src, m) < Unvisited(src, old(m))
      ensures a in m && clone == m[a] && heap[clone] == empty
    {
      hide *;
      TableFresh();
      OpenOne(src, heap, m, open, a, next, empty);
      VisitOne(src, m, a, next);
      clone := Remember(a, empty);
      OneMoreReached(src, start, old(m), a, clone);
    }

    lemma {:induction false} TableFresh()
      requires TableOk()
      ensures next !in heap
    {
    }

    method Remember(a: nat, empty: Object) returns (clone: nat)
      requires TableOk() && a !in m
      modifies this
      ensures TableOk() && clone == old(next)
      ensures heap == old(heap)[clone := empty] && m == old(m)[a := clone]
    {
      clone := next;
      heap := heap[clone := empty];
      next := next + 1;
      entries := entries + [Entry(Ref(a), Ref(clone))];
      m := m[a := clone];
      forall b | b in m ensures exists i :: 0 <= i < |entries| && entries[i].source == Ref(b) {
        if b == a {
          assert entries[|entries| - 1].source == Ref(b);
        } else {
          var i :| 0 <= i < |old(entries)| && old(entries)[i].source == Ref(b);
          assert entries[i].source == Ref(b);
        }
      }
    }

    ghost predicate State(src: Heap, open: set<nat>, start: Start)
      reads this
    {
      TableOk() && Consistent(src, heap, m, open) && AllReached(src, start, m)
    }

    /** The clone of `a` is being filled; nothing else that existed with `heap0` and `m0` has changed. */
    ghost predicate Filling(a: nat, clone: nat, src: Heap, open: set<nat>, start: Start, heap0: Heap, m0: Renaming)
      reads this
    {
      && State(src, open + {a}, start) && a !in open && a in m && clone == m[a] && clone in heap
      && a in src && NewlyReached(src, start, a)
      && Undisturbed({a}, heap0, m0, heap, m)
    }

    /** The source graph is as it was. */
    ghost predicate SourceIntact(src: Heap)
      reads this`heap
    {
      forall b | b in src :: b in heap && heap[b] == src[b]
    }

    lemma {:induction false} FillingFacts(a: nat, clone: nat, src: Heap, open: set<nat>, start: Start, heap0: Heap,
        m0: Renaming)
      requires Filling(a, clone, src, open, start, heap0, m0)
      ensures clone in heap && a in m && a in src && clone == m[a] && SourceIntact(src)
      ensures Unvisited(src, m) <= Unvisited(src, m0)
      ensures forall v | v in Children(src[a]) :: InHeap(src, v) && OnTheWay(src, start, v)
    {
      UnvisitedShrinks(src, m0, m);
      forall v | v in Children(src[a]) ensures InHeap(src, v) && OnTheWay(src, start, v) {
        assert GoodHeap(src);
        NewChild(src, start, a, v);
      }
    }

    /** Clones one child of the object at `a`. */
    method CloneChild(a: nat, clone: nat, v: Value, ghost src: Heap, ghost open: set<nat>, ghost start: Start,
        ghost heap0: Heap, ghost m0: Renaming)
      returns (out: Outcome)
      requires Filling(a, clone, src, open, start, heap0, m0) && v in Children(src[a])
      modifies this
      ensures SourceIntact(src)
      ensures out.Cloned? ==> Filling(a, clone, src, open, start, heap0, m0) && heap[clone] == old(heap)[clone]
      ensures out.Cloned? ==> Extends(old(m), m) && Covers(m, v) && out.value == Image(m, v)
      ensures out.CannotClone? ==> Uncloneable(src, start)
      decreases Unvisited(src, m), 2
    {
      hide *;
      FillingFacts(a, clone, src, open, start, heap0, m0);
      StateOf(a, clone, src, open, start, heap0, m0);
      ghost var heap1, m1 := heap, m;
      out := CloneValue(v, src, open + {a}, start);
      if out.Cloned? {
        StillFilling(a, clone, src, open, start, heap0, m0, heap1, m1);
      }
    }

    lemma {:induction false} StateOf(a: nat, clone: nat, src: Heap, open: set<nat>, start: Start, heap0: Heap,
        m0: Renaming)
      requires Filling(a, clone, src, open, start, heap0, m0)
      ensures State(src, open + {a}, start) && a !in open && a in src && NewlyReached(src, start, a)
      ensures Undisturbed({a}, heap0, m0, heap, m)
    {
    }

    lemma {:induction false} StillFilling(a: nat, clone: nat, src: Heap, open: set<nat>, start: Start, heap0: Heap,
        m0: Renaming, heap1: Heap, m1: Renaming)
      requires State(src, open + {a}, start) && a !in open && a in src && NewlyReached(src, start, a)
      requires Undisturbed({a}, heap0, m0, heap1, m1) && Undisturbed({}, heap1, m1, heap, m)
      requires a in m1 && clone == m1[a] && clone in heap1
      ensures Filling(a, clone, src, open, start, heap0, m0) && heap[clone] == heap1[clone] && Extends(m1, m)
    {
    }

    /** Gives the clone of `a` new contents. */
    method Fill(a: nat, clone: nat, o: Object, ghost src: Heap, ghost open: set<nat>, ghost start: Start,
        ghost heap0: Heap, ghost m0: Renaming)
      requires Filling(a, clone, src, open, start, heap0, m0)
      modifies this`heap
      ensures Filling(a, clone, src, open, start, heap0, m0) && clone in heap && heap[clone] == o
    {
      hide CopyOf, NewlyReached, AllReached, GoodHeap, Injective;
      FillOne(src, heap, m, open + {a}, a, o);
      heap := heap[clone := o];
    }

    lemma {:induction false} Filled(a: nat, clone: nat, src: Heap, open: set<nat>, start: Start, heap0: Heap,
        m0: Renaming)
      requires Filling(a, clone, src, open, start, heap0, m0) && CopyOf(m, src[a], heap[clone])
      ensures State(src, open, start) && Undisturbed({a}, heap0, m0, heap, m)
    {
      CloseOne(src, heap, m, open, a);
    }

    /** Clones the items of the array at `a` one by one onto its clone. */
    method CloneArray(a: nat, items: seq<Value>, clone: nat, ghost src: Heap, ghost open: set<nat>,
        ghost start: Start, ghost heap0: Heap, ghost m0: Renaming)
      returns (out: Outcome)
      requires Filling(a, clone, src, open, start, heap0, m0) && heap[clone] == ArrayObject([])
      requires src[a] == ArrayObject(items)
      modifies this
      ensures SourceIntact(src)
      ensures out.Cloned? ==>
        State(src, open, start) && Undisturbed({a}, heap0, m0, heap, m) && a in m && out.value == Ref(m[a])
      ensures out.CannotClone? ==> Uncloneable(src, start)
      decreases Unvisited(src, m), 3
    {
      hide *;
      FillingFacts(a, clone, src, open, start, heap0, m0);
      ArrayChildren(src[a]);
      NothingCloned(m, items);
      ghost var m1 := m;
      ExtendsSelf(m);
      for i := 0 to |items|
        invariant Filling(a, clone, src, open, start, heap0, m0) && clone in heap && Extends(m1, m)
        invariant heap[clone].ArrayObject? && |heap[clone].items| == i && ClonedPrefix(m, items, heap[clone].items)
      {
        ghost var m2 := m;
        UnvisitedShrinks(src, m1, m);
        var child := CloneChild(a, clone, items[i], src, open, start, heap0, m0);
        if child.CannotClone? { return child; }
        FillingFacts(a, clone, src, open, start, heap0, m0);
        OneMoreCloned(m2, m, items, heap[clone].items, child.value);
        ExtendsTwice(m1, m2, m);
        Fill(a, clone, ArrayObject(heap[clone].items + [child.value]), src, open, start, heap0, m0);
      }
      FillingFacts(a, clone, src, open, start, heap0, m0);
      ArrayCloned(m, items, heap[clone]);
      Filled(a, clone, src, open, start, heap0, m0);
      out := Cloned(Ref(clone));
    }

    /** Position of the key in `keys`, or -1. */
    method IndexOf(keys: seq<Value>, key: Value) returns (index: int)
      ensures -1 <= index < |keys|
      ensures index >= 0 ==> SameKey(keys[index], key)
      ensures index < 0 ==> forall i | 0 <= i < |keys| :: !SameKey(keys[i], key)
    {
      for i := 0 to |keys|
        invariant forall k | 0 <= k < i :: !SameKey(keys[k], key)
      {
        if SameKey(keys[i], key) { return i; }
      }
      return -1;
    }

    method WithEntry(o: Object, key: Value, value: Value) returns (r: Object)
      requires o.MapObject? && |o.keys| == |o.values|
      ensures (forall i | 0 <= i < |o.keys| :: !SameKey(o.keys[i], key)) ==>
        r == MapObject(o.keys + [key], o.values + [value])
    {
      var index := IndexOf(o.keys, key);
      if index >= 0 { return MapObject(o.keys, o.values[index := value]); }
      return MapObject(o.keys + [key], o.values + [value]);
    }

    method WithMember(o: Object, member: Value) returns (r: Object)
      requires o.SetObject?
      ensures (forall i | 0 <= i < |o.members| :: !SameKey(o.members[i], member)) ==>
        r == SetObject(o.members + [member])
    {
      var index := IndexOf(o.members, member);
      if index >= 0 { return o; }
      return SetObject(o.members + [member]);
    }

    method WithField(o: Object, name: string, value: Value) returns (r: Object)
      requires o.RecordObject? && |o.names| == |o.fields|
      ensures (forall i | 0 <= i < |o.names| :: o.names[i] != name) ==>
        r == RecordObject(o.names + [name], o.fields + [value])
    {
      for i := 0 to |o.names|
        invariant forall k | 0 <= k < i :: o.names[k] != name
      {
        if o.names[i] == name { return RecordObject(o.names, o.fields[i := value]); }
      }
      return RecordObject(o.names + [name], o.fields + [value]);
    }

    /** Clones the entries of the Map at `a` and sets them on its clone, in order. */
    method CloneMap(a: nat, clone: nat, keys: seq<Value>, values: seq<Value>, ghost src: Heap, ghost open: set<nat>,
        ghost start: Start, ghost heap0: Heap, ghost m0: Renaming)
      returns (out: Outcome)
      requires Filling(a, clone, src, open, start, heap0, m0) && heap[clone] == MapObject([], [])
      requires src[a] == MapObject(keys, values)
      modifies this
      ensures SourceIntact(src)
      ensures out.Cloned? ==>
        State(src, open, start) && Undisturbed({a}, heap0, m0, heap, m) && a in m && out.value == Ref(m[a])
      ensures out.CannotClone? ==> Uncloneable(src, start)
      decreases Unvisited(src, m), 3
    {
      hide *;
      CollectionFacts(a, clone, src, open, start, heap0, m0);
      FillingFacts(a, clone, src, open, start, heap0, m0);
      NothingCloned(m, keys);
      NothingCloned(m, values);
      ghost var m1 := m;
      ExtendsSelf(m);
      for i := 0 to |keys|
        invariant Filling(a, clone, src, open, start, heap0, m0) && clone in heap && Extends(m1, m)
        invariant heap[clone].MapObject? && |heap[clone].keys| == |heap[clone].values| == i
        invariant ClonedPrefix(m, keys, heap[clone].keys) && ClonedPrefix(m, values, heap[clone].values)
      {
        ghost var m2 := m;
        UnvisitedShrinks(src, m1, m);
        EntryFacts(src[a], i);
        ghost var c := heap[clone];
        var key := CloneChild(a, clone, keys[i], src, open, start, heap0, m0);
        if key.CannotClone? { return key; }
        FillingFacts(a, clone, src, open, start, heap0, m0);
        OneMoreCloned(m2, m, keys, c.keys, key.value);
        PrefixKept(m2, m, values, c.values);
        ExtendsTwice(m1, m2, m);
        UnvisitedShrinks(src, m1, m);
        ghost var m3 := m;
        var value := CloneChild(a, clone, values[i], src, open, start, heap0, m0);
        if value.CannotClone? { return value; }
        FillingFacts(a, clone, src, open, start, heap0, m0);
        OneMoreCloned(m3, m, values, c.values, value.value);
        PrefixKept(m3, m, keys, c.keys + [key.value]);
        ExtendsTwice(m1, m3, m);
        CollectionFacts(a, clone, src, open, start, heap0, m0);
        KeyIsNew(m, keys, c.keys, key.value);
        var c' := WithEntry(heap[clone], key.value, value.value);
        Fill(a, clone, c', src, open, start, heap0, m0);
      }
      FillingFacts(a, clone, src, open, start, heap0, m0);
      MapCloned(m, keys, values, heap[clone]);
      Filled(a, clone, src, open, start, heap0, m0);
      out := Cloned(Ref(clone));
    }

    /** Clones the members of the Set at `a` and adds them to its clone, in order. */
    method CloneSet(a: nat, clone: nat, members: seq<Value>, ghost src: Heap, ghost open: set<nat>,
        ghost start: Start, ghost heap0: Heap, ghost m0: Renaming)
      returns (out: Outcome)
      requires Filling(a, clone, src, open, start, heap0, m0) && heap[clone] == SetObject([])
      requires src[a] == SetObject(members)
      modifies this
      ensures SourceIntact(src)
      ensures out.Cloned? ==>
        State(src, open, start) && Undisturbed({a}, heap0, m0, heap, m) && a in m && out.value == Ref(m[a])
      ensures out.CannotClone? ==> Uncloneable(src, start)
      decreases Unvisited(src, m), 3
    {
      hide *;
      CollectionFacts(a, clone, src, open, start, heap0, m0);
      FillingFacts(a, clone, src, open, start, heap0, m0);
      NothingCloned(m, members);
      ghost var m1 := m;
      ExtendsSelf(m);
      for i := 0 to |members|
        invariant Filling(a, clone, src, open, start, heap0, m0) && clone in heap && Extends(m1, m)
        invariant heap[clone].SetObject? && |heap[clone].members| == i && ClonedPrefix(m, members, heap[clone].members)
      {
        ghost var m2 := m;
        UnvisitedShrinks(src, m1, m);
        MemberFacts(src[a], i);
        ghost var c := heap[clone];
        var member := CloneChild(a, clone, members[i], src, open, start, heap0, m0);
        if member.CannotClone? { return member; }
        FillingFacts(a, clone, src, open, start, heap0, m0);
        OneMoreCloned(m2, m, members, c.members, member.value);
        ExtendsTwice(m1, m2, m);
        CollectionFacts(a, clone, src, open, start, heap0, m0);
        KeyIsNew(m, members, c.members, member.value);
        var c' := WithMember(heap[clone], member.value);
        Fill(a, clone, c', src, open, start, heap0, m0);
      }
      FillingFacts(a, clone, src, open, start, heap0, m0);
      SetCloned(m, members, heap[clone]);
      Filled(a, clone, src, open, start, heap0, m0);
      out := Cloned(Ref(clone));
    }

    /** Clones the fields of the object at `a` and sets them on its clone, in order. */
    method CloneRecord(a: nat, clone: nat, names: seq<string>, fields: seq<Value>, ghost src: Heap,
        ghost open: set<nat>, ghost start: Start, ghost heap0: Heap, ghost m0: Renaming)
      returns (out: Outcome)
      requires Filling(a, clone, src, open, start, heap0, m0) && heap[clone] == RecordObject([], [])
      requires src[a] == RecordObject(names, fields)
      modifies this
      ensures SourceIntact(src)
      ensures out.Cloned? ==>
        State(src, open, start) && Undisturbed({a}, heap0, m0, heap, m) && a in m && out.value == Ref(m[a])
      ensures out.CannotClone? ==> Uncloneable(src, start)
      decreases Unvisited(src, m), 3
    {
      hide *;
      CollectionFacts(a, clone, src, open, start, heap0, m0);
      FillingFacts(a, clone, src, open, start, heap0, m0);
      NothingCloned(m, fields);
      ghost var m1 := m;
      ExtendsSelf(m);
      for i := 0 to |names|
        invariant Filling(a, clone, src, open, start, heap0, m0) && clone in heap && Extends(m1, m)
        invariant heap[clone].RecordObject? && |heap[clone].fields| == i && heap[clone].names == names[..i]
        invariant ClonedPrefix(m, fields, heap[clone].fields)
      {
        ghost var m2 := m;
        UnvisitedShrinks(src, m1, m);
        FieldFacts(src[a], i);
        ghost var c := heap[clone];
        var field := CloneChild(a, clone, fields[i], src, open, start, heap0, m0);
        if field.CannotClone? { return field; }
        FillingFacts(a, clone, src, open, start, heap0, m0);
        OneMoreCloned(m2, m, fields, c.fields, field.value);
        ExtendsTwice(m1, m2, m);
        var c' := WithField(heap[clone], names[i], field.value);
        assert names[..i] + [names[i]] == names[..i + 1];
        Fill(a, clone, c', src, open, start, heap0, m0);
      }
      FillingFacts(a, clone, src, open, start, heap0, m0);
      RecordCloned(m, names, fields, heap[clone]);
      Filled(a, clone, src, open, start, heap0, m0);
      out := Cloned(Ref(clone));
    }

    lemma {:induction false} CollectionFacts(a: nat, clone: nat, src: Heap, open: set<nat>, start: Start, heap0: Heap,
        m0: Renaming)
      requires Filling(a, clone, src, open, start, heap0, m0)
      ensures Injective(m) && WellFormed(src[a])
      ensures src[a].MapObject? ==> |src[a].keys| == |src[a].values| && DistinctKeys(src[a].keys)
      ensures src[a].SetObject? ==> DistinctKeys(src[a].members)
      ensures src[a].RecordObject? ==> |src[a].names| == |src[a].fields|
    {
      assert GoodHeap(src);
    }

    /** A fresh clone of `a`, empty and open. */
    method Begin(a: nat, empty: Object, ghost src: Heap, ghost open: set<nat>, ghost start: Start) returns (clone: nat)
      requires State(src, open, start) && a in src && a !in m && NewlyReached(src, start, a)
      modifies this
      ensures Filling(a, clone, src, open, start, heap, m) && heap[clone] == empty
      ensures Undisturbed({}, old(heap), old(m), heap, m) && Unvisited(src, m) < Unvisited(src, old(m))
    {
      hide CopyOf, Reached, GoodHeap, Unvisited;
      clone := Open(a, empty, src, open, start);
    }

    method CloneLeaf(a: nat, clone: nat, ghost src: Heap, ghost open: set<nat>, ghost start: Start, ghost heap0: Heap,
        ghost m0: Renaming)
      returns (out: Outcome)
      requires Filling(a, clone, src, open, start, heap0, m0) && heap[clone] == src[a]
      requires src[a].DateObject? || src[a].RegExpObject?
      ensures SourceIntact(src)
      ensures out.Cloned? && State(src, open, start) && Undisturbed({a}, heap0, m0, heap, m) && a in m
      ensures out.value == Ref(m[a])
    {
      hide *;
      FillingFacts(a, clone, src, open, start, heap0, m0);
      LeafCopied(m, src[a]);
      Filled(a, clone, src, open, start, heap0, m0);
      out := Cloned(Ref(clone));
    }

    lemma {:induction false} ValueFacts(value: Value, src: Heap, open: set<nat>, start: Start)
      requires State(src, open, start) && InHeap(src, value)
      ensures TableOk() && SourceIntact(src) && Undisturbed({}, heap, m, heap, m)
      ensures value.Ref? ==> value.address in src && value.address in heap && heap[value.address] == src[value.address]
      ensures !value.Ref? || value.address in m ==>
                Covers(m, value) && Image(m, value) == if value.Ref? then Ref(m[value.address]) else value
    {
    }

    lemma {:induction false} OpenKnown(src: Heap, open: set<nat>, start: Start)
      requires State(src, open, start)
      ensures open <= m.Keys && start.known <= m.Keys
    {
    }

    lemma {:induction false} StillToFind(value: Value, src: Heap, open: set<nat>, start: Start)
      requires State(src, open, start) && value.Ref? && value.address !in m && OnTheWay(src, start, value)
      ensures NewlyReached(src, start, value.address)
    {
    }

    lemma {:induction false} StateNew(src: Heap, open: set<nat>, start: Start, before: Renaming)
      requires State(src, open, start)
      ensures start.known == before.Keys && open <= before.Keys && Covers(m, start.value) ==>
        && (forall a :: a in m && a !in before <==> NewlyReached(src, start, a))
        && !Uncloneable(src, start)
    {
      if start.known == before.Keys && open <= before.Keys && Covers(m, start.value) {
        ExactlyNew(src, heap, m, open, start);
      }
    }

    /** Called with the value itself as the start, the table grows by exactly what the value newly leads to. */
    method CloneValue(value: Value, ghost src: Heap, ghost open: set<nat>, ghost start: Start) returns (out: Outcome)
      requires State(src, open, start) && InHeap(src, value) && OnTheWay(src, start, value)
      modifies this
      ensures SourceIntact(src)
      ensures out.Cloned? ==> State(src, open, start) && Undisturbed({}, old(heap), old(m), heap, m)
      ensures out.Cloned? ==> Covers(m, value) && out.value == Image(m, value)
      ensures out.CannotClone? ==> Uncloneable(src, start)
      ensures start == Start(value, old(m).Keys) ==>
        && (out.CannotClone? <==> Uncloneable(src, start))
        && (out.Cloned? ==> forall a :: a in m && a !in old(m) <==> NewlyReached(src, start, a))
      decreases Unvisited(src, m), 1
    {
      hide *;
      OpenKnown(src, open, start);
      ValueFacts(value, src, open, start);
      if !value.Ref? {
        out := Cloned(value);
      } else {
        var existing := Lookup(value);
        if existing != Undefined {
          out := Cloned(existing);
        } else {
          StillToFind(value, src, open, start);
          out := CloneObject(value.address, src, open, start);
        }
      }
      if out.Cloned? {
        ValueFacts(value, src, open, start);
        StateNew(src, open, start, old(m));
      }
    }

    method CloneObject(a: nat, ghost src: Heap, ghost open: set<nat>, ghost start: Start) returns (out: Outcome)
      requires State(src, open, start) && a in src && a in heap && heap[a] == src[a] && a !in m
      requires NewlyReached(src, start, a)
      requires SourceIntact(src)
      modifies this
      ensures SourceIntact(src)
      ensures out.Cloned? ==> State(src, open, start) && Undisturbed({}, old(heap), old(m), heap, m)
      ensures out.Cloned? ==> a in m && out.value == Ref(m[a])
      ensures out.CannotClone? ==> Uncloneable(src, start)
      decreases Unvisited(src, m), 0
    {
      hide *;
      ghost var heap1, m1;
      match heap[a] {
        case Opaque(kind) =>
          OpaqueReached(src, start, a);
          return CannotClone(kind);
        case ArrayObject(items) =>
          var clone := Begin(a, ArrayObject([]), src, open, start);
          heap1, m1 := heap, m;
          out := CloneArray(a, items, clone, src, open, start, heap1, m1);
        case MapObject(keys, values) =>
          var clone := Begin(a, MapObject([], []), src, open, start);
          heap1, m1 := heap, m;
          out := CloneMap(a, clone, keys, values, src, open, start, heap1, m1);
        case SetObject(members) =>
          var clone := Begin(a, SetObject([]), src, open, start);
          heap1, m1 := heap, m;
          out := CloneSet(a, clone, members, src, open, start, heap1, m1);
        case DateObject(time) =>
          var clone := Begin(a, DateObject(time), src, open, start);
          heap1, m1 := heap, m;
          out := CloneLeaf(a, clone, src, open, start, heap1, m1);
        case RegExpObject(source, flags) =>
          var clone := Begin(a, RegExpObject(source, flags), src, open, start);
          heap1, m1 := heap, m;
          out := CloneLeaf(a, clone, src, open, start, heap1, m1);
        case RecordObject(names, fields) =>
          var clone := Begin(a, RecordObject([], []), src, open, start);
          heap1, m1 := heap, m;
          out := CloneRecord(a, clone, names, fields, src, open, start, heap1, m1);
      }
      if out.Cloned? { UndisturbedByNew(a, old(heap), old(m), heap1, m1, heap, m); }
    }

    /** The whole call: a copy of everything the value leads to and of nothing else, or an error exactly when
        something on the way cannot be cloned. */
    method StructuredClone(value: Value) returns (out: Outcome)
      requires TableOk() && m == map[] && GoodHeap(heap) && InHeap(heap, value)
      modifies this
      ensures forall a | a in old(heap) :: a in heap && heap[a] == old(heap)[a]
      ensures out.Cloned? ==> IsCopy(old(heap), heap, m) && Covers(m, value) && out.value == Image(m, value)
      ensures out.Cloned? ==> forall a :: a in m <==> Reached(old(heap), value, a)
      ensures out.CannotClone? <==>
              exists a :: a in old(heap) && Reached(old(heap), value, a) && old(heap)[a].Opaque?
    {
      ghost var src, start := heap, Start(value, {});
      NewRoot(src, start);
      forall a ensures NewlyReached(src, start, a) <==> Reached(src, value, a) { NothingKnown(src, value, a); }
      out := CloneValue(value, src, {}, start);
    }
  }

  lemma {:induction false} ArrayChildren(o: Object)
    ensures o.ArrayObject? ==> Children(o) == o.items
  {
  }

  lemma {:induction false} NothingCloned(m: Renaming, xs: seq<Value>)
    ensures ClonedPrefix(m, xs, [])
  {
  }

  lemma {:induction false} ExtendsSelf(m: Renaming)
    ensures Extends(m, m)
  {
  }

  lemma {:induction false} ExtendsTwice(m0: Renaming, m1: Renaming, m2: Renaming)
    requires Extends(m0, m1) && Extends(m1, m2)
    ensures Extends(m0, m2)
  {
  }

  lemma {:induction false} OneMoreCloned(m0: Renaming, m1: Renaming, xs: seq<Value>, ys: seq<Value>, y: Value)
    requires Extends(m0, m1) && ClonedPrefix(m0, xs, ys) && |ys| < |xs|
    requires Covers(m1, xs[|ys|]) && y == Image(m1, xs[|ys|])
    ensures ClonedPrefix(m1, xs, ys + [y])
  {
  }

  lemma {:induction false} OpaqueReached(src: Heap, start: Start, a: nat)
    requires a in src && NewlyReached(src, start, a) && src[a].Opaque?
    ensures Uncloneable(src, start)
  {
  }

  lemma {:induction false} LeafCopied(m: Renaming, o: Object)
    requires o.DateObject? || o.RegExpObject?
    ensures CopyOf(m, o, o)
  {
  }

  lemma {:induction false} EntryFacts(o: Object, i: nat)
    requires o.MapObject? && i < |o.keys| == |o.values|
    ensures o.keys[i] in Children(o) && o.values[i] in Children(o)
  {
    assert Children(o)[i] == o.keys[i] && Children(o)[|o.keys| + i] == o.values[i];
  }

  lemma {:induction false} MemberFacts(o: Object, i: nat)
    requires o.SetObject? && i < |o.members|
    ensures o.members[i] in Children(o)
  {
  }

  lemma {:induction false} FieldFacts(o: Object, i: nat)
    requires o.RecordObject? && WellFormed(o) && i < |o.names|
    ensures o.fields[i] in Children(o) && forall k | 0 <= k < |o.names[..i]| :: o.names[..i][k] != o.names[i]
  {
  }

  /** The image of the next key differs from the images of the keys before it. */
  lemma {:induction false} KeyIsNew(m: Renaming, keys: seq<Value>, ys: seq<Value>, y: Value)
    requires Injective(m) && DistinctKeys(keys) && ClonedPrefix(m, keys, ys + [y])
    ensures forall k | 0 <= k < |ys| :: !SameKey(ys[k], y)
  {
    forall k | 0 <= k < |ys| ensures !SameKey(ys[k], y) {
      assert (ys + [y])[k] == ys[k] && (ys + [y])[|ys|] == y;
      assert !SameKey(keys[k], keys[|ys|]);
    }
  }

  lemma {:induction false} MapCloned(m: Renaming, keys: seq<Value>, values: seq<Value>, c: Object)
    requires c.MapObject? && |c.keys| == |keys| && |c.values| == |values|
    requires ClonedPrefix(m, keys, c.keys) && ClonedPrefix(m, values, c.values)
    ensures CopyOf(m, MapObject(keys, values), c)
  {
    assert c.keys == ImageAll(m, keys) && c.values == ImageAll(m, values);
  }

  lemma {:induction false} SetCloned(m: Renaming, members: seq<Value>, c: Object)
    requires c.SetObject? && |c.members| == |members| && ClonedPrefix(m, members, c.members)
    ensures CopyOf(m, SetObject(members), c)
  {
    assert c.members == ImageAll(m, members);
  }

  lemma {:induction false} RecordCloned(m: Renaming, names: seq<string>, fields: seq<Value>, c: Object)
    requires c.RecordObject? && c.names == names[..|names|] && |c.fields| == |fields|
    requires ClonedPrefix(m, fields, c.fields)
    ensures CopyOf(m, RecordObject(names, fields), c)
  {
    assert c.fields == ImageAll(m, fields) && names[..|names|] == names;
  }

  lemma {:induction false} ArrayCloned(m: Renaming, items: seq<Value>, c: Object)
    requires c.ArrayObject? && |c.items| == |items| && ClonedPrefix(m, items, c.items)
    ensures CopyOf(m, ArrayObject(items), c)
  {
    assert c.items == ImageAll(m, items);
  }

  /** When the clone of the start is complete, the objects that joined the table are those newly reached. */
  lemma {:induction false} ExactlyNew(src: Heap, heap: Heap, m: Renaming, open: set<nat>, start: Start)
    requires Consistent(src, heap, m, open) && open <= start.known
    requires AllReached(src, start, m) && Covers(m, start.value)
    ensures forall a :: a in m && a !in start.known <==> NewlyReached(src, start, a)
    ensures !Uncloneable(src, start)
  {
    var s := m.Keys - start.known;
    forall a, w | a in s && a in src && w in Children(src[a]) && w.Ref? ensures w.address in m {
      CopyChildren(m, src[a], heap[m[a]]);
    }
    assert ClosedBeyond(src, start, s);
    forall a | a in src && NewlyReached(src, start, a) ensures a in m && !src[a].Opaque? {
      assert a in s;
    }
  }

  lemma {:induction false} OneMoreReached(src: Heap, start: Start, m: Renaming, a: nat, c: nat)
    requires AllReached(src, start, m) && NewlyReached(src, start, a)
    ensures AllReached(src, start, m[a := c])
  {
  }
}
