/**
  Values and objects as `structuredClone` sees them, what it means for one object graph to be a copy of
  another, and that a copy can be told from its original by identity alone.
 */
module CloneGraph {

  datatype Number = NaN | NegativeZero | Infinite(negative: bool) | Finite(value: real)

  datatype Value =
    | Undefined | Null | Boolean(b: bool) | Numeric(n: Number) | Text(s: string) | BigInteger(i: int)
    | Ref(address: nat)

  /** `Opaque` stands for every kind that cannot be cloned: functions, symbols, promises, weak collections,
      generators, iterators. `RecordObject` stands for plain objects and errors, with their own enumerable
      string keys. */
  datatype Object =
    | ArrayObject(items: seq<Value>)
    | MapObject(keys: seq<Value>, values: seq<Value>)
    | SetObject(members: seq<Value>)
    | DateObject(time: Value)
    | RegExpObject(source: string, flags: string)
    | RecordObject(names: seq<string>, fields: seq<Value>)
    | Opaque(kind: string)

  type Heap = map<nat, Object>

  /** The equality by which Maps and Sets find a key: numbers by value with NaN equal to itself, text and
      big integers by content, objects by identity. */
  predicate SameKey(a: Value, b: Value) {
    if a.Numeric? && b.Numeric? then AsReal(a.n) == AsReal(b.n) else a == b
  }

  function AsReal(n: Number): Number {
    if n == NegativeZero then Finite(0.0) else n
  }

  /** Only the two zeros are the same key without being the same value. */
  lemma {:induction false} SameKeyIs(a: Value, b: Value)
    ensures SameKey(a, b) <==>
      a == b || {a, b} == {Numeric(NegativeZero), Numeric(Finite(0.0))}
  {
    if a != b && {a, b} == {Numeric(NegativeZero), Numeric(Finite(0.0))} {
      assert a in {Numeric(NegativeZero), Numeric(Finite(0.0))} && b in {Numeric(NegativeZero), Numeric(Finite(0.0))};
    }
  }

  function Children(o: Object): seq<Value> {
    match o
    case ArrayObject(items) => items
    case MapObject(keys, values) => keys + values
    case SetObject(members) => members
    case RecordObject(_, fields) => fields
    case _ => []
  }

  /** The keys of a collection are pairwise different. */
  ghost predicate DistinctKeys(keys: seq<Value>) {
    forall i, j | 0 <= i < j < |keys| :: !SameKey(keys[i], keys[j])
  }

  ghost predicate WellFormed(o: Object) {
    match o
    case MapObject(keys, values) => |keys| == |values| && DistinctKeys(keys)
    case SetObject(members) => DistinctKeys(members)
    case RecordObject(names, fields) =>
      |names| == |fields| && forall i, j | 0 <= i < j < |names| :: names[i] != names[j]
    case _ => true
  }

  ghost predicate InHeap(h: Heap, v: Value) {
    v.Ref? ==> v.address in h
  }

  ghost predicate GoodHeap(h: Heap) {
    forall a | a in h :: WellFormed(h[a]) && forall v | v in Children(h[a]) :: InHeap(h, v)
  }

  // ----- images under a renaming of addresses

  type Renaming = map<nat, nat>

  predicate Covers(m: Renaming, v: Value) {
    v.Ref? ==> v.address in m
  }

  function Image(m: Renaming, v: Value): Value
    requires Covers(m, v)
  {
    if v.Ref? then Ref(m[v.address]) else v
  }

  ghost predicate CoversAll(m: Renaming, vs: seq<Value>) {
    forall i | 0 <= i < |vs| :: Covers(m, vs[i])
  }

  ghost function ImageAll(m: Renaming, vs: seq<Value>): (r: seq<Value>)
    requires CoversAll(m, vs)
    ensures |r| == |vs| && forall i | 0 <= i < |vs| :: r[i] == Image(m, vs[i])
  {
    seq(|vs|, i requires 0 <= i < |vs| => Image(m, vs[i]))
  }

  /** `c` is the copy of `o` under the renaming: same kind, same size and order, children renamed. */
  ghost predicate CopyOf(m: Renaming, o: Object, c: Object) {
    match o
    case ArrayObject(items) => CoversAll(m, items) && c == ArrayObject(ImageAll(m, items))
    case MapObject(keys, values) =>
      CoversAll(m, keys) && CoversAll(m, values) && c == MapObject(ImageAll(m, keys), ImageAll(m, values))
    case SetObject(members) => CoversAll(m, members) && c == SetObject(ImageAll(m, members))
    case DateObject(time) => c == o
    case RegExpObject(source, flags) => c == o
    case RecordObject(names, fields) => CoversAll(m, fields) && c == RecordObject(names, ImageAll(m, fields))
    case Opaque(_) => false
  }

  ghost predicate Injective(m: Renaming) {
    forall a, b | a in m && b in m && m[a] == m[b] :: a == b
  }

  /** The objects that `m` renames have been copied to fresh addresses. */
  ghost predicate IsCopy(before: Heap, after: Heap, m: Renaming) {
    && Injective(m)
    && (forall a | a in before :: a in after && after[a] == before[a])
    && forall a | a in m :: a in before && m[a] !in before && m[a] in after && CopyOf(m, before[a], after[m[a]])
  }

  // ----- reachability

  /** A set of addresses that holds everything `v` leads to. */
  ghost predicate ClosedFrom(h: Heap, v: Value, s: set<nat>) {
    && (v.Ref? ==> v.address in s)
    && forall a, w | a in s && a in h && w in Children(h[a]) :: w.Ref? ==> w.address in s
  }

  ghost predicate Reached(h: Heap, v: Value, a: nat) {
    forall s: set<nat> | ClosedFrom(h, v, s) :: a in s
  }

  // ----- what a program can observe by following references

  /** Following the `path[k]`-th child at every step. */
  ghost function Follow(h: Heap, v: Value, path: seq<nat>): (r: Value)
    decreases |path|
  {
    if path == [] then v
    else if v.Ref? && v.address in h && path[0] < |Children(h[v.address])|
    then Follow(h, Children(h[v.address])[path[0]], path[1..])
    else Undefined
  }

  lemma {:induction false} CopyChildren(m: Renaming, o: Object, c: Object)
    requires CopyOf(m, o, c)
    ensures |Children(c)| == |Children(o)|
    ensures forall i | 0 <= i < |Children(o)| :: Covers(m, Children(o)[i]) && Children(c)[i] == Image(m, Children(o)[i])
  {
  }

  /** Every path leads in the copy to the image of what it leads to in the original. */
  lemma {:induction false} FollowCopy(before: Heap, after: Heap, m: Renaming, v: Value, path: seq<nat>)
    requires IsCopy(before, after, m) && Covers(m, v)
    ensures Covers(m, Follow(before, v, path))
    ensures Follow(after, Image(m, v), path) == Image(m, Follow(before, v, path))
    decreases |path|
  {
    if path != [] && v.Ref? {
      var o, c := before[v.address], after[m[v.address]];
      CopyChildren(m, o, c);
      if path[0] < |Children(o)| {
        FollowCopy(before, after, m, Children(o)[path[0]], path[1..]);
      }
    }
  }

  /** Sharing is the same in the copy: two paths meet in one object there iff they meet here. */
  lemma {:induction false} SharingPreserved(before: Heap, after: Heap, m: Renaming, v: Value, p: seq<nat>, q: seq<nat>)
    requires IsCopy(before, after, m) && Covers(m, v)
    ensures Follow(after, Image(m, v), p) == Follow(after, Image(m, v), q) <==>
      Follow(before, v, p) == Follow(before, v, q)
  {
    FollowCopy(before, after, m, v, p);
    FollowCopy(before, after, m, v, q);
  }

  /** Nothing in the copy is an object of the original. */
  lemma {:induction false} CopyIsApart(before: Heap, after: Heap, m: Renaming, v: Value, path: seq<nat>)
    requires IsCopy(before, after, m) && Covers(m, v)
    ensures var w := Follow(after, Image(m, v), path); w.Ref? ==> w.address !in before
  {
    FollowCopy(before, after, m, v, path);
  }
}
