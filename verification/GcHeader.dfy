/**
  Allocation headers, and the two structures the collector threads through them: the open-addressing
  address table and the intrusive list.
 */
module GcHeader {
  import opened GcGraph

  class Header {
    const address: nat
    const kind: Kind
    const size: nat
    var gcNext: Header?
    var marked: bool
    var flat: bool
    var slots: seq<Word>
    var words: seq<Word>
    var keys: seq<Word>
    var values: seq<Word>
    var target: Word

    constructor (address: nat, kind: Kind, size: nat, next: Header?)
      ensures this.address == address && this.kind == kind && this.size == size && gcNext == next
      ensures !marked && Contents() == Fresh(kind, size)
    {
      this.address, this.kind, this.size, gcNext := address, kind, size, next;
      marked, flat, slots, words, keys, values, target := false, false, [], [], [], [], UNDEFINED;
    }

    function Contents(): Node
      reads this`flat, this`slots, this`words, this`keys, this`values, this`target
    {
      Node(kind, size, flat, slots, words, keys, values, target)
    }

    // ----- WeakMap and WeakSet operations; a false `ok` is the TypeError for a key that is no object

    method IndexOf(list: seq<Word>, word: Word) returns (index: int)
      ensures -1 <= index < |list|
      ensures index >= 0 ==> list[index] == word
      ensures index < 0 <==> word !in list
    {
      for i := 0 to |list|
        invariant word !in list[..i]
      {
        if list[i] == word { return i; }
      }
      return -1;
    }

    method WeakMapSet(key: Word, value: Word) returns (ok: bool)
      requires kind.WeakMapKind? && |keys| == |values| && Distinct(keys)
      modifies this`keys, this`values
      ensures |keys| == |values| && Distinct(keys)
      ensures ok == (key.Boxed? && key.tag !in {StringTag, BigIntTag})
      ensures !ok ==> keys == old(keys) && values == old(values)
      ensures ok ==> forall k, v :: HasEntry(Contents(), k, v) <==>
                if k == key then v == value else old(HasEntry(Contents(), k, v))
      ensures old(keys) <= keys <= old(keys) + [key]
    {
      hide HasEntry;
      if !IsWeakTarget(key) { return false; }
      var index := IndexOf(keys, key);
      ghost var before := Contents();
      if index >= 0 {
        values := values[index := value];
        EntryReplaced(before, index, value);
      } else {
        keys := keys + [key];
        values := values + [value];
        EntryAdded(before, key, value);
      }
      return true;
    }

    method WeakMapDelete(key: Word) returns (removed: bool)
      requires kind.WeakMapKind? && |keys| == |values| && Distinct(keys)
      modifies this`keys, this`values
      ensures removed == (IsWeakTarget(key) && key in old(keys))
      ensures !removed ==> keys == old(keys) && values == old(values)
      ensures removed ==> key !in keys && exists i | 0 <= i < |old(keys)| ::
                old(keys)[i] == key && keys == Without(old(keys), i) && values == Without(old(values), i)
    {
      hide Shifted, Without, Distinct;
      if !IsWeakTarget(key) { return false; }
      var index := IndexOf(keys, key);
      if index < 0 { return false; }
      ghost var keys0, values0 := keys, values;
      NotShifted(keys, index);
      NotShifted(values, index);
      for i := index + 1 to |keys|
        invariant |keys| == |keys0| == |values|
        invariant Shifted(keys, keys0, index, i) && Shifted(values, values0, index, i)
      {
        ShiftOne(keys, keys0, index, i);
        ShiftOne(values, values0, index, i);
        keys := keys[i - 1 := keys[i]];
        values := values[i - 1 := values[i]];
      }
      AllShifted(keys, keys0, index);
      AllShifted(values, values0, index);
      keys := keys[..|keys| - 1];
      values := values[..|values| - 1];
      WithoutOnly(keys0, index);
      return true;
    }

    method WeakSetAdd(value: Word) returns (ok: bool)
      requires kind.WeakSetKind? && Distinct(values)
      modifies this`values
      ensures Distinct(values)
      ensures ok == (value.Boxed? && value.tag !in {StringTag, BigIntTag})
      ensures values == if !ok || value in old(values) then old(values) else old(values) + [value]
    {
      if !IsWeakTarget(value) { return false; }
      var index := IndexOf(values, value);
      if index < 0 { values := values + [value]; }
      return true;
    }
  }

  lemma {:induction false} EntryReplaced(n: Node, i: nat, value: Word)
    requires EphemeronEntry(n, i) && |n.keys| == |n.values| && Distinct(n.keys)
    ensures var n' := n.(values := n.values[i := value]);
      forall k, v :: HasEntry(n', k, v) <==> if k == n.keys[i] then v == value else HasEntry(n, k, v)
  {
    var n' := n.(values := n.values[i := value]);
    assert EphemeronEntry(n', i);
    forall k, v | k != n.keys[i] && HasEntry(n, k, v) ensures HasEntry(n', k, v) {
      var j :| EphemeronEntry(n, j) && n.keys[j] == k && n.values[j] == v;
      assert EphemeronEntry(n', j);
    }
    forall k, v | k != n.keys[i] && HasEntry(n', k, v) ensures HasEntry(n, k, v) {
      var j :| EphemeronEntry(n', j) && n'.keys[j] == k && n'.values[j] == v;
      assert EphemeronEntry(n, j);
    }
  }

  lemma {:induction false} EntryAdded(n: Node, key: Word, value: Word)
    requires n.kind.WeakMapKind? && |n.keys| == |n.values| && key !in n.keys
    ensures var n' := n.(keys := n.keys + [key], values := n.values + [value]);
      forall k, v :: HasEntry(n', k, v) <==> if k == key then v == value else HasEntry(n, k, v)
  {
    var n' := n.(keys := n.keys + [key], values := n.values + [value]);
    assert EphemeronEntry(n', |n.keys|) && n'.keys[|n.keys|] == key && n'.values[|n.keys|] == value;
    forall k, v | k != key && HasEntry(n, k, v) ensures HasEntry(n', k, v) {
      var j :| EphemeronEntry(n, j) && n.keys[j] == k && n.values[j] == v;
      assert EphemeronEntry(n', j) && n'.keys[j] == k && n'.values[j] == v;
    }
    forall k, v | k != key && HasEntry(n', k, v) ensures HasEntry(n, k, v) {
      var j :| EphemeronEntry(n', j) && n'.keys[j] == k && n'.values[j] == v;
      assert EphemeronEntry(n, j);
    }
  }

  /** `xs` without its `i`-th element. */
  function Without<T>(xs: seq<T>, i: nat): seq<T>
    requires i < |xs|
  {
    xs[..i] + xs[i + 1..]
  }

  /** `xs` is `all` with the elements after `index` and before `i` moved one place down. */
  ghost predicate Shifted(xs: seq<Word>, all: seq<Word>, index: nat, i: nat) {
    && |xs| == |all| && index < i <= |all|
    && forall j | 0 <= j < |all| :: xs[j] == all[if index <= j < i - 1 then j + 1 else j]
  }

  lemma {:induction false} NotShifted(xs: seq<Word>, index: nat)
    requires index < |xs|
    ensures Shifted(xs, xs, index, index + 1)
  {
  }

  lemma {:induction false} ShiftOne(xs: seq<Word>, all: seq<Word>, index: nat, i: nat)
    requires Shifted(xs, all, index, i) && i < |xs|
    ensures Shifted(xs[i - 1 := xs[i]], all, index, i + 1)
  {
  }

  lemma {:induction false} AllShifted(xs: seq<Word>, all: seq<Word>, index: nat)
    requires Shifted(xs, all, index, |xs|) && index < |xs|
    ensures xs[..|xs| - 1] == Without(all, index)
  {
  }

  lemma {:induction false} WithoutOnly(xs: seq<Word>, i: nat)
    requires Distinct(xs) && i < |xs|
    ensures xs[i] !in Without(xs, i)
  {
  }

  // ----- the address table

  const MULTIPLIER := 0x9E37_79B9_7F4A_7C15

  function Hash(pointer: nat): nat {
    ((pointer / 16) * MULTIPLIER % 0x1_0000_0000_0000_0000) / 0x2_0000
  }

  /** The slot that a probe starting at `start` visits after `d` steps. */
  function Probe(start: nat, d: nat, n: nat): nat
    requires start < n && d <= n
  {
    if start + d < n then start + d else start + d - n
  }

  lemma {:induction false} ProbeStep(start: nat, d: nat, n: nat)
    requires start < n && d < n
    ensures (Probe(start, d, n) + 1) % n == Probe(start, d + 1, n)
  {
    var slot := Probe(start, d, n);
    if slot + 1 == n { } else { }
  }

  lemma {:induction false} ProbeReaches(start: nat, e: nat, n: nat) returns (d: nat)
    requires start < n && e < n
    ensures d < n && Probe(start, d, n) == e
  {
    d := if start <= e then e - start else e + n - start;
  }

  /** The probe sequence of `h` meets `h` before any empty slot. */
  ghost predicate Findable(t: seq<Header?>, h: Header) {
    |t| > 0 && exists d: nat :: d < |t| && FoundAt(t, h, d)
  }

  ghost predicate FoundAt(t: seq<Header?>, h: Header, d: nat)
    requires 0 < |t| && d < |t|
  {
    && t[Probe(Hash(h.address) % |t|, d, |t|)] == h
    && forall k: nat | k < d :: t[Probe(Hash(h.address) % |t|, k, |t|)] != null
  }

  ghost function Used(t: seq<Header?>): set<nat> {
    set s | 0 <= s < |t| && t[s] != null
  }

  ghost function Range(n: nat): (r: set<nat>)
    ensures forall k: nat :: k in r <==> k < n
    ensures |r| == n
  {
    if n == 0 then {} else Range(n - 1) + {n - 1}
  }

  /** With fewer entries than slots, some slot is empty. */
  lemma {:induction false} EmptySlot(t: seq<Header?>) returns (e: nat)
    requires |Used(t)| < |t|
    ensures e < |t| && t[e] == null
  {
    assert Used(t) != Range(|t|);
    e :| e in Range(|t|) && e !in Used(t);
  }

  lemma {:induction false} FillSlot(t: seq<Header?>, slot: nat, d: nat, h: Header)
    requires slot < |t| && t[slot] == null
    requires d < |t| && slot == Probe(Hash(h.address) % |t|, d, |t|)
    requires forall k: nat | k < d :: t[Probe(Hash(h.address) % |t|, k, |t|)] != null
    ensures Findable(t[slot := h], h)
    ensures |Used(t[slot := h])| == |Used(t)| + 1
    ensures forall x | Findable(t, x) :: Findable(t[slot := h], x)
  {
    var t' := t[slot := h];
    assert FoundAt(t', h, d);
    assert Used(t') == Used(t) + {slot};
    forall x | Findable(t, x) ensures Findable(t', x) {
      var e: nat :| e < |t| && FoundAt(t, x, e);
      assert FoundAt(t', x, e);
    }
  }

  // ----- sequences of headers

  ghost predicate Linked(head: Header?, list: seq<Header>)
    reads list`gcNext
  {
    && head == (if list == [] then null else list[0])
    && forall i {:trigger list[i].gcNext} | 0 <= i < |list| ::
         list[i].gcNext == if i + 1 < |list| then list[i + 1] else null
  }

  ghost predicate NoDuplicates(hs: seq<Header>) {
    forall i, j | 0 <= i < j < |hs| :: hs[i] != hs[j]
  }

  lemma {:induction false} NotLater(hs: seq<Header>, i: nat)
    requires NoDuplicates(hs) && i < |hs|
    ensures hs[i] !in hs[i + 1..] && forall h :: h in hs[i..] <==> h == hs[i] || h in hs[i + 1..]
  {
    assert hs[i..] == [hs[i]] + hs[i + 1..];
  }

  ghost function Addresses(hs: seq<Header>): set<nat> {
    set h | h in hs :: h.address
  }

  ghost function TotalSize(hs: seq<Header>): nat {
    if hs == [] then 0 else TotalSize(hs[..|hs| - 1]) + hs[|hs| - 1].size
  }

  lemma {:induction false} TotalSizeConcat(a: seq<Header>, b: seq<Header>)
    ensures TotalSize(a + b) == TotalSize(a) + TotalSize(b)
  {
    if b == [] {
      assert a + b == a;
    } else {
      var i := |b| - 1;
      TotalSizeConcat(a, b[..i]);
      assert (a + b)[..|a + b| - 1] == a + b[..i];
    }
  }

  lemma {:induction false} TotalSizeWithout(hs: seq<Header>, k: nat)
    requires k < |hs|
    ensures TotalSize(hs) == TotalSize(hs[..k] + hs[k + 1..]) + hs[k].size
  {
    assert hs == hs[..k] + [hs[k]] + hs[k + 1..];
    TotalSizeConcat(hs[..k] + [hs[k]], hs[k + 1..]);
    TotalSizeConcat(hs[..k], [hs[k]]);
    TotalSizeConcat(hs[..k], hs[k + 1..]);
    assert [hs[k]][..0] == [];
  }

  /** The headers whose address is in `m`, in list order. */
  ghost function Survivors(hs: seq<Header>, m: set<nat>): seq<Header> {
    if hs == [] then []
    else
      var i := |hs| - 1;
      if hs[i].address in m then Survivors(hs[..i], m) + [hs[i]] else Survivors(hs[..i], m)
  }

  lemma {:induction false} SurvivorsSize(hs: seq<Header>, m: set<nat>)
    ensures TotalSize(Survivors(hs, m)) <= TotalSize(hs)
  {
    if hs != [] {
      var i := |hs| - 1;
      SurvivorsSize(hs[..i], m);
      if hs[i].address in m {
        assert Survivors(hs, m)[..|Survivors(hs, m)| - 1] == Survivors(hs[..i], m);
      }
    }
  }

  lemma {:induction false} SurvivorsExactly(hs: seq<Header>, m: set<nat>)
    ensures forall h :: h in Survivors(hs, m) <==> h in hs && h.address in m
  {
    if hs != [] {
      var i := |hs| - 1;
      SurvivorsExactly(hs[..i], m);
      assert hs == hs[..i] + [hs[i]];
    }
  }

  /** One step of a sweep over `hs`: the list is what survived so far followed by what is still to come. */
  lemma {:induction false} SweepStep(hs: seq<Header>, m: set<nat>, i: nat)
    requires i < |hs|
    ensures var kept, now := Survivors(hs[..i], m), Survivors(hs[..i], m) + hs[i..];
      && |kept| < |now| && now[|kept|] == hs[i] && now[..|kept|] == kept
        && (kept != [] ==> now[|kept| - 1] == kept[|kept| - 1])
      && (if i + 1 < |hs| then |kept| + 1 < |now| && now[|kept| + 1] == hs[i + 1] else |now| == |kept| + 1)
      && (hs[i].address in m ==>
            Survivors(hs[..i + 1], m) == kept + [hs[i]] && now == Survivors(hs[..i + 1], m) + hs[i + 1..])
      && (hs[i].address !in m ==>
            Survivors(hs[..i + 1], m) == kept && now[..|kept|] + now[|kept| + 1..] == kept + hs[i + 1..])
  {
    assert hs[..i + 1][..i] == hs[..i];
  }

  lemma {:induction false} SweepEnds(hs: seq<Header>, m: set<nat>)
    ensures Survivors(hs[..0], m) + hs[0..] == hs && Survivors(hs[..0], m) == []
    ensures Survivors(hs[..|hs|], m) + hs[|hs|..] == Survivors(hs, m)
  {
    assert hs[..|hs|] == hs && hs[|hs|..] == [];
  }
}
