/** What several components need of sets and sequences. */
module Collections {

  datatype Option<T> = None | Some(value: T)

  lemma {:induction false} SubsetSize<T>(a: set<T>, b: set<T>)
    requires a <= b
    ensures |a| <= |b|
  {
    assert b == a + (b - a);
  }

  /** A place of `x`. */
  ghost function PositionOf<T>(xs: seq<T>, x: T): (i: nat)
    requires x in xs
    ensures i < |xs| && xs[i] == x
  {
    var i :| 0 <= i < |xs| && xs[i] == x; i
  }

  // ----- sequences with the same elements

  lemma {:induction false} Cancel<T>(a: multiset<T>, b: multiset<T>, x: T)
    requires a + multiset{x} == b + multiset{x}
    ensures a == b
  {
    assert a == (a + multiset{x}) - multiset{x} && b == (b + multiset{x}) - multiset{x};
  }

  lemma {:induction false} TakenOut<T>(ys: seq<T>, k: nat)
    requires k < |ys|
    ensures ys == ys[..k] + [ys[k]] + ys[k + 1..]
    ensures multiset(ys) == multiset(ys[..k] + ys[k + 1..]) + multiset{ys[k]}
  {
    assert ys == ys[..k] + ([ys[k]] + ys[k + 1..]);
  }

  /** Two sequences with the same elements: the last of the one is at some place of the other. */
  lemma {:induction false} PickOut<T>(xs: seq<T>, ys: seq<T>) returns (k: nat)
    requires xs != [] && multiset(xs) == multiset(ys)
    ensures k < |ys| && ys[k] == xs[|xs| - 1]
    ensures multiset(xs[..|xs| - 1]) == multiset(ys[..k] + ys[k + 1..])
    ensures ys == ys[..k] + [ys[k]] + ys[k + 1..]
  {
    var x := xs[|xs| - 1];
    assert x in multiset(xs);
    k :| 0 <= k < |ys| && ys[k] == x;
    var front, rest := xs[..|xs| - 1], ys[..k] + ys[k + 1..];
    TakenOut(ys, k);
    assert xs == front + [x];
    Cancel(multiset(front), multiset(rest), x);
  }
}
