/**
  What a heap does from the moment its collector is armed, and what the collections that allocations trigger
  cost, measured against what the program allocates.
 */
module GcHistory {
  /** A request for memory, or a collection that found `found` bytes and left `left`. */
  datatype Event = Request(size: nat) | Sweep(found: nat, left: nat, triggered: bool)

  /** The bytes ever requested. */
  function Requested(events: seq<Event>): nat {
    if events == [] then 0
    else
      var e := events[|events| - 1];
      Requested(events[..|events| - 1]) + if e.Request? then e.size else 0
  }

  /** The bytes requested after the last collection. */
  function Since(events: seq<Event>): nat {
    if events == [] then 0
    else
      var e := events[|events| - 1];
      if e.Request? then Since(events[..|events| - 1]) + e.size else 0
  }

  /** What the last collection left, or else the heap at the start. */
  function Left(base: nat, events: seq<Event>): nat {
    if events == [] then base
    else
      var e := events[|events| - 1];
      if e.Request? then Left(base, events[..|events| - 1]) else e.left
  }

  predicate AnySweep(events: seq<Event>) {
    exists i :: 0 <= i < |events| && events[i].Sweep?
  }

  /** What the triggered collections found in the heap, and so had to go through. */
  function Work(events: seq<Event>): nat {
    if events == [] then 0
    else
      var e := events[|events| - 1];
      Work(events[..|events| - 1]) + if e.Sweep? && e.triggered then e.found else 0
  }

  /** What each triggered collection goes through once more: what the collection before it had left. */
  function Kept(base: nat, events: seq<Event>): nat {
    if events == [] then 0
    else
      var e, before := events[|events| - 1], events[..|events| - 1];
      Kept(base, before) + if e.Sweep? && e.triggered && AnySweep(before) then Left(base, before) else 0
  }

  /** Collections find what was left and what was requested since, and triggered ones wait until the heap has
      doubled. */
  predicate Possible(base: nat, events: seq<Event>) {
    if events == [] then true
    else
      var e, before := events[|events| - 1], events[..|events| - 1];
      && Possible(base, before)
      && (e.Sweep? ==> e.found == Left(base, before) + Since(before))
      && (e.Sweep? && e.triggered && AnySweep(before) ==> e.found >= 2 * Left(base, before))
  }

  const MIN_THRESHOLD: nat := 0x10_0000

  /** The threshold leaves room for as much again as a collection left, and for no more unless that is below 1 MiB. */
  predicate Follows(threshold: nat, left: nat) {
    threshold >= 2 * left && (threshold > 2 * left ==> threshold == 0x10_0000)
  }

  /** The history of a heap that now has `bytes` bytes and this threshold. */
  predicate Recorded(base: nat, events: seq<Event>, bytes: nat, threshold: nat) {
    && Possible(base, events)
    && bytes == Left(base, events) + Since(events)
    && (AnySweep(events) ==> Follows(threshold, Left(base, events)))
  }

  /** Half of what a triggered collection finds was requested since the last one. So the work of all of them is at
      most twice what was ever requested, and the heap of the start once; without the share of the requests that
      they go through for the first time, it is at most what was requested. */
  lemma {:induction false} Amortised(base: nat, events: seq<Event>)
    requires Possible(base, events)
    ensures Work(events) + 2 * Since(events) <= 2 * Requested(events) + if AnySweep(events) then base else 0
    ensures Kept(base, events) + Since(events) <= Requested(events)
    ensures !AnySweep(events) ==> Left(base, events) == base
  {
    if events != [] {
      var before := events[..|events| - 1];
      Amortised(base, before);
      assert events == before + [events[|events| - 1]];
      assert events[|events| - 1].Sweep? ==> AnySweep(events);
      if AnySweep(before) {
        var i :| 0 <= i < |before| && before[i].Sweep?;
        assert events[i].Sweep?;
      }
    }
  }

  lemma {:induction false} RecordRequest(base: nat, events: seq<Event>, bytes: nat, threshold: nat, size: nat)
    requires Recorded(base, events, bytes, threshold)
    ensures Recorded(base, events + [Request(size)], bytes + size, threshold)
  {
    var after := events + [Request(size)];
    assert after[..|after| - 1] == events;
    if AnySweep(after) {
      var i :| 0 <= i < |after| && after[i].Sweep?;
      assert events[i].Sweep?;
    }
  }

  lemma {:induction false} RecordSweep(base: nat, events: seq<Event>, found: nat, threshold: nat, left: nat, next: nat,
      triggered: bool)
    requires Recorded(base, events, found, threshold) && Follows(next, left) && (triggered ==> found >= threshold)
    ensures Recorded(base, events + [Sweep(found, left, triggered)], left, next)
  {
    var after := events + [Sweep(found, left, triggered)];
    assert after[..|after| - 1] == events;
  }
}
