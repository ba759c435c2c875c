/** The runtime itself: promise records that point at each other, growing arrays with counters, all updated in place.
    Each method is proved to compute the operation of the same name in PromiseModel. */
module PromiseRuntime {
  import opened Collections
  import opened PromiseModel
  import PromiseSteps

  const UNLISTED := -1

  class PromiseRecord {
    const id: nat  // its address
    var status: Status
    var value: Value
    var reactions: seq<Reaction>
    var observed: bool
    var reportIndex: int
    ghost const resolvable: bool

    ghost function View(): Promise
      reads this
    {
      Promise(status, value, reactions, observed, if reportIndex < 0 then None else Some(reportIndex), resolvable)
    }

    constructor (id: nat, ghost resolvable: bool)
      ensures this.id == id && reportIndex == UNLISTED
      ensures View() == Promise(Pending, Plain(0), [], false, None, resolvable)
    {
      this.id, this.resolvable := id, resolvable;
      status, value, reactions, observed, reportIndex := Pending, Plain(0), [], false, UNLISTED;
    }
  }

  // ----- operations in the order in which the runtime goes about them

  function Decided(s: State, p: nat, status: Status, value: Value): State
    requires p in s.promises
  {
    Put(s, p, s.promises[p].(status := status, value := value))
  }

  function Reported(s: State, p: nat, status: Status): State
    requires p in s.promises
  {
    if status.Rejected? then PromiseModel.UnhandledAdd(s, p) else s
  }

  /** A pending promise is decided, then reported, and then its reactions are queued. */
  lemma {:induction false} SettleInSteps(s: State, p: nat, status: Status, value: Value)
    requires p in s.promises
    ensures p in Decided(s, p, status, value).promises
    ensures p in Reported(Decided(s, p, status, value), p, status).promises
    ensures !s.promises[p].status.Pending? ==> PromiseModel.Settle(s, p, status, value) == s
    ensures s.promises[p].status.Pending? ==>
      var t := Decided(s, p, status, value);
      var u, v := Reported(t, p, status), PromiseModel.Settle(s, p, status, value);
      && u.promises[p].reactions == s.promises[p].reactions
      && v.promises == u.promises[p := u.promises[p].(reactions := [])] && v.unhandled == u.unhandled
      && v.queue == s.queue + s.promises[p].reactions && v.head == s.head
      && v.asyncs == s.asyncs && v.stack == s.stack && v.next == s.next
  {
  }

  lemma {:induction false} ObserveLeaves(s: State, p: nat)
    requires ListOk(s) && p in s.promises
    ensures var t := PromiseModel.Observe(s, p);
      t.promises.Keys == s.promises.Keys && t == s.(promises := t.promises, unhandled := t.unhandled)
  {
    RemoveKeepsList(Observed(s, p), p);
  }

  class Runtime {
    var records: map<nat, PromiseRecord>
    var microtasks: array<Reaction>
    var count: nat
    var head: nat
    var unhandled: array<PromiseRecord?>
    var unhandledCount: nat
    var asyncs: map<nat, Async>
    var stack: seq<Frame>
    var next: nat

    // ----- what the records, arrays and counters stand for

    ghost predicate PromisesAre(promises: map<nat, Promise>)
      reads `records, records.Values
    {
      && records.Keys == promises.Keys
      && forall p | p in records ::
           records[p].id == p && records[p].View() == promises[p] && records[p].reportIndex >= UNLISTED
    }

    ghost predicate QueueIs(queue: seq<Reaction>)
      reads `microtasks, `count, microtasks
    {
      count <= microtasks.Length && microtasks[..count] == queue
    }

    ghost predicate UnhandledIs(list: seq<nat>)
      reads `records, `unhandled, `unhandledCount, unhandled
    {
      && unhandledCount == |list| <= unhandled.Length
      && forall k | 0 <= k < |list| :: list[k] in records && unhandled[k] == records[list[k]]
    }

    ghost predicate Mirrors(s: State)
      reads this, microtasks, unhandled, records.Values
    {
      && PromisesAre(s.promises) && QueueIs(s.queue) && UnhandledIs(s.unhandled)
      && head == s.head && asyncs == s.asyncs && stack == s.stack && next == s.next
    }

    /** The record is one of those that the addresses lead to. */
    ghost predicate Has(record: PromiseRecord)
      reads `records
    {
      record.id in records && records[record.id] == record
    }

    lemma {:induction false} HasAt(s: State, p: nat)
      requires Mirrors(s) && p in s.promises
      ensures p in records && records[p].id == p && Has(records[p]) && records[p].View() == s.promises[p]
      ensures next == s.next
    {
    }

    lemma {:induction false} IdOf(s: State, record: PromiseRecord)
      requires Mirrors(s) && Has(record)
      ensures record.id in s.promises && next == s.next
      ensures s.promises[record.id].status == record.status && s.promises[record.id].value == record.value
    {
    }

    lemma {:induction false} Parts(s: State)
      requires Mirrors(s)
      ensures PromisesAre(s.promises) && QueueIs(s.queue) && UnhandledIs(s.unhandled)
      ensures head == s.head && asyncs == s.asyncs && stack == s.stack && next == s.next
    {
    }

    lemma {:induction false} Whole(s: State)
      requires PromisesAre(s.promises) && QueueIs(s.queue) && UnhandledIs(s.unhandled)
      requires head == s.head && asyncs == s.asyncs && stack == s.stack && next == s.next
      ensures Mirrors(s)
    {
    }

    constructor ()
      ensures Mirrors(START) && fresh(microtasks) && fresh(unhandled)
    {
      records, count, head, unhandledCount := map[], 0, 0, 0;
      asyncs, stack, next := map[], [], 0;
      microtasks := new Reaction[0];
      unhandled := new PromiseRecord?[0];
    }

    // ----- the microtask queue

    method GrowMicrotasks(ghost queue: seq<Reaction>, filler: Reaction)
      requires QueueIs(queue)
      modifies `microtasks
      ensures QueueIs(queue) && count < microtasks.Length && fresh(microtasks)
    {
      var capacity := if microtasks.Length == 0 then 16 else microtasks.Length * 2;
      var grown := new Reaction[capacity](_ => filler);
      for i := 0 to count
        modifies grown
        invariant grown[..i] == microtasks[..i]
      {
        grown[i] := microtasks[i];
      }
      microtasks := grown;
    }

    /** Appends to the queue, in a larger array when this one is full. */
    method MicrotaskPush(reaction: Reaction, ghost queue: seq<Reaction>)
      requires QueueIs(queue)
      modifies `microtasks, `count, microtasks
      ensures QueueIs(queue + [reaction]) && (microtasks == old(microtasks) || fresh(microtasks))
    {
      if count >= microtasks.Length { GrowMicrotasks(queue, reaction); }
      microtasks[count] := reaction;
      count := count + 1;
      assert microtasks[..count] == microtasks[..count - 1] + [reaction];
    }

    /** The reactions of a promise that settles go to the end of the queue, in order. */
    method PushAll(reactions: seq<Reaction>, ghost queue: seq<Reaction>)
      requires QueueIs(queue)
      modifies `microtasks, `count, microtasks
      ensures QueueIs(queue + reactions) && (microtasks == old(microtasks) || fresh(microtasks))
    {
      hide QueueIs;
      assert queue + reactions[..0] == queue;
      for i := 0 to |reactions|
        invariant QueueIs(queue + reactions[..i]) && (microtasks == old(microtasks) || fresh(microtasks))
      {
        assert queue + reactions[..i] + [reactions[i]] == queue + reactions[..i + 1];
        MicrotaskPush(reactions[i], queue + reactions[..i]);
      }
      assert reactions[..|reactions|] == reactions;
    }

    /** The loop starts over at the front of the array once everything in it has run. */
    method ResetQueue(ghost s: State)
      requires Mirrors(s)
      modifies `count, `head
      ensures Mirrors(PromiseModel.ResetQueue(s))
    {
      head := 0;
      count := 0;
    }

    // ----- one field of a record

    method SetReport(record: PromiseRecord, index: int, ghost promises: map<nat, Promise>)
      requires Has(record) && PromisesAre(promises) && index >= UNLISTED
      modifies record`reportIndex
      ensures record.id in promises
      ensures var listed := if index < 0 then None else Some(index);
        PromisesAre(promises[record.id := promises[record.id].(listed := listed)])
    {
      record.reportIndex := index;
    }

    method SetObserved(record: PromiseRecord, ghost promises: map<nat, Promise>)
      requires Has(record) && PromisesAre(promises)
      modifies record`observed
      ensures record.id in promises && PromisesAre(promises[record.id := promises[record.id].(observed := true)])
    {
      record.observed := true;
    }

    method SetOutcome(record: PromiseRecord, status: Status, value: Value, ghost promises: map<nat, Promise>)
      requires Has(record) && PromisesAre(promises)
      modifies record`status, record`value
      ensures record.id in promises
      ensures PromisesAre(promises[record.id := promises[record.id].(status := status, value := value)])
    {
      record.status := status;
      record.value := value;
    }

    method SetReactions(record: PromiseRecord, reactions: seq<Reaction>, ghost promises: map<nat, Promise>)
      requires Has(record) && PromisesAre(promises)
      modifies record`reactions
      ensures record.id in promises && PromisesAre(promises[record.id := promises[record.id].(reactions := reactions)])
    {
      record.reactions := reactions;
    }

    // ----- unhandled rejections

    /** The last record of the list takes the place of this one. */
    method UnhandledRemove(record: PromiseRecord, ghost s: State)
      requires ListOk(s) && PromisesAre(s.promises) && UnhandledIs(s.unhandled) && Has(record)
      modifies `unhandledCount, unhandled, records.Values`reportIndex
      ensures record.id in s.promises
      ensures PromisesAre(PromiseModel.UnhandledRemove(s, record.id).promises)
      ensures UnhandledIs(PromiseModel.UnhandledRemove(s, record.id).unhandled)
    {
      hide PromiseRecord.View, PromisesAre, UnhandledIs, ListOk;
      ListedAt(record, s);
      var index := record.reportIndex;
      if index == UNLISTED { return; }
      var last := unhandledCount - 1;
      ghost var promises, list := s.promises, s.unhandled;
      if index != last {
        var moved := unhandled[last];
        SetSlot(index, moved, list);
        list := list[index := moved.id];
        SetReport(moved, index, promises);
        promises := promises[moved.id := promises[moved.id].(listed := Some(index))];
      }
      DropLast(list);
      SetReport(record, UNLISTED, promises);
    }

    method SetSlot(index: nat, record: PromiseRecord, ghost list: seq<nat>)
      requires UnhandledIs(list) && index < |list| && Has(record)
      modifies unhandled
      ensures UnhandledIs(list[index := record.id])
    {
      unhandled[index] := record;
    }

    method DropLast(ghost list: seq<nat>)
      requires UnhandledIs(list) && list != []
      modifies `unhandledCount
      ensures UnhandledIs(list[..|list| - 1])
    {
      unhandledCount := unhandledCount - 1;
    }

    /** What a record knows of its place in the list. */
    lemma {:induction false} ListedAt(record: PromiseRecord, s: State)
      requires ListOk(s) && PromisesAre(s.promises) && UnhandledIs(s.unhandled) && Has(record)
      ensures record.id in s.promises && record.reportIndex >= UNLISTED && unhandledCount == |s.unhandled|
      ensures s.promises[record.id].listed == if record.reportIndex < 0 then None else Some(record.reportIndex)
      ensures record.reportIndex >= 0 ==>
        record.reportIndex < unhandledCount && s.unhandled[record.reportIndex] == record.id
      ensures unhandledCount <= unhandled.Length
      ensures forall k | 0 <= k < unhandledCount ::
                && s.unhandled[k] in s.promises && s.unhandled[k] in records
                && unhandled[k] == records[s.unhandled[k]] && Has(records[s.unhandled[k]])
                && records[s.unhandled[k]].id == s.unhandled[k]
    {
    }

    method GrowUnhandled(ghost list: seq<nat>)
      requires UnhandledIs(list)
      modifies `unhandled
      ensures UnhandledIs(list) && unhandledCount < unhandled.Length && fresh(unhandled)
    {
      var capacity := if unhandled.Length == 0 then 8 else unhandled.Length * 2;
      var grown := new PromiseRecord?[capacity](_ => null);
      for i := 0 to unhandledCount
        modifies grown
        invariant forall k | 0 <= k < i :: grown[k] == unhandled[k]
      {
        grown[i] := unhandled[i];
      }
      unhandled := grown;
    }

    /** Appends to the list, in a larger array when this one is full. */
    method UnhandledPush(record: PromiseRecord, ghost list: seq<nat>)
      requires UnhandledIs(list) && Has(record)
      modifies `unhandled, `unhandledCount, unhandled
      ensures UnhandledIs(list + [record.id]) && (unhandled == old(unhandled) || fresh(unhandled))
    {
      if unhandledCount >= unhandled.Length { GrowUnhandled(list); }
      unhandled[unhandledCount] := record;
      unhandledCount := unhandledCount + 1;
    }

    lemma {:induction false} RecordIs(record: PromiseRecord, s: State)
      requires PromisesAre(s.promises) && UnhandledIs(s.unhandled) && Has(record)
      ensures record.id in s.promises && record.reportIndex >= UNLISTED && unhandledCount == |s.unhandled|
      ensures s.promises[record.id].listed == if record.reportIndex < 0 then None else Some(record.reportIndex)
      ensures s.promises[record.id].observed == record.observed
      ensures s.promises[record.id].status == record.status && s.promises[record.id].value == record.value
      ensures s.promises[record.id].reactions == record.reactions
    {
    }

    method UnhandledAdd(record: PromiseRecord, ghost s: State)
      requires PromisesAre(s.promises) && UnhandledIs(s.unhandled) && Has(record)
      modifies `unhandled, `unhandledCount, unhandled, record`reportIndex
      ensures record.id in s.promises && (unhandled == old(unhandled) || fresh(unhandled))
      ensures PromisesAre(PromiseModel.UnhandledAdd(s, record.id).promises)
      ensures UnhandledIs(PromiseModel.UnhandledAdd(s, record.id).unhandled)
    {
      hide PromiseRecord.View, PromisesAre, UnhandledIs;
      RecordIs(record, s);
      if record.observed || record.reportIndex != UNLISTED { return; }
      SetReport(record, unhandledCount, s.promises);
      UnhandledPush(record, s.unhandled);
    }

    method Observe(record: PromiseRecord, ghost s: State)
      requires ListOk(s) && Mirrors(s) && Has(record)
      modifies `unhandledCount, unhandled, records.Values`reportIndex, record`observed
      ensures record.id in s.promises && Mirrors(PromiseModel.Observe(s, record.id))
    {
      hide Mirrors, PromisesAre, UnhandledIs, QueueIs, ListOk, PromiseModel.UnhandledRemove;
      Parts(s);
      SetObserved(record, s.promises);
      UnhandledRemove(record, Observed(s, record.id));
      RemoveTouches(Observed(s, record.id), record.id);
      Whole(PromiseModel.Observe(s, record.id));
    }

    // ----- promises

    /** A new block: its address differs from every other. */
    method Allocate() returns (id: nat)
      modifies `next
      ensures id == old(next) && next == old(next) + 1
    {
      id := next;
      next := next + 1;
    }

    /** A record joins those that addresses lead to. */
    method Register(record: PromiseRecord, ghost promises: map<nat, Promise>, ghost list: seq<nat>)
      requires PromisesAre(promises) && UnhandledIs(list) && record.id !in promises && record.reportIndex >= UNLISTED
      modifies `records
      ensures records == old(records)[record.id := record]
      ensures PromisesAre(promises[record.id := record.View()]) && UnhandledIs(list)
    {
      records := records[record.id := record];
    }

    method NewPromise(ghost resolvable: bool, ghost s: State) returns (record: PromiseRecord)
      requires Mirrors(s) && s.next !in s.promises
      modifies `records, `next
      ensures fresh(record) && record.id == s.next && records == old(records)[s.next := record]
      ensures Mirrors(PromiseModel.NewPromise(s, resolvable))
    {
      hide Mirrors, PromisesAre, UnhandledIs, QueueIs, PromiseRecord.View;
      Parts(s);
      var id := Allocate();
      record := new PromiseRecord(id, resolvable);
      Register(record, s.promises, s.unhandled);
      Whole(PromiseModel.NewPromise(s, resolvable));
    }

    /** The outcome, and the place in the list if nobody listens. */
    method Decide(record: PromiseRecord, status: Status, value: Value, ghost s: State)
      requires PromisesAre(s.promises) && UnhandledIs(s.unhandled) && Has(record)
      modifies `unhandled, `unhandledCount, unhandled, record`status, record`value, record`reportIndex
      ensures record.id in s.promises && (unhandled == old(unhandled) || fresh(unhandled))
      ensures PromisesAre(Reported(Decided(s, record.id, status, value), record.id, status).promises)
      ensures UnhandledIs(Reported(Decided(s, record.id, status, value), record.id, status).unhandled)
    {
      hide PromisesAre, UnhandledIs, PromiseModel.UnhandledAdd;
      SetOutcome(record, status, value, s.promises);
      if status.Rejected? { UnhandledAdd(record, Decided(s, record.id, status, value)); }
    }

    method Settle(record: PromiseRecord, status: Status, value: Value, ghost s: State)
      requires Mirrors(s) && Has(record)
      modifies `microtasks, `count, microtasks, `unhandled, `unhandledCount, unhandled
      modifies record`status, record`value, record`reactions, record`reportIndex
      ensures record.id in s.promises && Mirrors(PromiseModel.Settle(s, record.id, status, value))
      ensures (microtasks == old(microtasks) || fresh(microtasks)) && (unhandled == old(unhandled) || fresh(unhandled))
    {
      hide *;
      Parts(s);
      RecordIs(record, s);
      SettleInSteps(s, record.id, status, value);
      if record.status != Pending { return; }
      Decide(record, status, value, s);
      ghost var u := Reported(Decided(s, record.id, status, value), record.id, status);
      RecordIs(record, u);
      PushAll(record.reactions, s.queue);
      SetReactions(record, [], u.promises);
      Whole(PromiseModel.Settle(s, record.id, status, value));
    }

    // ----- subscribing

    /** Registers a reaction with its pending promise. */
    method AddReaction(reaction: Reaction, ghost s: State)
      requires Mirrors(s) && reaction.promise in s.promises && reaction.id == s.next
      modifies `next, records.Values`reactions
      ensures Mirrors(PromiseModel.Append(s, reaction))
    {
      hide Mirrors, PromisesAre, UnhandledIs, QueueIs;
      Parts(s);
      HasAt(s, reaction.promise);
      var id := Allocate();
      var record := records[reaction.promise];
      RecordIs(record, s);
      SetReactions(record, record.reactions + [reaction], s.promises);
      Whole(PromiseModel.Append(s, reaction));
    }

    /** Queues a reaction whose promise is settled. */
    method QueueReaction(reaction: Reaction, ghost s: State)
      requires Mirrors(s) && reaction.id == s.next
      modifies `microtasks, `count, microtasks, `next
      ensures Mirrors(PromiseModel.Push(s, reaction)) && (microtasks == old(microtasks) || fresh(microtasks))
    {
      hide Mirrors, PromisesAre, UnhandledIs, QueueIs;
      Parts(s);
      var id := Allocate();
      MicrotaskPush(reaction, s.queue);
      Whole(PromiseModel.Push(s, reaction));
    }

    method ResolveInto(result: PromiseRecord, value: Value, ghost s: State)
      requires ListOk(s) && Mirrors(s) && Has(result) && Known(s, value)
      modifies `microtasks, `count, microtasks, `unhandled, `unhandledCount, unhandled, `next, records.Values
      ensures result.id in s.promises && Mirrors(PromiseModel.ResolveInto(s, result.id, value))
      ensures (microtasks == old(microtasks) || fresh(microtasks)) && (unhandled == old(unhandled) || fresh(unhandled))
    {
      hide Mirrors, ListOk, PromiseModel.Settle, PromiseModel.Observe;
      IdOf(s, result);
      if value.Plain? {
        Settle(result, Fulfilled, value, s);
        return;
      }
      HasAt(s, value.p);
      var other := records[value.p];
      Observe(other, s);
      ghost var t := PromiseModel.Observe(s, value.p);
      ObserveLeaves(s, value.p);
      HasAt(t, value.p);
      if other.status.Pending? {
        AddReaction(Reaction(next, other.id, NoFunction, NoFunction, Some(result.id), None), t);
      } else {
        Settle(result, other.status, other.value, t);
      }
    }

    method Then(record: PromiseRecord, onFulfilled: Handler, onRejected: Handler, ghost s: State)
      returns (result: PromiseRecord)
      requires ListOk(s) && Mirrors(s) && Has(record) && s.next !in s.promises
      modifies `records, `microtasks, `count, microtasks, `unhandledCount, unhandled, `next, records.Values
      ensures record.id in s.promises && result.id == s.next && fresh(result)
      ensures records == old(records)[s.next := result]
      ensures Mirrors(PromiseModel.Then(s, record.id, onFulfilled, onRejected))
      ensures microtasks == old(microtasks) || fresh(microtasks)
    {
      hide Mirrors, ListOk, PromiseModel.Observe;
      IdOf(s, record);
      Observe(record, s);
      ghost var t := PromiseModel.Observe(s, record.id);
      ObserveLeaves(s, record.id);
      result := NewPromise(false, t);
      ghost var u := PromiseModel.NewPromise(t, false);
      HasAt(u, record.id);
      var reaction := Reaction(next, record.id, onFulfilled, onRejected, Some(result.id), None);
      if record.status.Pending? { AddReaction(reaction, u); } else { QueueReaction(reaction, u); }
    }

    // ----- async functions

    method AsyncCall(ghost s: State) returns (promise: PromiseRecord)
      requires Mirrors(s) && s.next !in s.promises
      modifies `records, `asyncs, `stack, `next
      ensures promise.id == s.next && fresh(promise) && records == old(records)[s.next := promise]
      ensures Mirrors(PromiseModel.CallAsync(s))
    {
      hide PromisesAre, UnhandledIs, QueueIs;
      promise := NewPromise(false, s);
      var a := Allocate();
      asyncs := asyncs[a := Async(promise.id, Running, Plain(0), false)];
      stack := stack + [AsyncFrame(a)];
    }

    /** A promise that is settled from the start and that nobody else sees. */
    method NewHandoff(settled: Value, rejected: bool, ghost s: State) returns (record: PromiseRecord)
      requires Mirrors(s) && s.next !in s.promises
      modifies `records, `next
      ensures fresh(record) && record.id == s.next && records == old(records)[s.next := record]
      ensures Mirrors(WithNew(s, Handoff(settled, rejected)))
    {
      hide PromisesAre, UnhandledIs, QueueIs;
      var id := Allocate();
      record := new PromiseRecord(id, false);
      record.status := if rejected then Rejected else Fulfilled;
      record.value := settled;
      record.observed := true;
      Register(record, s.promises, s.unhandled);
    }

    /** The coroutine gets the value in a microtask. */
    method QueueAsyncWake(a: nat, settled: Value, rejected: bool, ghost s: State)
      returns (wake: nat, ghost promise: PromiseRecord)
      requires Mirrors(s) && s.next !in s.promises
      modifies `records, `microtasks, `count, microtasks, `next
      ensures wake == s.next + 1 && fresh(promise) && records == old(records)[s.next := promise]
      ensures Mirrors(PromiseModel.Push(WithNew(s, Handoff(settled, rejected)), Wake(wake, s.next, a)))
      ensures microtasks == old(microtasks) || fresh(microtasks)
    {
      hide *;
      var record := NewHandoff(settled, rejected, s);
      ghost var t := WithNew(s, Handoff(settled, rejected));
      HandoffNext(s, settled, rejected);
      HasAt(t, s.next);
      wake, promise := next, record;
      QueueReaction(Reaction(wake, record.id, NoFunction, NoFunction, None, Some(a)), t);
      WakeIs(wake, s.next, a);
    }

    /** The coroutine on top of the stack stops running. */
    method Leave(a: nat, async: Async, ghost s: State)
      requires Mirrors(s) && s.stack != []
      modifies `asyncs, `stack
      ensures Mirrors(Left(s, a, async))
    {
      hide PromisesAre, UnhandledIs, QueueIs;
      asyncs := asyncs[a := async];
      stack := stack[..|stack| - 1];
    }

    method AwaitPending(a: nat, p: nat, ghost s: State)
      requires Mirrors(s) && s.stack != [] && a in s.asyncs && p in s.promises
      modifies `asyncs, `stack, `next, records.Values`reactions
      ensures Mirrors(AwaitingPromise(s, p, a))
    {
      hide Mirrors;
      Parts(s);
      var async := asyncs[a].(awaitThrew := false, resumeValue := Plain(0), phase := Suspended(next));
      Leave(a, async, s);
      AddReaction(Reaction(next, p, NoFunction, NoFunction, None, Some(a)), Left(s, a, async));
    }

    method AwaitSettled(a: nat, settled: Value, rejected: bool, ghost s: State)
      requires Mirrors(s) && s.stack != [] && a in s.asyncs && s.next !in s.promises
      modifies `records, `microtasks, `count, microtasks, `asyncs, `stack, `next
      ensures Mirrors(AwaitingTurn(WithNew(s, Handoff(settled, rejected)), s.next, a, settled, rejected))
      ensures (microtasks == old(microtasks) || fresh(microtasks)) && fresh(records.Values - old(records.Values))
    {
      hide Mirrors;
      Parts(s);
      var async := asyncs[a].(awaitThrew := rejected, resumeValue := settled, phase := Suspended(next + 1));
      Leave(a, async, s);
      var wake, promise := QueueAsyncWake(a, settled, rejected, Left(s, a, async));
    }

    /** The awaiting coroutine leaves the stack; its reaction brings it back. */
    method Await(value: Value, ghost s: State)
      requires ListOk(s) && Mirrors(s) && Known(s, value) && s.next !in s.promises
      requires s.stack != [] && Top(s).AsyncFrame? && Top(s).async in s.asyncs
      modifies `records, `microtasks, `count, microtasks, `unhandledCount, unhandled, `asyncs, `stack, `next
      modifies records.Values
      ensures Mirrors(PromiseModel.Await(s, value))
      ensures (microtasks == old(microtasks) || fresh(microtasks)) && fresh(records.Values - old(records.Values))
    {
      hide *;
      Parts(s);
      PromiseSteps.AwaitCases(s, value);
      var a := stack[|stack| - 1].async;
      if value.Plain? {
        AwaitSettled(a, value, false, s);
        return;
      }
      HasAt(s, value.p);
      var promise := records[value.p];
      Observe(promise, s);
      ObserveLeaves(s, value.p);
      ghost var t := PromiseModel.Observe(s, value.p);
      IdOf(t, promise);
      if promise.status.Pending? {
        AwaitPending(a, value.p, t);
      } else {
        AwaitSettled(a, promise.value, promise.status.Rejected?, t);
      }
    }

    /** What a resume does once the body has run to its end. */
    method Finish(value: Value, threw: bool, ghost s: State)
      requires ListOk(s) && Mirrors(s) && Known(s, value)
      requires s.stack != [] && Top(s).AsyncFrame? && Top(s).async in s.asyncs
      requires s.asyncs[Top(s).async].promise in s.promises
      modifies `microtasks, `count, `head, microtasks, `unhandled, `unhandledCount, unhandled, `asyncs, `stack, `next
      modifies records.Values
      ensures Mirrors(PromiseModel.Finish(s, value, threw))
      ensures (microtasks == old(microtasks) || fresh(microtasks)) && (unhandled == old(unhandled) || fresh(unhandled))
    {
      hide ListOk, Mirrors, PromiseModel.Settle, PromiseModel.ResolveInto;
      Parts(s);
      var a := stack[|stack| - 1].async;
      var async := asyncs[a].(phase := Done);
      Leave(a, async, s);
      ghost var t := Left(s, a, async);
      SameList(s, t);
      HasAt(t, async.promise);
      if threw {
        Settle(records[async.promise], Rejected, value, t);
      } else {
        ResolveInto(records[async.promise], value, t);
      }
    }

    /** A coroutine that has not finished runs again. */
    method AsyncWake(a: nat, value: Value, rejected: bool, ghost s: State)
      requires Mirrors(s) && a in s.asyncs
      modifies `asyncs, `stack
      ensures Mirrors(Resumed(s, a, value, rejected))
    {
      hide PromisesAre, UnhandledIs, QueueIs;
      if asyncs[a].phase.Done? { return; }
      asyncs := asyncs[a := asyncs[a].(resumeValue := value)];
      asyncs := asyncs[a := asyncs[a].(awaitThrew := rejected)];
      asyncs := asyncs[a := asyncs[a].(phase := Running)];
      stack := stack + [AsyncFrame(a)];
    }

    // ----- the microtask loop

    method TakeMicrotask(ghost s: State) returns (reaction: Reaction)
      requires Mirrors(s) && s.head < |s.queue|
      modifies `head
      ensures reaction == s.queue[s.head] && Mirrors(TakeNext(s))
    {
      assert microtasks[..count] == s.queue;
      reaction := microtasks[head];
      head := head + 1;
    }

    /** One round of the loop, up to the call of a handler or the switch to a coroutine. */
    method RunNext(ghost s: State)
      requires Mirrors(s) && s.head < |s.queue| && KnownReaction(s, s.queue[s.head])
      modifies `microtasks, `count, `head, microtasks, `unhandled, `unhandledCount, unhandled, `asyncs, `stack, `next
      modifies records.Values
      ensures Mirrors(PromiseModel.RunNext(s))
      ensures (microtasks == old(microtasks) || fresh(microtasks)) && (unhandled == old(unhandled) || fresh(unhandled))
    {
      hide Mirrors, PromiseModel.Settle;
      var reaction := TakeMicrotask(s);
      ghost var t := TakeNext(s);
      HasAt(t, reaction.promise);
      var promise := records[reaction.promise];
      if reaction.async.Some? {
        AsyncWake(reaction.async.value, promise.value, promise.status.Rejected?, t);
        return;
      }
      var handler := if promise.status.Fulfilled? then reaction.onFulfilled else reaction.onRejected;
      HasAt(t, reaction.result.value);
      var result := records[reaction.result.value];
      if handler.Function? {
        CallHandler(HandlerFrame(reaction, handler.code, promise.value), t);
      } else if promise.status.Fulfilled? {
        Settle(result, Fulfilled, promise.value, t);
      } else {
        Settle(result, Rejected, promise.value, t);
      }
    }

    method CallHandler(frame: Frame, ghost s: State)
      requires Mirrors(s)
      modifies `stack
      ensures Mirrors(s.(stack := s.stack + [frame]))
    {
      hide PromisesAre, UnhandledIs, QueueIs;
      stack := stack + [frame];
    }

    method EndHandler(ghost s: State)
      requires Mirrors(s) && s.stack != []
      modifies `stack
      ensures Mirrors(s.(stack := s.stack[..|s.stack| - 1]))
    {
      hide PromisesAre, UnhandledIs, QueueIs;
      stack := stack[..|stack| - 1];
    }

    /** The value a handler returned goes into the promise of its `then`. */
    method ReturnHandler(value: Value, ghost s: State)
      requires ListOk(s) && Mirrors(s) && Known(s, value) && s.stack != [] && Top(s).HandlerFrame?
      requires Top(s).reaction.result.Some? && Top(s).reaction.result.value in s.promises
      modifies `microtasks, `count, `head, microtasks, `unhandled, `unhandledCount, unhandled, `asyncs, `stack, `next
      modifies records.Values
      ensures Mirrors(PromiseModel.ReturnHandler(s, value))
      ensures (microtasks == old(microtasks) || fresh(microtasks)) && (unhandled == old(unhandled) || fresh(unhandled))
    {
      hide ListOk, Mirrors, PromiseModel.ResolveInto;
      Parts(s);
      var result := stack[|stack| - 1].reaction.result.value;
      EndHandler(s);
      ghost var t := s.(stack := s.stack[..|s.stack| - 1]);
      SameList(s, t);
      HasAt(t, result);
      ResolveInto(records[result], value, t);
    }
  }

  function Left(s: State, a: nat, async: Async): State
    requires s.stack != []
  {
    SetAsync(s, a, async).(stack := s.stack[..|s.stack| - 1])
  }

  function Resumed(s: State, a: nat, value: Value, rejected: bool): State
    requires a in s.asyncs
  {
    if s.asyncs[a].phase.Done? then s
    else SetAsync(s, a, s.asyncs[a].(phase := Running, resumeValue := value, awaitThrew := rejected))
         .(stack := s.stack + [AsyncFrame(a)])
  }

  /** The unhandled list concerns promises alone. */
  lemma {:induction false} SameList(s: State, t: State)
    requires ListOk(s) && t.promises == s.promises && t.unhandled == s.unhandled
    ensures ListOk(t)
  {
  }

  function Wake(id: nat, promise: nat, a: nat): Reaction {
    Reaction(id, promise, NoFunction, NoFunction, None, Some(a))
  }

  lemma {:induction false} WakeIs(id: nat, promise: nat, a: nat)
    ensures Wake(id, promise, a) == Reaction(id, promise, NoFunction, NoFunction, None, Some(a))
  {
  }

  lemma {:induction false} HandoffNext(s: State, settled: Value, rejected: bool)
    ensures var t := WithNew(s, Handoff(settled, rejected)); t.next == s.next + 1 && s.next in t.promises
  {
  }

  lemma {:induction false} RemoveTouches(s: State, p: nat)
    requires ListOk(s) && p in s.promises
    ensures var t := PromiseModel.UnhandledRemove(s, p); t == s.(promises := t.promises, unhandled := t.unhandled)
  {
  }
}
