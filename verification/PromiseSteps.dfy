/** The steps of coroutines and of the microtask loop keep the invariant. */
module PromiseSteps {
  import opened Collections
  import opened PromiseModel
  import opened PromiseInvariant

  // ----- coroutines

  lemma {:induction false} AsyncStructure(s: State, asyncs: map<nat, Async>, stack: seq<Frame>)
    requires Structure(s) && asyncs.Keys == s.asyncs.Keys
    requires forall f | f in stack && f.HandlerFrame? ::
               f.reaction.result.Some? && f.reaction.result.value in s.promises
    ensures Structure(s.(asyncs := asyncs, stack := stack))
  {
    hide PlacesOk, IdsOk;
    var t := s.(asyncs := asyncs, stack := stack);
    PlacesStay(s, t);
    IdsStay(s, t);
    forall k | 0 <= k < |stack| && stack[k].HandlerFrame?
      ensures stack[k].reaction.result.Some? && stack[k].reaction.result.value in s.promises
    {
      assert stack[k] in stack;
    }
  }

  lemma {:induction false} FramesKnown(s: State)
    requires FramesOk(s)
    ensures forall f | f in s.stack && f.HandlerFrame? ::
              f.reaction.result.Some? && f.reaction.result.value in s.promises
    ensures s.stack != [] ==> forall f | f in s.stack[..|s.stack| - 1] :: f in s.stack
  {
  }

  /** The running coroutine on top of the stack is suspended with the new reaction as its only wake. */
  lemma {:induction false} SuspendAsync(asyncs: map<nat, Async>, out: set<Reaction>, stack: seq<Frame>, a: nat,
      async: Async, r: Reaction)
    requires AsyncOk(asyncs, out, stack) && stack != [] && stack[|stack| - 1] == AsyncFrame(a) && a in asyncs
    requires async.phase == Suspended(r.id) && r.async == Some(a)
    ensures AsyncOk(asyncs[a := async], out + {r}, stack[..|stack| - 1])
  {
    var asyncs', out', stack' := asyncs[a := async], out + {r}, stack[..|stack| - 1];
    assert asyncs[a].phase.Running?;
    assert r in out';
    forall b | b in asyncs' && asyncs'[b].phase.Running? ensures AsyncFrame(b) in stack' {
      var k :| 0 <= k < |stack| && stack[k] == AsyncFrame(b);
      assert stack'[k] == AsyncFrame(b);
    }
    forall b | b in asyncs' && asyncs'[b].phase.Suspended?
      ensures exists x :: x in out' && x.id == asyncs'[b].phase.wake && x.async == Some(b)
    {
      if b != a {
        var x :| x in out && x.id == asyncs[b].phase.wake && x.async == Some(b);
        assert x in out';
      }
    }
  }

  /** The body on top of the stack is over: nothing is left that could resume it. */
  lemma {:induction false} FinishAsync(asyncs: map<nat, Async>, out: set<Reaction>, stack: seq<Frame>, a: nat,
      async: Async)
    requires AsyncOk(asyncs, out, stack) && stack != [] && stack[|stack| - 1] == AsyncFrame(a) && a in asyncs
    requires async.phase.Done?
    ensures AsyncOk(asyncs[a := async], out, stack[..|stack| - 1])
  {
    var asyncs', stack' := asyncs[a := async], stack[..|stack| - 1];
    assert asyncs[a].phase.Running?;
    forall b | b in asyncs' && asyncs'[b].phase.Running? ensures AsyncFrame(b) in stack' {
      var k :| 0 <= k < |stack| && stack[k] == AsyncFrame(b);
      assert stack'[k] == AsyncFrame(b);
    }
  }

  /** Taking its wake reaction resumes a coroutine. */
  lemma {:induction false} WakeAsync(asyncs: map<nat, Async>, out: set<Reaction>, stack: seq<Frame>, a: nat,
      async: Async, r: Reaction)
    requires AsyncOk(asyncs, out, stack) && r in out && r.async == Some(a) && a in asyncs
    requires async.phase.Running?
    requires forall x, y | x in out && y in out && x.id == y.id :: x == y
    ensures AsyncOk(asyncs[a := async], out - {r}, stack + [AsyncFrame(a)])
  {
    var asyncs', out', stack' := asyncs[a := async], out - {r}, stack + [AsyncFrame(a)];
    assert asyncs[a].phase == Suspended(r.id);
    forall b | b in asyncs' && asyncs'[b].phase.Running? ensures AsyncFrame(b) in stack' {
      if b == a { assert stack'[|stack|] == AsyncFrame(a); } else { assert AsyncFrame(b) in stack; }
    }
    forall b | b in asyncs' && asyncs'[b].phase.Suspended?
      ensures exists x :: x in out' && x.id == asyncs'[b].phase.wake && x.async == Some(b)
    {
      var x :| x in out && x.id == asyncs[b].phase.wake && x.async == Some(b);
      assert x in out';
    }
  }

  /** Entering or leaving a handler, and taking a reaction that resumes no coroutine, concerns no coroutine. */
  lemma {:induction false} OtherFrames(asyncs: map<nat, Async>, out: set<Reaction>, stack: seq<Frame>,
      out': set<Reaction>, stack': seq<Frame>)
    requires AsyncOk(asyncs, out, stack) && out' <= out
    requires forall r | r in out && r.async.Some? :: r in out'
    requires (stack' == stack || (exists f: Frame :: f.HandlerFrame? && stack' == stack + [f]))
             || (stack != [] && stack[|stack| - 1].HandlerFrame? && stack' == stack[..|stack| - 1])
    ensures AsyncOk(asyncs, out', stack')
  {
    forall b | b in asyncs && asyncs[b].phase.Running? ensures AsyncFrame(b) in stack' {
      var k :| 0 <= k < |stack| && stack[k] == AsyncFrame(b);
      assert stack'[k] == AsyncFrame(b);
    }
    forall b | b in asyncs && asyncs[b].phase.Suspended?
      ensures exists x :: x in out' && x.id == asyncs[b].phase.wake && x.async == Some(b)
    {
      var x :| x in out && x.id == asyncs[b].phase.wake && x.async == Some(b);
    }
  }

  /** The promise of an async call stays out of reach of reactions and handlers. */
  lemma {:induction false} ResultStep(promises: map<nat, Promise>, asyncs: map<nat, Async>, out: set<Reaction>,
      stack: seq<Frame>, promises': map<nat, Promise>, asyncs': map<nat, Async>, out': set<Reaction>,
      stack': seq<Frame>)
    requires ResultOk(promises, asyncs, out, stack) && asyncs'.Keys == asyncs.Keys
    requires forall a | a in asyncs ::
               asyncs'[a].promise == asyncs[a].promise && (!asyncs'[a].phase.Done? ==> !asyncs[a].phase.Done?)
    requires forall p | p in promises ::
               p in promises' && promises'[p].status == promises[p].status
                 && promises'[p].resolvable == promises[p].resolvable
    requires forall r | r in out' :: r in out || r.result.None?
    requires forall f | f in stack' && f.HandlerFrame? :: f in stack || f.reaction in out
    ensures ResultOk(promises', asyncs', out', stack')
  {
    forall a, k | a in asyncs' && !asyncs'[a].phase.Done? && 0 <= k < |stack'| && stack'[k].HandlerFrame?
      ensures stack'[k].reaction.result != Some(asyncs'[a].promise)
    {
      assert stack'[k] in stack';
      if stack'[k] in stack { var l :| 0 <= l < |stack| && stack[l] == stack'[k]; }
    }
  }

  /** An async call: a new coroutine on top of the stack, with a promise of its own. */
  lemma {:induction false} CallAsyncKeeps(s: State)
    requires Inv(s)
    ensures Inv(CallAsync(s))
  {
    hide QueueOk, IdsOk, ListOk, MarksOk, Outstanding;
    var promise := Promise(Pending, Plain(0), [], false, None, false);
    NewKeeps(s, promise);
    var t, u := NewPromise(s, false), CallAsync(s);
    OutstandingKnown(s);
    assert t == WithNew(s, promise);
    assert Inv(t) && t.next !in t.asyncs;
    assert u.promises == t.promises && u.queue == t.queue && u.head == t.head
      && Outstanding(u) == Outstanding(t) by { SameOutstanding(t, u); }
    CallStructure(t, Async(s.next, Running, Plain(0), false), u);
    CallOwners(t, s.next, u);
  }

  lemma {:induction false} SameOutstanding(s: State, t: State)
    requires t.promises == s.promises && t.queue == s.queue && t.head == s.head
    ensures Outstanding(t) == Outstanding(s)
  {
  }

  lemma {:induction false} OutstandingKnown(s: State)
    requires Structure(s)
    ensures forall r | r in Outstanding(s) :: KnownReaction(s, r)
  {
  }

  lemma {:induction false} CallStructure(t: State, async: Async, u: State)
    requires Structure(t) && ListOk(t) && MarksOk(t)
    requires u == t.(asyncs := t.asyncs[t.next := async], next := t.next + 1, stack := t.stack + [AsyncFrame(t.next)])
    ensures Structure(u) && ListOk(u) && MarksOk(u)
  {
    hide PlacesOk, IdsOk;
    PlacesStay(t, u);
    IdsStay(t, u);
  }

  /** A new coroutine runs on top of the stack; no reaction knows it. */
  lemma {:induction false} StartAsync(asyncs: map<nat, Async>, out: set<Reaction>, stack: seq<Frame>, a: nat,
      async: Async)
    requires AsyncOk(asyncs, out, stack) && a !in asyncs && async.phase.Running?
    ensures AsyncOk(asyncs[a := async], out, stack + [AsyncFrame(a)])
  {
    var asyncs', stack' := asyncs[a := async], stack + [AsyncFrame(a)];
    forall b | b in asyncs' && asyncs'[b].phase.Running? ensures AsyncFrame(b) in stack' {
      if b == a { assert stack'[|stack|] == AsyncFrame(a); } else { assert AsyncFrame(b) in stack; }
    }
  }

  lemma {:induction false} StartResult(promises: map<nat, Promise>, asyncs: map<nat, Async>, out: set<Reaction>,
      stack: seq<Frame>, a: nat, async: Async)
    requires ResultOk(promises, asyncs, out, stack) && a !in asyncs && async.phase.Running?
    requires async.promise in promises && promises[async.promise].status.Pending? && !promises[async.promise].resolvable
    requires forall b | b in asyncs :: asyncs[b].promise != async.promise
    requires forall r | r in out :: r.result != Some(async.promise)
    requires forall k | 0 <= k < |stack| && stack[k].HandlerFrame? :: stack[k].reaction.result != Some(async.promise)
    ensures ResultOk(promises, asyncs[a := async], out, stack + [AsyncFrame(a)])
  {
  }

  lemma {:induction false} CallOwners(t: State, promise: nat, u: State)
    requires Owners(t) && FreshOk(t) && promise in t.promises && t.promises[promise].status.Pending?
    requires !t.promises[promise].resolvable
    requires (forall a | a in t.asyncs :: t.asyncs[a].promise != promise)
    requires forall r | r in Outstanding(t) :: r.result != Some(promise)
    requires forall k | 0 <= k < |t.stack| && t.stack[k].HandlerFrame? :: t.stack[k].reaction.result != Some(promise)
    requires u == t.(asyncs := t.asyncs[t.next := Async(promise, Running, Plain(0), false)], next := t.next + 1,
                     stack := t.stack + [AsyncFrame(t.next)])
    ensures Owners(u)
  {
    hide Outstanding, AsyncOk, ResultOk;
    SameOutstanding(t, u);
    StartAsync(t.asyncs, Outstanding(t), t.stack, t.next, Async(promise, Running, Plain(0), false));
    StartResult(t.promises, t.asyncs, Outstanding(t), t.stack, t.next, Async(promise, Running, Plain(0), false));
  }

  /** Registering or queueing a reaction touches no mark. */
  lemma {:induction false} SameMarks(s: State, t: State)
    requires ListOk(s) && MarksOk(s) && t.unhandled == s.unhandled && t.promises.Keys == s.promises.Keys
    requires forall p | p in s.promises :: t.promises[p] == s.promises[p].(reactions := t.promises[p].reactions)
    ensures ListOk(t) && MarksOk(t)
  {
  }

  lemma {:induction false} SuspendedState(s: State, a: nat, async: Async) returns (t: State)
    requires Inv(s) && s.stack != [] && Top(s) == AsyncFrame(a) && a in s.asyncs
    requires async.promise == s.asyncs[a].promise
    ensures t == SetAsync(s.(stack := s.stack[..|s.stack| - 1]), a, async)
    ensures Structure(t) && ListOk(t) && MarksOk(t) && Outstanding(t) == Outstanding(s)
  {
    hide QueueOk, PlacesOk, IdsOk, FreshOk, Owners, Outstanding;
    t := SetAsync(s.(stack := s.stack[..|s.stack| - 1]), a, async);
    FramesKnown(s);
    AsyncStructure(s, s.asyncs[a := async], s.stack[..|s.stack| - 1]);
    SameOutstanding(s, t);
  }

  lemma {:induction false} AwaitPendingKeeps(s: State, p: nat, a: nat)
    requires Inv(s) && p in s.promises && s.promises[p].status.Pending?
    requires s.stack != [] && Top(s) == AsyncFrame(a) && a in s.asyncs
    ensures Inv(AwaitingPromise(s, p, a))
  {
    hide Structure, AsyncOk, ResultOk, Outstanding, ListOk, MarksOk;
    var r := Reaction(s.next, p, NoFunction, NoFunction, None, Some(a));
    var async := s.asyncs[a].(phase := Suspended(r.id), resumeValue := Plain(0), awaitThrew := false);
    var t := SuspendedState(s, a, async);
    AppendPlaces(t, r);
    OutstandingAppended(t, r);
    var u := Append(t, r);
    SameMarks(t, u);
    SuspendAsync(s.asyncs, Outstanding(s), s.stack, a, async, r);
    NotDone(s, a);
    ResultStep(s.promises, s.asyncs, Outstanding(s), s.stack, u.promises, u.asyncs, Outstanding(u), u.stack);
  }

  lemma {:induction false} NotDone(s: State, a: nat)
    requires Owners(s) && s.stack != [] && Top(s) == AsyncFrame(a)
    ensures a in s.asyncs && s.asyncs[a].phase.Running?
    ensures s.asyncs[a].promise in s.promises
  {
  }

  lemma {:induction false} AwaitSettledKeeps(s: State, p: nat, a: nat, value: Value, threw: bool)
    requires Inv(s) && p in s.promises && !s.promises[p].status.Pending?
    requires s.stack != [] && Top(s) == AsyncFrame(a) && a in s.asyncs
    ensures Inv(AwaitingTurn(s, p, a, value, threw))
  {
    hide Structure, AsyncOk, ResultOk, Outstanding, ListOk, MarksOk;
    var r := Reaction(s.next, p, NoFunction, NoFunction, None, Some(a));
    var async := s.asyncs[a].(phase := Suspended(r.id), resumeValue := value, awaitThrew := threw);
    var t := SuspendedState(s, a, async);
    HeadInQueue(t);
    PushPlaces(t, r);
    OutstandingPushed(t, r);
    var u := Push(t, r);
    SameMarks(t, u);
    SuspendAsync(s.asyncs, Outstanding(s), s.stack, a, async, r);
    NotDone(s, a);
    ResultStep(s.promises, s.asyncs, Outstanding(s), s.stack, u.promises, u.asyncs, Outstanding(u), u.stack);
  }

  lemma {:induction false} AwaitCases(s: State, value: Value)
    requires ListOk(s) && Known(s, value) && s.stack != [] && Top(s).AsyncFrame? && Top(s).async in s.asyncs
    ensures Top(s) == s.stack[|s.stack| - 1] && (value.PromiseRef? ==> value.p in s.promises)
    ensures var a := Top(s).async;
      match value
      case Plain(_) => Await(s, value) == AwaitingTurn(WithNew(s, Handoff(value, false)), s.next, a, value, false)
      case PromiseRef(p) =>
        var t := Observe(s, p);
        t == s.(promises := t.promises, unhandled := t.unhandled) && t.promises.Keys == s.promises.Keys &&
        var promise, threw := t.promises[p], t.promises[p].status.Rejected?;
        Await(s, value)
        == if promise.status.Pending? then AwaitingPromise(t, p, a)
           else AwaitingTurn(WithNew(t, Handoff(promise.value, threw)), t.next, a, promise.value, threw)
  {
    hide ListOk, UnhandledRemove;
    if value.PromiseRef? { RemoveKeepsList(Observed(s, value.p), value.p); }
  }

  lemma {:induction false} HandoffKeeps(s: State, a: nat, value: Value, threw: bool)
    requires Inv(s) && s.stack != [] && Top(s) == AsyncFrame(a) && a in s.asyncs
    ensures Inv(AwaitingTurn(WithNew(s, Handoff(value, threw)), s.next, a, value, threw))
  {
    hide Inv;
    NewKeeps(s, Handoff(value, threw));
    AwaitSettledKeeps(WithNew(s, Handoff(value, threw)), s.next, a, value, threw);
  }

  /** Every await suspends its coroutine with exactly one reaction that will resume it. */
  lemma {:induction false} AwaitKeeps(s: State, value: Value)
    requires Inv(s) && Known(s, value) && s.stack != [] && Top(s).AsyncFrame? && Top(s).async in s.asyncs
    ensures Inv(Await(s, value))
  {
    hide Inv, Observe, ListOk, Await, AwaitingPromise, AwaitingTurn;
    AwaitIsInv(s);
    AwaitCases(s, value);
    var a := Top(s).async;
    if value.Plain? {
      HandoffKeeps(s, a, value, false);
    } else {
      ObserveKeeps(s, value.p);
      var t := Observe(s, value.p);
      var promise := t.promises[value.p];
      if promise.status.Pending? {
        AwaitPendingKeeps(t, value.p, a);
      } else {
        HandoffKeeps(t, a, promise.value, promise.status.Rejected?);
      }
    }
  }

  lemma {:induction false} AwaitIsInv(s: State)
    requires Inv(s)
    ensures ListOk(s)
  {
  }

  // ----- the end of a body, and of a handler

  /** The state in which the promise of a call whose body is over gets its outcome. */
  function BodyLeft(s: State): State
    requires s.stack != [] && Top(s).AsyncFrame? && Top(s).async in s.asyncs
  {
    SetAsync(s.(stack := s.stack[..|s.stack| - 1]), Top(s).async, s.asyncs[Top(s).async].(phase := Done))
  }

  lemma {:induction false} LeaveBody(s: State)
    requires Inv(s) && s.stack != [] && Top(s).AsyncFrame?
    ensures Top(s).async in s.asyncs && s.asyncs[Top(s).async].promise in s.promises
    ensures s.promises[s.asyncs[Top(s).async].promise].status.Pending?
    ensures Inv(BodyLeft(s)) && Free(BodyLeft(s), s.asyncs[Top(s).async].promise)
  {
    hide Structure, AsyncOk, Outstanding;
    var a := Top(s).async;
    NotDone(s, a);
    var async := s.asyncs[a].(phase := Done);
    var t := SuspendedState(s, a, async);
    FinishAsync(s.asyncs, Outstanding(s), s.stack, a, async);
    ResultStep(s.promises, s.asyncs, Outstanding(s), s.stack, t.promises, t.asyncs, Outstanding(t), t.stack);
  }

  lemma {:induction false} FinishKeeps(s: State, value: Value, threw: bool)
    requires Inv(s) && Known(s, value) && s.stack != [] && Top(s).AsyncFrame?
    ensures Top(s).async in s.asyncs && s.asyncs[Top(s).async].promise in s.promises
    ensures Inv(Finish(s, value, threw))
  {
    hide Inv, Settle, ResolveInto;
    AwaitIsInv(s);
    LeaveBody(s);
    AwaitIsInv(BodyLeft(s));
    var p := s.asyncs[Top(s).async].promise;
    if threw { SettleKeeps(BodyLeft(s), p, Rejected, value); } else { ResolveKeeps(BodyLeft(s), p, value); }
  }

  lemma {:induction false} LeaveHandler(s: State)
    requires Inv(s) && s.stack != [] && Top(s).HandlerFrame?
    ensures Top(s).reaction.result.Some? && Top(s).reaction.result.value in s.promises
    ensures Inv(s.(stack := s.stack[..|s.stack| - 1])) && Free(s, Top(s).reaction.result.value)
  {
    hide QueueOk, PlacesOk, IdsOk, FreshOk, AsyncOk, Outstanding;
    var t := s.(stack := s.stack[..|s.stack| - 1]);
    FramesKnown(s);
    AsyncStructure(s, s.asyncs, t.stack);
    SameOutstanding(s, t);
    OtherFrames(s.asyncs, Outstanding(s), s.stack, Outstanding(s), t.stack);
    ResultStep(s.promises, s.asyncs, Outstanding(s), s.stack, t.promises, t.asyncs, Outstanding(t), t.stack);
  }

  lemma {:induction false} ReturnKeeps(s: State, value: Value)
    requires Inv(s) && Known(s, value) && s.stack != [] && Top(s).HandlerFrame?
    ensures Top(s).reaction.result.Some? && Top(s).reaction.result.value in s.promises
    ensures Inv(ReturnHandler(s, value))
  {
    hide Inv, ResolveInto;
    AwaitIsInv(s);
    LeaveHandler(s);
    ResolveKeeps(s.(stack := s.stack[..|s.stack| - 1]), Top(s).reaction.result.value, value);
  }

  // ----- the microtask loop

  /** Outstanding reactions with the same identity are the same. */
  lemma {:induction false} OneOfEachId(s: State)
    requires QueueOk(s) && IdsOk(s)
    ensures forall x, y | x in Outstanding(s) && y in Outstanding(s) && x.id == y.id :: x == y
  {
    hide Waiting, Queued, QueueOk, IdsOk;
    forall x, y | x in Outstanding(s) && y in Outstanding(s) && x.id == y.id ensures x == y {
      if x in Waiting(s.promises) {
        WaitingId(s, x, y);
      } else if y in Waiting(s.promises) {
        WaitingId(s, y, x);
      } else {
        QueuedId(s, x, y);
      }
    }
  }

  lemma {:induction false} WaitingId(s: State, x: Reaction, y: Reaction)
    requires QueueOk(s) && IdsOk(s) && x in Waiting(s.promises) && y in Outstanding(s) && x.id == y.id
    ensures x == y
  {
    var p, i :| p in s.promises && 0 <= i < |s.promises[p].reactions| && s.promises[p].reactions[i] == x;
    if y in Queued(s.queue, s.head) {
      var j :| s.head <= j < |s.queue| && s.queue[j] == y;
      var k := QueuePosition(s, j);
    } else {
      var q, j :| q in s.promises && 0 <= j < |s.promises[q].reactions| && s.promises[q].reactions[j] == y;
    }
  }

  lemma {:induction false} QueuedId(s: State, x: Reaction, y: Reaction)
    requires QueueOk(s) && IdsOk(s) && x in Queued(s.queue, s.head) && y in Queued(s.queue, s.head) && x.id == y.id
    ensures x == y
  {
    var i :| s.head <= i < |s.queue| && s.queue[i] == x;
    var j :| s.head <= j < |s.queue| && s.queue[j] == y;
    var k := QueuePosition(s, i);
    var l := QueuePosition(s, j);
    assert s.pushed[k].id == s.pushed[l].id;
  }

  /** The next reaction leaves the queue, and is nowhere else. */
  lemma {:induction false} TakeOutstanding(s: State)
    requires Structure(s) && s.head < |s.queue|
    ensures s.queue[s.head] in Outstanding(s)
    ensures Outstanding(TakeNext(s)) == Outstanding(s) - {s.queue[s.head]}
    ensures forall x, y | x in Outstanding(s) && y in Outstanding(s) && x.id == y.id :: x == y
  {
    hide FreshOk, FramesOk;
    var r := s.queue[s.head];
    var first := QueuePosition(s, s.head);
    forall x | x in Queued(s.queue, s.head) && x != r ensures x in Queued(s.queue, s.head + 1) {
      var j :| s.head <= j < |s.queue| && s.queue[j] == x;
    }
    assert r !in Queued(s.queue, s.head + 1) by {
      forall j | s.head + 1 <= j < |s.queue| ensures s.queue[j] != r {
        var k := QueuePosition(s, j);
      }
    }
    assert r !in Waiting(s.promises) by {
      assert r == s.pushed[first];
    }
    OneOfEachId(s);
  }

  /** Where a queued reaction is in the history of the queue. */
  lemma {:induction false} QueuePosition(s: State, j: nat) returns (k: nat)
    requires QueueOk(s) && s.head <= j < |s.queue|
    ensures k == |s.ran| + (j - s.head) && k < |s.pushed| && s.pushed[k] == s.queue[j]
  {
    k := |s.ran| + (j - s.head);
    assert s.queue[s.head..][j - s.head] == s.queue[j];
  }

  lemma {:induction false} TakeQueue(s: State)
    requires QueueOk(s) && s.head < |s.queue|
    ensures QueueOk(TakeNext(s)) && s.queue[s.head] in Queued(s.queue, s.head)
    ensures forall r | r in Queued(s.queue, s.head + 1) :: r in Queued(s.queue, s.head)
  {
    assert s.queue[s.head..] == [s.queue[s.head]] + s.queue[s.head + 1..];
  }

  lemma {:induction false} TakeStructure(s: State)
    requires Structure(s) && s.head < |s.queue|
    ensures Structure(TakeNext(s)) && KnownReaction(s, s.queue[s.head])
    ensures !s.promises[s.queue[s.head].promise].status.Pending?
  {
    hide IdsOk, QueueOk, Queued;
    TakeQueue(s);
    TakeIds(s);
  }

  lemma {:induction false} TakeIds(s: State)
    requires IdsOk(s) && s.head < |s.queue|
    ensures IdsOk(TakeNext(s))
  {
  }

  lemma {:induction false} IsSuspended(s: State, a: nat)
    requires Owners(s) && s.head < |s.queue| && s.queue[s.head].async == Some(a) && s.queue[s.head] in Outstanding(s)
    ensures a in s.asyncs && s.asyncs[a].phase == Suspended(s.queue[s.head].id)
  {
  }

  lemma {:induction false} ResumeKeeps(s: State, a: nat, async: Async)
    requires Inv(s) && s.head < |s.queue| && s.queue[s.head].async == Some(a) && a in s.asyncs
    requires async.phase.Running? && async.promise == s.asyncs[a].promise
    ensures s.asyncs[a].phase.Suspended?
    ensures Inv(SetAsync(TakeNext(s), a, async).(stack := s.stack + [AsyncFrame(a)]))
  {
    hide QueueOk, PlacesOk, IdsOk, FreshOk, ResultOk, AsyncOk, Outstanding, ListOk, MarksOk;
    var r, t := s.queue[s.head], TakeNext(s);
    TakeStructure(s);
    TakeOutstanding(s);
    var u := SetAsync(t, a, async).(stack := s.stack + [AsyncFrame(a)]);
    FramesKnown(s);
    AsyncStructure(t, u.asyncs, u.stack);
    SameOutstanding(t, u);
    IsSuspended(s, a);
    WakeAsync(s.asyncs, Outstanding(s), s.stack, a, async, r);
    ResultStep(s.promises, s.asyncs, Outstanding(s), s.stack, u.promises, u.asyncs, Outstanding(u), u.stack);
    SameMarks(s, u);
  }

  lemma {:induction false} TakeOtherKeeps(s: State, f: Frame, stack: seq<Frame>)
    requires Inv(s) && s.head < |s.queue| && s.queue[s.head].async.None?
    requires f.HandlerFrame? && f.reaction == s.queue[s.head] && (stack == s.stack || stack == s.stack + [f])
    ensures Inv(TakeNext(s).(stack := stack)) && Free(TakeNext(s), s.queue[s.head].result.value)
  {
    hide QueueOk, PlacesOk, IdsOk, FreshOk, AsyncOk, Outstanding;
    var r, t := s.queue[s.head], TakeNext(s);
    TakeStructure(s);
    TakeOutstanding(s);
    var u := t.(stack := stack);
    FramesKnown(s);
    AsyncStructure(t, u.asyncs, u.stack);
    SameOutstanding(t, u);
    OtherFrames(s.asyncs, Outstanding(s), s.stack, Outstanding(u), u.stack);
    ResultStep(s.promises, s.asyncs, Outstanding(s), s.stack, u.promises, u.asyncs, Outstanding(u), u.stack);
  }

  lemma {:induction false} RunNextKeeps(s: State)
    requires Inv(s) && s.head < |s.queue|
    ensures KnownReaction(s, s.queue[s.head]) && Inv(RunNext(s))
  {
    hide Inv, Structure, Owners, SetAsync, Settle, TakeNext;
    NextIsKnown(s);
    var r := s.queue[s.head];
    var promise := s.promises[r.promise];
    if r.async.Some? {
      var async := s.asyncs[r.async.value];
      ResumeKeeps(s, r.async.value,
                  async.(phase := Running, resumeValue := promise.value, awaitThrew := promise.status.Rejected?));
      TakenFields(s);
    } else {
      var handler := if promise.status.Fulfilled? then r.onFulfilled else r.onRejected;
      var f := HandlerFrame(r, if handler.Function? then handler.code else 0, promise.value);
      TakeOtherKeeps(s, f, s.stack);
      TakeOtherKeeps(s, f, s.stack + [f]);
      TakenFields(s);
      if !handler.Function? {
        var status := if promise.status.Fulfilled? then Fulfilled else Rejected;
        SettleKeeps(TakeNext(s), r.result.value, status, promise.value);
      }
    }
  }

  lemma {:induction false} NextIsKnown(s: State)
    requires Inv(s) && s.head < |s.queue|
    ensures KnownReaction(s, s.queue[s.head])
  {
    TakeStructure(s);
  }

  lemma {:induction false} TakenFields(s: State)
    requires s.head < |s.queue|
    ensures TakeNext(s).asyncs == s.asyncs && TakeNext(s).stack == s.stack && TakeNext(s).promises == s.promises
    ensures TakeNext(s).(stack := s.stack) == TakeNext(s)
  {
  }

  lemma {:induction false} ResetKeeps(s: State)
    requires Inv(s) && s.head == |s.queue|
    ensures Inv(ResetQueue(s))
  {
    hide IdsOk, PlacesOk, AsyncOk, ResultOk;
    var t := ResetQueue(s);
    assert Queued(t.queue, t.head) == Queued(s.queue, s.head);
    ResetPlaces(s);
    ResetIds(s);
  }

  lemma {:induction false} ResetPlaces(s: State)
    requires PlacesOk(s) && s.head == |s.queue|
    ensures PlacesOk(ResetQueue(s))
  {
    var t := ResetQueue(s);
    forall p, i | p in t.promises && 0 <= i < |t.promises[p].reactions|
      ensures KnownReaction(t, t.promises[p].reactions[i])
    {
      StillKnown(s, t, s.promises[p].reactions[i]);
    }
  }

  lemma {:induction false} ResetIds(s: State)
    requires IdsOk(s)
    ensures IdsOk(ResetQueue(s))
  {
  }
}
