/**
  Promises, the microtask queue, the list of unhandled rejections and async coroutines as one value, with a
  function for every operation. Handler and coroutine bodies are open: whatever they do is a sequence of
  the steps below.
 */
module PromiseModel {
  import opened Collections

  datatype Status = Pending | Fulfilled | Rejected

  datatype Value = Plain(n: int) | PromiseRef(p: nat)

  /** What `then` was given: a function or anything else. */
  datatype Handler = Function(code: nat) | NoFunction

  /** A registered callback; `result` follows it, or `async` is the coroutine that waits. The `id` is the
      identity of the allocated block. */
  datatype Reaction = Reaction(
    id: nat, promise: nat, onFulfilled: Handler, onRejected: Handler, result: Option<nat>, async: Option<nat>)

  /** `listed` is the position in the unhandled list; `resolvable` says that the program holds resolving
      functions for this promise. */
  datatype Promise = Promise(
    status: Status, value: Value, reactions: seq<Reaction>, observed: bool, listed: Option<nat>, resolvable: bool)

  /** A coroutine waits for the reaction `wake`, or runs (somewhere on the stack), or has finished. */
  datatype Phase = Running | Suspended(wake: nat) | Done

  datatype Async = Async(promise: nat, phase: Phase, resumeValue: Value, awaitThrew: bool)

  /** What is being executed, innermost last: a handler of a reaction with its argument, or a coroutine body. */
  datatype Frame = HandlerFrame(reaction: Reaction, code: nat, argument: Value) | AsyncFrame(async: nat)

  /** `pushed` and `ran` are histories: every reaction ever queued, and every reaction taken from the queue. */
  datatype State = State(
    promises: map<nat, Promise>, queue: seq<Reaction>, head: nat, unhandled: seq<nat>,
    asyncs: map<nat, Async>, stack: seq<Frame>, next: nat, pushed: seq<Reaction>, ran: seq<Reaction>)

  const START := State(map[], [], 0, [], map[], [], 0, [], [])

  // ----- the unhandled list

  /** Each listed promise knows its position. */
  ghost predicate ListOk(s: State) {
    && (forall k | 0 <= k < |s.unhandled| ::
          s.unhandled[k] in s.promises && s.promises[s.unhandled[k]].listed == Some(k))
    && forall p | p in s.promises && s.promises[p].listed.Some? ::
         s.promises[p].listed.value < |s.unhandled| && s.unhandled[s.promises[p].listed.value] == p
  }

  ghost predicate Known(s: State, v: Value) {
    v.PromiseRef? ==> v.p in s.promises
  }

  /** A reaction is for a promise of the state, and either has a result promise or resumes a coroutine. */
  ghost predicate KnownReaction(s: State, r: Reaction) {
    && r.promise in s.promises && r.id < s.next
    && (r.async.None? ==> r.result.Some? && r.result.value in s.promises)
    && (r.async.Some? ==> r.result.None? && r.async.value in s.asyncs)
  }

  function Put(s: State, p: nat, promise: Promise): State {
    s.(promises := s.promises[p := promise])
  }

  function UnhandledRemove(s: State, p: nat): State
    requires ListOk(s) && p in s.promises
  {
    match s.promises[p].listed
    case None => s
    case Some(index) =>
      var last := |s.unhandled| - 1;
      var moved := s.unhandled[last];
      var t := if index != last
               then Put(s, moved, s.promises[moved].(listed := Some(index))).(unhandled := s.unhandled[index := moved])
               else s;
      Put(t, p, t.promises[p].(listed := None)).(unhandled := t.unhandled[..last])
  }

  function UnhandledAdd(s: State, p: nat): State
    requires p in s.promises
  {
    if s.promises[p].observed || s.promises[p].listed.Some? then s
    else Put(s, p, s.promises[p].(listed := Some(|s.unhandled|))).(unhandled := s.unhandled + [p])
  }

  function Observe(s: State, p: nat): State
    requires ListOk(s) && p in s.promises
  {
    UnhandledRemove(Observed(s, p), p)
  }

  function Observed(s: State, p: nat): (t: State)
    requires ListOk(s) && p in s.promises
    ensures ListOk(t)
  {
    Put(s, p, s.promises[p].(observed := true))
  }

  // ----- creating, settling, subscribing

  function WithNew(s: State, promise: Promise): State {
    Put(s, s.next, promise).(next := s.next + 1)
  }

  function NewPromise(s: State, resolvable: bool): State {
    WithNew(s, Promise(Pending, Plain(0), [], false, None, resolvable))
  }

  /** The state of a pending promise changes and its reactions move to the queue. */
  function SettleCore(s: State, p: nat, status: Status, value: Value): State
    requires p in s.promises
  {
    var promise := s.promises[p];
    Put(s, p, promise.(status := status, value := value, reactions := []))
    .(queue := s.queue + promise.reactions, pushed := s.pushed + promise.reactions)
  }

  function Settle(s: State, p: nat, status: Status, value: Value): State
    requires p in s.promises
  {
    if !s.promises[p].status.Pending? then s
    else
      var t := SettleCore(s, p, status, value);
      if status.Rejected? then UnhandledAdd(t, p) else t
  }

  function Append(s: State, r: Reaction): State
    requires r.promise in s.promises
  {
    var promise := s.promises[r.promise];
    Put(s, r.promise, promise.(reactions := promise.reactions + [r])).(next := s.next + 1)
  }

  function Push(s: State, r: Reaction): State {
    s.(queue := s.queue + [r], pushed := s.pushed + [r], next := s.next + 1)
  }

  function ResolveInto(s: State, result: nat, value: Value): State
    requires ListOk(s) && result in s.promises && Known(s, value)
  {
    match value
    case Plain(_) => Settle(s, result, Fulfilled, value)
    case PromiseRef(other) =>
      var t := Observe(s, other);
      if t.promises[other].status.Pending?
      then Append(t, Reaction(t.next, other, NoFunction, NoFunction, Some(result), None))
      else Settle(t, result, t.promises[other].status, t.promises[other].value)
  }

  /** `p.then(f, g)`; the result is the promise with the number `s.next`. */
  function Then(s: State, p: nat, f: Handler, g: Handler): State
    requires ListOk(s) && p in s.promises
  {
    var t := NewPromise(Observe(s, p), false);
    var r := Reaction(t.next, p, f, g, Some(s.next), None);
    if t.promises[p].status.Pending? then Append(t, r) else Push(t, r)
  }

  // ----- async functions

  function SetAsync(s: State, a: nat, async: Async): State {
    s.(asyncs := s.asyncs[a := async])
  }

  /** A call of an async function: a new coroutine with a new promise starts to run. */
  function CallAsync(s: State): State {
    var t := NewPromise(s, false);
    SetAsync(t, t.next, Async(s.next, Running, Plain(0), false))
    .(next := t.next + 1, stack := t.stack + [AsyncFrame(t.next)])
  }

  /** The coroutine `a`, on top of the stack, is suspended on `p`, which is pending. */
  function AwaitingPromise(s: State, p: nat, a: nat): State
    requires s.stack != [] && a in s.asyncs && p in s.promises
  {
    var async := s.asyncs[a].(phase := Suspended(s.next), resumeValue := Plain(0), awaitThrew := false);
    Append(SetAsync(s.(stack := s.stack[..|s.stack| - 1]), a, async),
           Reaction(s.next, p, NoFunction, NoFunction, None, Some(a)))
  }

  /** The coroutine `a`, on top of the stack, is suspended behind the queue, with a settled promise of its own. */
  function AwaitingTurn(s: State, p: nat, a: nat, value: Value, threw: bool): State
    requires s.stack != [] && a in s.asyncs
  {
    var async := s.asyncs[a].(phase := Suspended(s.next), resumeValue := value, awaitThrew := threw);
    Push(SetAsync(s.(stack := s.stack[..|s.stack| - 1]), a, async),
         Reaction(s.next, p, NoFunction, NoFunction, None, Some(a)))
  }

  /** A promise that carries a value to a coroutine and that nobody else sees. */
  function Handoff(value: Value, rejected: bool): Promise {
    Promise(if rejected then Rejected else Fulfilled, value, [], true, None, false)
  }

  /** The coroutine on top of the stack awaits `value`. */
  function Await(s: State, value: Value): State
    requires ListOk(s) && Known(s, value)
    requires s.stack != [] && Top(s).AsyncFrame? && Top(s).async in s.asyncs
  {
    var a := Top(s).async;
    match value
    case Plain(_) => AwaitingTurn(WithNew(s, Handoff(value, false)), s.next, a, value, false)
    case PromiseRef(p) =>
      var t := Observe(s, p);
      var promise := t.promises[p];
      if promise.status.Pending? then AwaitingPromise(t, p, a)
      else
        var threw := promise.status.Rejected?;
        AwaitingTurn(WithNew(t, Handoff(promise.value, threw)), t.next, a, promise.value, threw)
  }

  /** The body of the coroutine on top of the stack is over. */
  function Finish(s: State, value: Value, threw: bool): State
    requires ListOk(s) && Known(s, value)
    requires s.stack != [] && Top(s).AsyncFrame? && Top(s).async in s.asyncs
    requires s.asyncs[Top(s).async].promise in s.promises
  {
    var a := Top(s).async;
    var t := SetAsync(s, a, s.asyncs[a].(phase := Done)).(stack := s.stack[..|s.stack| - 1]);
    if threw then Settle(t, t.asyncs[a].promise, Rejected, value) else ResolveInto(t, t.asyncs[a].promise, value)
  }

  // ----- running microtasks

  function Top(s: State): Frame
    requires s.stack != []
  {
    s.stack[|s.stack| - 1]
  }

  function TakeNext(s: State): State
    requires s.head < |s.queue|
  {
    s.(head := s.head + 1, ran := s.ran + [s.queue[s.head]])
  }

  /** One iteration of the microtask loop; a handler is entered, its return is a step of its own. */
  function RunNext(s: State): State
    requires s.head < |s.queue|
    requires KnownReaction(s, s.queue[s.head])
  {
    var r := s.queue[s.head];
    var t := TakeNext(s);
    var promise := s.promises[r.promise];
    if r.async.Some? then
      var async := t.asyncs[r.async.value];
      if async.phase.Done? then t
      else
        var resumed := async.(phase := Running, resumeValue := promise.value, awaitThrew := promise.status.Rejected?);
        SetAsync(t, r.async.value, resumed)
        .(stack := t.stack + [AsyncFrame(r.async.value)])
    else
      var handler := if promise.status.Fulfilled? then r.onFulfilled else r.onRejected;
      if handler.Function? then t.(stack := t.stack + [HandlerFrame(r, handler.code, promise.value)])
      else Settle(t, r.result.value, if promise.status.Fulfilled? then Fulfilled else Rejected, promise.value)
  }

  /** The handler on top of the stack returns. */
  function ReturnHandler(s: State, value: Value): State
    requires ListOk(s) && Known(s, value)
    requires s.stack != [] && Top(s).HandlerFrame? && Top(s).reaction.result.Some?
    requires Top(s).reaction.result.value in s.promises
  {
    ResolveInto(s.(stack := s.stack[..|s.stack| - 1]), Top(s).reaction.result.value, value)
  }

  /** The loop starts over with an empty array once everything in it has run. */
  function ResetQueue(s: State): State {
    s.(queue := [], head := 0)
  }

  // ----- the list stays consistent

  /** Only the `listed` and `observed` marks of promises, and the list, may differ. */
  ghost predicate SameButMarks(s: State, t: State) {
    && t == s.(promises := t.promises, unhandled := t.unhandled)
    && t.promises.Keys == s.promises.Keys
    && forall q | q in s.promises ::
         t.promises[q] == s.promises[q].(listed := t.promises[q].listed, observed := t.promises[q].observed)
  }

  /** Nothing but `p` leaves the list. */
  ghost predicate RemovedOnly(s: State, t: State, p: nat) {
    && SameButMarks(s, t) && p in t.promises && t.promises[p].listed == None
    && forall q | q in s.promises :: t.promises[q].observed == s.promises[q].observed &&
         (q != p ==> (t.promises[q].listed.Some? <==> s.promises[q].listed.Some?))
  }

  lemma {:induction false} RemoveLast(s: State, p: nat)
    requires ListOk(s) && p in s.promises && s.promises[p].listed == Some(|s.unhandled| - 1)
    ensures ListOk(UnhandledRemove(s, p)) && RemovedOnly(s, UnhandledRemove(s, p), p)
  {
    var t := UnhandledRemove(s, p);
    assert t.unhandled == s.unhandled[..|s.unhandled| - 1];
    assert s.unhandled[|s.unhandled| - 1] == p;
    forall q | q in t.promises && t.promises[q].listed.Some?
      ensures t.promises[q].listed.value < |t.unhandled| && t.unhandled[t.promises[q].listed.value] == q
    {
      assert q != p && t.promises[q] == s.promises[q];
    }
  }

  /** The last promise of the list takes the place of `p`. */
  lemma {:induction false} RemoveInner(s: State, p: nat)
    requires ListOk(s) && p in s.promises && s.promises[p].listed.Some?
    requires s.promises[p].listed.value != |s.unhandled| - 1
    ensures ListOk(UnhandledRemove(s, p)) && RemovedOnly(s, UnhandledRemove(s, p), p)
  {
    hide ListOk;
    RemoveInnerIs(s, p);
    RemovedList(s, p, UnhandledRemove(s, p));
  }

  lemma {:induction false} RemoveInnerIs(s: State, p: nat)
    requires ListOk(s) && p in s.promises && s.promises[p].listed.Some?
    requires s.promises[p].listed.value != |s.unhandled| - 1
    ensures SwappedOut(s, p, UnhandledRemove(s, p))
  {
    var index, last := s.promises[p].listed.value, |s.unhandled| - 1;
    var moved := s.unhandled[last];
    assert s.unhandled[index] == p && s.promises[moved].listed == Some(last);
  }

  ghost predicate SwappedOut(s: State, p: nat, t: State) {
    && ListOk(s) && p in s.promises && s.promises[p].listed.Some?
    && var index, last := s.promises[p].listed.value, |s.unhandled| - 1;
    && var moved := s.unhandled[last];
    && index < last && moved != p
    && t == s.(promises := s.promises[moved := s.promises[moved].(listed := Some(index))]
                                     [p := s.promises[p].(listed := None)],
               unhandled := s.unhandled[index := moved][..last])
  }

  lemma {:induction false} RemovedList(s: State, p: nat, t: State)
    requires SwappedOut(s, p, t)
    ensures ListOk(t) && RemovedOnly(s, t, p)
  {
    hide ListOk, RemovedOnly;
    RemovedForward(s, p, t);
    RemovedBackward(s, p, t);
    ListsOk(t);
    RemovedMarks(s, p, t);
  }

  lemma {:induction false} MovedListed(s: State, p: nat, t: State)
    requires SwappedOut(s, p, t)
    ensures var moved := s.unhandled[|s.unhandled| - 1]; moved in s.promises && s.promises[moved].listed.Some?
  {
  }

  lemma {:induction false} RemovedMarks(s: State, p: nat, t: State)
    requires SwappedOut(s, p, t)
    ensures RemovedOnly(s, t, p)
  {
    hide ListOk;
    MovedListed(s, p, t);
  }

  lemma {:induction false} ListsOk(t: State)
    requires forall k | 0 <= k < |t.unhandled| ::
               t.unhandled[k] in t.promises && t.promises[t.unhandled[k]].listed == Some(k)
    requires forall q | q in t.promises && t.promises[q].listed.Some? ::
               t.promises[q].listed.value < |t.unhandled| && t.unhandled[t.promises[q].listed.value] == q
    ensures ListOk(t)
  {
  }

  lemma {:induction false} RemovedForward(s: State, p: nat, t: State)
    requires SwappedOut(s, p, t)
    ensures forall k | 0 <= k < |t.unhandled| ::
              t.unhandled[k] in t.promises && t.promises[t.unhandled[k]].listed == Some(k)
  {
    forall k | 0 <= k < |t.unhandled|
      ensures t.unhandled[k] in t.promises && t.promises[t.unhandled[k]].listed == Some(k)
    {
      if k != s.promises[p].listed.value { assert s.promises[s.unhandled[k]].listed == Some(k); }
    }
  }

  lemma {:induction false} RemovedBackward(s: State, p: nat, t: State)
    requires SwappedOut(s, p, t)
    ensures forall q | q in t.promises && t.promises[q].listed.Some? ::
              t.promises[q].listed.value < |t.unhandled| && t.unhandled[t.promises[q].listed.value] == q
  {
    var last := |s.unhandled| - 1;
    var moved := s.unhandled[last];
    forall q | q in t.promises && t.promises[q].listed.Some?
      ensures t.promises[q].listed.value < last && t.unhandled[t.promises[q].listed.value] == q
    {
      if q != moved { assert t.promises[q] == s.promises[q] && s.unhandled[s.promises[q].listed.value] == q; }
    }
  }

  /** Swap-removal keeps every other promise listed and the positions right. */
  lemma RemoveKeepsList(s: State, p: nat)
    requires ListOk(s) && p in s.promises
    ensures ListOk(UnhandledRemove(s, p)) && RemovedOnly(s, UnhandledRemove(s, p), p)
  {
    if s.promises[p].listed.Some? {
      if s.promises[p].listed.value == |s.unhandled| - 1 { RemoveLast(s, p); } else { RemoveInner(s, p); }
    }
  }
}
