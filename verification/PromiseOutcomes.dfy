/** Outcomes arrive where they should: at handlers, at the promises that follow others, and at awaits. */
module PromiseOutcomes {
  import opened Collections
  import opened PromiseModel
  import opened PromiseInvariant
  import opened PromiseSteps
  import opened PromiseHistory
  import opened PromiseRuns

  ghost predicate HasOutcome(s: State, p: nat, status: Status, value: Value) {
    p in s.promises && s.promises[p].status == status && s.promises[p].value == value
  }

  // ----- what one operation does to a promise

  /** The first settlement counts. */
  lemma {:induction false} SettleOutcome(s: State, p: nat, status: Status, value: Value)
    requires p in s.promises && !status.Pending?
    ensures s.promises[p].status.Pending? ==> HasOutcome(Settle(s, p, status, value), p, status, value)
    ensures !s.promises[p].status.Pending? ==> Settle(s, p, status, value) == s
    ensures Settle(s, p, status, value).stack == s.stack && Settle(s, p, status, value).asyncs == s.asyncs
  {
  }

  /** In `t` the promise `p`, which was pending, has what resolving it with `value` gives: the plain value, or the
      outcome of the promise `value`, or a reaction of that promise which will pass its outcome on. */
  ghost predicate Follows(s: State, p: nat, value: Value, t: State) {
    match value
    case Plain(_) => HasOutcome(t, p, Fulfilled, value)
    case PromiseRef(q) =>
      q in s.promises && q in t.promises &&
      if s.promises[q].status.Pending? then
        p in t.promises && t.promises[p].status.Pending?
        && Reaction(s.next, q, NoFunction, NoFunction, Some(p), None) in t.promises[q].reactions
      else HasOutcome(t, p, s.promises[q].status, s.promises[q].value)
  }

  lemma {:induction false} ResolveOutcome(s: State, p: nat, value: Value)
    requires Inv(s) && p in s.promises && Known(s, value) && s.promises[p].status.Pending?
    ensures Follows(s, p, value, ResolveInto(s, p, value))
  {
    hide Settle, Observe, Structure, Owners, MarksOk;
    if value.PromiseRef? {
      ObserveKeeps(s, value.p);
      var t := Observe(s, value.p);
      if !t.promises[value.p].status.Pending? {
        SettleOutcome(t, p, t.promises[value.p].status, t.promises[value.p].value);
        SettleKeys(t, p, t.promises[value.p].status, t.promises[value.p].value);
      }
    } else {
      SettleOutcome(s, p, Fulfilled, value);
    }
  }

  lemma {:induction false} SettleKeys(s: State, p: nat, status: Status, value: Value)
    requires p in s.promises
    ensures Settle(s, p, status, value).promises.Keys == s.promises.Keys
  {
  }

  /** `then` registers exactly the two callbacks, for this promise and a new result promise. */
  lemma {:induction false} ThenRegisters(s: State, p: nat, f: Handler, g: Handler)
    requires Inv(s) && p in s.promises
    ensures Outstanding(Then(s, p, f, g)) == Outstanding(s) + {Reaction(s.next + 1, p, f, g, Some(s.next), None)}
    ensures HasOutcome(Then(s, p, f, g), s.next, Pending, Plain(0))
  {
    hide Observe, Inv, ListOk, Outstanding;
    AwaitIsInv(s);
    ObserveKeeps(s, p);
    var o := Observe(s, p);
    MarksKeepOutstanding(s, o);
    NewKeeps(o, Promise(Pending, Plain(0), [], false, None, false));
    var t := NewPromise(o, false);
    var r := Reaction(t.next, p, f, g, Some(s.next), None);
    QueueBounds(t);
    if t.promises[p].status.Pending? { OutstandingAppended(t, r); } else { OutstandingPushed(t, r); }
  }

  lemma {:induction false} MarksKeepOutstanding(s: State, t: State)
    requires Inv(s) && SameButMarks(s, t)
    ensures Outstanding(t) == Outstanding(s)
  {
    hide ListOk, MarksOk, Structure, AsyncOk, ResultOk;
    MarksKeepOwners(s, t);
  }

  lemma {:induction false} QueueBounds(s: State)
    requires Inv(s)
    ensures s.head <= |s.queue|
  {
  }

  /** Without a callback for it, the outcome goes on to the result promise as it is. */
  lemma {:induction false} PassesOn(s: State)
    requires Inv(s) && s.head < |s.queue| && KnownReaction(s, s.queue[s.head]) && s.queue[s.head].async.None?
    requires var r := s.queue[s.head]; var promise := s.promises[r.promise];
      !(if promise.status.Fulfilled? then r.onFulfilled else r.onRejected).Function?
        && s.promises[r.result.value].status.Pending?
    ensures var r := s.queue[s.head];
      HasOutcome(RunNext(s), r.result.value, s.promises[r.promise].status, s.promises[r.promise].value)
  {
    hide Settle, IdsOk, FreshOk, FramesOk, Owners, MarksOk, ListOk;
    TakeStructure(s);
    var r := s.queue[s.head];
    var promise := s.promises[r.promise];
    var status := if promise.status.Fulfilled? then Fulfilled else Rejected;
    SettleOutcome(TakeNext(s), r.result.value, status, promise.value);
  }

  /** A body that throws rejects the promise of its call, one that returns resolves it. */
  lemma {:induction false} FinishOutcome(s: State, value: Value, threw: bool)
    requires Inv(s) && Known(s, value) && s.stack != [] && Top(s).AsyncFrame?
    ensures Top(s).async in s.asyncs && s.asyncs[Top(s).async].promise in s.promises
    ensures var p := s.asyncs[Top(s).async].promise;
      if threw then HasOutcome(Finish(s, value, threw), p, Rejected, value)
      else Follows(s, p, value, Finish(s, value, threw))
  {
    hide Settle, ResolveInto, Inv, HasOutcome;
    AwaitIsInv(s);
    LeaveBody(s);
    var p := s.asyncs[Top(s).async].promise;
    SettleOutcome(BodyLeft(s), p, Rejected, value);
    if !threw { ResolveOutcome(BodyLeft(s), p, value); }
  }

  /** The promise that a `then` returned, while it is pending, is resolved with what the handler returns. */
  lemma {:induction false} ReturnOutcome(s: State, value: Value)
    requires Inv(s) && Known(s, value) && s.stack != [] && Top(s).HandlerFrame?
    ensures Top(s).reaction.result.Some? && Top(s).reaction.result.value in s.promises
    ensures var p := Top(s).reaction.result.value;
      s.promises[p].status.Pending? ==> Follows(s, p, value, ReturnHandler(s, value))
  {
    hide ResolveInto, Inv, HasOutcome;
    AwaitIsInv(s);
    LeaveHandler(s);
    var p := Top(s).reaction.result.value;
    if s.promises[p].status.Pending? { ResolveOutcome(s.(stack := s.stack[..|s.stack| - 1]), p, value); }
  }

  // ----- handlers

  /** The handler that runs is the one for the outcome of its promise, and gets its value. */
  ghost predicate Chosen(s: State, f: Frame) {
    f.HandlerFrame? ==>
      && f.reaction.promise in s.promises && !s.promises[f.reaction.promise].status.Pending?
      && f.argument == s.promises[f.reaction.promise].value
      && var r := f.reaction;
         (if s.promises[r.promise].status.Fulfilled? then r.onFulfilled else r.onRejected) == Function(f.code)
  }

  ghost predicate FramesMatch(s: State) {
    forall k | 0 <= k < |s.stack| :: Chosen(s, s.stack[k])
  }

  /** Frames come from the microtask loop and from calls alone. */
  ghost predicate StackFrom(s: State, stack: seq<Frame>) {
    forall k | 0 <= k < |stack| :: (k < |s.stack| && stack[k] == s.stack[k]) || Chosen(s, stack[k])
  }

  lemma {:induction false} ObserveStack(s: State, p: nat)
    requires ListOk(s) && p in s.promises
    ensures Observe(s, p).stack == s.stack
  {
  }

  lemma {:induction false} ResolveStack(s: State, p: nat, value: Value)
    requires ListOk(s) && p in s.promises && Known(s, value)
    ensures ResolveInto(s, p, value).stack == s.stack
  {
    hide Observe;
    if value.PromiseRef? { ObserveStack(s, value.p); }
  }

  lemma {:induction false} RunNextStack(s: State)
    requires Inv(s) && s.head < |s.queue| && KnownReaction(s, s.queue[s.head])
    ensures StackFrom(s, RunNext(s).stack)
  {
    hide IdsOk, FreshOk, FramesOk, Owners, MarksOk, ListOk;
    TakeStructure(s);
  }

  lemma {:induction false} ThenStack(s: State, p: nat, f: Handler, g: Handler)
    requires ListOk(s) && p in s.promises
    ensures Then(s, p, f, g).stack == s.stack
  {
    hide Observe;
    ObserveStack(s, p);
  }

  lemma {:induction false} AwaitStack(s: State, value: Value)
    requires ListOk(s) && Known(s, value) && s.stack != [] && Top(s).AsyncFrame? && Top(s).async in s.asyncs
    ensures Await(s, value).stack == s.stack[..|s.stack| - 1]
  {
    hide Observe;
    if value.PromiseRef? { ObserveStack(s, value.p); }
  }

  lemma {:induction false} StepStack(s: State, step: Step)
    requires Inv(s) && Enabled(s, step)
    ensures StackFrom(s, Next(s, step).stack)
  {
    hide Observe, ResolveInto, Settle, Then, Await, Finish, RunNext, Inv;
    AwaitIsInv(s);
    match step
    case Resolve(p, value) => ResolveStack(s, p, value);
    case Reject(p, value) => SettleOutcome(s, p, Rejected, value);
    case Subscribe(p, f, g) => ThenStack(s, p, f, g);
    case Look(p) => ObserveStack(s, p);
    case AwaitValue(value) => TopIsKnown(s); AwaitStack(s, value);
    case EndBody(value, threw) => TopIsKnown(s); EndStack(s, value, threw);
    case EndHandler(value) =>
      TopIsKnown(s);
      ResolveStack(s.(stack := s.stack[..|s.stack| - 1]), Top(s).reaction.result.value, value);
    case Microtask => NextIsKnown(s); RunNextStack(s);
    case _ =>
  }

  lemma {:induction false} EndStack(s: State, value: Value, threw: bool)
    requires Inv(s) && Known(s, value) && s.stack != [] && Top(s).AsyncFrame?
    requires Top(s).async in s.asyncs && s.asyncs[Top(s).async].promise in s.promises
    ensures Finish(s, value, threw).stack == s.stack[..|s.stack| - 1]
  {
    hide ResolveInto, Structure, Owners, MarksOk;
    var a := Top(s).async;
    var t := SetAsync(s, a, s.asyncs[a].(phase := Done)).(stack := s.stack[..|s.stack| - 1]);
    if !threw { ResolveStack(t, t.asyncs[a].promise, value); }
  }

  lemma {:induction false} ChosenStays(s: State, t: State, f: Frame)
    requires Settled(s, t) && Chosen(s, f)
    ensures Chosen(t, f)
  {
  }

  /** In every state of every run each handler that is running was chosen by, and given, the outcome of its promise. */
  lemma {:induction false} HandlersMatch(run: seq<State>, steps: seq<Step>, k: nat)
    requires IsRun(run, steps) && k < |run|
    ensures FramesMatch(run[k])
  {
    hide Inv, Enabled, Next, Chosen, Settled, Conserved, OrderOk;
    if k > 0 {
      HandlersMatch(run, steps, k - 1);
      EveryState(run, steps, k - 1);
      StepStack(run[k - 1], steps[k - 1]);
      OneStep(run[k - 1], steps[k - 1]);
      forall i | 0 <= i < |run[k].stack| ensures Chosen(run[k], run[k].stack[i]) {
        ChosenStays(run[k - 1], run[k], run[k].stack[i]);
      }
    }
  }

  // ----- awaits

  /** What the reaction hands over is the outcome of the awaited value, now or once it is settled. */
  ghost predicate Delivers(s: State, r: Reaction, v: Value) {
    && r.promise in s.promises
    && match v
       case Plain(_) => HasOutcome(s, r.promise, Fulfilled, v)
       case PromiseRef(p) =>
         r.promise == p || (p in s.promises && !s.promises[p].status.Pending?
           && HasOutcome(s, r.promise, s.promises[p].status, s.promises[p].value))
  }

  lemma {:induction false} DeliversStays(s: State, t: State, r: Reaction, v: Value)
    requires Settled(s, t) && Delivers(s, r, v)
    ensures Delivers(t, r, v)
  {
  }

  /** An await registers a reaction that will deliver what is awaited. */
  lemma {:induction false} AwaitRegisters(s: State, v: Value) returns (r: Reaction)
    requires Inv(s) && Known(s, v) && s.stack != [] && Top(s).AsyncFrame? && Top(s).async in s.asyncs
    ensures var t := Await(s, v); var a := Top(s).async;
      && r in Outstanding(t) && r.async == Some(a) && a in t.asyncs && t.asyncs[a].phase == Suspended(r.id)
        && Delivers(t, r, v)
  {
    hide Observe, Structure, Owners, MarksOk, Outstanding;
    var a, t := Top(s).async, s;
    if v.PromiseRef? {
      ObserveKeeps(s, v.p);
      t := Observe(s, v.p);
      ObserveStack(s, v.p);
    }
    QueueBounds(t);
    var u := Await(s, v);
    if v.PromiseRef? && t.promises[v.p].status.Pending? {
      r := Reaction(t.next, v.p, NoFunction, NoFunction, None, Some(a));
      var async := t.asyncs[a].(phase := Suspended(r.id), resumeValue := Plain(0), awaitThrew := false);
      var w := SetAsync(t.(stack := t.stack[..|t.stack| - 1]), a, async);
      assert u == Append(w, r);
      OutstandingAppended(w, r);
    } else {
      r := Reaction(t.next + 1, t.next, NoFunction, NoFunction, None, Some(a));
      IsQueued(u, r);
      if v.PromiseRef? { Unused(t, v.p); }
    }
  }

  lemma {:induction false} IsQueued(s: State, r: Reaction)
    requires s.queue != [] && s.queue[|s.queue| - 1] == r && s.head < |s.queue|
    ensures r in Outstanding(s)
  {
  }

  lemma {:induction false} Unused(s: State, p: nat)
    requires Inv(s) && p in s.promises
    ensures p < s.next
  {
  }

  /** Resuming hands over the outcome of the promise of the wake reaction. */
  lemma {:induction false} ResumeOutcome(s: State, a: nat)
    requires Inv(s) && s.head < |s.queue| && s.queue[s.head].async == Some(a) && KnownReaction(s, s.queue[s.head])
    ensures a in s.asyncs && s.asyncs[a].phase == Suspended(s.queue[s.head].id) && s.queue[s.head].promise in s.promises
    ensures var t := RunNext(s); var p := s.promises[s.queue[s.head].promise];
      && a in t.asyncs && t.asyncs[a].phase.Running? && !p.status.Pending?
      && t.asyncs[a].resumeValue == p.value && t.asyncs[a].awaitThrew == p.status.Rejected?
  {
    hide IdsOk, FreshOk, FramesOk, ResultOk, MarksOk, ListOk, AsyncOk, Outstanding;
    TakeStructure(s);
    TakeOutstanding(s);
    IsSuspended(s, a);
  }

  /** The reaction that resumes a coroutine is the one its suspension registered. */
  lemma {:induction false} SameWake(s: State, t: State, a: nat, r: Reaction)
    requires Inv(t) && Conserved(s, t) && r in Outstanding(s) && t.head < |t.queue|
    requires t.queue[t.head].id == r.id && (forall i | 0 <= i < |t.ran| :: t.ran[i].id != t.queue[t.head].id)
    ensures r == t.queue[t.head]
  {
    hide Outstanding, Structure, ListOk, MarksOk, Owners;
    HeadIsOutstanding(t);
    OutstandingIds(t);
  }

  lemma {:induction false} HeadIsOutstanding(s: State)
    requires s.head < |s.queue|
    ensures s.queue[s.head] in Outstanding(s)
  {
  }

  /** In every run, when a coroutine is resumed from an await it gets exactly the outcome of what it awaited: a
      plain value, the value of the fulfilled promise, or the reason of the rejected one. */
  lemma {:induction false} AwaitDelivers(run: seq<State>, steps: seq<Step>, i: nat, j: nat, v: Value, a: nat)
    requires IsRun(run, steps) && i < j < |steps| && steps[i] == AwaitValue(v) && steps[j] == Microtask
    requires run[i].stack != [] && Top(run[i]) == AsyncFrame(a)
    requires run[j].head < |run[j].queue| && run[j].queue[run[j].head].async == Some(a)
    requires a in run[i + 1].asyncs && a in run[j].asyncs && run[j].asyncs[a].phase == run[i + 1].asyncs[a].phase
    ensures a in run[j + 1].asyncs && run[j + 1].asyncs[a].phase.Running?
    ensures var got := run[j + 1].asyncs[a];
      match v
      case Plain(_) => got.resumeValue == v && !got.awaitThrew
      case PromiseRef(p) =>
        && p in run[j].promises && !run[j].promises[p].status.Pending?
        && got.resumeValue == run[j].promises[p].value && got.awaitThrew == run[j].promises[p].status.Rejected?
  {
    hide Inv, OrderOk, Outstanding, RunNext, Await, Settled, Conserved, Delivers;
    EveryState(run, steps, i);
    EveryState(run, steps, j);
    TopIsKnown(run[i]);
    AwaitIsInv(run[i]);
    var r := AwaitRegisters(run[i], v);
    EveryRun(run, steps, i + 1, j);
    NextIsKnown(run[j]);
    ResumeOutcome(run[j], a);
    HeadIsOutstanding(run[j]);
    forall k | 0 <= k < |run[j].ran| ensures run[j].ran[k].id != run[j].queue[run[j].head].id {
      NotRan(run[j], run[j].queue[run[j].head], k);
    }
    SameWake(run[i + 1], run[j], a, r);
    DeliversStays(run[i + 1], run[j], r, v);
    Delivered(run[j], r, v);
  }

  lemma {:induction false} Delivered(s: State, r: Reaction, v: Value)
    requires Delivers(s, r, v) && !s.promises[r.promise].status.Pending?
    ensures v.Plain? ==> s.promises[r.promise].value == v && !s.promises[r.promise].status.Rejected?
    ensures v.PromiseRef? ==>
      && v.p in s.promises && !s.promises[v.p].status.Pending?
      && s.promises[v.p].value == s.promises[r.promise].value && s.promises[v.p].status == s.promises[r.promise].status
  {
  }
}
