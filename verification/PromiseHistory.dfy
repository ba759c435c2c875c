/** What an operation never undoes, and the order of callbacks. */
module PromiseHistory {
  import opened Collections
  import opened PromiseModel
  import opened PromiseInvariant
  import opened PromiseSteps

  /** A settled promise keeps its state and value, an observed one stays observed, and a finished coroutine
      stays finished. */
  ghost predicate Settled(s: State, t: State) {
    && (forall p | p in s.promises :: p in t.promises && (s.promises[p].observed ==> t.promises[p].observed)
          && (!s.promises[p].status.Pending? ==>
                t.promises[p].status == s.promises[p].status && t.promises[p].value == s.promises[p].value))
    && (forall a | a in s.asyncs :: a in t.asyncs && t.asyncs[a].promise == s.asyncs[a].promise
          && (s.asyncs[a].phase.Done? ==> t.asyncs[a].phase.Done?))
  }

  /** The histories only grow, and an outstanding reaction stays outstanding until it is run. */
  ghost predicate Conserved(s: State, t: State) {
    && s.pushed <= t.pushed && s.ran <= t.ran
    && forall r | r in Outstanding(s) :: r in Outstanding(t) || r in t.ran
  }

  /** Two reactions to one promise wait, and are queued, in the order in which they were registered; only
      reactions to settled promises were ever queued. */
  ghost predicate OrderOk(s: State) {
    && (forall p, i, j | p in s.promises && 0 <= i < j < |s.promises[p].reactions| ::
          s.promises[p].reactions[i].id < s.promises[p].reactions[j].id)
    && (forall k, l | 0 <= k < l < |s.pushed| && s.pushed[k].promise == s.pushed[l].promise ::
          s.pushed[k].id < s.pushed[l].id)
    && (forall k | 0 <= k < |s.pushed| ::
          s.pushed[k].promise in s.promises && !s.promises[s.pushed[k].promise].status.Pending?)
  }

  ghost predicate Forward(s: State, t: State) {
    Settled(s, t) && Conserved(s, t) && (OrderOk(s) ==> OrderOk(t))
  }

  lemma {:induction false} ForwardChain(s: State, t: State, u: State)
    requires Forward(s, t) && Forward(t, u)
    ensures Forward(s, u)
  {
    hide OrderOk, Outstanding;
  }

  /** Neither the reactions of promises nor the queue or its histories differ. */
  ghost predicate SameReactions(s: State, t: State) {
    && t.queue == s.queue && t.head == s.head && t.pushed == s.pushed && t.ran == s.ran
    && (forall p | p in s.promises :: p in t.promises && t.promises[p].reactions == s.promises[p].reactions
          && t.promises[p].status == s.promises[p].status)
    && (forall p | p in t.promises && p !in s.promises :: t.promises[p].reactions == [])
  }

  lemma {:induction false} SameForward(s: State, t: State)
    requires SameReactions(s, t) && Settled(s, t)
    ensures Forward(s, t)
  {
    WaitingSame(s.promises, t.promises);
  }

  lemma {:induction false} ObserveForward(s: State, p: nat)
    requires Inv(s) && p in s.promises
    ensures Forward(s, Observe(s, p))
  {
    hide Forward, Structure, Owners, MarksOk, UnhandledRemove;
    RemoveKeepsList(Observed(s, p), p);
    ObserveKeeps(s, p);
    SameForward(s, Observe(s, p));
  }

  lemma {:induction false} NewForward(s: State, promise: Promise)
    requires Inv(s) && promise.reactions == []
    ensures Forward(s, WithNew(s, promise))
  {
    hide Forward, QueueOk, PlacesOk, IdsOk, FramesOk, Owners, MarksOk, ListOk;
    SameForward(s, WithNew(s, promise));
  }

  /** Only the stack, and coroutines that are not finished, differ. */
  lemma {:induction false} AsyncForward(s: State, t: State)
    requires t == s.(asyncs := t.asyncs, stack := t.stack, next := t.next)
    requires forall a | a in s.asyncs ::
               a in t.asyncs && t.asyncs[a].promise == s.asyncs[a].promise
                 && (s.asyncs[a].phase.Done? ==> t.asyncs[a].phase.Done?)
    ensures Forward(s, t)
  {
    hide Forward;
    SameForward(s, t);
  }

  lemma {:induction false} SettleOrder(s: State, p: nat, status: Status, value: Value)
    requires Structure(s) && OrderOk(s) && p in s.promises && s.promises[p].status.Pending? && !status.Pending?
    ensures OrderOk(SettleCore(s, p, status, value))
  {
    hide QueueOk, IdsOk, FreshOk, FramesOk;
    var t := SettleCore(s, p, status, value);
    var n, moved := |s.pushed|, s.promises[p].reactions;
    forall k | 0 <= k < |t.pushed| ensures (k < n ==> t.pushed[k] == s.pushed[k] && s.pushed[k].promise != p)
      && (k >= n ==> t.pushed[k] == moved[k - n] && moved[k - n].promise == p) { }
  }

  lemma {:induction false} SettleForward(s: State, p: nat, status: Status, value: Value)
    requires Inv(s) && p in s.promises && !status.Pending?
    ensures Forward(s, Settle(s, p, status, value))
  {
    hide Structure, OrderOk, Owners, Outstanding, MarksOk;
    if s.promises[p].status.Pending? {
      var t := SettleCore(s, p, status, value);
      HeadInQueue(s);
      OutstandingSettled(s, p, status, value);
      if OrderOk(s) { SettleOrder(s, p, status, value); }
      assert Forward(s, t);
      if status.Rejected? {
        AddForward(t, p);
        ForwardChain(s, t, UnhandledAdd(t, p));
      }
    } else {
      AsyncForward(s, s);
    }
  }

  lemma {:induction false} AddForward(s: State, p: nat)
    requires p in s.promises
    ensures Forward(s, UnhandledAdd(s, p))
  {
    hide Forward;
    SameForward(s, UnhandledAdd(s, p));
  }

  lemma {:induction false} AppendForward(s: State, r: Reaction)
    requires Structure(s) && r.id == s.next && r.promise in s.promises && s.promises[r.promise].status.Pending?
    ensures Forward(s, Append(s, r))
  {
    hide QueueOk, IdsOk, FreshOk, FramesOk, Outstanding;
    OutstandingAppended(s, r);
  }

  lemma {:induction false} PushForward(s: State, r: Reaction)
    requires Structure(s) && r.id == s.next && r.promise in s.promises && !s.promises[r.promise].status.Pending?
    ensures Forward(s, Push(s, r))
  {
    hide QueueOk, PlacesOk, FreshOk, FramesOk, Outstanding;
    HeadInQueue(s);
    OutstandingPushed(s, r);
  }

  lemma {:induction false} TakeForward(s: State)
    requires Structure(s) && s.head < |s.queue|
    ensures Forward(s, TakeNext(s))
  {
    hide Structure, Outstanding, OrderOk;
    TakeOutstanding(s);
    SameOrder(s, TakeNext(s));
    assert TakeNext(s).ran[|s.ran|] == s.queue[s.head];
  }

  lemma {:induction false} SameOrder(s: State, t: State)
    requires t.promises == s.promises && t.pushed == s.pushed
    ensures OrderOk(s) ==> OrderOk(t)
  {
  }

  // ----- operations

  lemma {:induction false} ResolveForward(s: State, p: nat, value: Value)
    requires Inv(s) && p in s.promises && Known(s, value)
    ensures Forward(s, ResolveInto(s, p, value))
  {
    hide Forward, Structure, Owners, MarksOk, ListOk, Settle, Append, Observe;
    match value
    case Plain(_) => SettleForward(s, p, Fulfilled, value);
    case PromiseRef(other) =>
      ObserveKeeps(s, other);
      ObserveForward(s, other);
      var t := Observe(s, other);
      if t.promises[other].status.Pending? {
        AppendForward(t, Reaction(t.next, other, NoFunction, NoFunction, Some(p), None));
      } else {
        SettleForward(t, p, t.promises[other].status, t.promises[other].value);
      }
      ForwardChain(s, t, ResolveInto(s, p, value));
  }

  lemma {:induction false} ThenForward(s: State, p: nat, f: Handler, g: Handler)
    requires Inv(s) && p in s.promises
    ensures Forward(s, Then(s, p, f, g))
  {
    hide Forward, Structure, Owners, MarksOk, ListOk, Append, Observe, Push;
    ObserveKeeps(s, p);
    ObserveForward(s, p);
    var o := Observe(s, p);
    var promise := Promise(Pending, Plain(0), [], false, None, false);
    NewKeeps(o, promise);
    NewForward(o, promise);
    var t := NewPromise(o, false);
    var r := Reaction(t.next, p, f, g, Some(s.next), None);
    if t.promises[p].status.Pending? { AppendForward(t, r); } else { PushForward(t, r); }
    ForwardChain(s, o, t);
    ForwardChain(s, t, Then(s, p, f, g));
  }

  lemma {:induction false} CallForward(s: State)
    requires Inv(s)
    ensures Forward(s, CallAsync(s))
  {
    hide Forward, QueueOk, PlacesOk, IdsOk, FramesOk, Owners, MarksOk, ListOk;
    var promise := Promise(Pending, Plain(0), [], false, None, false);
    NewKeeps(s, promise);
    NewForward(s, promise);
    AsyncForward(WithNew(s, promise), CallAsync(s));
    ForwardChain(s, WithNew(s, promise), CallAsync(s));
  }

  lemma {:induction false} AwaitForward(s: State, value: Value)
    requires Inv(s) && Known(s, value) && s.stack != [] && Top(s).AsyncFrame? && Top(s).async in s.asyncs
    ensures Forward(s, Await(s, value))
  {
    hide Inv, Forward, Observe, Append, Push, ListOk, Structure, Owners, SetAsync;
    AwaitIsInv(s);
    InvParts(s);
    var a := Top(s).async;
    NotDone(s, a);
    var t := s;
    AsyncForward(s, s);
    if value.PromiseRef? {
      ObserveKeeps(s, value.p);
      ObserveForward(s, value.p);
      t := Observe(s, value.p);
    }
    if value.PromiseRef? && t.promises[value.p].status.Pending? {
      AwaitPendingForward(t, value.p, a);
    } else {
      var rejected := value.PromiseRef? && t.promises[value.p].status.Rejected?;
      var settled := if value.PromiseRef? then t.promises[value.p].value else value;
      var promise := Promise(if rejected then Rejected else Fulfilled, settled, [], true, None, false);
      NewKeeps(t, promise);
      NewForward(t, promise);
      AwaitSettledForward(WithNew(t, promise), t.next, a, settled, rejected);
      ForwardChain(t, WithNew(t, promise), Await(s, value));
    }
    ForwardChain(s, t, Await(s, value));
  }

  lemma {:induction false} InvParts(s: State)
    requires Inv(s)
    ensures Structure(s) && Owners(s) && ListOk(s)
  {
  }

  lemma {:induction false} AwaitPendingForward(s: State, p: nat, a: nat)
    requires Inv(s) && p in s.promises && s.promises[p].status.Pending?
    requires s.stack != [] && Top(s) == AsyncFrame(a) && a in s.asyncs
    ensures Forward(s, AwaitingPromise(s, p, a))
  {
    hide Inv, Forward, Append, Structure, Owners;
    InvParts(s);
    NotDone(s, a);
    var r := Reaction(s.next, p, NoFunction, NoFunction, None, Some(a));
    var async := s.asyncs[a].(phase := Suspended(r.id), resumeValue := Plain(0), awaitThrew := false);
    var t := SuspendedState(s, a, async);
    AsyncForward(s, t);
    AppendForward(t, r);
    ForwardChain(s, t, Append(t, r));
  }

  lemma {:induction false} AwaitSettledForward(s: State, p: nat, a: nat, value: Value, threw: bool)
    requires Inv(s) && p in s.promises && !s.promises[p].status.Pending?
    requires s.stack != [] && Top(s) == AsyncFrame(a) && a in s.asyncs
    ensures Forward(s, AwaitingTurn(s, p, a, value, threw))
  {
    hide Inv, Forward, Push, Structure, Owners;
    InvParts(s);
    NotDone(s, a);
    var r := Reaction(s.next, p, NoFunction, NoFunction, None, Some(a));
    var async := s.asyncs[a].(phase := Suspended(r.id), resumeValue := value, awaitThrew := threw);
    var t := SuspendedState(s, a, async);
    AsyncForward(s, t);
    PushForward(t, r);
    ForwardChain(s, t, Push(t, r));
  }

  lemma {:induction false} FinishForward(s: State, value: Value, threw: bool)
    requires Inv(s) && Known(s, value) && s.stack != [] && Top(s).AsyncFrame?
    requires Top(s).async in s.asyncs && s.asyncs[Top(s).async].promise in s.promises
    ensures Forward(s, Finish(s, value, threw))
  {
    hide Forward, Structure, Outstanding, Settle, ResolveInto, AsyncOk;
    var a := Top(s).async;
    NotDone(s, a);
    var async := s.asyncs[a].(phase := Done);
    var t := SuspendedState(s, a, async);
    FinishAsync(s.asyncs, Outstanding(s), s.stack, a, async);
    ResultStep(s.promises, s.asyncs, Outstanding(s), s.stack, t.promises, t.asyncs, Outstanding(t), t.stack);
    AsyncForward(s, t);
    if threw { SettleForward(t, async.promise, Rejected, value); } else { ResolveForward(t, async.promise, value); }
    ForwardChain(s, t, Finish(s, value, threw));
  }

  lemma {:induction false} ReturnForward(s: State, value: Value)
    requires Inv(s) && Known(s, value) && s.stack != [] && Top(s).HandlerFrame?
    requires Top(s).reaction.result.Some? && Top(s).reaction.result.value in s.promises
    ensures Forward(s, ReturnHandler(s, value))
  {
    hide Forward, ResolveInto, QueueOk, PlacesOk, IdsOk, FreshOk, AsyncOk, Outstanding;
    var t := s.(stack := s.stack[..|s.stack| - 1]);
    LeaveHandler(s);
    AsyncForward(s, t);
    ResolveForward(t, Top(s).reaction.result.value, value);
    ForwardChain(s, t, ReturnHandler(s, value));
  }

  lemma {:induction false} RunNextForward(s: State)
    requires Inv(s) && s.head < |s.queue| && KnownReaction(s, s.queue[s.head])
    ensures Forward(s, RunNext(s))
  {
    hide Forward, Inv, Structure, Owners, Settle, TakeNext;
    InvParts(s);
    TakeForward(s);
    TakenFields(s);
    var r, t := s.queue[s.head], TakeNext(s);
    var promise := s.promises[r.promise];
    if r.async.Some? {
      var async := s.asyncs[r.async.value];
      ResumeKeeps(s, r.async.value,
                  async.(phase := Running, resumeValue := promise.value, awaitThrew := promise.status.Rejected?));
      AsyncForward(t, RunNext(s));
    } else {
      TakeOtherKeeps(s, HandlerFrame(r, 0, promise.value), s.stack);
      var handler := if promise.status.Fulfilled? then r.onFulfilled else r.onRejected;
      if handler.Function? {
        AsyncForward(t, RunNext(s));
      } else {
        SettleForward(t, r.result.value, if promise.status.Fulfilled? then Fulfilled else Rejected, promise.value);
      }
    }
    ForwardChain(s, t, RunNext(s));
  }

  lemma {:induction false} ResetForward(s: State)
    requires s.head == |s.queue|
    ensures Forward(s, ResetQueue(s))
  {
    SameOrder(s, ResetQueue(s));
  }
}
