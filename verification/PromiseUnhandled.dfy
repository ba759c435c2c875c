/** What counts as handling a rejection, and that exactly the others are reported. */
module PromiseUnhandled {
  import opened Collections
  import opened PromiseModel
  import opened PromiseInvariant
  import opened PromiseSteps
  import opened PromiseHistory
  import opened PromiseRuns

  /** Somebody listens to `p`: by `then`, by an await, or by following it with another promise. */
  predicate Listens(step: Step, p: nat) {
    match step
    case Subscribe(q, _, _) => q == p
    case Look(q) => q == p
    case Resolve(_, value) => value == PromiseRef(p)
    case AwaitValue(value) => value == PromiseRef(p)
    case EndBody(value, threw) => !threw && value == PromiseRef(p)
    case EndHandler(value) => value == PromiseRef(p)
    case _ => false
  }

  /** Between `s` and `t` the promise `p`, and no other, was observed, and new promises are unobserved. */
  ghost predicate ObservesOnly(s: State, t: State, p: Option<nat>) {
    && (forall q | q in s.promises ::
          q in t.promises && (t.promises[q].observed <==> s.promises[q].observed || p == Some(q)))
    && forall q | q in t.promises && q !in s.promises :: !t.promises[q].observed
  }

  function Reference(value: Value): Option<nat> {
    match value
    case PromiseRef(p) => Some(p)
    case Plain(_) => None
  }

  lemma {:induction false} ObserveOnly(s: State, p: nat)
    requires ListOk(s) && p in s.promises
    ensures ObservesOnly(s, Observe(s, p), Some(p)) && Observe(s, p).promises.Keys == s.promises.Keys
    ensures Observe(s, p).stack == s.stack && Observe(s, p).asyncs == s.asyncs && Observe(s, p).next == s.next
  {
    hide ListOk, UnhandledRemove;
    RemoveKeepsList(Observed(s, p), p);
  }

  lemma {:induction false} SettleObserves(s: State, p: nat, status: Status, value: Value)
    requires p in s.promises
    ensures ObservesOnly(s, Settle(s, p, status, value), None)
  {
  }

  lemma {:induction false} Chain(s: State, t: State, u: State, p: Option<nat>)
    requires ObservesOnly(s, t, p) && ObservesOnly(t, u, None)
    ensures ObservesOnly(s, u, p)
  {
  }

  lemma {:induction false} ResolveObserves(s: State, result: nat, value: Value)
    requires ListOk(s) && result in s.promises && Known(s, value)
    ensures ObservesOnly(s, ResolveInto(s, result, value), Reference(value))
  {
    hide ListOk, Observe, Settle, ObservesOnly;
    match value
    case Plain(_) => SettleObserves(s, result, Fulfilled, value);
    case PromiseRef(p) =>
      ObserveOnly(s, p);
      var t := Observe(s, p);
      if t.promises[p].status.Pending? {
        AppendObserves(t, Reaction(t.next, p, NoFunction, NoFunction, Some(result), None));
      } else {
        SettleObserves(t, result, t.promises[p].status, t.promises[p].value);
      }
      Chain(s, t, ResolveInto(s, result, value), Some(p));
  }

  lemma {:induction false} AppendObserves(s: State, r: Reaction)
    requires r.promise in s.promises
    ensures ObservesOnly(s, Append(s, r), None)
  {
  }

  lemma {:induction false} ThenObserves(s: State, p: nat, f: Handler, g: Handler)
    requires ListOk(s) && p in s.promises && s.next !in s.promises
    ensures ObservesOnly(s, Then(s, p, f, g), Some(p))
  {
    hide ListOk, Observe, Append;
    ObserveOnly(s, p);
    var t := NewPromise(Observe(s, p), false);
    AppendObserves(t, Reaction(t.next, p, f, g, Some(s.next), None));
  }

  /** An await observes what it awaits; the promise it may make for the wake counts as observed. */
  ghost predicate AwaitObserved(s: State, t: State, p: Option<nat>) {
    && (forall q | q in s.promises ::
          q in t.promises && (t.promises[q].observed <==> s.promises[q].observed || p == Some(q)))
    && forall q | q in t.promises && q !in s.promises :: t.promises[q].observed
  }

  lemma {:induction false} AwaitObserves(s: State, value: Value)
    requires ListOk(s) && Known(s, value) && s.next !in s.promises
    requires s.stack != [] && Top(s).AsyncFrame? && Top(s).async in s.asyncs
    ensures AwaitObserved(s, Await(s, value), Reference(value))
  {
    hide ListOk, Observe;
    if value.PromiseRef? { ObserveOnly(s, value.p); }
  }

  lemma {:induction false} RunNextObserves(s: State)
    requires s.head < |s.queue| && KnownReaction(s, s.queue[s.head])
    ensures ObservesOnly(s, RunNext(s), None)
  {
    hide Settle;
    var r := s.queue[s.head];
    if r.async.None? {
      var promise := s.promises[r.promise];
      var status := if promise.status.Fulfilled? then Fulfilled else Rejected;
      SettleObserves(TakeNext(s), r.result.value, status, promise.value);
    }
  }

  lemma {:induction false} FinishObserves(s: State, value: Value, threw: bool)
    requires Inv(s) && Known(s, value) && s.stack != [] && Top(s).AsyncFrame?
    requires Top(s).async in s.asyncs && s.asyncs[Top(s).async].promise in s.promises
    ensures ListOk(s) && ObservesOnly(s, Finish(s, value, threw), if threw then None else Reference(value))
  {
    hide ResolveInto, Settle, Structure, Owners, MarksOk;
    var p := s.asyncs[Top(s).async].promise;
    if threw {
      SettleObserves(BodyLeft(s), p, Rejected, value);
    } else {
      ResolveObserves(BodyLeft(s), p, value);
    }
  }

  lemma {:induction false} NextIsNew(s: State)
    requires Inv(s)
    ensures s.next !in s.promises
  {
  }

  /** Afterwards `p` is observed if it was, or was heard; a new promise is observed if an await made it. */
  ghost predicate Seen(s: State, t: State, p: nat, heard: bool, made: bool) {
    && (p in s.promises ==> p in t.promises && (t.promises[p].observed <==> s.promises[p].observed || heard))
    && (p !in s.promises && p in t.promises ==> (t.promises[p].observed <==> made))
  }

  lemma {:induction false} SeenByOnly(s: State, t: State, p: nat, o: Option<nat>)
    requires ObservesOnly(s, t, o)
    ensures Seen(s, t, p, o == Some(p), false)
  {
  }

  lemma {:induction false} SeenByAwait(s: State, t: State, p: nat, o: Option<nat>)
    requires AwaitObserved(s, t, o)
    ensures Seen(s, t, p, o == Some(p), true)
  {
  }

  /** Creating promises and starting over with an empty queue observe nothing. */
  lemma {:induction false} OthersObserve(s: State)
    requires s.next !in s.promises
    ensures ObservesOnly(s, NewPromise(s, true), None) && ObservesOnly(s, CallAsync(s), None)
    ensures ObservesOnly(s, ResetQueue(s), None)
  {
  }

  lemma {:induction false} ReturnObserves(s: State, value: Value)
    requires ListOk(s) && Known(s, value) && s.stack != [] && Top(s).HandlerFrame?
    requires Top(s).reaction.result.Some? && Top(s).reaction.result.value in s.promises
    ensures ObservesOnly(s, ReturnHandler(s, value), Reference(value))
  {
    hide ListOk, ResolveInto;
    var left := s.(stack := s.stack[..|s.stack| - 1]);
    SameList(s, left);
    ResolveObserves(left, Top(s).reaction.result.value, value);
  }

  lemma {:induction false} SameList(s: State, t: State)
    requires ListOk(s) && t == s.(stack := t.stack)
    ensures ListOk(t)
  {
  }

  /** Which promise one step observes. */
  lemma {:induction false} StepObserves(s: State, step: Step, p: nat)
    requires Inv(s) && Enabled(s, step)
    ensures Seen(s, Next(s, step), p, Listens(step, p), step.AwaitValue?)
  {
    hide Observe, ResolveInto, Settle, Then, Await, Finish, ReturnHandler, RunNext, CallAsync, NewPromise, ResetQueue;
    hide Inv, ObservesOnly, AwaitObserved, Seen;
    AwaitIsInv(s);
    NextIsNew(s);
    var t := Next(s, step);
    match step
    case Resolve(q, value) =>
      ResolveObserves(s, q, value);
      SeenByOnly(s, t, p, Reference(value));
    case Reject(q, value) =>
      SettleObserves(s, q, Rejected, value);
      SeenByOnly(s, t, p, None);
    case Subscribe(q, f, g) =>
      ThenObserves(s, q, f, g);
      SeenByOnly(s, t, p, Some(q));
    case Look(q) =>
      ObserveOnly(s, q);
      SeenByOnly(s, t, p, Some(q));
    case AwaitValue(value) =>
      TopIsKnown(s);
      AwaitObserves(s, value);
      SeenByAwait(s, t, p, Reference(value));
    case EndBody(value, threw) =>
      TopIsKnown(s);
      FinishObserves(s, value, threw);
      SeenByOnly(s, t, p, if threw then None else Reference(value));
    case EndHandler(value) =>
      TopIsKnown(s);
      ReturnObserves(s, value);
      SeenByOnly(s, t, p, Reference(value));
    case Microtask =>
      NextIsKnown(s);
      RunNextObserves(s);
      SeenByOnly(s, t, p, None);
    case _ =>
      OthersObserve(s);
      SeenByOnly(s, t, p, None);
  }

  /** In step `j` somebody listened to `p`, or `p` was made by an await to carry a value to the coroutine. */
  ghost predicate HeardAt(run: seq<State>, steps: seq<Step>, j: nat, p: nat) {
    && j < |steps| && j < |run|
    && if p in run[j].promises then Listens(steps[j], p)
       else j + 1 < |run| && p in run[j + 1].promises && steps[j].AwaitValue?
  }

  lemma {:induction false} ObservedIffHeard(run: seq<State>, steps: seq<Step>, k: nat, p: nat)
    requires IsRun(run, steps) && k < |run| && p in run[k].promises
    ensures run[k].promises[p].observed <==> exists j: nat :: j < k && HeardAt(run, steps, j, p)
  {
    hide Inv, OrderOk, Next, Listens;
    EveryState(run, steps, k);
    if k > 0 {
      EveryState(run, steps, k - 1);
      StepObserves(run[k - 1], steps[k - 1], p);
      if p in run[k - 1].promises {
        ObservedIffHeard(run, steps, k - 1, p);
      } else {
        forall j: nat | j < k - 1 ensures !HeardAt(run, steps, j, p) {
          EveryRun(run, steps, j, k - 1);
          EveryRun(run, steps, j + 1, k - 1);
        }
      }
      assert HeardAt(run, steps, k - 1, p) <==>
        if p in run[k - 1].promises then Listens(steps[k - 1], p) else steps[k - 1].AwaitValue?;
    }
  }

  /** In every run, a rejection is on the list to be reported exactly if nobody ever listened to its promise. */
  lemma {:induction false} ReportedIffUnheard(run: seq<State>, steps: seq<Step>, k: nat, p: nat)
    requires IsRun(run, steps) && k < |run| && p in run[k].promises
    ensures p in run[k].unhandled <==>
      run[k].promises[p].status.Rejected? && forall j: nat | j < k :: !HeardAt(run, steps, j, p)
  {
    hide IsRun, HeardAt;
    UnhandledExactly(run, steps, k);
    ObservedIffHeard(run, steps, k, p);
  }
}
