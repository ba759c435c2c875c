/** Callbacks are called: every reaction with one, once, with the value of its promise. */
module PromiseCalls {
  import opened Collections
  import opened PromiseModel
  import opened PromiseInvariant
  import opened PromiseSteps
  import opened PromiseHistory
  import opened PromiseRuns
  import opened PromiseOutcomes

  /** The callback for the outcome that the promise of `r` has. */
  ghost function Callback(s: State, r: Reaction): Handler
    requires r.promise in s.promises
  {
    if s.promises[r.promise].status == Fulfilled then r.onFulfilled else r.onRejected
  }

  /** In step `j` the reaction `r` is taken and its callback `code` starts to run with the value of its promise. */
  ghost predicate CallsAt(run: seq<State>, steps: seq<Step>, j: nat, r: Reaction, code: nat) {
    && j < |steps| && |run| == |steps| + 1 && steps[j] == Microtask
    && run[j].head < |run[j].queue| && run[j].queue[run[j].head] == r && r.promise in run[j].promises
    && run[j + 1].stack == run[j].stack + [HandlerFrame(r, code, run[j].promises[r.promise].value)]
    && run[j + 1].promises == run[j].promises && run[j + 1].asyncs == run[j].asyncs
  }

  /** In step `j` some callback of `r` starts to run. */
  ghost predicate Enters(run: seq<State>, j: nat, r: Reaction) {
    && j + 1 < |run| && |run[j + 1].stack| == |run[j].stack| + 1
    && Top(run[j + 1]).HandlerFrame? && Top(run[j + 1]).reaction == r
  }

  lemma {:induction false} RunNextCalls(s: State)
    requires s.head < |s.queue| && KnownReaction(s, s.queue[s.head]) && s.queue[s.head].async.None?
    ensures var r, t := s.queue[s.head], RunNext(s); var callback := Callback(s, r);
      callback.Function? ==>
        && t.stack == s.stack + [HandlerFrame(r, callback.code, s.promises[r.promise].value)]
        && t.promises == s.promises && t.asyncs == s.asyncs
  {
  }

  /** Whenever a reaction with a callback for the outcome of its promise is taken, the callback is called with the
      value, and no promise changes. */
  lemma {:induction false} CallbackIsCalled(run: seq<State>, steps: seq<Step>, j: nat, code: nat)
    requires IsRun(run, steps) && j < |steps| && steps[j] == Microtask && run[j].head < |run[j].queue|
    requires var r := run[j].queue[run[j].head];
      r.async.None? && r.promise in run[j].promises && Callback(run[j], r) == Function(code)
    ensures CallsAt(run, steps, j, run[j].queue[run[j].head], code)
    ensures !run[j].promises[run[j].queue[run[j].head].promise].status.Pending?
  {
    hide Inv, OrderOk, RunNext, Callback;
    EveryState(run, steps, j);
    NextIsKnown(run[j]);
    HeadSettled(run[j]);
    RunNextCalls(run[j]);
  }

  lemma {:induction false} HeadSettled(s: State)
    requires Inv(s) && s.head < |s.queue|
    ensures s.queue[s.head].promise in s.promises && !s.promises[s.queue[s.head].promise].status.Pending?
  {
    hide ListOk, MarksOk, Owners, QueueOk, IdsOk, FreshOk, FramesOk, KnownReaction, Queued;
    HeadIsQueued(s);
    Subject(s, s.queue[s.head]);
  }

  lemma {:induction false} HeadIsQueued(s: State)
    requires s.head < |s.queue|
    ensures s.queue[s.head] in Queued(s.queue, s.head)
  {
  }

  // ----- the history of what ran

  lemma {:induction false} ResolveRan(s: State, p: nat, value: Value)
    requires ListOk(s) && p in s.promises && Known(s, value)
    ensures ResolveInto(s, p, value).ran == s.ran
  {
    hide ListOk, UnhandledRemove;
    if value.PromiseRef? { RemoveKeepsList(Observed(s, value.p), value.p); }
  }

  lemma {:induction false} ObserveRan(s: State, p: nat)
    requires ListOk(s) && p in s.promises
    ensures Observe(s, p).ran == s.ran
  {
    hide ListOk, UnhandledRemove;
    RemoveKeepsList(Observed(s, p), p);
  }

  lemma {:induction false} ThenRan(s: State, p: nat, f: Handler, g: Handler)
    requires ListOk(s) && p in s.promises
    ensures Then(s, p, f, g).ran == s.ran
  {
    hide ListOk, Observe;
    ObserveRan(s, p);
  }

  lemma {:induction false} AwaitRan(s: State, value: Value)
    requires ListOk(s) && Known(s, value) && s.stack != [] && Top(s).AsyncFrame? && Top(s).async in s.asyncs
    ensures Await(s, value).ran == s.ran
  {
    hide ListOk, Observe;
    if value.PromiseRef? { ObserveRan(s, value.p); }
  }

  lemma {:induction false} FinishRan(s: State, value: Value, threw: bool)
    requires Inv(s) && Known(s, value) && s.stack != [] && Top(s).AsyncFrame?
    requires Top(s).async in s.asyncs && s.asyncs[Top(s).async].promise in s.promises
    ensures ListOk(s) && Finish(s, value, threw).ran == s.ran
  {
    hide ResolveInto, Structure, Owners, MarksOk;
    if !threw { ResolveRan(BodyLeft(s), s.asyncs[Top(s).async].promise, value); }
  }

  lemma {:induction false} RunNextRan(s: State)
    requires s.head < |s.queue| && KnownReaction(s, s.queue[s.head])
    ensures RunNext(s).ran == s.ran + [s.queue[s.head]]
  {
  }

  /** Rounds of the microtask loop record what they take, and nothing else does. */
  lemma {:induction false} StepRan(s: State, step: Step)
    requires Inv(s) && Enabled(s, step)
    ensures Next(s, step).ran == s.ran + if step.Microtask? then [s.queue[s.head]] else []
  {
    hide Observe, ResolveInto, Settle, Then, Await, Finish, RunNext, Inv;
    AwaitIsInv(s);
    match step
    case Resolve(p, value) => ResolveRan(s, p, value);
    case Reject(p, value) => SettleRan(s, p, value);
    case Subscribe(p, f, g) => ThenRan(s, p, f, g);
    case Look(p) => ObserveRan(s, p);
    case AwaitValue(value) => TopIsKnown(s); AwaitRan(s, value);
    case EndBody(value, threw) => TopIsKnown(s); FinishRan(s, value, threw);
    case EndHandler(value) =>
      TopIsKnown(s);
      ResolveRan(s.(stack := s.stack[..|s.stack| - 1]), Top(s).reaction.result.value, value);
    case Microtask => NextIsKnown(s); RunNextRan(s);
    case _ =>
  }

  lemma {:induction false} SettleRan(s: State, p: nat, value: Value)
    requires p in s.promises
    ensures Settle(s, p, Rejected, value).ran == s.ran
  {
  }

  /** Only the microtask loop starts callbacks, and only that of the reaction it takes. */
  lemma {:induction false} StepEnters(s: State, step: Step)
    requires Inv(s) && Enabled(s, step)
    ensures var t := Next(s, step);
      |t.stack| == |s.stack| + 1 && Top(t).HandlerFrame? ==> step.Microtask? && Top(t).reaction == s.queue[s.head]
  {
    hide Observe, ResolveInto, Settle, Then, Await, Finish, RunNext, Inv;
    AwaitIsInv(s);
    match step
    case Resolve(p, value) => ResolveStack(s, p, value);
    case Reject(p, value) => SettleOutcome(s, p, Rejected, value);
    case Subscribe(p, f, g) => ThenStack(s, p, f, g);
    case Look(p) => ObserveStack(s, p);
    case AwaitValue(value) => TopIsKnown(s); AwaitStack(s, value);
    case EndBody(value, threw) => TopIsKnown(s); EndStack(s, value, threw);
    case EndHandler(value) =>
      TopIsKnown(s);
      ResolveStack(s.(stack := s.stack[..|s.stack| - 1]), Top(s).reaction.result.value, value);
    case Microtask => NextIsKnown(s); RunNextEnters(s);
    case _ =>
  }

  lemma {:induction false} RunNextEnters(s: State)
    requires s.head < |s.queue| && KnownReaction(s, s.queue[s.head])
    ensures var t := RunNext(s);
      |t.stack| == |s.stack| + 1 && Top(t).HandlerFrame? ==> Top(t).reaction == s.queue[s.head]
  {
  }

  /** The step in which the `i`-th reaction that ran was taken. */
  lemma {:induction false} TakenAt(run: seq<State>, steps: seq<Step>, k: nat, i: nat) returns (j: nat)
    requires IsRun(run, steps) && k < |run| && i < |run[k].ran|
    ensures j < k && steps[j] == Microtask && |run[j].ran| == i
    ensures run[j].head < |run[j].queue| && run[j].queue[run[j].head] == run[k].ran[i]
    decreases k
  {
    hide Inv, OrderOk, Next;
    EveryState(run, steps, k);
    if k > 0 {
      EveryState(run, steps, k - 1);
      StepRan(run[k - 1], steps[k - 1]);
      if i < |run[k - 1].ran| { j := TakenAt(run, steps, k - 1, i); } else { j := k - 1; }
    }
  }

  /** A reaction is taken in one step only. */
  lemma {:induction false} TakenOnce(run: seq<State>, steps: seq<Step>, j: nat, l: nat)
    requires IsRun(run, steps) && j < l < |steps| && steps[j] == Microtask && steps[l] == Microtask
    requires run[j].head < |run[j].queue| && run[l].head < |run[l].queue|
    ensures run[j].queue[run[j].head] != run[l].queue[run[l].head]
  {
    hide Inv, OrderOk, Next, Settled;
    EveryState(run, steps, j);
    EveryState(run, steps, l);
    StepRan(run[j], steps[j]);
    StepRan(run[l], steps[l]);
    EveryRun(run, steps, j + 1, l);
    RunsOnce(run, steps, l + 1);
    var r := run[j].queue[run[j].head];
    assert run[j + 1].ran[|run[j].ran|] == r;
    assert run[l + 1].ran[|run[j].ran|] == r && run[l + 1].ran[|run[l].ran|] == run[l].queue[run[l].head];
  }

  /** Every reaction that ran, and has a callback for the outcome of its promise, was called in exactly one step. */
  lemma {:induction false} CalledOnce(run: seq<State>, steps: seq<Step>, k: nat, i: nat, code: nat)
    requires IsRun(run, steps) && k < |run| && i < |run[k].ran| && run[k].ran[i].async.None?
    requires run[k].ran[i].promise in run[k].promises && Callback(run[k], run[k].ran[i]) == Function(code)
    ensures exists j: nat ::
              && j < k && CallsAt(run, steps, j, run[k].ran[i], code)
              && forall l: nat | l < |steps| && l != j :: !Enters(run, l, run[k].ran[i])
  {
    hide Inv, OrderOk, Enabled, Next, Outstanding;
    var r := run[k].ran[i];
    var j := TakenAt(run, steps, k, i);
    EveryState(run, steps, j);
    HeadSettled(run[j]);
    EveryRun(run, steps, j, k);
    CallbackIsCalled(run, steps, j, code);
    forall l: nat | l < |steps| && l != j ensures !Enters(run, l, r) {
      EveryState(run, steps, l);
      StepEnters(run[l], steps[l]);
      if Enters(run, l, r) {
        StepHead(run[l], steps[l]);
        if l < j { TakenOnce(run, steps, l, j); } else { TakenOnce(run, steps, j, l); }
      }
    }
    assert j < k && CallsAt(run, steps, j, r, code);
  }

  lemma {:induction false} StepHead(s: State, step: Step)
    requires Enabled(s, step) && step.Microtask?
    ensures s.head < |s.queue|
  {
  }
}
