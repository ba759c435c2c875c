/** Every run of a program over promises, reactions and async functions. */
module PromiseRuns {
  import opened Collections
  import opened PromiseModel
  import opened PromiseInvariant
  import opened PromiseSteps
  import opened PromiseHistory

  /** What a program, its handlers and its async bodies can do, in any order and at any depth of nesting. */
  datatype Step =
    | Create
    | Resolve(p: nat, value: Value)
    | Reject(p: nat, value: Value)
    | Subscribe(p: nat, onFulfilled: Handler, onRejected: Handler)
    | Look(p: nat)
    | Call
    | AwaitValue(value: Value)
    | EndBody(value: Value, threw: bool)
    | EndHandler(value: Value)
    | Microtask
    | Restart

  /** A program resolves only promises whose resolving functions it holds, and names only promises that exist. */
  ghost predicate Enabled(s: State, step: Step) {
    match step
    case Create => true
    case Resolve(p, value) => p in s.promises && s.promises[p].resolvable && Known(s, value)
    case Reject(p, value) => p in s.promises && s.promises[p].resolvable && Known(s, value)
    case Subscribe(p, f, g) => p in s.promises
    case Look(p) => p in s.promises
    case Call => true
    case AwaitValue(value) => s.stack != [] && Top(s).AsyncFrame? && Known(s, value)
    case EndBody(value, threw) => s.stack != [] && Top(s).AsyncFrame? && Known(s, value)
    case EndHandler(value) => s.stack != [] && Top(s).HandlerFrame? && Known(s, value)
    case Microtask => s.head < |s.queue|
    case Restart => s.head == |s.queue|
  }

  ghost function Next(s: State, step: Step): State
    requires Inv(s) && Enabled(s, step)
  {
    match step
    case Create => NewPromise(s, true)
    case Resolve(p, value) => ResolveInto(s, p, value)
    case Reject(p, value) => Settle(s, p, Rejected, value)
    case Subscribe(p, f, g) => Then(s, p, f, g)
    case Look(p) => Observe(s, p)
    case Call => CallAsync(s)
    case AwaitValue(value) => TopIsKnown(s); Await(s, value)
    case EndBody(value, threw) => TopIsKnown(s); Finish(s, value, threw)
    case EndHandler(value) => TopIsKnown(s); ReturnHandler(s, value)
    case Microtask => NextIsKnown(s); RunNext(s)
    case Restart => ResetQueue(s)
  }

  lemma {:induction false} TopIsKnown(s: State)
    requires Inv(s) && s.stack != []
    ensures Top(s).AsyncFrame? ==> Top(s).async in s.asyncs && s.asyncs[Top(s).async].promise in s.promises
    ensures Top(s).HandlerFrame? ==> Top(s).reaction.result.Some? && Top(s).reaction.result.value in s.promises
  {
    if Top(s).AsyncFrame? { NotDone(s, Top(s).async); } else { LeaveHandler(s); }
  }

  lemma {:induction false} ResolvableIsFree(s: State, p: nat)
    requires Inv(s) && p in s.promises && s.promises[p].resolvable
    ensures Free(s, p)
  {
  }

  /** Every step keeps the invariant and undoes nothing. */
  lemma {:induction false} StepKeeps(s: State, step: Step)
    requires Inv(s) && Enabled(s, step)
    ensures Inv(Next(s, step)) && Forward(s, Next(s, step))
  {
    hide Inv, Forward, NewPromise, ResolveInto, Settle, Then, Observe, CallAsync, Await, Finish;
    hide ReturnHandler, RunNext, ResetQueue;
    AwaitIsInv(s);
    match step
    case Create => CreateKeeps(s);
    case Resolve(p, value) => ResolvableIsFree(s, p); ResolveKeeps(s, p, value); ResolveForward(s, p, value);
    case Reject(p, value) =>
      ResolvableIsFree(s, p);
      SettleKeeps(s, p, Rejected, value);
      SettleForward(s, p, Rejected, value);
    case Subscribe(p, f, g) => ThenKeeps(s, p, f, g); ThenForward(s, p, f, g);
    case Look(p) => ObserveKeeps(s, p); ObserveForward(s, p);
    case Call => CallAsyncKeeps(s); CallForward(s);
    case AwaitValue(value) => TopIsKnown(s); AwaitKeeps(s, value); AwaitForward(s, value);
    case EndBody(value, threw) => TopIsKnown(s); FinishKeeps(s, value, threw); FinishForward(s, value, threw);
    case EndHandler(value) => TopIsKnown(s); ReturnKeeps(s, value); ReturnForward(s, value);
    case Microtask => RunNextKeeps(s); RunNextForward(s);
    case Restart => ResetKeeps(s); ResetForward(s);
  }

  lemma {:induction false} CreateKeeps(s: State)
    requires Inv(s)
    ensures Inv(NewPromise(s, true)) && Forward(s, NewPromise(s, true))
  {
    hide Inv, Forward;
    var promise := Promise(Pending, Plain(0), [], false, None, true);
    NewKeeps(s, promise);
    NewForward(s, promise);
  }

  // ----- runs

  /** From the empty state, one step after another. `Next` is defined where the invariant holds, and that it holds
      in every state of every run is what has to be proved. */
  ghost predicate IsRun(run: seq<State>, steps: seq<Step>) {
    && |run| == |steps| + 1 && run[0] == START
    && forall k | 0 <= k < |steps| :: Inv(run[k]) ==> Enabled(run[k], steps[k]) && run[k + 1] == Next(run[k], steps[k])
  }

  lemma {:induction false} StartOk()
    ensures Inv(START) && OrderOk(START)
  {
  }

  /** Every state of every run satisfies the invariant, and callbacks of one promise are queued in order. */
  lemma {:induction false} EveryState(run: seq<State>, steps: seq<Step>, k: nat)
    requires IsRun(run, steps) && k < |run|
    ensures Inv(run[k]) && OrderOk(run[k])
  {
    hide Inv, OrderOk, Enabled, Next;
    if k == 0 {
      StartOk();
    } else {
      EveryState(run, steps, k - 1);
      OneStep(run[k - 1], steps[k - 1]);
    }
  }

  lemma {:induction false} OneStep(s: State, step: Step)
    requires Inv(s) && OrderOk(s) && Enabled(s, step)
    ensures Inv(Next(s, step)) && OrderOk(Next(s, step)) && Forward(s, Next(s, step))
  {
    hide Inv, OrderOk, Enabled, Next;
    StepKeeps(s, step);
  }

  /** Over any stretch of any run: settled promises never change, finished bodies stay finished, the histories
      only grow, and a reaction is outstanding until it has run. */
  lemma {:induction false} EveryRun(run: seq<State>, steps: seq<Step>, i: nat, j: nat)
    requires IsRun(run, steps) && i <= j < |run|
    ensures Forward(run[i], run[j])
    decreases j
  {
    hide Inv, OrderOk, Enabled, Next, Settled, Conserved;
    EveryState(run, steps, i);
    if i < j {
      EveryRun(run, steps, i, j - 1);
      EveryState(run, steps, j - 1);
      OneStep(run[j - 1], steps[j - 1]);
      ForwardChain(run[i], run[j - 1], run[j]);
    } else {
      AsyncForward(run[i], run[i]);
    }
  }

  // ----- what follows

  /** A suspended coroutine has exactly one reaction that will resume it; a running or finished one has none. */
  lemma {:induction false} OneWake(run: seq<State>, steps: seq<Step>, k: nat, a: nat)
    requires IsRun(run, steps) && k < |run| && a in run[k].asyncs
    ensures run[k].asyncs[a].phase.Suspended? <==> exists r :: r in Outstanding(run[k]) && r.async == Some(a)
    ensures forall r, q | r in Outstanding(run[k]) && q in Outstanding(run[k]) && r.async == Some(a)
              && q.async == Some(a) :: r == q
  {
    hide Enabled, Next, Structure, ListOk, MarksOk, ResultOk, Outstanding;
    var s := run[k];
    EveryState(run, steps, k);
    OutstandingIds(s);
  }

  lemma {:induction false} OutstandingIds(s: State)
    requires Inv(s)
    ensures forall x, y | x in Outstanding(s) && y in Outstanding(s) && x.id == y.id :: x == y
  {
    hide ListOk, MarksOk, Owners, PlacesOk, FreshOk, FramesOk, QueueOk, IdsOk;
    OneOfEachId(s);
  }

  /** No wake is lost: once the queue is empty, whoever is suspended waits in the list of a pending promise. */
  lemma {:induction false} NothingLost(run: seq<State>, steps: seq<Step>, k: nat, a: nat)
    requires IsRun(run, steps) && k < |run| && a in run[k].asyncs && run[k].asyncs[a].phase.Suspended?
    requires run[k].head == |run[k].queue|
    ensures exists p, i ::
              p in run[k].promises && 0 <= i < |run[k].promises[p].reactions| && run[k].promises[p].status.Pending?
              && run[k].promises[p].reactions[i].async == Some(a)
  {
    hide Enabled, Next, IdsOk, ListOk, MarksOk, ResultOk;
    var s := run[k];
    EveryState(run, steps, k);
    var r :| r in Outstanding(s) && r.async == Some(a);
    assert Queued(s.queue, s.head) == {};
  }

  /** No reaction runs twice, and none is both outstanding and run. */
  lemma {:induction false} RunsOnce(run: seq<State>, steps: seq<Step>, k: nat)
    requires IsRun(run, steps) && k < |run|
    ensures forall i, j | 0 <= i < j < |run[k].ran| :: run[k].ran[i].id != run[k].ran[j].id
    ensures forall r, i | r in Outstanding(run[k]) && 0 <= i < |run[k].ran| :: run[k].ran[i].id != r.id
  {
    hide Enabled, Next, Inv, Outstanding;
    EveryState(run, steps, k);
    NoneTwice(run[k]);
    forall r, i | r in Outstanding(run[k]) && 0 <= i < |run[k].ran| ensures run[k].ran[i].id != r.id {
      NotRan(run[k], r, i);
    }
  }

  lemma {:induction false} NoneTwice(s: State)
    requires Inv(s)
    ensures forall i, j | 0 <= i < j < |s.ran| :: s.ran[i].id != s.ran[j].id
  {
    hide PlacesOk, FreshOk, FramesOk, ListOk, MarksOk, Owners;
    assert forall i | 0 <= i < |s.ran| :: s.ran[i] == s.pushed[i];
  }

  lemma {:induction false} NotRan(s: State, r: Reaction, i: nat)
    requires Inv(s) && r in Outstanding(s) && i < |s.ran|
    ensures s.ran[i].id != r.id
  {
    hide PlacesOk, FreshOk, FramesOk, ListOk, MarksOk, Owners;
    assert s.ran[i] == s.pushed[i];
    if r in Queued(s.queue, s.head) {
      var j :| s.head <= j < |s.queue| && s.queue[j] == r;
      var k := QueuePosition(s, j);
    }
  }

  /** First in, first out: what ran is the beginning of what was ever queued, and the callbacks of one promise
      ran in the order in which they were registered. */
  lemma {:induction false} RunsInOrder(run: seq<State>, steps: seq<Step>, k: nat)
    requires IsRun(run, steps) && k < |run|
    ensures run[k].ran <= run[k].pushed
    ensures forall i, j | 0 <= i < j < |run[k].ran| && run[k].ran[i].promise == run[k].ran[j].promise ::
              run[k].ran[i].id < run[k].ran[j].id
  {
    hide Enabled, Next, PlacesOk, IdsOk, FreshOk, FramesOk, ListOk, MarksOk, Owners;
    EveryState(run, steps, k);
    assert forall i | 0 <= i < |run[k].ran| :: run[k].ran[i] == run[k].pushed[i];
  }

  /** The result of an async call is pending until its body has finished, whatever the program does. */
  lemma {:induction false} PendingUntilDone(run: seq<State>, steps: seq<Step>, k: nat, a: nat)
    requires IsRun(run, steps) && k < |run| && a in run[k].asyncs && !run[k].asyncs[a].phase.Done?
    ensures run[k].asyncs[a].promise in run[k].promises && run[k].promises[run[k].asyncs[a].promise].status.Pending?
  {
    hide Enabled, Next, Structure, ListOk, MarksOk, AsyncOk;
    EveryState(run, steps, k);
  }

  /** The unhandled list holds each promise that is rejected and not observed once, at its position, and nothing
      else. */
  lemma {:induction false} UnhandledExactly(run: seq<State>, steps: seq<Step>, k: nat)
    requires IsRun(run, steps) && k < |run|
    ensures forall p | p in run[k].promises ::
              p in run[k].unhandled <==> run[k].promises[p].status.Rejected? && !run[k].promises[p].observed
    ensures forall i | 0 <= i < |run[k].unhandled| ::
              run[k].unhandled[i] in run[k].promises && run[k].promises[run[k].unhandled[i]].listed == Some(i)
    ensures forall i, j | 0 <= i < j < |run[k].unhandled| :: run[k].unhandled[i] != run[k].unhandled[j]
  {
    hide Enabled, Next, Structure, Owners;
    EveryState(run, steps, k);
  }
}
