/** Every run of the worker pool: what happens to each job, and that nothing stalls. */
module WorkerRuns {
  import opened WorkerPool

  ghost predicate IsRun(run: seq<State>, steps: seq<Step>) {
    && |run| == |steps| + 1 && run[0] == START
    && forall k | 0 <= k < |steps| :: Enabled(run[k], steps[k]) && run[k + 1] == Next(run[k], steps[k])
  }

  lemma {:induction false} EveryRun(run: seq<State>, steps: seq<Step>, k: nat)
    requires IsRun(run, steps) && k < |run|
    ensures Inv(run[k])
  {
    hide Enabled, Next;
    if k == 0 {
      hide *;
      StartOk(run[0]);
    } else {
      EveryRun(run, steps, k - 1);
      StepKeeps(run[k - 1], steps[k - 1]);
    }
  }

  lemma {:induction false} StartOk(s: State)
    requires s == START
    ensures Inv(s)
  {
  }

  /** The registry, whose jobs the collector scans, is exactly the jobs that are queued, running, done or in their
      callback, each once; and `pending` counts them. */
  lemma {:induction false} LiveExactly(run: seq<State>, steps: seq<Step>, k: nat, job: nat)
    requires IsRun(run, steps) && k < |run|
    ensures var s := run[k];
      && Times(s.pool.live, job) ==
        Times(s.pool.work, job) + Held(s.workers, job) + Times(s.pool.done, job) + Called(s.main, job)
      && Times(s.pool.live, job) <= 1 && s.pool.pending == |s.pool.live|
  {
    hide Times, Held, Called, Enabled, Next;
    var s := run[k];
    EveryRun(run, steps, k);
    LiveSum(s, job);
  }

  lemma {:induction false} LiveSum(s: State, job: nat)
    requires Queues(s) && Hands(s) && Registered(s)
    ensures Times(s.pool.live, job) ==
      Times(s.pool.work, job) + Held(s.workers, job) + Times(s.pool.done, job) + Called(s.main, job)
    ensures Times(s.pool.live, job) <= 1
  {
    TimesConcat(s.taken, s.pool.work, job);
    TimesConcat(s.completed, s.pool.done, job);
  }

  /** Each job is run, completed and released at most once, in that order; with workers, a job whose callback is
      called has been run; and jobs start in the order of submission. */
  lemma {:induction false} Lifecycle(run: seq<State>, steps: seq<Step>, k: nat, job: nat)
    requires IsRun(run, steps) && k < |run|
    ensures Times(run[k].released, job) <= Times(run[k].completed, job) <= Times(run[k].finished, job)
    ensures Times(run[k].finished, job) <= Times(run[k].submitted, job) <= 1
    ensures |run[k].workers| > 0 ==> run[k].ran == run[k].finished
    ensures |run[k].workers| > 0 ==> run[k].taken <= run[k].submitted
    ensures run[k].completed <= run[k].finished
  {
    hide Times, Held, Called, Enabled, Next;
    EveryRun(run, steps, k);
    CompletedAreSubmitted(run[k], job);
  }

  // ----- no stall

  function WorkerWeight(w: Worker): nat {
    match w
    case Waiting => 0
    case Ready => 1
    case Running(_) => 7
    case Signalling => 4
  }

  function Weights(workers: seq<Worker>): nat {
    if workers == [] then 0 else Weights(workers[..|workers| - 1]) + WorkerWeight(workers[|workers| - 1])
  }

  /** How many useful steps can still happen, at most. */
  function Measure(s: State): nat {
    7 * |s.pool.work| + Weights(s.workers) + 2 * |s.pool.done| + |s.main| + 2 * s.pipe
  }

  /** A step that the runtime takes by itself and that gets something done: everything but submitting, waking up
      for no reason, and polling when the pipe says nothing. */
  ghost predicate Useful(s: State, step: Step) {
    Enabled(s, step) && !step.Submit? && !step.Spurious? && (step.PollStart? ==> s.watched && s.pipe > 0)
  }

  lemma {:induction false} WeightsUpdate(workers: seq<Worker>, i: nat, w: Worker)
    requires i < |workers|
    ensures Weights(workers[i := w]) + WorkerWeight(workers[i]) == Weights(workers) + WorkerWeight(w)
  {
    var n := |workers| - 1;
    if i == n {
      assert workers[i := w][..n] == workers[..n];
    } else {
      assert workers[i := w][..n] == workers[..n][i := w];
      WeightsUpdate(workers[..n], i, w);
    }
  }

  /** Useful steps come to an end. */
  lemma {:induction false} UsefulDecreases(s: State, step: Step)
    requires Useful(s, step)
    ensures Measure(Next(s, step)) < Measure(s)
  {
    hide Weights;
    var t := Next(s, step);
    if step.Look? || step.FinishRun? || step.Signal? { WeightsUpdate(s.workers, step.worker, t.workers[step.worker]); }
  }

  lemma {:induction false} AllWaiting(workers: seq<Worker>, job: nat)
    requires forall i | 0 <= i < |workers| :: workers[i].Waiting?
    ensures Awake(workers) == 0 && Held(workers, job) == 0
  {
    if workers != [] { AllWaiting(workers[..|workers| - 1], job); }
  }

  /** While a job is pending some useful step is possible: no wakeup of a worker or of the main thread is lost. */
  lemma {:induction false} Progress(s: State)
    requires Inv(s) && |s.workers| > 0 && s.pool.pending > 0
    ensures exists step :: Useful(s, step)
  {
    hide Inv, Queues, Hands, Registered, NoLostWakeup, Announced, WatchOk;
    if s.main != [] {
      var step := if s.main[|s.main| - 1].Completing? then CallbackEnd
                  else if s.pool.done == [] then PollEnd else PollTake;
      assert Useful(s, step);
    } else if i :| 0 <= i < |s.workers| && !s.workers[i].Waiting? {
      var step := if s.workers[i].Ready? then Look(i) else if s.workers[i].Running? then FinishRun(i) else Signal(i);
      assert Useful(s, step);
    } else {
      Asleep(s);
      assert Useful(s, PollStart);
    }
  }

  /** With everyone asleep, what is pending is done and announced. */
  lemma {:induction false} Asleep(s: State)
    requires Inv(s) && |s.workers| > 0 && s.pool.pending > 0 && s.main == []
    requires forall i | 0 <= i < |s.workers| :: s.workers[i].Waiting?
    ensures s.watched && s.pipe > 0
  {
    hide Times, Held, Awake, Called;
    var job := s.pool.live[0];
    AllWaiting(s.workers, job);
    assert s.workers[0].Waiting?;
    LiveSum(s, job);
    Member(s.pool.live, job);
    Member(s.pool.done, job);
    NoneCalled(job);
  }

  lemma {:induction false} NoneCalled(job: nat)
    ensures Called([], job) == 0 && Times([], job) == 0
  {
  }

  lemma {:induction false} EmptyIfNone(jobs: seq<nat>)
    requires forall j :: j !in jobs
    ensures jobs == []
  {
    if jobs != [] { FirstIn(jobs); }
  }

  lemma {:induction false} FirstIn(jobs: seq<nat>)
    requires jobs != []
    ensures exists j :: j in jobs
  {
    assert jobs[0] in jobs;
  }

  /** When no useful step is left every submitted job has been released, once. */
  lemma {:induction false} Drained(run: seq<State>, steps: seq<Step>, k: nat, job: nat)
    requires IsRun(run, steps) && k < |run| && |run[k].workers| > 0
    requires forall step :: !Useful(run[k], step)
    ensures run[k].pool == Pool([], [], [], 0)
    ensures Times(run[k].released, job) == Times(run[k].submitted, job)
  {
    hide Enabled, Next, Useful;
    var s := run[k];
    EveryRun(run, steps, k);
    if s.pool.pending > 0 { Progress(s); }
    forall j ensures j !in s.pool.work && j !in s.pool.done {
      LiveSum(s, j);
      Member(s.pool.work, j);
      Member(s.pool.done, j);
    }
    EmptyIfNone(s.pool.work);
    EmptyIfNone(s.pool.done);
  }

  /** From any state, at most `Measure` useful steps can follow one another. */
  lemma {:induction false} Bounded(run: seq<State>, steps: seq<Step>)
    requires |run| == |steps| + 1
    requires forall k | 0 <= k < |steps| :: Useful(run[k], steps[k]) && run[k + 1] == Next(run[k], steps[k])
    ensures |steps| <= Measure(run[0])
  {
    hide Enabled, Next, Measure;
    if steps != [] {
      UsefulDecreases(run[0], steps[0]);
      forall k | 0 <= k < |steps| - 1
        ensures Useful(run[1..][k], steps[1..][k]) && run[1..][k + 1] == Next(run[1..][k], steps[1..][k])
      {
        assert run[1..][k] == run[k + 1] && steps[1..][k] == steps[k + 1];
      }
      Bounded(run[1..], steps[1..]);
    }
  }
}
