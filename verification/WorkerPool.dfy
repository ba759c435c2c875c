/**
  The worker pool as a state machine. A step is what one thread does while it holds the lock, or what the main
  thread does to data that only it touches; the steps of all threads interleave in any order.
 */
module WorkerPool {

  /** A worker holds nothing (and will look for work), sleeps on the condition variable, runs a job, or has
      queued a completion and is about to write to the wakeup pipe. */
  datatype Worker = Ready | Waiting | Running(job: nat) | Signalling

  /** What the main thread is inside of, innermost last: the loop of a poll, or the callback of a job. Callbacks
      may submit jobs and poll again. */
  datatype Frame = Polling | Completing(job: nat)

  /** The queues and the registry of live jobs; a job is the number of its block, or a block. */
  datatype Pool<J> = Pool(work: seq<J>, done: seq<J>, live: seq<J>, pending: int)

  /** `submitted` to `released` are histories: jobs accepted, taken by a worker, run, queued as completed, given
      to their callback, and given back. */
  datatype State = State(
    pool: Pool<nat>, started: bool, workers: seq<Worker>, pipe: nat, watched: bool, main: seq<Frame>,
    submitted: seq<nat>, taken: seq<nat>, ran: seq<nat>, finished: seq<nat>, completed: seq<nat>, released: seq<nat>)

  const START := State(Pool([], [], [], 0), false, [], 0, false, [], [], [], [], [], [], [])

  // ----- the registry and the queues

  function PushWork<J>(p: Pool<J>, job: J): Pool<J> { p.(work := p.work + [job]) }

  function PushDone<J>(p: Pool<J>, job: J): Pool<J> { p.(done := p.done + [job]) }

  function PopWork<J>(p: Pool<J>): Pool<J>
  {
    if p.work == [] then p else p.(work := p.work[1..])
  }

  function PopDone<J>(p: Pool<J>): Pool<J>
  {
    if p.done == [] then p else p.(done := p.done[1..])
  }

  function LiveAdd<J>(p: Pool<J>, job: J): Pool<J> { p.(live := [job] + p.live, pending := p.pending + 1) }

  /** `live` without its first `job`. */
  function Without<J(==)>(live: seq<J>, job: J): seq<J>
  {
    if live == [] then [] else if live[0] == job then live[1..] else [live[0]] + Without(live[1..], job)
  }

  function LiveRemove<J(==)>(p: Pool<J>, job: J): Pool<J> { p.(live := Without(p.live, job), pending := p.pending - 1) }

  // ----- steps

  datatype Step =
    | Submit(job: nat, count: nat, woken: nat)
    | Look(worker: nat)
    | Spurious(worker: nat)
    | FinishRun(worker: nat)
    | Signal(worker: nat)
    | PollStart
    | PollTake
    | CallbackEnd
    | PollEnd

  predicate MainFree(s: State) {
    s.main == [] || s.main[|s.main| - 1].Completing?
  }

  predicate Is(s: State, worker: nat, w: Worker) {
    worker < |s.workers| && s.workers[worker] == w
  }

  /** A submitted block is not one the pool already owns. A signal wakes a sleeping worker if there is one. */
  predicate Enabled(s: State, step: Step) {
    match step
    case Submit(job, count, woken) =>
      && MainFree(s) && job !in s.submitted
      && ((exists i :: 0 <= i < |s.workers| && s.workers[i].Waiting?) ==> Is(s, woken, Waiting))
    case Look(i) => Is(s, i, Ready)
    case Spurious(i) => Is(s, i, Waiting)
    case FinishRun(i) => i < |s.workers| && s.workers[i].Running?
    case Signal(i) => Is(s, i, Signalling)
    case PollStart => MainFree(s)
    case PollTake => s.main != [] && s.main[|s.main| - 1].Polling? && s.pool.done != []
    case CallbackEnd => s.main != [] && s.main[|s.main| - 1].Completing?
    case PollEnd => s.main != [] && s.main[|s.main| - 1].Polling? && s.pool.done == []
  }

  function NewWorkers(count: nat): seq<Worker> { seq(count, i => Ready) }

  /** The first job starts the workers; `count` of them could be created. Without workers a job is complete at once. */
  function SubmitJob(s: State, job: nat, count: nat, woken: nat): State {
    var p := LiveAdd(s.pool, job);
    var workers := if s.started then s.workers else NewWorkers(count);
    var t := s.(started := true, watched := true, submitted := s.submitted + [job]);
    if |workers| > 0 then
      var awake := if woken < |workers| && workers[woken].Waiting? then workers[woken := Ready] else workers;
      t.(pool := PushWork(p, job), workers := awake)
    else
      t.(pool := PushDone(p, job), workers := workers, finished := s.finished + [job])
  }

  function LookForWork(s: State, i: nat): State
    requires i < |s.workers|
  {
    if s.pool.work == [] then s.(workers := s.workers[i := Waiting])
    else
      var job := s.pool.work[0];
      s.(pool := PopWork(s.pool), workers := s.workers[i := Running(job)], taken := s.taken + [job])
  }

  function Next(s: State, step: Step): State
    requires Enabled(s, step)
  {
    match step
    case Submit(job, count, woken) => SubmitJob(s, job, count, woken)
    case Look(i) => LookForWork(s, i)
    case Spurious(i) => s.(workers := s.workers[i := Ready])
    case FinishRun(i) =>
      var job := s.workers[i].job;
      s.(pool := PushDone(s.pool, job), workers := s.workers[i := Signalling], ran := s.ran + [job],
         finished := s.finished + [job])
    case Signal(i) => s.(pipe := s.pipe + 1, workers := s.workers[i := Ready])
    case PollStart => s.(pipe := if s.watched then 0 else s.pipe, main := s.main + [Polling])
    case PollTake =>
      var job := s.pool.done[0];
      s.(pool := PopDone(s.pool), main := s.main + [Completing(job)], completed := s.completed + [job])
    case CallbackEnd =>
      var job := s.main[|s.main| - 1].job;
      s.(pool := LiveRemove(s.pool, job), main := s.main[..|s.main| - 1], released := s.released + [job])
    case PollEnd =>
      s.(main := s.main[..|s.main| - 1], watched := s.watched && s.pool.pending != 0)
  }

  // ----- what every state satisfies

  /** How often `job` is in a list, with a worker, or with a callback. */
  ghost function Times(jobs: seq<nat>, job: nat): nat {
    if jobs == [] then 0 else Times(jobs[..|jobs| - 1], job) + (if jobs[|jobs| - 1] == job then 1 else 0)
  }

  ghost function Held(workers: seq<Worker>, job: nat): nat {
    if workers == [] then 0 else Held(workers[..|workers| - 1], job) + HeldBy(workers[|workers| - 1], job)
  }

  ghost function HeldBy(w: Worker, job: nat): nat { if w == Running(job) then 1 else 0 }

  ghost function Called(main: seq<Frame>, job: nat): nat {
    if main == [] then 0 else Called(main[..|main| - 1], job) + (if main[|main| - 1] == Completing(job) then 1 else 0)
  }

  ghost function Awake(workers: seq<Worker>): nat {
    if workers == [] then 0 else Awake(workers[..|workers| - 1]) + (if workers[|workers| - 1].Ready? then 1 else 0)
  }

  ghost predicate Sleeper(workers: seq<Worker>) {
    exists i :: 0 <= i < |workers| && workers[i].Waiting?
  }

  /** Jobs pass from history to history, in order through the queues, and a worker or a callback holds each in
      between. */
  ghost predicate Queues(s: State) {
    && (|s.workers| > 0 ==> s.started && s.submitted == s.taken + s.pool.work && s.ran == s.finished)
    && (s.workers == [] ==> s.pool.work == [] && s.taken == [] && s.ran == [] && s.finished == s.submitted)
    && (!s.started ==> s.submitted == [])
    && s.finished == s.completed + s.pool.done
  }

  ghost predicate Hands(s: State) {
    && (|s.workers| > 0 ==> forall j :: Times(s.taken, j) == Times(s.finished, j) + Held(s.workers, j))
    && (forall j :: Times(s.completed, j) == Times(s.released, j) + Called(s.main, j))
  }

  ghost predicate Registered(s: State) {
    && |s.pool.live| == s.pool.pending
    && (forall j :: Times(s.submitted, j) <= 1)
    && (forall j :: Times(s.submitted, j) == Times(s.released, j) + Times(s.pool.live, j))
  }

  /** While some worker sleeps, at least as many are awake as jobs are queued. */
  ghost predicate NoLostWakeup(s: State) {
    Sleeper(s.workers) ==> |s.pool.work| <= Awake(s.workers)
  }

  /** While a completed job is queued, the main thread polls, or is told, or will be told. */
  ghost predicate Announced(s: State) {
    |s.workers| > 0 && s.pool.done != [] && Outside(s.main) ==> s.pipe > 0 || Teller(s.workers)
  }

  ghost predicate Teller(workers: seq<Worker>) {
    exists i :: 0 <= i < |workers| && workers[i].Signalling?
  }

  ghost predicate Outside(main: seq<Frame>) {
    forall k | 0 <= k < |main| :: main[k].Completing?
  }

  /** The loop watches the pipe while jobs are pending, and only then unless a poll is in progress. */
  ghost predicate WatchOk(s: State) {
    && (s.pool.pending > 0 ==> s.watched)
    && (s.main == [] ==> s.watched == (s.pool.pending > 0))
    && (forall k | 0 <= k < |s.main| && s.main[k].Completing? :: k > 0 && s.main[k - 1].Polling?)
  }

  ghost predicate Inv(s: State) {
    Queues(s) && Hands(s) && Registered(s) && NoLostWakeup(s) && Announced(s) && WatchOk(s)
  }

  // ----- counting

  lemma {:induction false} TimesConcat(a: seq<nat>, b: seq<nat>, job: nat)
    ensures Times(a + b, job) == Times(a, job) + Times(b, job)
  {
    if b == [] {
      assert a + b == a;
    } else {
      assert (a + b)[..|a + b| - 1] == a + b[..|b| - 1];
      TimesConcat(a, b[..|b| - 1], job);
    }
  }

  lemma {:induction false} Appended(jobs: seq<nat>, x: nat)
    ensures forall j :: Times(jobs + [x], j) == Times(jobs, j) + (if x == j then 1 else 0)
  {
    assert (jobs + [x])[..|jobs|] == jobs;
  }

  lemma {:induction false} Prepended(jobs: seq<nat>, x: nat)
    ensures forall j :: Times([x] + jobs, j) == Times(jobs, j) + (if x == j then 1 else 0)
  {
    forall j ensures Times([x] + jobs, j) == Times(jobs, j) + (if x == j then 1 else 0) {
      TimesConcat([x], jobs, j);
      assert Times([x], j) == Times([], j) + (if x == j then 1 else 0);
    }
  }

  lemma {:induction false} Member(jobs: seq<nat>, job: nat)
    ensures Times(jobs, job) > 0 <==> job in jobs
  {
    if jobs != [] {
      assert jobs == jobs[..|jobs| - 1] + [jobs[|jobs| - 1]];
      Member(jobs[..|jobs| - 1], job);
    }
  }

  lemma {:induction false} HeldUpdate(workers: seq<Worker>, i: nat, w: Worker, job: nat)
    requires i < |workers|
    ensures Held(workers[i := w], job) + HeldBy(workers[i], job) == Held(workers, job) + HeldBy(w, job)
  {
    var n := |workers| - 1;
    if i == n {
      assert workers[i := w][..n] == workers[..n];
    } else {
      assert workers[i := w][..n] == workers[..n][i := w];
      HeldUpdate(workers[..n], i, w, job);
    }
  }

  lemma {:induction false} AwakeUpdate(workers: seq<Worker>, i: nat, w: Worker)
    requires i < |workers|
    ensures Awake(workers[i := w]) + (if workers[i].Ready? then 1 else 0) ==
      Awake(workers) + (if w.Ready? then 1 else 0)
  {
    var n := |workers| - 1;
    if i == n {
      assert workers[i := w][..n] == workers[..n];
    } else {
      assert workers[i := w][..n] == workers[..n][i := w];
      AwakeUpdate(workers[..n], i, w);
    }
  }

  lemma {:induction false} NewHoldNothing(count: nat, job: nat)
    ensures Held(NewWorkers(count), job) == 0
  {
    if count > 0 {
      NewHoldNothing(count - 1, job);
      assert NewWorkers(count)[..count - 1] == NewWorkers(count - 1);
    }
  }

  lemma {:induction false} FramePushed(main: seq<Frame>, f: Frame)
    ensures forall j :: Called(main + [f], j) == Called(main, j) + (if f == Completing(j) then 1 else 0)
  {
    assert (main + [f])[..|main|] == main;
  }

  lemma {:induction false} WithoutOne(live: seq<nat>, job: nat)
    requires job in live
    ensures |Without(live, job)| == |live| - 1
    ensures forall j :: Times(live, j) == Times(Without(live, job), j) + (if j == job then 1 else 0)
  {
    assert live == [live[0]] + live[1..];
    Prepended(live[1..], live[0]);
    if live[0] != job {
      WithoutOne(live[1..], job);
      Prepended(Without(live[1..], job), live[0]);
    }
  }

  // ----- every step keeps the invariant

  /** Replacing one worker by another that holds the same. */
  lemma {:induction false} HeldSame(workers: seq<Worker>, i: nat, w: Worker)
    requires i < |workers| && !workers[i].Running? && !w.Running?
    ensures forall j :: Held(workers[i := w], j) == Held(workers, j)
  {
    forall j ensures Held(workers[i := w], j) == Held(workers, j) { HeldUpdate(workers, i, w, j); }
  }

  lemma {:induction false} SubmitQueues(s: State, job: nat, count: nat, woken: nat)
    requires Queues(s)
    ensures Queues(SubmitJob(s, job, count, woken))
  {
  }

  lemma {:induction false} SubmitHands(s: State, job: nat, count: nat, woken: nat)
    requires Queues(s) && Hands(s)
    ensures Hands(SubmitJob(s, job, count, woken))
  {
    var t := SubmitJob(s, job, count, woken);
    if s.started {
      if woken < |s.workers| && s.workers[woken].Waiting? { HeldSame(s.workers, woken, Ready); }
    } else {
      forall j ensures Held(NewWorkers(count), j) == 0 { NewHoldNothing(count, j); }
      assert |t.workers| > 0 ==> t.workers == NewWorkers(count);
    }
  }

  lemma {:induction false} SubmitRegistered(s: State, job: nat, count: nat, woken: nat)
    requires Registered(s) && job !in s.submitted
    ensures Registered(SubmitJob(s, job, count, woken))
  {
    Appended(s.submitted, job);
    Prepended(s.pool.live, job);
    Member(s.submitted, job);
  }

  lemma {:induction false} SubmitWakes(s: State, job: nat, count: nat, woken: nat)
    requires Queues(s) && NoLostWakeup(s) && Announced(s) && Enabled(s, Submit(job, count, woken))
    ensures NoLostWakeup(SubmitJob(s, job, count, woken)) && Announced(SubmitJob(s, job, count, woken))
  {
    hide Awake, Times, Held, Called;
    var t := SubmitJob(s, job, count, woken);
    if woken < |s.workers| { AwakeUpdate(s.workers, woken, Ready); }
    forall i | 0 <= i < |t.workers| && t.workers[i].Waiting?
      ensures s.started && i < |s.workers| && s.workers[i].Waiting?
    {
    }
    if Teller(s.workers) {
      var i :| 0 <= i < |s.workers| && s.workers[i].Signalling?;
      assert s.started && t.workers[i].Signalling?;
    }
  }

  lemma {:induction false} SubmitKeeps(s: State, job: nat, count: nat, woken: nat)
    requires Inv(s) && Enabled(s, Submit(job, count, woken))
    ensures Inv(SubmitJob(s, job, count, woken))
  {
    hide Queues, Hands, Registered, NoLostWakeup, Announced, Times, Held, Called, Awake, MainFree;
    SubmitQueues(s, job, count, woken);
    SubmitHands(s, job, count, woken);
    SubmitRegistered(s, job, count, woken);
    SubmitWakes(s, job, count, woken);
  }

  lemma {:induction false} LookHands(s: State, i: nat)
    requires Queues(s) && Hands(s) && Is(s, i, Ready)
    ensures Hands(LookForWork(s, i))
  {
    hide Called;
    var t := LookForWork(s, i);
    forall j { HeldUpdate(s.workers, i, t.workers[i], j); }
    if s.pool.work != [] { Appended(s.taken, s.pool.work[0]); }
  }

  lemma {:induction false} LookKeeps(s: State, i: nat)
    requires Inv(s) && Is(s, i, Ready)
    ensures Inv(LookForWork(s, i))
  {
    hide Hands, Times, Awake, Held, Called;
    var t := LookForWork(s, i);
    LookHands(s, i);
    AwakeUpdate(s.workers, i, t.workers[i]);
    assert s.pool.work != [] ==> t.taken + t.pool.work == s.taken + s.pool.work;
    forall k | 0 <= k < |s.workers| && s.workers[k].Signalling? ensures t.workers[k].Signalling? { }
  }

  /** A sleeper wakes, or the byte is written. */
  lemma {:induction false} PhaseKeeps(s: State, i: nat, pipe: nat)
    requires Inv(s) && i < |s.workers| && (s.workers[i].Waiting? || s.workers[i].Signalling?)
    requires pipe >= s.pipe && (s.workers[i].Signalling? ==> pipe > 0)
    ensures Inv(s.(workers := s.workers[i := Ready], pipe := pipe))
  {
    hide Times, Awake, Held, Called;
    var t := s.(workers := s.workers[i := Ready], pipe := pipe);
    HeldSame(s.workers, i, Ready);
    AwakeUpdate(s.workers, i, Ready);
    forall k | 0 <= k < |s.workers| && s.workers[k].Signalling? && k != i ensures t.workers[k].Signalling? { }
  }

  lemma {:induction false} FinishHands(s: State, i: nat)
    requires Queues(s) && Hands(s) && i < |s.workers| && s.workers[i].Running?
    ensures Hands(Next(s, FinishRun(i)))
  {
    hide Called;
    var t := Next(s, FinishRun(i));
    forall j { HeldUpdate(s.workers, i, Signalling, j); }
    Appended(s.finished, s.workers[i].job);
  }

  lemma {:induction false} FinishKeeps(s: State, i: nat)
    requires Inv(s) && i < |s.workers| && s.workers[i].Running?
    ensures Inv(Next(s, FinishRun(i)))
  {
    hide Hands, Times, Awake, Held, Called;
    var t := Next(s, FinishRun(i));
    FinishHands(s, i);
    AwakeUpdate(s.workers, i, Signalling);
    assert t.workers[i].Signalling?;
    assert t.finished == t.completed + t.pool.done;
  }

  lemma {:induction false} TakeKeeps(s: State)
    requires Inv(s) && Enabled(s, PollTake)
    ensures Inv(Next(s, PollTake))
  {
    hide Times, Awake, Held, Called;
    var job := s.pool.done[0];
    var t := Next(s, PollTake);
    FramePushed(s.main, Completing(job));
    Appended(s.completed, job);
    assert t.completed + t.pool.done == s.completed + s.pool.done;
    assert t.main[|s.main| - 1] == Polling;
  }

  lemma {:induction false} CallbackIsLive(s: State)
    requires Queues(s) && Hands(s) && Registered(s) && Enabled(s, CallbackEnd)
    ensures s.main[|s.main| - 1].job in s.pool.live
  {
    hide Held;
    var job := s.main[|s.main| - 1].job;
    assert Called(s.main, job) > 0;
    CompletedAreSubmitted(s, job);
    Member(s.pool.live, job);
  }

  lemma {:induction false} CompletedAreSubmitted(s: State, job: nat)
    requires Queues(s) && Hands(s)
    ensures Times(s.completed, job) <= Times(s.finished, job) <= Times(s.submitted, job)
  {
    hide Times, Held, Called;
    TimesConcat(s.completed, s.pool.done, job);
    TimesConcat(s.taken, s.pool.work, job);
  }

  lemma {:induction false} CallbackKeeps(s: State)
    requires Inv(s) && Enabled(s, CallbackEnd)
    ensures Inv(Next(s, CallbackEnd))
  {
    hide Held, Awake, Times, Called;
    CallbackIsLive(s);
    var t := Next(s, CallbackEnd);
    var job := s.main[|s.main| - 1].job;
    WithoutOne(s.pool.live, job);
    Appended(s.released, job);
    FramePushed(t.main, Completing(job));
    assert s.main == t.main + [Completing(job)];
  }

  lemma {:induction false} PollStartKeeps(s: State)
    requires Inv(s) && Enabled(s, PollStart)
    ensures Inv(Next(s, PollStart))
  {
    hide Held, Awake, Times, Called;
    var t := Next(s, PollStart);
    FramePushed(s.main, Polling);
    assert t.main[|s.main|].Polling?;
  }

  lemma {:induction false} PollEndKeeps(s: State)
    requires Inv(s) && Enabled(s, PollEnd)
    ensures Inv(Next(s, PollEnd))
  {
    hide Held, Awake, Times, Called;
    var t := Next(s, PollEnd);
    FramePushed(t.main, Polling);
    assert s.main == t.main + [Polling];
  }

  /** Every step of every thread keeps the invariant. */
  lemma {:induction false} StepKeeps(s: State, step: Step)
    requires Inv(s) && Enabled(s, step)
    ensures Inv(Next(s, step))
  {
    hide Inv;
    match step
    case Submit(job, count, woken) => SubmitKeeps(s, job, count, woken);
    case Look(i) => LookKeeps(s, i);
    case Spurious(i) => PhaseKeeps(s, i, s.pipe);
    case FinishRun(i) => FinishKeeps(s, i);
    case Signal(i) => PhaseKeeps(s, i, s.pipe + 1);
    case PollStart => PollStartKeeps(s);
    case PollTake => TakeKeeps(s);
    case CallbackEnd => CallbackKeeps(s);
    case PollEnd => PollEndKeeps(s);
  }
}
