/** The timers of the event loop: what programs do to the table, and passes over it that fire what is due. */
module Timers {

  /** An interval of 0 means that the timer fires once. */
  datatype Timer = Timer(id: nat, due: int, interval: int, active: bool)

  /** A pass fires up to `limit` what was due at `now`; `first` is the first id that was free when it began. */
  datatype Pass = NoPass | Pass(index: nat, limit: nat, now: int, first: nat, fired: seq<nat>)

  /** `fired` and `once` record every firing, and every firing of a timer that fires once; `cancelled` the
      cancellations that found their timer; `at` is where the pass began. */
  datatype State = State(
    timers: seq<Timer>, nextId: nat, now: int, pass: Pass,
    fired: seq<nat>, once: seq<nat>, cancelled: set<nat>)

  const START := State([], 1, 0, NoPass, [], [], {})

  // ----- operations on the table

  function Add(timers: seq<Timer>, id: nat, due: int, interval: int): seq<Timer> {
    timers + [Timer(id, due, interval, true)]
  }

  /** The first active timer with that id. */
  function Lookup(timers: seq<Timer>, id: nat): (i: nat)
    ensures i <= |timers|
    ensures i < |timers| ==> timers[i].active && timers[i].id == id
    ensures forall k | 0 <= k < i :: !(timers[k].active && timers[k].id == id)
  {
    if timers == [] || (timers[0].active && timers[0].id == id) then 0 else 1 + Lookup(timers[1..], id)
  }

  function Cancel(timers: seq<Timer>, id: nat): seq<Timer> {
    var i := Lookup(timers, id);
    if i < |timers| then timers[i := timers[i].(active := false)] else timers
  }

  function Compact(timers: seq<Timer>): seq<Timer> {
    if timers == [] then []
    else Compact(timers[..|timers| - 1]) + (if timers[|timers| - 1].active then [timers[|timers| - 1]] else [])
  }

  predicate IsDue(t: Timer, now: int) { t.active && t.due <= now }

  /** A timer that fires is set to its next time, or is done. */
  function Fired(t: Timer, now: int): Timer {
    if t.interval > 0 then t.(due := now + t.interval) else t.(active := false)
  }

  // ----- steps

  datatype Step =
    | AddTimer(delay: int, interval: int)
    | CancelTimer(id: nat)
    | Elapse(ms: int)
    | BeginPass
    | PassStep
    | EndPass

  /** Programs add and cancel timers at any time, also from callbacks; one pass does not begin inside another. */
  predicate Enabled(s: State, step: Step) {
    match step
    case AddTimer(delay, interval) => delay >= 0 && interval >= 0
    case CancelTimer(_) => true
    case Elapse(ms) => ms >= 0
    case BeginPass => s.pass.NoPass?
    case PassStep => s.pass.Pass? && s.pass.index < s.pass.limit
    case EndPass => s.pass.Pass? && s.pass.index >= s.pass.limit
  }

  function RunSlot(s: State): State
    requires s.pass.Pass? && s.pass.index < |s.timers|
  {
    var i, pass := s.pass.index, s.pass;
    var t := s.timers[i];
    if !IsDue(t, pass.now) then s.(pass := pass.(index := i + 1))
    else
      s.(timers := s.timers[i := Fired(t, pass.now)], pass := pass.(index := i + 1, fired := pass.fired + [t.id]),
         fired := s.fired + [t.id], once := if t.interval > 0 then s.once else s.once + [t.id])
  }

  function Next(s: State, step: Step): State
    requires Inv(s) && Enabled(s, step)
  {
    match step
    case AddTimer(delay, interval) =>
      s.(timers := Add(s.timers, s.nextId, s.now + delay, interval), nextId := s.nextId + 1)
    case CancelTimer(id) =>
      s.(timers := Cancel(s.timers, id),
         cancelled := if Lookup(s.timers, id) < |s.timers| then s.cancelled + {id} else s.cancelled)
    case Elapse(ms) => s.(now := s.now + ms)
    case BeginPass =>
      var timers := Compact(s.timers);
      s.(timers := timers, pass := Pass(0, |timers|, s.now, s.nextId, []))
    case PassStep => RunSlot(s)
    case EndPass => s.(pass := NoPass)
  }

  // ----- what every state satisfies

  predicate Sorted(timers: seq<Timer>) {
    forall i, j | 0 <= i < j < |timers| :: timers[i].id < timers[j].id
  }

  predicate Distinct(ids: seq<nat>) {
    forall i, j | 0 <= i < j < |ids| :: ids[i] != ids[j]
  }

  /** Ids grow along the table and are never used again. */
  ghost predicate TableOk(s: State) {
    Sorted(s.timers) && forall i | 0 <= i < |s.timers| :: s.timers[i].id < s.nextId && s.timers[i].interval >= 0
  }

  ghost predicate Inactive(timers: seq<Timer>, id: nat) {
    forall i | 0 <= i < |timers| && timers[i].id == id :: !timers[i].active
  }

  /** What fired for good, or was cancelled, is not active. */
  ghost predicate OverOk(s: State) {
    && Distinct(s.once)
    && (forall k | 0 <= k < |s.once| :: s.once[k] < s.nextId && Inactive(s.timers, s.once[k]))
    && (forall id | id in s.cancelled :: id < s.nextId && Inactive(s.timers, id))
  }

  /** The timers of a pass are those that were there when it began; the fired ones are behind it. */
  ghost predicate PassOk(s: State) {
    s.pass.Pass? ==>
      && s.pass.index <= s.pass.limit <= |s.timers| && s.pass.first <= s.nextId && s.pass.now <= s.now
      && (forall i | 0 <= i < s.pass.limit :: s.timers[i].id < s.pass.first)
      && (forall i | s.pass.limit <= i < |s.timers| :: s.timers[i].id >= s.pass.first)
      && Distinct(s.pass.fired)
      && (forall k | 0 <= k < |s.pass.fired| :: Behind(s.timers, s.pass.index, s.pass.fired[k]))
      && (forall i | 0 <= i < s.pass.index :: !IsDue(s.timers[i], s.pass.now))
  }

  ghost predicate Behind(timers: seq<Timer>, index: nat, id: nat) {
    exists i :: 0 <= i < index && i < |timers| && timers[i].id == id
  }

  ghost predicate Inv(s: State) {
    TableOk(s) && OverOk(s) && PassOk(s)
  }

  // ----- every step keeps it

  lemma {:induction false} CompactIs(timers: seq<Timer>, bound: nat)
    requires Sorted(timers) && forall i | 0 <= i < |timers| :: timers[i].id < bound && timers[i].interval >= 0
    ensures Sorted(Compact(timers))
    ensures forall i | 0 <= i < |Compact(timers)| :: Compact(timers)[i].id < bound && Compact(timers)[i].interval >= 0
    ensures forall t :: t in Compact(timers) <==> t in timers && t.active
  {
    if timers != [] {
      var n := |timers| - 1;
      assert timers == timers[..n] + [timers[n]];
      CompactIs(timers[..n], timers[n].id);
    }
  }

  lemma {:induction false} GoneAfterCompact(timers: seq<Timer>, id: nat)
    requires Inactive(timers, id)
    ensures forall i | 0 <= i < |Compact(timers)| :: Compact(timers)[i].id != id
  {
    if timers != [] { GoneAfterCompact(timers[..|timers| - 1], id); }
  }

  lemma {:induction false} BeginKeeps(s: State)
    requires Inv(s) && s.pass.NoPass?
    ensures Inv(Next(s, BeginPass))
  {
    hide Sorted, Compact;
    CompactIs(s.timers, s.nextId);
    var t := Next(s, BeginPass);
    forall id | Inactive(s.timers, id) ensures Inactive(t.timers, id) { GoneAfterCompact(s.timers, id); }
  }

  lemma {:induction false} AddKeeps(s: State, delay: int, interval: int)
    requires Inv(s) && Enabled(s, AddTimer(delay, interval))
    ensures Inv(Next(s, AddTimer(delay, interval)))
  {
    var t := Next(s, AddTimer(delay, interval));
    if s.pass.Pass? {
      forall k | 0 <= k < |s.pass.fired| ensures Behind(t.timers, t.pass.index, t.pass.fired[k]) {
        assert Behind(s.timers, s.pass.index, s.pass.fired[k]);
        var i :| 0 <= i < s.pass.index && i < |s.timers| && s.timers[i].id == s.pass.fired[k];
        assert t.timers[i].id == t.pass.fired[k];
      }
    }
  }

  lemma {:induction false} CancelKeeps(s: State, id: nat)
    requires Inv(s)
    ensures Inv(Next(s, CancelTimer(id)))
  {
    hide Lookup;
    var t := Next(s, CancelTimer(id));
    assert |t.timers| == |s.timers|;
    assert forall i | 0 <= i < |s.timers| :: t.timers[i] == s.timers[i].(active := t.timers[i].active);
    if s.pass.Pass? {
      forall k | 0 <= k < |s.pass.fired| ensures Behind(t.timers, t.pass.index, t.pass.fired[k]) {
        assert Behind(s.timers, s.pass.index, s.pass.fired[k]);
        var i :| 0 <= i < s.pass.index && i < |s.timers| && s.timers[i].id == s.pass.fired[k];
        assert t.timers[i].id == t.pass.fired[k];
      }
    }
  }

  lemma {:induction false} RunOver(s: State)
    requires TableOk(s) && OverOk(s) && s.pass.Pass? && s.pass.index < |s.timers|
    ensures TableOk(RunSlot(s)) && OverOk(RunSlot(s))
  {
  }

  lemma {:induction false} RunKeeps(s: State)
    requires Inv(s) && Enabled(s, PassStep)
    ensures Inv(RunSlot(s))
  {
    hide OverOk;
    var i, t := s.pass.index, RunSlot(s);
    var timer := s.timers[i];
    RunOver(s);
    forall k | 0 <= k < |s.pass.fired|
      ensures Behind(t.timers, t.pass.index, s.pass.fired[k]) && s.pass.fired[k] != timer.id
    {
      assert Behind(s.timers, i, s.pass.fired[k]);
      var j :| 0 <= j < i && j < |s.timers| && s.timers[j].id == s.pass.fired[k];
      assert t.timers[j].id == s.pass.fired[k];
    }
    assert t.timers[i].id == timer.id;
  }

  lemma {:induction false} StepKeeps(s: State, step: Step)
    requires Inv(s) && Enabled(s, step)
    ensures Inv(Next(s, step))
  {
    match step
    case AddTimer(delay, interval) => AddKeeps(s, delay, interval);
    case CancelTimer(id) => CancelKeeps(s, id);
    case Elapse(_) =>
    case BeginPass => BeginKeeps(s);
    case PassStep => RunKeeps(s);
    case EndPass =>
  }

  // ----- runs

  /** From the empty state, one step after another. `Next` is defined where the invariant holds, and that it holds
      in every state of every run is what has to be proved. */
  ghost predicate IsRun(run: seq<State>, steps: seq<Step>) {
    && |run| == |steps| + 1 && run[0] == START
    && forall k | 0 <= k < |steps| :: Inv(run[k]) ==> Enabled(run[k], steps[k]) && run[k + 1] == Next(run[k], steps[k])
  }

  lemma {:induction false} EveryRun(run: seq<State>, steps: seq<Step>, k: nat)
    requires IsRun(run, steps) && k < |run|
    ensures Inv(run[k])
  {
    hide Inv, Next, Enabled;
    if k == 0 {
      StartOk();
    } else {
      EveryRun(run, steps, k - 1);
      StepKeeps(run[k - 1], steps[k - 1]);
    }
  }

  lemma {:induction false} StartOk()
    ensures Inv(START)
  {
  }

  /** The table is sorted by ids that occur once; a timer that fires once fires at most once in a whole run; a pass
      fires each timer at most once, and none that was created after the pass began. */
  lemma {:induction false} FiresOnce(run: seq<State>, steps: seq<Step>, k: nat)
    requires IsRun(run, steps) && k < |run|
    ensures Sorted(run[k].timers) && Distinct(run[k].once)
    ensures run[k].pass.Pass? ==>
      && Distinct(run[k].pass.fired)
      && forall i | 0 <= i < |run[k].pass.fired| :: run[k].pass.fired[i] < run[k].pass.first
  {
    hide Next, Enabled;
    EveryRun(run, steps, k);
    var s := run[k];
    if s.pass.Pass? {
      forall i | 0 <= i < |s.pass.fired| ensures s.pass.fired[i] < s.pass.first {
        assert Behind(s.timers, s.pass.index, s.pass.fired[i]);
      }
    }
  }

  /** What a step fires was due, had not been cancelled, and had not fired for good. */
  lemma {:induction false} NeverCancelled(run: seq<State>, steps: seq<Step>, k: nat)
    requires IsRun(run, steps) && k < |steps| && run[k + 1].fired != run[k].fired
    ensures exists id :: run[k + 1].fired == run[k].fired + [id] && id !in run[k].cancelled && id !in run[k].once
              && exists t :: t in run[k].timers && t.id == id && t.due <= run[k].now
  {
    hide Sorted, Distinct, Compact, Cancel, Add;
    EveryRun(run, steps, k);
    var s, i := run[k], run[k].pass.index;
    var t := s.timers[i];
    assert run[k + 1].fired == s.fired + [t.id];
    assert t in s.timers;
  }

  // ----- a pass is complete

  /** A timer that was due when the pass began. */
  ghost predicate WasDue(begin: State, id: nat) {
    exists t :: t in begin.timers && t.id == id && IsDue(t, begin.now)
  }

  /** Still to come in the pass, fired by it, or cancelled. */
  ghost predicate Accounted(s: State, id: nat)
    requires s.pass.Pass?
  {
    || id in s.pass.fired || id in s.cancelled
    || exists i ::
         s.pass.index <= i < s.pass.limit && i < |s.timers| && s.timers[i].id == id && IsDue(s.timers[i], s.pass.now)
  }

  lemma {:induction false} BeginAccounts(s: State, id: nat)
    requires Inv(s) && s.pass.NoPass? && WasDue(s, id)
    ensures Accounted(Next(s, BeginPass), id)
  {
    hide Sorted, Compact;
    CompactIs(s.timers, s.nextId);
    var u := Next(s, BeginPass);
    var t :| t in s.timers && t.id == id && IsDue(t, s.now);
    var i :| 0 <= i < |u.timers| && u.timers[i] == t;
  }

  lemma {:induction false} StepAccounts(s: State, step: Step, id: nat)
    requires Inv(s) && Enabled(s, step) && s.pass.Pass? && !step.EndPass? && Accounted(s, id)
    ensures Next(s, step).pass.Pass? && Accounted(Next(s, step), id)
  {
    hide Sorted, Compact, Distinct;
    var u := Next(s, step);
    if id !in s.pass.fired && id !in s.cancelled {
      var i :| s.pass.index <= i < s.pass.limit && i < |s.timers| && s.timers[i].id == id
        && IsDue(s.timers[i], s.pass.now);
      match step
      case CancelTimer(c) =>
        if Lookup(s.timers, c) == i { assert c == id; } else { assert u.timers[i] == s.timers[i]; }
      case PassStep =>
        if s.pass.index == i { assert u.pass.fired[|s.pass.fired|] == id; } else { assert u.timers[i] == s.timers[i]; }
      case _ =>
        assert u.timers[i] == s.timers[i];
    }
  }

  /** From its beginning to its end, a pass fires everything that was due unless it was cancelled. */
  lemma {:induction false} PassIsComplete(run: seq<State>, steps: seq<Step>, i: nat, j: nat, id: nat)
    requires IsRun(run, steps) && i < j < |steps| && steps[i] == BeginPass && WasDue(run[i], id)
    requires forall k | i < k < j :: !steps[k].EndPass?
    ensures run[j].pass.Pass? && Accounted(run[j], id)
    ensures steps[j].EndPass? ==> id in run[j].pass.fired || id in run[j].cancelled
    decreases j
  {
    hide Inv, Accounted, WasDue;
    EveryRun(run, steps, j);
    EveryRun(run, steps, j - 1);
    if j == i + 1 {
      BeginAccounts(run[i], id);
    } else {
      PassIsComplete(run, steps, i, j - 1, id);
      StepAccounts(run[j - 1], steps[j - 1], id);
    }
    if steps[j].EndPass? { NothingLeft(run[j], id); }
  }

  lemma {:induction false} NothingLeft(s: State, id: nat)
    requires s.pass.Pass? && s.pass.index >= s.pass.limit && Accounted(s, id)
    ensures id in s.pass.fired || id in s.cancelled
  {
  }

  // ----- how long a poll may wait

  const FOREVER := 100_000_000

  const POLL_MS := 10

  /** The earliest time of an active timer, or -1. */
  function NextDue(timers: seq<Timer>): int {
    if timers == [] then -1
    else
      var before, t := NextDue(timers[..|timers| - 1]), timers[|timers| - 1];
      if t.active && (before < 0 || t.due < before) then t.due else before
  }

  /** The wait of a poll in milliseconds; negative means until something happens. */
  function Wait(timeout: int, nextDue: int, now: int, jobsPending: bool): int {
    var delta := if nextDue - now < 0 then 0 else if nextDue - now > FOREVER then FOREVER else nextDue - now;
    var wait := if nextDue >= 0 && (timeout < 0 || delta < timeout) then delta else timeout;
    if jobsPending && (wait < 0 || wait > POLL_MS) then POLL_MS else wait
  }

  lemma {:induction false} NextDueIsLeast(timers: seq<Timer>)
    requires forall i | 0 <= i < |timers| :: timers[i].due >= 0
    ensures NextDue(timers) < 0 <==> forall i | 0 <= i < |timers| :: !timers[i].active
    ensures forall i | 0 <= i < |timers| && timers[i].active :: NextDue(timers) <= timers[i].due
    ensures NextDue(timers) >= 0 ==>
      exists i :: 0 <= i < |timers| && timers[i].active && timers[i].due == NextDue(timers)
  {
    if timers != [] {
      var n := |timers| - 1;
      NextDueIsLeast(timers[..n]);
      if NextDue(timers[..n]) >= 0 {
        var i :| 0 <= i < n && timers[..n][i].active && timers[..n][i].due == NextDue(timers[..n]);
        assert timers[i].active && timers[i].due == NextDue(timers[..n]);
      }
    }
  }

  /** A poll waits without limit exactly if nothing limits it; it waits beyond neither the time of an active timer,
      nor the timeout, nor 10 ms while there are jobs; and it waits as long as they allow. */
  lemma {:induction false} WaitIsBounded(timers: seq<Timer>, timeout: int, now: int, jobsPending: bool)
    requires forall k | 0 <= k < |timers| :: timers[k].due >= 0
    ensures var wait := Wait(timeout, NextDue(timers), now, jobsPending);
      && (wait < 0 <==> timeout < 0 && !jobsPending && forall k | 0 <= k < |timers| :: !timers[k].active)
      && (forall k | 0 <= k < |timers| && timers[k].active :: wait == 0 || now + wait <= timers[k].due)
      && (timeout >= 0 ==> wait <= timeout)
      && (jobsPending ==> wait <= 10)
      && (wait < 0 || wait == timeout || wait == 100_000_000 || (jobsPending && wait == 10)
          || exists k :: 0 <= k < |timers| && timers[k].active
               && wait == if timers[k].due < now then 0 else timers[k].due - now)
  {
    NextDueIsLeast(timers);
  }
}
