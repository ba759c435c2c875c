/** When timers fire: never early, at intervals, and when they are due. */
module TimerRuns {
  import opened Collections
  import opened Timers

  /** When an active timer is due next, and its interval. */
  datatype Plan = Plan(due: int, interval: int)

  function Scheduled(timers: seq<Timer>, id: nat): Option<Plan> {
    var i := Lookup(timers, id);
    if i < |timers| then Some(Plan(timers[i].due, timers[i].interval)) else None
  }

  /** Step `k` fires the timer `id`. */
  ghost predicate FiresAt(run: seq<State>, steps: seq<Step>, k: nat, id: nat) {
    k < |steps| && k + 1 < |run| && steps[k] == PassStep && run[k].pass.Pass? && run[k + 1].fired == run[k].fired + [id]
  }

  /** Step `k` creates the timer `id`. */
  ghost predicate AddedAt(run: seq<State>, steps: seq<Step>, k: nat, id: nat, delay: int, interval: int) {
    k < |steps| && k < |run| && steps[k] == AddTimer(delay, interval) && run[k].nextId == id
  }

  /** What the history says of one timer: it is due its delay after it was created, and its interval after the begin
      of every pass that fires it; without an interval, or once cancelled, it is due no more. */
  ghost function PlanOf(run: seq<State>, steps: seq<Step>, k: nat, id: nat): Option<Plan>
    requires |run| == |steps| + 1 && k < |run|
  {
    if k == 0 then None
    else
      var s, before := run[k - 1], PlanOf(run, steps, k - 1, id);
      match steps[k - 1]
      case AddTimer(delay, interval) => if s.nextId == id then Some(Plan(s.now + delay, interval)) else before
      case CancelTimer(c) => if c == id then None else before
      case PassStep =>
        if !FiresAt(run, steps, k - 1, id) then before
        else if before.None? || before.value.interval == 0 then None
        else Some(Plan(s.pass.now + before.value.interval, before.value.interval))
      case _ => before
  }

  // ----- the table follows the plan

  lemma {:induction false} ScheduledAt(timers: seq<Timer>, i: nat)
    requires Sorted(timers) && i < |timers| && timers[i].active
    ensures Scheduled(timers, timers[i].id) == Some(Plan(timers[i].due, timers[i].interval))
  {
  }

  lemma {:induction false} NotScheduled(timers: seq<Timer>, id: nat)
    requires Inactive(timers, id)
    ensures Scheduled(timers, id) == None
  {
  }

  /** Timers that are active in both tables, and otherwise in neither, are scheduled alike. */
  lemma {:induction false} SameSchedule(a: seq<Timer>, b: seq<Timer>, id: nat)
    requires Sorted(a) && Sorted(b)
    requires forall t :: t in a && t.active && t.id == id <==> t in b && t.active && t.id == id
    ensures Scheduled(a, id) == Scheduled(b, id)
  {
    var i, j := Lookup(a, id), Lookup(b, id);
    if i < |a| {
      assert a[i] in b;
      var k :| 0 <= k < |b| && b[k] == a[i];
      ScheduledAt(b, k);
    } else {
      assert j == |b|;
    }
  }

  lemma {:induction false} AddSchedules(s: State, delay: int, interval: int, id: nat)
    requires Inv(s) && Enabled(s, AddTimer(delay, interval))
    ensures Scheduled(Next(s, AddTimer(delay, interval)).timers, id) ==
      if id == s.nextId then Some(Plan(s.now + delay, interval)) else Scheduled(s.timers, id)
  {
    hide PassOk, OverOk;
    var u := Next(s, AddTimer(delay, interval));
    if id == s.nextId {
      ScheduledAt(u.timers, |s.timers|);
    } else {
      SameSchedule(s.timers, u.timers, id);
    }
  }

  lemma {:induction false} CancelSchedules(s: State, c: nat, id: nat)
    requires Inv(s)
    ensures Scheduled(Next(s, CancelTimer(c)).timers, id) == if c == id then None else Scheduled(s.timers, id)
  {
    hide PassOk, OverOk, Lookup;
    var u, i := Next(s, CancelTimer(c)), Lookup(s.timers, c);
    if c == id {
      NotScheduled(u.timers, id);
    } else if i < |s.timers| {
      forall t ensures t in s.timers && t.active && t.id == id <==> t in u.timers && t.active && t.id == id {
        if t in s.timers && t.id == id {
          var k :| 0 <= k < |s.timers| && s.timers[k] == t;
          assert u.timers[k] == t;
        }
        if t in u.timers && t.id == id {
          var k :| 0 <= k < |u.timers| && u.timers[k] == t;
          assert s.timers[k] == t;
        }
      }
      SameSchedule(s.timers, u.timers, id);
    }
  }

  lemma {:induction false} BeginSchedules(s: State, id: nat)
    requires Inv(s) && s.pass.NoPass?
    ensures Scheduled(Next(s, BeginPass).timers, id) == Scheduled(s.timers, id)
  {
    hide PassOk, OverOk, Compact;
    CompactIs(s.timers, s.nextId);
    SameSchedule(s.timers, Compact(s.timers), id);
  }

  /** The timer that a step of a pass fires is the one at its index, and was due. */
  lemma {:induction false} SlotSchedules(s: State, id: nat)
    requires Inv(s) && Enabled(s, PassStep)
    ensures var u, before := RunSlot(s), Scheduled(s.timers, id);
      if u.fired != s.fired + [id] then Scheduled(u.timers, id) == before
      else
        && before.Some? && before.value.due <= s.pass.now && before.value.interval >= 0
        && Scheduled(u.timers, id) ==
           if before.value.interval == 0 then None
           else Some(Plan(s.pass.now + before.value.interval, before.value.interval))
  {
    hide OverOk, Lookup;
    var u, i := RunSlot(s), s.pass.index;
    var t := s.timers[i];
    if IsDue(t, s.pass.now) {
      assert u.fired == s.fired + [t.id] && u.fired[|s.fired|] == t.id;
      if id == t.id {
        ScheduledAt(s.timers, i);
        if t.interval > 0 { ScheduledAt(u.timers, i); } else { NotScheduled(u.timers, id); }
      } else {
        forall x ensures x in s.timers && x.active && x.id == id <==> x in u.timers && x.active && x.id == id {
          if x in s.timers && x.id == id {
            var k :| 0 <= k < |s.timers| && s.timers[k] == x;
            assert u.timers[k] == x;
          }
          if x in u.timers && x.id == id {
            var k :| 0 <= k < |u.timers| && u.timers[k] == x;
            assert s.timers[k] == x;
          }
        }
        SameSchedule(s.timers, u.timers, id);
      }
    }
  }

  /** In every state of every run, the table has exactly what the history says. */
  lemma {:induction false} DueAsPlanned(run: seq<State>, steps: seq<Step>, k: nat, id: nat)
    requires IsRun(run, steps) && k < |run|
    ensures Scheduled(run[k].timers, id) == PlanOf(run, steps, k, id)
  {
    hide Inv, Scheduled;
    if k == 0 {
      NotScheduled(START.timers, id);
    } else {
      DueAsPlanned(run, steps, k - 1, id);
      EveryRun(run, steps, k - 1);
      var s := run[k - 1];
      match steps[k - 1]
      case AddTimer(delay, interval) => AddSchedules(s, delay, interval, id);
      case CancelTimer(c) => CancelSchedules(s, c, id);
      case BeginPass => BeginSchedules(s, id);
      case PassStep => SlotSchedules(s, id);
      case _ =>
    }
  }

  /** What fires was planned, and its time has come when the pass begins. */
  lemma {:induction false} FiresAsPlanned(run: seq<State>, steps: seq<Step>, k: nat, id: nat)
    requires IsRun(run, steps) && FiresAt(run, steps, k, id)
    ensures var plan := PlanOf(run, steps, k, id);
      plan.Some? && plan.value.due <= run[k].pass.now && plan.value.interval >= 0 && id < run[k].nextId
  {
    hide Scheduled, PassOk, OverOk, PlanOf, RunSlot;
    EveryRun(run, steps, k);
    DueAsPlanned(run, steps, k, id);
    SlotSchedules(run[k], id);
    KnownId(run[k], id);
  }

  lemma {:induction false} KnownId(s: State, id: nat)
    requires TableOk(s) && Scheduled(s.timers, id).Some?
    ensures id < s.nextId
  {
  }

  lemma {:induction false} IdsGrow(run: seq<State>, steps: seq<Step>, j: nat, k: nat)
    requires IsRun(run, steps) && j <= k < |run|
    ensures run[j].nextId <= run[k].nextId && (j < k && steps[j].AddTimer? ==> run[j].nextId < run[k].nextId)
    decreases k
  {
    if j < k {
      EveryRun(run, steps, k - 1);
      IdsGrow(run, steps, j, k - 1);
    }
  }

  // ----- never early

  lemma {:induction false} PlannedAfterAdding(run: seq<State>, steps: seq<Step>, j: nat, k: nat, id: nat, delay: int,
      interval: int)
    requires IsRun(run, steps) && j < k < |run| && AddedAt(run, steps, j, id, delay, interval)
    ensures var plan := PlanOf(run, steps, k, id);
      plan.Some? ==> plan.value.due >= run[j].now + delay && plan.value.interval == interval
    decreases k
  {
    hide Inv, Next, Enabled;
    if k > j + 1 {
      PlannedAfterAdding(run, steps, j, k - 1, id, delay, interval);
      IdsGrow(run, steps, j, k - 1);
      if FiresAt(run, steps, k - 1, id) { FiresAsPlanned(run, steps, k - 1, id); }
    }
  }

  /** A timer fires in no pass that began before its delay was over. */
  lemma {:induction false} NeverEarly(run: seq<State>, steps: seq<Step>, j: nat, k: nat, id: nat, delay: int,
      interval: int)
    requires IsRun(run, steps) && AddedAt(run, steps, j, id, delay, interval) && FiresAt(run, steps, k, id)
    ensures j < k && run[k].pass.now >= run[j].now + delay
  {
    hide IsRun, PlanOf;
    FiresAsPlanned(run, steps, k, id);
    if k <= j { IdsGrow(run, steps, k, j); } else { PlannedAfterAdding(run, steps, j, k, id, delay, interval); }
  }

  // ----- at intervals

  lemma {:induction false} PlannedAfterFiring(run: seq<State>, steps: seq<Step>, k: nat, m: nat, id: nat)
    requires IsRun(run, steps) && k < m < |run| && FiresAt(run, steps, k, id)
    ensures PlanOf(run, steps, k, id).Some?
    ensures var plan, interval := PlanOf(run, steps, m, id), PlanOf(run, steps, k, id).value.interval;
      plan.Some? ==> interval > 0 && plan.value.due >= run[k].pass.now + interval && plan.value.interval == interval
    decreases m
  {
    hide Inv, Next, Enabled;
    FiresAsPlanned(run, steps, k, id);
    if m > k + 1 {
      PlannedAfterFiring(run, steps, k, m - 1, id);
      IdsGrow(run, steps, k, m - 1);
      if FiresAt(run, steps, m - 1, id) { FiresAsPlanned(run, steps, m - 1, id); }
    }
  }

  /** Between two firings of a timer lies its interval: the passes that fire it begin at least so far apart. */
  lemma {:induction false} IntervalsApart(run: seq<State>, steps: seq<Step>, j: nat, k: nat, l: nat, id: nat,
      delay: int, interval: int)
    requires IsRun(run, steps) && AddedAt(run, steps, j, id, delay, interval)
    requires k < l && FiresAt(run, steps, k, id) && FiresAt(run, steps, l, id)
    ensures interval > 0 && run[l].pass.now >= run[k].pass.now + interval
  {
    hide IsRun, PlanOf;
    NeverEarly(run, steps, j, k, id, delay, interval);
    PlannedAfterAdding(run, steps, j, k, id, delay, interval);
    FiresAsPlanned(run, steps, l, id);
    PlannedAfterFiring(run, steps, k, l, id);
  }

  // ----- when they are due

  /** Nothing happens to the timer after step `k` and before step `m`. */
  ghost predicate LeftAlone(run: seq<State>, steps: seq<Step>, k: nat, m: nat, id: nat) {
    forall i: nat | k < i < m && i < |steps| :: !FiresAt(run, steps, i, id) && steps[i] != CancelTimer(id)
  }

  lemma {:induction false} PlanStays(run: seq<State>, steps: seq<Step>, k: nat, m: nat, id: nat)
    requires IsRun(run, steps) && k < m < |run| && id < run[k + 1].nextId && LeftAlone(run, steps, k, m, id)
    ensures PlanOf(run, steps, m, id) == PlanOf(run, steps, k + 1, id)
    decreases m
  {
    hide Inv, Next, Enabled;
    if m > k + 1 {
      PlanStays(run, steps, k, m - 1, id);
      IdsGrow(run, steps, k + 1, m - 1);
    }
  }

  /** Until it fires or is cancelled, a timer is due exactly its delay after it was created. */
  lemma {:induction false} DueAfterDelay(run: seq<State>, steps: seq<Step>, j: nat, m: nat, id: nat, delay: int,
      interval: int)
    requires IsRun(run, steps) && j < m < |run| && AddedAt(run, steps, j, id, delay, interval)
    requires LeftAlone(run, steps, j, m, id)
    ensures Scheduled(run[m].timers, id) == Some(Plan(run[j].now + delay, interval))
  {
    hide Inv, Next, Enabled, Scheduled;
    IdsGrow(run, steps, j, j + 1);
    PlanStays(run, steps, j, m, id);
    DueAsPlanned(run, steps, m, id);
  }

  /** Until it fires again or is cancelled, an interval timer is due exactly its interval after the begin of the pass
      that fired it. */
  lemma {:induction false} DueAfterInterval(run: seq<State>, steps: seq<Step>, j: nat, k: nat, m: nat, id: nat,
      delay: int, interval: int)
    requires IsRun(run, steps) && AddedAt(run, steps, j, id, delay, interval) && interval > 0
    requires k < m < |run| && FiresAt(run, steps, k, id) && LeftAlone(run, steps, k, m, id)
    ensures Scheduled(run[m].timers, id) == Some(Plan(run[k].pass.now + interval, interval))
  {
    hide Inv, Next, Enabled, Scheduled, LeftAlone;
    NeverEarly(run, steps, j, k, id, delay, interval);
    FiresAsPlanned(run, steps, k, id);
    PlannedAfterAdding(run, steps, j, k, id, delay, interval);
    IdsGrow(run, steps, k, k + 1);
    PlanStays(run, steps, k, m, id);
    DueAsPlanned(run, steps, m, id);
  }

  /** A timer that is scheduled for the begin of a pass, or for earlier, is fired by the pass unless it is cancelled
      before its turn. */
  lemma {:induction false} FiresWhenDue(run: seq<State>, steps: seq<Step>, i: nat, j: nat, id: nat)
    requires IsRun(run, steps) && i < j < |steps| && steps[i] == BeginPass && steps[j] == EndPass
    requires forall k | i < k < j :: !steps[k].EndPass?
    requires Scheduled(run[i].timers, id).Some? && Scheduled(run[i].timers, id).value.due <= run[i].now
    ensures run[j].pass.Pass? && (id in run[j].pass.fired || id in run[j].cancelled)
  {
    hide Inv, Next, Enabled, Accounted;
    var t := run[i].timers[Lookup(run[i].timers, id)];
    assert t in run[i].timers && IsDue(t, run[i].now);
    assert WasDue(run[i], id);
    PassIsComplete(run, steps, i, j, id);
  }
}
