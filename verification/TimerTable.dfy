/** The timer table: a growing array, scanned and compacted in place. */
module TimerTable {
  import opened Timers

  class Table {
    var slots: array<Timer>
    var count: nat
    var nextId: nat

    ghost predicate Valid()
      reads this
    {
      count <= slots.Length
    }

    ghost function View(): seq<Timer>
      reads this, slots
      requires Valid()
    {
      slots[..count]
    }

    constructor ()
      ensures Valid() && View() == [] && nextId == 1 && fresh(slots)
    {
      slots := new Timer[0];
      count, nextId := 0, 1;
    }

    method Grow()
      requires Valid()
      modifies this
      ensures Valid() && count < slots.Length && fresh(slots)
      ensures View() == old(View()) && count == old(count) && nextId == old(nextId)
    {
      var capacity := if slots.Length == 0 then 16 else slots.Length * 2;
      var empty := Timer(0, 0, 0, false);
      var grown := new Timer[capacity](_ => empty);
      for i := 0 to slots.Length
        modifies grown
        invariant grown[..i] == slots[..i]
      {
        grown[i] := slots[i];
      }
      slots := grown;
    }

    method AddTimer(now: int, delay: int, interval: int) returns (id: nat)
      requires Valid()
      modifies this, slots
      ensures Valid() && id == old(nextId) && nextId == old(nextId) + 1
      ensures View() == Add(old(View()), id, now + delay, interval)
      ensures slots == old(slots) || fresh(slots)
    {
      if count >= slots.Length { Grow(); }
      id := nextId;
      nextId := nextId + 1;
      slots[count] := Timer(id, now + delay, interval, true);
      count := count + 1;
    }

    method CancelTimer(id: nat) returns (found: bool)
      requires Valid()
      modifies slots
      ensures View() == Cancel(old(View()), id) && (found <==> Lookup(old(View()), id) < count)
    {
      for i := 0 to count
        invariant View() == old(View()) && forall k | 0 <= k < i :: !(slots[k].active && slots[k].id == id)
      {
        if slots[i].active && slots[i].id == id {
          LookupIs(View(), id, i);
          slots[i] := slots[i].(active := false);
          return true;
        }
      }
      return false;
    }

    /** Active timers move to the front, in order. */
    method CompactInPlace()
      requires Valid()
      modifies `count, slots
      ensures Valid() && View() == Compact(old(View()))
    {
      var write := 0;
      for read := 0 to count
        modifies slots
        invariant write <= read && slots[..write] == Compact(old(View())[..read])
        invariant forall k | read <= k < count :: slots[k] == old(View())[k]
      {
        assert old(View())[..read + 1][..read] == old(View())[..read];
        if slots[read].active {
          if write != read { slots[write] := slots[read]; }
          write := write + 1;
        }
      }
      assert old(View())[..count] == old(View());
      count := write;
    }

    method NextDueTime() returns (next: int)
      requires Valid()
      ensures next == NextDue(View())
    {
      next := -1;
      for i := 0 to count
        invariant next == NextDue(View()[..i])
      {
        assert View()[..i + 1][..i] == View()[..i];
        if slots[i].active && (next < 0 || slots[i].due < next) { next := slots[i].due; }
      }
      assert View()[..count] == View();
    }

    /** One slot of a pass, up to the call of the callback. */
    method RunSlot(i: nat, now: int) returns (fires: bool)
      requires Valid() && i < count
      modifies slots
      ensures fires == IsDue(old(View())[i], now)
      ensures View() == if fires then old(View())[i := Fired(old(View())[i], now)] else old(View())
    {
      var timer := slots[i];
      if !timer.active || timer.due > now { return false; }
      if timer.interval > 0 {
        slots[i] := timer.(due := now + timer.interval);
      } else {
        slots[i] := timer.(active := false);
      }
      return true;
    }
  }

  lemma {:induction false} LookupIs(timers: seq<Timer>, id: nat, i: nat)
    requires i < |timers| && timers[i].active && timers[i].id == id
    requires forall k | 0 <= k < i :: !(timers[k].active && timers[k].id == id)
    ensures Lookup(timers, id) == i
  {
    var l := Lookup(timers, id);
  }
}
