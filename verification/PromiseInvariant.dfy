/** What every reachable state of the promise runtime satisfies. */
module PromiseInvariant {
  import opened Collections
  import opened PromiseModel

  // ----- where reactions are

  ghost function Waiting(promises: map<nat, Promise>): set<Reaction> {
    set p, i | p in promises && 0 <= i < |promises[p].reactions| :: promises[p].reactions[i]
  }

  ghost function Queued(queue: seq<Reaction>, head: nat): set<Reaction> {
    set j | head <= j < |queue| :: queue[j]
  }

  /** Reactions that have been registered and not yet taken from the queue. */
  ghost function Outstanding(s: State): set<Reaction> {
    Waiting(s.promises) + Queued(s.queue, s.head)
  }

  /** The history of the queue is what ran followed by what is still queued: first in, first out. */
  ghost predicate QueueOk(s: State) {
    s.head <= |s.queue| && s.pushed == s.ran + s.queue[s.head..]
  }

  /** Reactions wait only on pending promises, and only those of settled promises are queued. */
  ghost predicate PlacesOk(s: State) {
    && (forall p | p in s.promises && s.promises[p].reactions != [] :: s.promises[p].status.Pending?)
    && (forall p, i | p in s.promises && 0 <= i < |s.promises[p].reactions| ::
          s.promises[p].reactions[i].promise == p && KnownReaction(s, s.promises[p].reactions[i]))
    && (forall r | r in Queued(s.queue, s.head) :: KnownReaction(s, r) && !s.promises[r.promise].status.Pending?)
  }

  /** No reaction is in two places, or twice in one. */
  ghost predicate IdsOk(s: State) {
    && (forall k | 0 <= k < |s.pushed| :: s.pushed[k].id < s.next)
    && (forall k, l | 0 <= k < l < |s.pushed| :: s.pushed[k].id != s.pushed[l].id)
    && (forall p, i, q, j | p in s.promises && q in s.promises && 0 <= i < |s.promises[p].reactions|
          && 0 <= j < |s.promises[q].reactions|
          && s.promises[p].reactions[i].id == s.promises[q].reactions[j].id :: p == q && i == j)
    && (forall p, i, k | p in s.promises && 0 <= i < |s.promises[p].reactions| && 0 <= k < |s.pushed| ::
          s.promises[p].reactions[i].id != s.pushed[k].id)
  }

  /** The unhandled list holds exactly the promises that are rejected and that nothing observes. */
  ghost predicate MarksOk(s: State) {
    forall p | p in s.promises ::
      s.promises[p].listed.Some? <==> s.promises[p].status.Rejected? && !s.promises[p].observed
  }

  ghost predicate FreshOk(s: State) {
    (forall p | p in s.promises :: p < s.next) && forall a | a in s.asyncs :: a < s.next
  }

  /** A coroutine has one outstanding wake reaction while it is suspended, and none otherwise; it runs iff it
      is on the stack, once. */
  ghost predicate AsyncOk(asyncs: map<nat, Async>, out: set<Reaction>, stack: seq<Frame>) {
    && (forall r | r in out && r.async.Some? ::
          r.async.value in asyncs && asyncs[r.async.value].phase == Suspended(r.id))
    && (forall a | a in asyncs && asyncs[a].phase.Suspended? ::
          exists r :: r in out && r.id == asyncs[a].phase.wake && r.async == Some(a))
    && (forall k | 0 <= k < |stack| && stack[k].AsyncFrame? ::
          stack[k].async in asyncs && asyncs[stack[k].async].phase.Running?)
    && (forall k, l | 0 <= k < l < |stack| && stack[k].AsyncFrame? && stack[l].AsyncFrame? ::
          stack[k].async != stack[l].async)
    && (forall a | a in asyncs && asyncs[a].phase.Running? :: AsyncFrame(a) in stack)
  }

  /** Only the end of its body settles the promise of an async call. */
  ghost predicate ResultOk(promises: map<nat, Promise>, asyncs: map<nat, Async>, out: set<Reaction>,
      stack: seq<Frame>) {
    && (forall a | a in asyncs :: asyncs[a].promise in promises)
    && (forall a, b | a in asyncs && b in asyncs && asyncs[a].promise == asyncs[b].promise :: a == b)
    && (forall a | a in asyncs && !asyncs[a].phase.Done? ::
          promises[asyncs[a].promise].status.Pending? && !promises[asyncs[a].promise].resolvable)
    && (forall a, r | a in asyncs && !asyncs[a].phase.Done? && r in out :: r.result != Some(asyncs[a].promise))
    && (forall a, k | a in asyncs && !asyncs[a].phase.Done? && 0 <= k < |stack| && stack[k].HandlerFrame? ::
          stack[k].reaction.result != Some(asyncs[a].promise))
  }

  ghost predicate FramesOk(s: State) {
    forall k | 0 <= k < |s.stack| && s.stack[k].HandlerFrame? ::
      s.stack[k].reaction.result.Some? && s.stack[k].reaction.result.value in s.promises
  }

  ghost predicate Structure(s: State) {
    QueueOk(s) && PlacesOk(s) && IdsOk(s) && FreshOk(s) && FramesOk(s)
  }

  ghost predicate Owners(s: State) {
    AsyncOk(s.asyncs, Outstanding(s), s.stack) && ResultOk(s.promises, s.asyncs, Outstanding(s), s.stack)
  }

  ghost predicate Inv(s: State) {
    ListOk(s) && MarksOk(s) && Structure(s) && Owners(s)
  }

  /** `p` is not the promise of an unfinished async call. */
  ghost predicate Free(s: State, p: nat) {
    forall a | a in s.asyncs && !s.asyncs[a].phase.Done? :: s.asyncs[a].promise != p
  }

  lemma {:induction false} WaitingSame(ps0: map<nat, Promise>, ps1: map<nat, Promise>)
    requires forall p | p in ps0 :: p in ps1 && ps1[p].reactions == ps0[p].reactions
    requires forall p | p in ps1 && p !in ps0 :: ps1[p].reactions == []
    ensures Waiting(ps1) == Waiting(ps0)
  {
    forall r ensures r in Waiting(ps1) <==> r in Waiting(ps0) {
      if r in Waiting(ps1) {
        var p, i :| p in ps1 && 0 <= i < |ps1[p].reactions| && ps1[p].reactions[i] == r;
        assert p in ps0 && ps0[p].reactions[i] == r;
      }
      if r in Waiting(ps0) {
        var p, i :| p in ps0 && 0 <= i < |ps0[p].reactions| && ps0[p].reactions[i] == r;
        assert p in ps1 && ps1[p].reactions[i] == r;
      }
    }
  }

  lemma {:induction false} WaitingAppend(ps: map<nat, Promise>, p: nat, r: Reaction)
    requires p in ps
    ensures Waiting(ps[p := ps[p].(reactions := ps[p].reactions + [r])]) == Waiting(ps) + {r}
  {
    var ps1 := ps[p := ps[p].(reactions := ps[p].reactions + [r])];
    forall x ensures x in Waiting(ps1) <==> x in Waiting(ps) || x == r {
      if x in Waiting(ps1) {
        var q, i :| q in ps1 && 0 <= i < |ps1[q].reactions| && ps1[q].reactions[i] == x;
        if q != p || i < |ps[p].reactions| { assert ps[q].reactions[i] == x; }
      }
      if x in Waiting(ps) {
        var q, i :| q in ps && 0 <= i < |ps[q].reactions| && ps[q].reactions[i] == x;
        assert ps1[q].reactions[i] == x;
      }
      assert ps1[p].reactions[|ps[p].reactions|] == r;
    }
  }

  lemma {:induction false} NoneMade(s: State, p: nat, status: Status, value: Value)
    requires p in s.promises && s.head <= |s.queue|
    ensures Outstanding(SettleCore(s, p, status, value)) <= Outstanding(s)
  {
    var t := SettleCore(s, p, status, value);
    forall r | r in Waiting(t.promises) ensures r in Outstanding(s) {
      var q, i :| q in t.promises && 0 <= i < |t.promises[q].reactions| && t.promises[q].reactions[i] == r;
      assert q in s.promises && s.promises[q].reactions[i] == r;
    }
    forall r | r in Queued(t.queue, t.head) ensures r in Outstanding(s) {
      var j :| t.head <= j < |t.queue| && t.queue[j] == r;
      if j < |s.queue| { assert s.queue[j] == r; } else { assert s.promises[p].reactions[j - |s.queue|] == r; }
    }
  }

  lemma {:induction false} NoneLost(s: State, p: nat, status: Status, value: Value)
    requires p in s.promises && s.head <= |s.queue|
    ensures Outstanding(s) <= Outstanding(SettleCore(s, p, status, value))
  {
    var t := SettleCore(s, p, status, value);
    forall r | r in Waiting(s.promises) ensures r in Outstanding(t) {
      var q, i :| q in s.promises && 0 <= i < |s.promises[q].reactions| && s.promises[q].reactions[i] == r;
      if q == p { assert t.queue[|s.queue| + i] == r; } else { assert t.promises[q].reactions[i] == r; }
    }
    forall r | r in Queued(s.queue, s.head) ensures r in Outstanding(t) {
      var j :| s.head <= j < |s.queue| && s.queue[j] == r;
      assert t.queue[j] == r;
    }
  }

  /** Settling moves reactions from a promise to the queue; none is lost and none is made. */
  lemma {:induction false} OutstandingSettled(s: State, p: nat, status: Status, value: Value)
    requires p in s.promises && s.head <= |s.queue|
    ensures Outstanding(SettleCore(s, p, status, value)) == Outstanding(s)
  {
    hide Outstanding, SettleCore;
    NoneMade(s, p, status, value);
    NoneLost(s, p, status, value);
  }

  lemma {:induction false} StillKnown(s: State, t: State, r: Reaction)
    requires KnownReaction(s, r) && s.next <= t.next
    requires forall p | p in s.promises :: p in t.promises
    requires forall a | a in s.asyncs :: a in t.asyncs
    ensures KnownReaction(t, r)
  {
  }

  /** The places are right if every reaction is where it was. */
  lemma {:induction false} PlacesStay(s: State, t: State)
    requires PlacesOk(s) && s.next <= t.next && t.queue == s.queue && t.head == s.head
    requires forall a | a in s.asyncs :: a in t.asyncs
    requires forall p | p in s.promises ::
               p in t.promises && t.promises[p].reactions == s.promises[p].reactions
                 && t.promises[p].status == s.promises[p].status
    requires forall p | p in t.promises && p !in s.promises :: t.promises[p].reactions == []
    ensures PlacesOk(t)
  {
    hide KnownReaction, Queued;
    forall p, i | p in t.promises && 0 <= i < |t.promises[p].reactions|
      ensures t.promises[p].reactions[i].promise == p && KnownReaction(t, t.promises[p].reactions[i])
    {
      assert p in s.promises && KnownReaction(s, s.promises[p].reactions[i]);
      StillKnown(s, t, s.promises[p].reactions[i]);
    }
    forall r | r in Queued(t.queue, t.head)
      ensures KnownReaction(t, r) && r.promise in t.promises && !t.promises[r.promise].status.Pending?
    {
      assert r in Queued(s.queue, s.head) && KnownReaction(s, r);
      StillKnown(s, t, r);
      Subject(s, r);
    }
  }

  lemma {:induction false} Subject(s: State, r: Reaction)
    requires KnownReaction(s, r)
    ensures r.promise in s.promises
  {
  }

  lemma {:induction false} IdsStay(s: State, t: State)
    requires IdsOk(s) && s.next <= t.next && t.pushed == s.pushed
    requires forall p | p in s.promises :: p in t.promises && t.promises[p].reactions == s.promises[p].reactions
    requires forall p | p in t.promises && p !in s.promises :: t.promises[p].reactions == []
    ensures IdsOk(t)
  {
  }

  lemma {:induction false} MarksKeepStructure(s: State, t: State)
    requires Structure(s) && SameButMarks(s, t)
    ensures Structure(t)
  {
    hide PlacesOk, IdsOk;
    PlacesStay(s, t);
    IdsStay(s, t);
  }

  lemma {:induction false} MarksKeepOwners(s: State, t: State)
    requires Owners(s) && SameButMarks(s, t)
    ensures Owners(t) && Outstanding(t) == Outstanding(s)
  {
    hide AsyncOk;
    WaitingSame(s.promises, t.promises);
  }

  lemma {:induction false} ObserveKeeps(s: State, p: nat)
    requires Inv(s) && p in s.promises
    ensures Inv(Observe(s, p)) && SameButMarks(s, Observe(s, p)) && Observe(s, p).promises[p].observed
  {
    hide Structure, Owners, ListOk, UnhandledRemove;
    RemoveKeepsList(Observed(s, p), p);
    MarksKeepStructure(s, Observe(s, p));
    MarksKeepOwners(s, Observe(s, p));
  }

  lemma {:induction false} AddKeepsList(s: State, p: nat)
    requires ListOk(s) && p in s.promises
    ensures ListOk(UnhandledAdd(s, p)) && SameButMarks(s, UnhandledAdd(s, p))
    ensures forall q | q in s.promises :: UnhandledAdd(s, p).promises[q].observed == s.promises[q].observed &&
              (UnhandledAdd(s, p).promises[q].listed.Some? <==>
                s.promises[q].listed.Some? || (q == p && !s.promises[p].observed))
  {
  }

  // ----- new promises

  lemma {:induction false} NewStructure(s: State, promise: Promise)
    requires Structure(s) && promise.reactions == []
    ensures Structure(WithNew(s, promise)) && s.next !in s.promises
  {
    hide PlacesOk, IdsOk;
    PlacesStay(s, WithNew(s, promise));
    IdsStay(s, WithNew(s, promise));
  }

  lemma {:induction false} NewOwners(s: State, promise: Promise)
    requires Owners(s) && FreshOk(s) && promise.reactions == []
    ensures Owners(WithNew(s, promise)) && Outstanding(WithNew(s, promise)) == Outstanding(s)
    ensures Free(WithNew(s, promise), s.next)
  {
    hide AsyncOk;
    assert s.next !in s.promises;
    WaitingSame(s.promises, WithNew(s, promise).promises);
  }

  lemma {:induction false} NewKeeps(s: State, promise: Promise)
    requires Inv(s) && promise.reactions == [] && promise.listed == None
    requires promise.status.Rejected? ==> promise.observed
    ensures Inv(WithNew(s, promise)) && Outstanding(WithNew(s, promise)) == Outstanding(s) && s.next !in s.promises
    ensures Free(WithNew(s, promise), s.next) && forall p | Free(s, p) :: Free(WithNew(s, promise), p)
  {
    hide Owners, QueueOk, PlacesOk, IdsOk, FramesOk;
    NewStructure(s, promise);
    NewOwners(s, promise);
  }

  // ----- settling

  lemma {:induction false} SettleIds(s: State, p: nat, status: Status, value: Value)
    requires IdsOk(s) && PlacesOk(s) && p in s.promises
    ensures IdsOk(SettleCore(s, p, status, value))
  {
    var t := SettleCore(s, p, status, value);
    var n, moved := |s.pushed|, s.promises[p].reactions;
    forall k | 0 <= k < |t.pushed| ensures t.pushed[k].id < t.next {
      if k >= n { assert KnownReaction(s, moved[k - n]); }
    }
    forall k, l | 0 <= k < l < |t.pushed| ensures t.pushed[k].id != t.pushed[l].id {
      if l >= n {
        assert t.pushed[l] == moved[l - n];
        if k >= n { assert t.pushed[k] == moved[k - n]; }
      }
    }
    forall q, i, k | q in t.promises && 0 <= i < |t.promises[q].reactions| && 0 <= k < |t.pushed|
      ensures t.promises[q].reactions[i].id != t.pushed[k].id
    {
      if k >= n { assert t.pushed[k] == moved[k - n]; }
    }
  }

  /** Appending to the queue. */
  lemma {:induction false} QueueGrows(queue: seq<Reaction>, head: nat, more: seq<Reaction>)
    requires head <= |queue|
    ensures (queue + more)[head..] == queue[head..] + more
    ensures forall r | r in Queued(queue + more, head) ::
              r in Queued(queue, head) || exists i :: 0 <= i < |more| && more[i] == r
  {
    forall r | r in Queued(queue + more, head)
      ensures r in Queued(queue, head) || exists i :: 0 <= i < |more| && more[i] == r
    {
      var j :| head <= j < |queue + more| && (queue + more)[j] == r;
      if j < |queue| { assert queue[j] == r; } else { assert more[j - |queue|] == r; }
    }
  }

  lemma {:induction false} SettledPlaces(s: State, p: nat, status: Status, value: Value)
    requires PlacesOk(s) && s.head <= |s.queue| && p in s.promises && !status.Pending?
    ensures PlacesOk(SettleCore(s, p, status, value))
  {
    hide KnownReaction, Queued;
    var t, moved := SettleCore(s, p, status, value), s.promises[p].reactions;
    QueueGrows(s.queue, s.head, moved);
    forall q, i | q in t.promises && 0 <= i < |t.promises[q].reactions|
      ensures t.promises[q].reactions[i].promise == q && KnownReaction(t, t.promises[q].reactions[i])
    {
      assert q in s.promises && KnownReaction(s, s.promises[q].reactions[i]);
      StillKnown(s, t, s.promises[q].reactions[i]);
    }
    forall r | r in Queued(t.queue, t.head)
      ensures KnownReaction(t, r) && r.promise in t.promises && !t.promises[r.promise].status.Pending?
    {
      if r !in Queued(s.queue, s.head) {
        var i :| 0 <= i < |moved| && moved[i] == r;
        assert KnownReaction(s, s.promises[p].reactions[i]);
      }
      StillKnown(s, t, r);
      Subject(s, r);
    }
  }

  lemma {:induction false} SettlePlaces(s: State, p: nat, status: Status, value: Value)
    requires Structure(s) && p in s.promises && !status.Pending?
    ensures Structure(SettleCore(s, p, status, value))
  {
    hide IdsOk, PlacesOk;
    SettleIds(s, p, status, value);
    SettledPlaces(s, p, status, value);
    QueueGrows(s.queue, s.head, s.promises[p].reactions);
  }

  lemma {:induction false} SettleOwners(s: State, p: nat, status: Status, value: Value)
    requires Owners(s) && Free(s, p) && p in s.promises && s.head <= |s.queue|
    ensures Owners(SettleCore(s, p, status, value))
  {
    hide AsyncOk, Outstanding;
    OutstandingSettled(s, p, status, value);
  }

  /** The list after settling: a promise that is rejected with nobody listening joins it. */
  lemma {:induction false} SettleMarks(s: State, p: nat, status: Status, value: Value)
    requires ListOk(s) && MarksOk(s) && p in s.promises && s.promises[p].status.Pending? && !status.Pending?
    ensures p in SettleCore(s, p, status, value).promises
    ensures var t := SettleCore(s, p, status, value);
      var u := if status.Rejected? then UnhandledAdd(t, p) else t;
      Settle(s, p, status, value) == u && SameButMarks(t, u) && ListOk(u) && MarksOk(u)
  {
    var t := SettleCore(s, p, status, value);
    assert ListOk(t);
    if status.Rejected? { AddKeepsList(t, p); }
  }

  lemma {:induction false} SettleKeeps(s: State, p: nat, status: Status, value: Value)
    requires Inv(s) && p in s.promises && Free(s, p) && !status.Pending?
    ensures Inv(Settle(s, p, status, value)) && Outstanding(Settle(s, p, status, value)) == Outstanding(s)
  {
    hide Owners, ListOk, MarksOk, QueueOk, PlacesOk, IdsOk, FreshOk, FramesOk, Outstanding, SettleCore, UnhandledAdd;
    hide SameButMarks;
    if s.promises[p].status.Pending? {
      var t := SettleCore(s, p, status, value);
      HeadInQueue(s);
      SettleMarks(s, p, status, value);
      SettlePlaces(s, p, status, value);
      SettleOwners(s, p, status, value);
      OutstandingSettled(s, p, status, value);
      MarksKeepStructure(t, Settle(s, p, status, value));
      MarksKeepOwners(t, Settle(s, p, status, value));
    }
  }

  lemma {:induction false} HeadInQueue(s: State)
    requires Structure(s)
    ensures s.head <= |s.queue|
  {
  }

  // ----- registering reactions

  /** A reaction that may be registered now. */
  ghost predicate NewReaction(s: State, r: Reaction) {
    && r.id == s.next && r.promise in s.promises
    && r.async.None? && r.result.Some? && r.result.value in s.promises && Free(s, r.result.value)
  }

  lemma {:induction false} AppendPlaces(s: State, r: Reaction)
    requires Structure(s) && r.id == s.next && r.promise in s.promises && s.promises[r.promise].status.Pending?
    requires KnownReaction(s.(next := s.next + 1), r)
    ensures Structure(Append(s, r))
  {
    var t := Append(s, r);
    forall p, i | p in t.promises && 0 <= i < |t.promises[p].reactions|
      ensures t.promises[p].reactions[i].promise == p && KnownReaction(t, t.promises[p].reactions[i])
    {
      if p != r.promise || i < |s.promises[p].reactions| { assert KnownReaction(s, s.promises[p].reactions[i]); }
    }
    AppendIds(s, r);
  }

  lemma {:induction false} AppendIds(s: State, r: Reaction)
    requires IdsOk(s) && PlacesOk(s) && r.id == s.next && r.promise in s.promises
    ensures IdsOk(Append(s, r))
  {
    var t := Append(s, r);
    forall p, i | p in t.promises && 0 <= i < |t.promises[p].reactions|
      ensures var before, x := s.promises[p].reactions, t.promises[p].reactions[i];
        if p == r.promise && i == |before| then x == r else i < |before| && x == before[i] && x.id < s.next
    {
      if p != r.promise || i < |s.promises[p].reactions| { assert KnownReaction(s, s.promises[p].reactions[i]); }
    }
  }

  lemma {:induction false} PushIds(s: State, r: Reaction)
    requires IdsOk(s) && PlacesOk(s) && r.id == s.next
    ensures IdsOk(Push(s, r))
  {
    forall p, i | p in s.promises && 0 <= i < |s.promises[p].reactions| ensures s.promises[p].reactions[i].id < s.next {
      assert KnownReaction(s, s.promises[p].reactions[i]);
    }
  }

  lemma {:induction false} PushedPlaces(s: State, r: Reaction)
    requires PlacesOk(s) && s.head <= |s.queue| && r.promise in s.promises && !s.promises[r.promise].status.Pending?
    requires KnownReaction(s.(next := s.next + 1), r)
    ensures PlacesOk(Push(s, r))
  {
    hide KnownReaction, Queued;
    var t, n := Push(s, r), s.(next := s.next + 1);
    QueueGrows(s.queue, s.head, [r]);
    PlacesStay(s, n);
    forall p, i | p in t.promises && 0 <= i < |t.promises[p].reactions|
      ensures t.promises[p].reactions[i].promise == p && KnownReaction(t, t.promises[p].reactions[i])
    {
      assert KnownReaction(n, n.promises[p].reactions[i]);
      StillKnown(n, t, n.promises[p].reactions[i]);
    }
    forall x | x in Queued(t.queue, t.head)
      ensures KnownReaction(t, x) && x.promise in t.promises && !t.promises[x.promise].status.Pending?
    {
      if x !in Queued(s.queue, s.head) { assert x == r; }
      StillKnown(n, t, x);
      Subject(n, x);
    }
  }

  lemma {:induction false} PushPlaces(s: State, r: Reaction)
    requires Structure(s) && r.id == s.next && r.promise in s.promises && !s.promises[r.promise].status.Pending?
    requires KnownReaction(s.(next := s.next + 1), r)
    ensures Structure(Push(s, r))
  {
    hide IdsOk, PlacesOk;
    PushIds(s, r);
    PushedPlaces(s, r);
    QueueGrows(s.queue, s.head, [r]);
  }

  lemma {:induction false} OutstandingAppended(s: State, r: Reaction)
    requires r.promise in s.promises
    ensures Outstanding(Append(s, r)) == Outstanding(s) + {r}
  {
    WaitingAppend(s.promises, r.promise, r);
  }

  lemma {:induction false} OutstandingPushed(s: State, r: Reaction)
    requires s.head <= |s.queue|
    ensures Outstanding(Push(s, r)) == Outstanding(s) + {r}
  {
    var t := Push(s, r);
    assert t.queue[|s.queue|] == r;
    forall j | s.head <= j < |s.queue| ensures t.queue[j] == s.queue[j] { }
    forall x | x in Queued(t.queue, t.head) ensures x in Queued(s.queue, s.head) || x == r {
      var j :| t.head <= j < |t.queue| && t.queue[j] == x;
    }
  }

  /** A reaction with a free result promise concerns no coroutine. */
  lemma {:induction false} OneMoreResult(s: State, promises: map<nat, Promise>, r: Reaction)
    requires Owners(s) && r.async.None? && r.result.Some? && Free(s, r.result.value)
    requires promises.Keys == s.promises.Keys
    requires forall p | p in s.promises ::
               promises[p].status == s.promises[p].status && promises[p].resolvable == s.promises[p].resolvable
    ensures AsyncOk(s.asyncs, Outstanding(s) + {r}, s.stack)
    ensures ResultOk(promises, s.asyncs, Outstanding(s) + {r}, s.stack)
  {
  }

  lemma {:induction false} AppendKeeps(s: State, r: Reaction)
    requires Inv(s) && NewReaction(s, r) && s.promises[r.promise].status.Pending?
    ensures Inv(Append(s, r)) && Outstanding(Append(s, r)) == Outstanding(s) + {r}
  {
    hide QueueOk, PlacesOk, IdsOk, FreshOk, FramesOk, AsyncOk, ResultOk, Outstanding;
    AppendPlaces(s, r);
    OutstandingAppended(s, r);
    OneMoreResult(s, Append(s, r).promises, r);
  }

  lemma {:induction false} PushKeeps(s: State, r: Reaction)
    requires Inv(s) && NewReaction(s, r) && !s.promises[r.promise].status.Pending?
    ensures Inv(Push(s, r)) && Outstanding(Push(s, r)) == Outstanding(s) + {r}
  {
    hide PlacesOk, IdsOk, FreshOk, FramesOk, AsyncOk, ResultOk, Outstanding;
    PushPlaces(s, r);
    OutstandingPushed(s, r);
    OneMoreResult(s, s.promises, r);
  }

  // ----- operations of the program

  lemma {:induction false} ResolveKeeps(s: State, p: nat, value: Value)
    requires Inv(s) && p in s.promises && Known(s, value) && Free(s, p)
    ensures Inv(ResolveInto(s, p, value))
  {
    hide Structure, Owners, MarksOk, ListOk, Settle, Append, Observe;
    match value
    case Plain(_) => SettleKeeps(s, p, Fulfilled, value);
    case PromiseRef(other) =>
      ObserveKeeps(s, other);
      var t := Observe(s, other);
      assert Free(t, p);
      if t.promises[other].status.Pending? {
        AppendKeeps(t, Reaction(t.next, other, NoFunction, NoFunction, Some(p), None));
      } else {
        SettleKeeps(t, p, t.promises[other].status, t.promises[other].value);
      }
  }

  lemma {:induction false} ThenKeeps(s: State, p: nat, f: Handler, g: Handler)
    requires Inv(s) && p in s.promises
    ensures Inv(Then(s, p, f, g))
  {
    hide Structure, Owners, MarksOk, ListOk, Append, Observe, Push;
    ObserveKeeps(s, p);
    var o := Observe(s, p);
    NewKeeps(o, Promise(Pending, Plain(0), [], false, None, false));
    var t := NewPromise(o, false);
    var r := Reaction(t.next, p, f, g, Some(s.next), None);
    if t.promises[p].status.Pending? { AppendKeeps(t, r); } else { PushKeeps(t, r); }
  }
}
