/** The pool's data: two singly linked queues and a doubly linked registry, threaded through the job blocks. */
module WorkerQueues {
  import opened Collections
  import opened WorkerPool

  const WORKERS := 4

  class Job {
    const runnable: bool  // it has work to do
    var next: Job?
    var livePrev: Job?
    var liveNext: Job?
    var released: bool

    constructor (runnable: bool)
      ensures this.runnable == runnable && !released && next == null && livePrev == null && liveNext == null
    {
      this.runnable, next, livePrev, liveNext, released := runnable, null, null, null, false;
    }
  }

  ghost function At(jobs: seq<Job>, i: int): Job? {
    if 0 <= i < |jobs| then jobs[i] else null
  }

  ghost predicate AllDistinct(jobs: seq<Job>) {
    forall i, j | 0 <= i < j < |jobs| :: jobs[i] != jobs[j]
  }

  /** From `head` to `tail` the links run through `jobs`. */
  ghost predicate Linked(head: Job?, tail: Job?, jobs: seq<Job>)
    reads jobs`next
  {
    && AllDistinct(jobs)
    && (if jobs == [] then head == null && tail == null else head == jobs[0] && tail == jobs[|jobs| - 1])
    && forall i | 0 <= i < |jobs| :: jobs[i].next == At(jobs, i + 1)
  }

  ghost predicate DoublyLinked(head: Job?, jobs: seq<Job>)
    reads jobs`livePrev
    reads jobs`liveNext
  {
    && AllDistinct(jobs)
    && head == (if jobs == [] then null else jobs[0])
    && (forall i | 0 <= i < |jobs| :: jobs[i].livePrev == At(jobs, i - 1))
    && (forall i | 0 <= i < |jobs| :: jobs[i].liveNext == At(jobs, i + 1))
  }

  class Queues {
    var workHead: Job?
    var workTail: Job?
    var doneHead: Job?
    var doneTail: Job?
    var liveHead: Job?
    var pending: int
    var started: bool
    var workers: nat
    ghost var work: seq<Job>
    ghost var done: seq<Job>
    ghost var live: seq<Job>

    ghost function View(): Pool<Job>
      reads `work, `done, `live, `pending
    {
      Pool(work, done, live, pending)
    }

    ghost predicate Apart()
      reads `work, `done
    {
      forall i, j | 0 <= i < |work| && 0 <= j < |done| :: work[i] != done[j]
    }

    ghost predicate Valid()
      reads `workHead, `workTail, `doneHead, `doneTail, `liveHead, `work, `done, `live
      reads work`next
      reads done`next
      reads live`livePrev
      reads live`liveNext
    {
      Linked(workHead, workTail, work) && Linked(doneHead, doneTail, done) && DoublyLinked(liveHead, live) && Apart()
    }

    constructor ()
      ensures Valid() && View() == Pool([], [], [], 0) && !started && workers == 0
    {
      workHead, workTail, doneHead, doneTail, liveHead, pending := null, null, null, null, null, 0;
      started, workers := false, 0;
      work, done, live := [], [], [];
    }

    /** Both queues are appended to in the same way. */
    static method LinkLast(head: Job?, tail: Job?, job: Job, ghost jobs: seq<Job>) returns (first: Job?)
      requires Linked(head, tail, jobs) && job !in jobs
      modifies job`next, jobs`next
      ensures Linked(first, job, jobs + [job])
    {
      job.next := null;
      first := head;
      if tail != null { tail.next := job; } else { first := job; }
    }

    /** Without its first job a queue begins where that one's link leads. */
    static lemma {:induction false} FirstLink(head: Job?, tail: Job?, jobs: seq<Job>)
      requires Linked(head, tail, jobs)
      ensures head == At(jobs, 0)
      ensures jobs != [] ==> Linked(jobs[0].next, if jobs[0].next == null then null else tail, jobs[1..])
    {
      if jobs != [] {
        assert jobs[0].next == At(jobs, 1);
        assert forall i | 0 <= i < |jobs[1..]| :: jobs[1..][i] == jobs[i + 1];
      }
    }

    method PushWork(job: Job)
      requires Valid() && job !in work && job !in done
      modifies `workHead, `workTail, `work, job`next, work`next
      ensures Valid() && View() == WorkerPool.PushWork(old(View()), job)
    {
      hide DoublyLinked, Linked;
      workHead := LinkLast(workHead, workTail, job, work);
      workTail := job;
      work := work + [job];
    }

    method PopWork() returns (job: Job?)
      requires Valid()
      modifies `workHead, `workTail, `work
      ensures Valid() && View() == WorkerPool.PopWork(old(View()))
      ensures job == if old(work) == [] then null else old(work)[0]
    {
      hide DoublyLinked, Linked;
      FirstLink(workHead, workTail, work);
      job := workHead;
      if job == null { return; }
      workHead := job.next;
      if workHead == null { workTail := null; }
      work := work[1..];
    }

    method PushDone(job: Job)
      requires Valid() && job !in work && job !in done
      modifies `doneHead, `doneTail, `done, job`next, done`next
      ensures Valid() && View() == WorkerPool.PushDone(old(View()), job)
    {
      hide DoublyLinked, Linked;
      doneHead := LinkLast(doneHead, doneTail, job, done);
      doneTail := job;
      done := done + [job];
    }

    method PopDone() returns (job: Job?)
      requires Valid()
      modifies `doneHead, `doneTail, `done
      ensures Valid() && View() == WorkerPool.PopDone(old(View()))
      ensures job == if old(done) == [] then null else old(done)[0]
    {
      hide DoublyLinked, Linked;
      FirstLink(doneHead, doneTail, done);
      job := doneHead;
      if job == null { return; }
      doneHead := job.next;
      if doneHead == null { doneTail := null; }
      done := done[1..];
    }

    method LiveAdd(job: Job)
      requires Valid() && job !in live
      modifies `liveHead, `live, `pending, job`livePrev, job`liveNext, live`livePrev
      ensures Valid() && View() == WorkerPool.LiveAdd(old(View()), job)
    {
      hide Linked, Apart, DoublyLinked;
      LinkFirst(job);
      live := [job] + live;
      pending := pending + 1;
    }

    method LinkFirst(job: Job)
      requires DoublyLinked(liveHead, live) && job !in live
      modifies `liveHead, job`livePrev, job`liveNext, live`livePrev
      ensures DoublyLinked(liveHead, [job] + live)
    {
      job.livePrev := null;
      job.liveNext := liveHead;
      if liveHead != null { liveHead.livePrev := job; }
      liveHead := job;
      assert forall i | 0 < i <= |live| :: ([job] + live)[i] == live[i - 1];
    }

    method LiveRemove(job: Job)
      requires Valid() && job in live
      modifies `liveHead, `live, `pending, live`livePrev, live`liveNext
      ensures Valid() && View() == WorkerPool.LiveRemove(old(View()), job)
    {
      hide Linked, Apart, WorkerPool.Without, Spliced, At;
      ghost var i := PositionOf(live, job);
      ghost var rest := live[..i] + live[i + 1..];
      Unlink(job, i);
      WithoutAt(live, i);
      SplicedLinks(live, i, rest);
      live := rest;
      pending := pending - 1;
    }

    /** Creates the workers once; the system can create `creatable` threads. */
    method StartWorkers(creatable: nat)
      modifies `started, `workers
      ensures started
      ensures old(started) ==> workers == old(workers)
      ensures !old(started) ==> workers == old(workers) + if creatable < WORKERS then creatable else WORKERS
    {
      if started { return; }
      started := true;
      for i := 0 to WORKERS
        invariant started && workers == old(workers) + i && i <= creatable
      {
        if i >= creatable { break; }
        workers := workers + 1;
      }
    }

    /** A job without work to do is released at once. Another one is registered, and queued if there are workers,
        which the first job starts; without them it is complete already. */
    method Submit(job: Job?, creatable: nat)
      requires Valid() && (job != null ==> job !in work && job !in done && job !in live && !job.released)
      modifies this, if job == null then {} else {job}, work`next, done`next, live`livePrev
      ensures Valid() && (job != null ==> job.released == !job.runnable)
      ensures job == null || !job.runnable ==>
        View() == old(View()) && started == old(started) && workers == old(workers)
      ensures job != null && job.runnable ==>
        && started && (old(started) ==> workers == old(workers))
        && (!old(started) ==> workers == old(workers) + if creatable < WORKERS then creatable else WORKERS)
        && View() == if workers > 0 then WorkerPool.PushWork(WorkerPool.LiveAdd(old(View()), job), job)
                     else WorkerPool.PushDone(WorkerPool.LiveAdd(old(View()), job), job)
    {
      hide Valid;
      if job == null { return; }
      if !job.runnable {
        job.released := true;
        return;
      }
      LiveAdd(job);
      StartWorkers(creatable);
      if workers > 0 { PushWork(job); } else { PushDone(job); }
    }

    /** The collector's walk over the registry reaches every live job once. */
    method ScanRoots() returns (marked: seq<Job>)
      requires Valid()
      ensures marked == live
    {
      hide Linked, Apart;
      marked := [];
      var job := liveHead;
      ghost var i := 0;
      while job != null
        invariant 0 <= i <= |live| && job == At(live, i) && marked == live[..i]
        decreases |live| - i
      {
        assert live[i].liveNext == At(live, i + 1);
        marked := marked + [job];
        job := job.liveNext;
        i := i + 1;
      }
    }

    method Unlink(job: Job, ghost i: nat)
      requires DoublyLinked(liveHead, live) && i < |live| && live[i] == job
      modifies `liveHead, live`livePrev, live`liveNext
      ensures Spliced(live, i, live[..i] + live[i + 1..]) && liveHead == At(live[..i] + live[i + 1..], 0)
    {
      assert live[i].livePrev == At(live, i as int - 1) && live[i].liveNext == At(live, i + 1);
      assert job.livePrev != null ==> job.livePrev == live[i - 1];
      assert job.liveNext != null ==> job.liveNext == live[i + 1];
      if job.livePrev != null { job.livePrev.liveNext := job.liveNext; } else { liveHead := job.liveNext; }
      if job.liveNext != null { job.liveNext.livePrev := job.livePrev; }
      job.liveNext := null;
      job.livePrev := null;
    }
  }

  /** The neighbours of the removed job are linked to each other; the other links are as they were. */
  ghost predicate Spliced(jobs: seq<Job>, i: nat, rest: seq<Job>)
    reads jobs`livePrev, jobs`liveNext
  {
    && i < |jobs| && AllDistinct(jobs) && rest == jobs[..i] + jobs[i + 1..]
    && (forall k | 0 <= k < |jobs| && k != i && k != i + 1 :: jobs[k].livePrev == At(jobs, k - 1))
    && (forall k | 0 <= k < |jobs| && k != i && k != i - 1 :: jobs[k].liveNext == At(jobs, k + 1))
    && (i + 1 < |jobs| ==> jobs[i + 1].livePrev == At(jobs, i - 1))
    && (i > 0 ==> jobs[i - 1].liveNext == At(jobs, i + 1))
  }

  lemma {:induction false} SplicedAt(jobs: seq<Job>, i: nat, k: nat)
    requires i < |jobs|
    ensures At(jobs[..i] + jobs[i + 1..], k) == if k < i then At(jobs, k) else At(jobs, k + 1)
  {
  }

  lemma {:induction false} SplicedLinks(jobs: seq<Job>, i: nat, rest: seq<Job>)
    requires Spliced(jobs, i, rest)
    ensures DoublyLinked(At(rest, 0), rest)
  {
    hide At;
    forall k | 0 <= k < |rest| ensures rest[k].livePrev == At(rest, k - 1) && rest[k].liveNext == At(rest, k + 1) {
      var m := if k < i then k else k + 1;
      assert rest[k] == jobs[m];
      AtEnds(jobs);
      AtEnds(rest);
      SplicedAt(jobs, i, k + 1);
      if k > 0 { SplicedAt(jobs, i, k - 1); }
    }
    AtEnds(rest);
    assert AllDistinct(rest);
  }

  lemma {:induction false} AtEnds(jobs: seq<Job>)
    ensures At(jobs, -1) == null && At(jobs, 0) == if jobs == [] then null else jobs[0]
  {
  }

  lemma {:induction false} WithoutAt(jobs: seq<Job>, i: nat)
    requires AllDistinct(jobs) && i < |jobs|
    ensures Without(jobs, jobs[i]) == jobs[..i] + jobs[i + 1..]
  {
    if i > 0 {
      assert jobs[0] != jobs[i];
      WithoutAt(jobs[1..], i - 1);
      assert jobs[1..][..i - 1] == jobs[1..i];
      assert jobs[..i] == [jobs[0]] + jobs[1..i];
    }
  }
}
