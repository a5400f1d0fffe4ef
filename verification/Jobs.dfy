/** The job queue of internal/jobs/jobs.go: claiming by priority, linear backoff, and the limit on attempts. */
module Jobs {
  import opened Clock
  import opened Wrappers

  datatype Status = Pending | Running | Completed | Failed

  datatype Job = Job(
    jobType: string,
    status: Status,
    priority: int,
    attempts: int,
    maxAttempts: int,
    scheduledAt: int,
    startedAt: Option<int>,
    completedAt: Option<int>)

  type Table = map<nat, Job>

  // ----- What the statements select and write -----

  predicate Due(jobs: Table, id: nat, now: int) {
    id in jobs && jobs[id].status == Pending && jobs[id].scheduledAt <= now
  }

  predicate Before(a: Job, b: Job) {
    a.priority > b.priority || (a.priority == b.priority && a.scheduledAt <= b.scheduledAt)
  }

  /** A row the claiming statement may pick: due, and first by priority, then by schedule. */
  predicate NextToRun(jobs: Table, id: nat, now: int) {
    Due(jobs, id, now) && forall k :: k in jobs && Due(jobs, k, now) ==> Before(jobs[id], jobs[k])
  }

  predicate IsRunning(jobs: Table, id: nat) {
    id in jobs && jobs[id].status == Running
  }

  /** NULL sorts below every time. */
  predicate StartedNoLater(a: Option<int>, b: Option<int>) {
    a.None? || (b.Some? && a.value <= b.value)
  }

  /** A row the fetching statement may return: running, with no running row started later. */
  predicate LatestRunning(jobs: Table, id: nat) {
    IsRunning(jobs, id) && forall k :: k in jobs && IsRunning(jobs, k) ==> StartedNoLater(jobs[k].startedAt, jobs[id].startedAt)
  }

  function Claim(jobs: Table, id: nat, now: int): Table
    requires id in jobs
  {
    jobs[id := jobs[id].(status := Running, startedAt := Some(now))]
  }

  /** The row of a job whose worker holds the copy `held` and whose run has failed. */
  function FailedRow(row: Job, held: Job, nanos: int, retryDelay: int): Job {
    if held.attempts < held.maxAttempts then
      row.(status := Pending, scheduledAt := Unix(nanos + retryDelay * held.attempts))
    else
      row.(status := Failed, completedAt := Some(Unix(nanos)))
  }

  function CompletedRow(row: Job, nanos: int): Job {
    row.(status := Completed, completedAt := Some(Unix(nanos)))
  }

  /**
   * The row once `processJob` is done with it, given the outcome of the registered handler, if there is one: the attempt
   * is counted when the handler starts, so not at all without a handler.
   */
  function Processed(row: Job, held: Job, handler: Option<bool>, nanos: int, retryDelay: int): Job {
    match handler
    case None => FailedRow(row, held, nanos, retryDelay)
    case Some(ok) =>
      var counted := row.(attempts := held.attempts + 1);
      if ok then CompletedRow(counted, nanos)
      else FailedRow(counted, held.(attempts := held.attempts + 1), nanos, retryDelay)
  }

  function RetriedRow(row: Job, nanos: int): Job {
    row.(status := Pending, attempts := 0, scheduledAt := Unix(nanos), startedAt := None, completedAt := None)
  }

  predicate Expired(row: Job, cutoff: int) {
    (row.status == Completed || row.status == Failed) && row.completedAt.Some? && row.completedAt.value < cutoff
  }

  // ----- The two statements of fetchJob -----

  lemma {:induction false} SomethingIsNext(jobs: Table, ids: set<nat>, now: int) returns (best: nat)
    requires ids != {} && forall k :: k in ids ==> Due(jobs, k, now)
    ensures best in ids && best in jobs && forall k :: k in ids ==> k in jobs && Before(jobs[best], jobs[k])
    decreases |ids|
  {
    var k :| k in ids;
    best := k;
    if ids != {k} {
      var other := SomethingIsNext(jobs, ids - {k}, now);
      if !Before(jobs[k], jobs[other]) {
        best := other;
      }
      assert forall j :: j in ids ==> j == k || j in ids - {k};
    }
  }

  lemma {:induction false} SomethingIsLatest(jobs: Table, ids: set<nat>) returns (best: nat)
    requires ids != {} && forall k :: k in ids ==> IsRunning(jobs, k)
    ensures best in ids && best in jobs && forall k :: k in ids ==> k in jobs && StartedNoLater(jobs[k].startedAt, jobs[best].startedAt)
    decreases |ids|
  {
    var k :| k in ids;
    best := k;
    if ids != {k} {
      var other := SomethingIsLatest(jobs, ids - {k});
      if !StartedNoLater(jobs[other].startedAt, jobs[k].startedAt) {
        best := other;
      }
      assert forall j :: j in ids ==> j == k || j in ids - {k};
    }
  }

  /** The row is running, and every other running row was started in an earlier second. */
  predicate OwnIsLatest(jobs: Table, own: nat) {
    IsRunning(jobs, own)
    && forall k :: k in jobs && k != own && IsRunning(jobs, k) ==> !StartedNoLater(jobs[own].startedAt, jobs[k].startedAt)
  }

  /**
   * Whatever happened since the claim, the second statement of `fetchJob` is sure to return the worker's own row exactly
   * when it is running and no other running row was started in the same or a later second.
   */
  lemma SelectReturnsOwnIff(jobs: Table, own: nat)
    ensures OwnIsLatest(jobs, own) <==> forall got :: LatestRunning(jobs, got) <==> got == own
  {
    if OwnIsLatest(jobs, own) {
      assert LatestRunning(jobs, own);
    } else if IsRunning(jobs, own) {
      var late :| late in jobs && late != own && IsRunning(jobs, late) && StartedNoLater(jobs[own].startedAt, jobs[late].startedAt);
      var got := SomeOtherLatest(jobs, own, late);
    } else {
      assert !LatestRunning(jobs, own);
    }
  }

  lemma SomeOtherLatest(jobs: Table, own: nat, late: nat) returns (got: nat)
    requires own in jobs && late in jobs && late != own && IsRunning(jobs, own) && IsRunning(jobs, late)
    requires StartedNoLater(jobs[own].startedAt, jobs[late].startedAt)
    ensures got != own && LatestRunning(jobs, got)
  {
    var others := set k | k in jobs && IsRunning(jobs, k) && k != own;
    assert late in others;
    got := SomethingIsLatest(jobs, others);
    assert forall k :: k in jobs && IsRunning(jobs, k) ==> k == own || k in others;
  }

  // ----- A job type without a handler -----

  /** The row of a job after claims at these instants, for none of which a handler was registered. */
  function Unhandled(j: Job, times: seq<int>, retryDelay: int): Job {
    if times == [] then j
    else
      var last := times[|times| - 1];
      var row := Unhandled(j, times[..|times| - 1], retryDelay).(status := Running, startedAt := Some(Unix(last)));
      Processed(row, row, None, last, retryDelay)
  }

  /** Without a handler no attempt is counted, so a job that has an attempt left is put back for ever. */
  lemma {:induction false} UnhandledForever(j: Job, times: seq<int>, retryDelay: int)
    requires j.status == Pending
    ensures var row := Unhandled(j, times, retryDelay);
      && row.attempts == j.attempts && row.maxAttempts == j.maxAttempts
      && (times != [] ==> row.status == if j.attempts < j.maxAttempts then Pending else Failed)
  {
    if times != [] {
      UnhandledForever(j, times[..|times| - 1], retryDelay);
    }
  }

  // ----- The statistics -----

  function WithStatus(jobs: Table, status: Status): set<nat> {
    set id | id in jobs && jobs[id].status == status
  }

  lemma StatusesSplit(jobs: Table)
    ensures var p, r, c, f := WithStatus(jobs, Pending), WithStatus(jobs, Running), WithStatus(jobs, Completed), WithStatus(jobs, Failed);
      jobs.Keys == p + r + c + f && p !! r && (p + r) !! c && (p + r + c) !! f
  {
  }

  /** The four counts reported by `GetStats` add up to the total. */
  lemma CountsPartition(jobs: Table)
    ensures |WithStatus(jobs, Pending)| + |WithStatus(jobs, Running)| + |WithStatus(jobs, Completed)| + |WithStatus(jobs, Failed)|
         == |jobs|
  {
    hide WithStatus;
    StatusesSplit(jobs);
    var p, r, c, f := WithStatus(jobs, Pending), WithStatus(jobs, Running), WithStatus(jobs, Completed), WithStatus(jobs, Failed);
    assert |p + r| == |p| + |r| && |p + r + c| == |p + r| + |c| && |p + r + c + f| == |p + r + c| + |f|;
    assert |jobs.Keys| == |jobs|;
  }

  // ----- The queue's own methods -----

  datatype Error = JobNotFound | NotFailed

  class Queue {
    var jobs: Table
    var nextId: nat
    const maxRetries: int
    const retryDelay: int

    ghost predicate Valid()
      reads this
    {
      forall id :: id in jobs ==> id < nextId
    }

    constructor (maxRetries: int, retryDelay: int)
      ensures Valid() && jobs == map[]
      ensures this.maxRetries == (if maxRetries <= 0 then 3 else maxRetries) >= 1
      ensures this.retryDelay == (if retryDelay <= 0 then 30 * NANOS else retryDelay) >= 1
    {
      this.maxRetries := if maxRetries <= 0 then 3 else maxRetries;
      this.retryDelay := if retryDelay <= 0 then 30 * NANOS else retryDelay;
      jobs, nextId := map[], 0;
    }

    method Enqueue(jobType: string, priority: int, maxAttempts: Option<int>, scheduledAt: int) returns (id: nat)
      requires Valid()
      modifies this
      ensures Valid() && id !in old(jobs)
      ensures jobs == old(jobs)[id := Job(jobType, Pending, priority, 0,
        if maxAttempts.Some? then maxAttempts.value else maxRetries, scheduledAt, None, None)]
    {
      var attempts := maxRetries;
      if maxAttempts.Some? {
        attempts := maxAttempts.value;
      }
      id := nextId;
      nextId := nextId + 1;
      jobs := jobs[id := Job(jobType, Pending, priority, 0, attempts, scheduledAt, None, None)];
    }

    /** The first statement of `fetchJob`; ties are broken in any way. */
    method ClaimNext(nanos: int) returns (r: Option<nat>)
      requires Valid()
      modifies this`jobs
      ensures Valid()
      ensures r.None? <==> forall k :: k in old(jobs) ==> old(jobs)[k].status != Pending || old(jobs)[k].scheduledAt > Unix(nanos)
      ensures r.None? ==> jobs == old(jobs)
      ensures r.Some? ==> r.value in old(jobs) && old(jobs)[r.value].status == Pending && old(jobs)[r.value].scheduledAt <= Unix(nanos)
      ensures r.Some? ==> forall k ::
        k in old(jobs) && old(jobs)[k].status == Pending && old(jobs)[k].scheduledAt <= Unix(nanos) ==>
          || old(jobs)[k].priority < old(jobs)[r.value].priority
          || (old(jobs)[k].priority == old(jobs)[r.value].priority && old(jobs)[r.value].scheduledAt <= old(jobs)[k].scheduledAt)
      ensures r.Some? ==> jobs == old(jobs)[r.value := old(jobs)[r.value].(status := Running, startedAt := Some(Unix(nanos)))]
    {
      var now := Unix(nanos);
      var due := set k | k in jobs && Due(jobs, k, now);
      if due == {} {
        assert forall k :: k in jobs && Due(jobs, k, now) ==> k in due;
        return None;
      }
      ghost var best := SomethingIsNext(jobs, due, now);
      assert best in jobs && NextToRun(jobs, best, now);
      var claimed :| claimed in jobs && NextToRun(jobs, claimed, now);
      assert NextToRun(jobs, claimed, now);
      jobs := Claim(jobs, claimed, now);
      return Some(claimed);
    }

    /** The second statement of `fetchJob`. */
    method SelectLatest() returns (r: Option<(nat, Job)>)
      ensures r.None? <==> forall k :: k in jobs ==> jobs[k].status != Running
      ensures r.Some? ==> r.value.0 in jobs && jobs[r.value.0] == r.value.1 && r.value.1.status == Running
      ensures r.Some? ==> forall k :: k in jobs && jobs[k].status == Running && jobs[k].startedAt.Some? ==>
        r.value.1.startedAt.Some? && jobs[k].startedAt.value <= r.value.1.startedAt.value
    {
      var running := set k | k in jobs && IsRunning(jobs, k);
      if running == {} {
        assert forall k :: k in jobs && IsRunning(jobs, k) ==> k in running;
        return None;
      }
      ghost var latest := SomethingIsLatest(jobs, running);
      assert latest in jobs && LatestRunning(jobs, latest);
      var got :| got in jobs && LatestRunning(jobs, got);
      assert LatestRunning(jobs, got);
      return Some((got, jobs[got]));
    }

    /** Both statements in a row, with nothing in between. */
    method FetchJob(nanos: int) returns (r: Option<(nat, Job)>)
      requires Valid()
      modifies this`jobs
      ensures Valid()
      ensures r.None? <==> forall k :: k in old(jobs) ==> old(jobs)[k].status != Pending || old(jobs)[k].scheduledAt > Unix(nanos)
      ensures r.None? ==> jobs == old(jobs)
      ensures r.Some? ==> exists c | c in old(jobs) ::
        && old(jobs)[c].status == Pending && old(jobs)[c].scheduledAt <= Unix(nanos)
        && jobs == old(jobs)[c := old(jobs)[c].(status := Running, startedAt := Some(Unix(nanos)))]
        && forall k :: k in old(jobs) && old(jobs)[k].status == Pending && old(jobs)[k].scheduledAt <= Unix(nanos) ==>
             || old(jobs)[k].priority < old(jobs)[c].priority
             || (old(jobs)[k].priority == old(jobs)[c].priority && old(jobs)[c].scheduledAt <= old(jobs)[k].scheduledAt)
      ensures r.Some? ==> r.value.0 in jobs && jobs[r.value.0] == r.value.1 && r.value.1.status == Running
      ensures r.Some? ==> forall k :: k in jobs && jobs[k].status == Running && jobs[k].startedAt.Some? ==>
        r.value.1.startedAt.Some? && jobs[k].startedAt.value <= r.value.1.startedAt.value
    {
      var claimed := ClaimNext(nanos);
      if claimed.None? {
        return None;
      }
      assert claimed.value in old(jobs) && IsRunning(jobs, claimed.value);
      r := SelectLatest();
    }

    /** `handler` is the registered handler's outcome, if there is one; the worker's copy decides about a retry. */
    method ProcessJob(id: nat, held: Job, handler: Option<bool>, nanos: int)
      requires Valid()
      modifies this`jobs
      ensures Valid()
      ensures id !in old(jobs) ==> jobs == old(jobs)
      ensures id in old(jobs) ==>
        jobs == old(jobs)[id := Processed(old(jobs)[id], held, handler, nanos, retryDelay)]
      ensures id in old(jobs) ==>
        jobs[id].attempts == if handler.Some? then held.attempts + 1 else old(jobs)[id].attempts
      ensures id in old(jobs) ==>
        jobs[id].status ==
          if handler == Some(true) then Completed
          else if held.attempts + (if handler.Some? then 1 else 0) < held.maxAttempts then Pending
          else Failed
    {
      if handler.None? {
        FailJob(id, held, nanos);
        return;
      }
      var counted := held.(attempts := held.attempts + 1);
      if id in jobs {
        jobs := jobs[id := jobs[id].(attempts := counted.attempts)];
      }
      if handler.value {
        CompleteJob(id, nanos);
      } else {
        FailJob(id, counted, nanos);
      }
    }

    method CompleteJob(id: nat, nanos: int)
      modifies this`jobs
      ensures jobs == if id in old(jobs) then old(jobs)[id := CompletedRow(old(jobs)[id], nanos)] else old(jobs)
      ensures id in old(jobs) ==> jobs[id] == old(jobs)[id].(status := Completed, completedAt := Some(Unix(nanos)))
    {
      if id in jobs {
        jobs := jobs[id := jobs[id].(status := Completed, completedAt := Some(Unix(nanos)))];
      }
    }

    method FailJob(id: nat, held: Job, nanos: int)
      modifies this`jobs
      ensures jobs == if id in old(jobs) then old(jobs)[id := FailedRow(old(jobs)[id], held, nanos, retryDelay)] else old(jobs)
      ensures id in old(jobs) && held.attempts < held.maxAttempts ==>
        jobs[id] == old(jobs)[id].(status := Pending, scheduledAt := Unix(nanos + retryDelay * held.attempts))
      ensures id in old(jobs) && held.attempts >= held.maxAttempts ==>
        jobs[id] == old(jobs)[id].(status := Failed, completedAt := Some(Unix(nanos)))
    {
      if id !in jobs {
        return;
      }
      if held.attempts < held.maxAttempts {
        var retryAt := Unix(nanos + retryDelay * held.attempts);
        jobs := jobs[id := jobs[id].(status := Pending, scheduledAt := retryAt)];
      } else {
        jobs := jobs[id := jobs[id].(status := Failed, completedAt := Some(Unix(nanos)))];
      }
    }

    method RetryJob(id: nat, nanos: int) returns (r: Result<(), Error>)
      requires Valid()
      modifies this`jobs
      ensures Valid()
      ensures r == if id !in old(jobs) then Err(JobNotFound) else if old(jobs)[id].status != Failed then Err(NotFailed) else Ok(())
      ensures jobs == if r.Ok? then old(jobs)[id := RetriedRow(old(jobs)[id], nanos)] else old(jobs)
      ensures r.Ok? ==>
        jobs[id] == Job(old(jobs)[id].jobType, Pending, old(jobs)[id].priority, 0, old(jobs)[id].maxAttempts, Unix(nanos), None, None)
    {
      if id !in jobs {
        return Err(JobNotFound);
      }
      if jobs[id].status != Failed {
        return Err(NotFailed);
      }
      jobs := jobs[id := jobs[id].(status := Pending, attempts := 0, scheduledAt := Unix(nanos),
                                   startedAt := None, completedAt := None)];
      return Ok(());
    }

    method Cleanup(cutoff: int) returns (removed: nat)
      requires Valid()
      modifies this`jobs
      ensures Valid()
      ensures jobs == map id | id in old(jobs) && !Expired(old(jobs)[id], cutoff) :: old(jobs)[id]
      ensures removed == |old(jobs)| - |jobs|
      ensures forall id :: id in old(jobs) ==>
        (id !in jobs <==> old(jobs)[id].status in {Completed, Failed} && old(jobs)[id].completedAt.Some? && old(jobs)[id].completedAt.value < cutoff)
    {
      var expired := set id | id in jobs && Expired(jobs[id], cutoff);
      removed := |expired|;
      assert |jobs.Keys - expired| == |jobs.Keys| - |expired|;
      jobs := map id | id in jobs && !Expired(jobs[id], cutoff) :: jobs[id];
      assert jobs.Keys == old(jobs).Keys - expired;
      assert |jobs| == |jobs.Keys| && |old(jobs)| == |old(jobs).Keys|;
    }
  }
}
