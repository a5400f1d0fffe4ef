/** Two concrete runs of the workers and callers of internal/jobs/jobs.go in which a job gets two workers. */
module JobRaces {
  import opened Clock
  import opened Jobs
  import opened JobRuns
  import opened Wrappers

  /** One more event of a run. */
  lemma {:induction false} Then(s: State, run: seq<Event>, mid: State, e: Event, next: State, delay: int) returns (run': seq<Event>)
    requires Runs(s, run, delay, mid) && Enabled(mid, e) && Step(mid, e, delay) == next
    ensures Runs(s, run', delay, next)
    decreases |run|
  {
    hide Enabled;
    if run == [] {
      run' := [e];
      assert run'[1..] == [];
    } else {
      var first := Step(s, run[0], delay);
      hide Step;
      var rest := Then(first, run[1..], mid, e, next, delay);
      run' := [run[0]] + rest;
      assert run'[1..] == rest;
    }
  }

  function Row(status: Status, priority: int, scheduledAt: int, startedAt: Option<int>, completedAt: Option<int>): Job {
    Job("", status, priority, 0, 0, scheduledAt, startedAt, completedAt)
  }

  /** Two workers at rest, and no jobs. */
  const IDLE := State(map[], map[], map[0 := Free, 1 := Free], map[])

  // ----- Crossed reads -----

  const FIRST := Row(Pending, 1, 0, None, None)
  const SECOND := Row(Pending, 0, 0, None, None)
  const FIRST_CLAIMED := Row(Running, 1, 0, Some(10), None)
  const SECOND_CLAIMED := Row(Running, 0, 0, Some(11), None)
  const SINCE_10 := Track([10], JustClaimed, 0, 0)
  const SINCE_11 := Track([11], JustClaimed, 0, 0)

  function Pair(first: Job, second: Job, t1: Track, t2: Track, w0: Worker, w1: Worker): State {
    State(map[1 := first, 2 := second], map[1 := t1, 2 := t2], map[0 := w0, 1 := w1], map[])
  }

  const ONE_JOB := State(map[1 := FIRST], map[1 := NEW_TRACK], map[0 := Free, 1 := Free], map[])
  const TWO_JOBS := Pair(FIRST, SECOND, NEW_TRACK, NEW_TRACK, Free, Free)
  const ONE_CLAIM := Pair(FIRST_CLAIMED, SECOND, SINCE_10, NEW_TRACK, Claiming(1, 10 * NANOS), Free)
  const TWO_CLAIMS := Pair(FIRST_CLAIMED, SECOND_CLAIMED, SINCE_10, SINCE_11, Claiming(1, 10 * NANOS), Claiming(2, 11 * NANOS))
  const ONE_READ := Pair(FIRST_CLAIMED, SECOND_CLAIMED, SINCE_10, SINCE_11.(phase := Read), Holding(2, SECOND_CLAIMED, 10 * NANOS), Claiming(2, 11 * NANOS))
  const TWO_READS := Pair(FIRST_CLAIMED, SECOND_CLAIMED, SINCE_10, SINCE_11.(phase := Read),
                          Holding(2, SECOND_CLAIMED, 10 * NANOS), Holding(2, SECOND_CLAIMED, 11 * NANOS))

  lemma Enqueues(delay: int)
    ensures Enabled(IDLE, Enqueue(1, "", 1, 0, 0)) && Step(IDLE, Enqueue(1, "", 1, 0, 0), delay) == ONE_JOB
    ensures Enabled(ONE_JOB, Enqueue(2, "", 0, 0, 0)) && Step(ONE_JOB, Enqueue(2, "", 0, 0, 0), delay) == TWO_JOBS
  {
  }

  lemma ClaimsFirst(delay: int)
    ensures Enabled(TWO_JOBS, ClaimRow(0, 1, 10 * NANOS)) && Step(TWO_JOBS, ClaimRow(0, 1, 10 * NANOS), delay) == ONE_CLAIM
  {
    assert [] + [10] == [10];
  }

  lemma ClaimsSecond(delay: int)
    ensures Enabled(ONE_CLAIM, ClaimRow(1, 2, 11 * NANOS)) && Step(ONE_CLAIM, ClaimRow(1, 2, 11 * NANOS), delay) == TWO_CLAIMS
  {
    assert [] + [11] == [11];
  }

  lemma BothRead(delay: int)
    ensures Enabled(TWO_CLAIMS, ReadRow(0, Some(2))) && Step(TWO_CLAIMS, ReadRow(0, Some(2)), delay) == ONE_READ
    ensures Enabled(ONE_READ, ReadRow(1, Some(2))) && Step(ONE_READ, ReadRow(1, Some(2)), delay) == TWO_READS
  {
  }

  /**
   * Two workers claim a job each, in different seconds, and then both read: both get the second job, and the first stays
   * running with nobody on it.
   */
  lemma CrossedReads(delay: int) returns (run: seq<Event>)
    ensures Initial(IDLE) && Runs(IDLE, run, delay, TWO_READS)
    ensures On(TWO_READS.workers[0], 2) && On(TWO_READS.workers[1], 2) && IsRunning(TWO_READS.jobs, 1)
    ensures !OneWorkerEach(TWO_READS) && !Manned(TWO_READS)
  {
    Enqueues(delay);
    ClaimsFirst(delay);
    ClaimsSecond(delay);
    BothRead(delay);
    assert Runs(IDLE, [], delay, IDLE);
    CrossedEnd();
    hide Runs, Step, Enabled, OneWorkerEach, Manned, On, IsRunning;
    run := Then(IDLE, [], IDLE, Enqueue(1, "", 1, 0, 0), ONE_JOB, delay);
    run := Then(IDLE, run, ONE_JOB, Enqueue(2, "", 0, 0, 0), TWO_JOBS, delay);
    run := Then(IDLE, run, TWO_JOBS, ClaimRow(0, 1, 10 * NANOS), ONE_CLAIM, delay);
    run := Then(IDLE, run, ONE_CLAIM, ClaimRow(1, 2, 11 * NANOS), TWO_CLAIMS, delay);
    run := Then(IDLE, run, TWO_CLAIMS, ReadRow(0, Some(2)), ONE_READ, delay);
    run := Then(IDLE, run, ONE_READ, ReadRow(1, Some(2)), TWO_READS, delay);
  }

  lemma CrossedEnd()
    ensures Initial(IDLE)
    ensures On(TWO_READS.workers[0], 2) && On(TWO_READS.workers[1], 2) && IsRunning(TWO_READS.jobs, 1)
    ensures !OneWorkerEach(TWO_READS) && !Manned(TWO_READS)
  {
    assert forall w :: w in TWO_READS.workers ==> !On(TWO_READS.workers[w], 1);
  }

  // ----- A late retry -----

  /** One job without attempts to spare: it fails for want of a handler, two callers retry it, and it is claimed in between. */
  function Solo(job: Job, track: Track, w0: Worker, w1: Worker, retriers: map<nat, nat>): State {
    State(map[1 := job], map[1 := track], map[0 := w0, 1 := w1], retriers)
  }

  const NEW := Row(Pending, 0, 0, None, None)
  const FAILED := Row(Failed, 0, 0, Some(1), Some(2))
  const RETRIED := Row(Pending, 0, 3, None, None)
  const AGAIN := Row(Running, 0, 3, Some(4), None)
  const LATE := Row(Pending, 0, 5, None, None)
  const THIRD := Row(Running, 0, 5, Some(6), None)

  const S1 := Solo(NEW, NEW_TRACK, Free, Free, map[])
  const S2 := Solo(Row(Running, 0, 0, Some(1), None), Track([1], JustClaimed, 0, 0), Claiming(1, NANOS), Free, map[])
  const S3 := Solo(Row(Running, 0, 0, Some(1), None), Track([1], Read, 0, 0), Holding(1, Row(Running, 0, 0, Some(1), None), NANOS), Free, map[])
  const S4 := Solo(FAILED, NEW_TRACK, Free, Free, map[])
  const S5 := Solo(FAILED, NEW_TRACK, Free, Free, map[0 := 1])
  const S6 := Solo(FAILED, NEW_TRACK, Free, Free, map[0 := 1, 1 := 1])
  const S7 := Solo(RETRIED, Track([], Waiting, 0, 1), Free, Free, map[1 := 1])
  const S8 := Solo(AGAIN, Track([4], JustClaimed, 0, 1), Claiming(1, 4 * NANOS), Free, map[1 := 1])
  const S9 := Solo(LATE, Track([], Waiting, 0, 2), Claiming(1, 4 * NANOS), Free, map[])
  const S10 := Solo(THIRD, Track([6], JustClaimed, 0, 2), Claiming(1, 4 * NANOS), Claiming(1, 6 * NANOS), map[])
  const S11 := Solo(THIRD, Track([6], Read, 0, 2), Holding(1, THIRD, 4 * NANOS), Claiming(1, 6 * NANOS), map[])
  const S12 := Solo(THIRD, Track([6], Read, 0, 2), Holding(1, THIRD, 4 * NANOS), Holding(1, THIRD, 6 * NANOS), map[])

  lemma LateClaim(delay: int)
    ensures Enabled(IDLE, Enqueue(1, "", 0, 0, 0)) && Step(IDLE, Enqueue(1, "", 0, 0, 0), delay) == S1
    ensures Enabled(S1, ClaimRow(0, 1, NANOS)) && Step(S1, ClaimRow(0, 1, NANOS), delay) == S2
  {
    assert [] + [1] == [1];
  }

  lemma LateRefusal(delay: int)
    ensures Enabled(S2, ReadRow(0, Some(1))) && Step(S2, ReadRow(0, Some(1)), delay) == S3
    ensures Enabled(S3, Refuse(0, 2 * NANOS)) && Step(S3, Refuse(0, 2 * NANOS), delay) == S4
  {
    assert Dropped([1]) == [];
  }

  lemma LateReaders(delay: int)
    ensures Enabled(S4, RetryRead(0, 1)) && Step(S4, RetryRead(0, 1), delay) == S5
    ensures Enabled(S5, RetryRead(1, 1)) && Step(S5, RetryRead(1, 1), delay) == S6
  {
  }

  lemma LateWriter(delay: int)
    ensures Enabled(S6, RetryWrite(0, 3 * NANOS)) && Step(S6, RetryWrite(0, 3 * NANOS), delay) == S7
  {
    assert map[0 := 1, 1 := 1] - {0} == map[1 := 1];
  }

  lemma LateReclaim(delay: int)
    ensures Enabled(S7, ClaimRow(0, 1, 4 * NANOS)) && Step(S7, ClaimRow(0, 1, 4 * NANOS), delay) == S8
  {
    assert [] + [4] == [4];
  }

  lemma LateOverwrite(delay: int)
    ensures Enabled(S8, RetryWrite(1, 5 * NANOS)) && Step(S8, RetryWrite(1, 5 * NANOS), delay) == S9
    ensures Enabled(S9, ClaimRow(1, 1, 6 * NANOS)) && Step(S9, ClaimRow(1, 1, 6 * NANOS), delay) == S10
  {
    assert map[1 := 1] - {1} == map[];
    assert [] + [6] == [6];
  }

  lemma LateHolders(delay: int)
    ensures Enabled(S10, ReadRow(0, Some(1))) && Step(S10, ReadRow(0, Some(1)), delay) == S11
    ensures Enabled(S11, ReadRow(1, Some(1))) && Step(S11, ReadRow(1, Some(1)), delay) == S12
  {
  }

  /**
   * Two callers of `RetryJob` read the same failed row; the first writes it, a worker claims it, and then the second writes
   * it: another worker claims it too, and both hold it.
   */
  lemma LateRetry(delay: int) returns (run: seq<Event>)
    ensures Initial(IDLE) && Runs(IDLE, run, delay, S12)
    ensures On(S12.workers[0], 1) && On(S12.workers[1], 1) && !OneWorkerEach(S12)
  {
    assert Runs(IDLE, [], delay, IDLE);
    LateEnd();
    hide *;
    LateClaim(delay);
    LateRefusal(delay);
    LateReaders(delay);
    LateWriter(delay);
    LateReclaim(delay);
    LateOverwrite(delay);
    LateHolders(delay);
    run := Then(IDLE, [], IDLE, Enqueue(1, "", 0, 0, 0), S1, delay);
    run := Then(IDLE, run, S1, ClaimRow(0, 1, NANOS), S2, delay);
    run := Then(IDLE, run, S2, ReadRow(0, Some(1)), S3, delay);
    run := Then(IDLE, run, S3, Refuse(0, 2 * NANOS), S4, delay);
    run := Then(IDLE, run, S4, RetryRead(0, 1), S5, delay);
    run := Then(IDLE, run, S5, RetryRead(1, 1), S6, delay);
    run := Then(IDLE, run, S6, RetryWrite(0, 3 * NANOS), S7, delay);
    run := Then(IDLE, run, S7, ClaimRow(0, 1, 4 * NANOS), S8, delay);
    run := Then(IDLE, run, S8, RetryWrite(1, 5 * NANOS), S9, delay);
    run := Then(IDLE, run, S9, ClaimRow(1, 1, 6 * NANOS), S10, delay);
    run := Then(IDLE, run, S10, ReadRow(0, Some(1)), S11, delay);
    run := Then(IDLE, run, S11, ReadRow(1, Some(1)), S12, delay);
  }

  lemma LateEnd()
    ensures Initial(IDLE) && On(S12.workers[0], 1) && On(S12.workers[1], 1) && !OneWorkerEach(S12)
  {
  }
}
