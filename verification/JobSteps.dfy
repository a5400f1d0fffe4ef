/** What each step in order of the workers and callers of internal/jobs/jobs.go keeps. */
module JobSteps {
  import opened Clock
  import opened Jobs
  import opened JobRuns
  import opened Wrappers

  ghost predicate HeldByNobody(s: State, id: nat, but: set<nat>) {
    forall v :: v in s.workers && v !in but ==> !On(s.workers[v], id)
  }

  lemma RowsStep(s: State, id: nat, row: Job, track: Track, delay: nat)
    requires RowsInv(s, delay) && JobInv(row, track, delay)
    ensures RowsInv(SetJob(s, id, row, track), delay)
  {
    hide JobInv;
  }

  /** What a worker must be to fit a row it comes to hold. */
  ghost predicate Fits(worker: Worker, id: nat, row: Job, track: Track) {
    worker.Free? ||
    (worker.id == id && row.status == Running && row.startedAt == Some(Unix(worker.at))
     && (worker.Claiming? ==> track.phase == JustClaimed)
     && (worker.Holding? ==> track.phase == Read && worker.job == row)
     && (worker.Handling? ==> track.phase == Started && worker.job == row))
  }

  lemma WorkersStep(s: State, id: nat, row: Job, track: Track, w: nat, worker: Worker)
    requires WorkersInv(s) && OneWorkerEach(s) && Manned(s) && HeldByNobody(s, id, {w})
    requires w in s.workers && (s.workers[w].Free? || s.workers[w].id == id)
    requires Fits(worker, id, row, track) && (row.status == Running ==> !worker.Free?)
    ensures var s' := SetWorker(SetJob(s, id, row, track), w, worker); WorkersInv(s') && OneWorkerEach(s') && Manned(s')
  {
    MannedStep(s, id, row, track, w, worker);
    OthersFit(s, id, row, track, w, worker);
  }

  lemma OthersFit(s: State, id: nat, row: Job, track: Track, w: nat, worker: Worker)
    requires WorkersInv(s) && OneWorkerEach(s) && HeldByNobody(s, id, {w})
    requires w in s.workers && Fits(worker, id, row, track)
    ensures var s' := SetWorker(SetJob(s, id, row, track), w, worker); WorkersInv(s') && OneWorkerEach(s')
  {
  }

  lemma MannedStep(s: State, id: nat, row: Job, track: Track, w: nat, worker: Worker)
    requires Manned(s) && w in s.workers && (s.workers[w].Free? || s.workers[w].id == id)
    requires Fits(worker, id, row, track) && (row.status == Running ==> !worker.Free?)
    ensures Manned(SetWorker(SetJob(s, id, row, track), w, worker))
  {
    var s' := SetWorker(SetJob(s, id, row, track), w, worker);
    forall k | k in s'.jobs && IsRunning(s'.jobs, k) ensures exists v :: v in s'.workers && On(s'.workers[v], k) {
      if k == id {
        assert On(s'.workers[w], k);
      } else {
        var v :| v in s.workers && On(s.workers[v], k);
        assert On(s'.workers[v], k);
      }
    }
  }

  /** A step of worker `w` on the one row it comes to hold, holds or gives up. */
  lemma WorkerStep(s: State, id: nat, row: Job, track: Track, w: nat, worker: Worker, delay: nat)
    requires Inv(s, delay) && JobInv(row, track, delay) && HeldByNobody(s, id, {w})
    requires w in s.workers && (s.workers[w].Free? || s.workers[w].id == id)
    requires Fits(worker, id, row, track) && (row.status == Running ==> !worker.Free?)
    ensures Inv(SetWorker(SetJob(s, id, row, track), w, worker), delay)
  {
    RowsStep(s, id, row, track, delay);
    WorkersStep(s, id, row, track, w, worker);
    hide JobInv, WorkersInv, OneWorkerEach, Manned, HeldByNobody, Fits;
  }

  /** A step that rewrites one row, not running before or after. */
  lemma RowStep(s: State, id: nat, row: Job, track: Track, retriers: map<nat, nat>, delay: nat)
    requires Inv(s, delay) && JobInv(row, track, delay) && !IsRunning(s.jobs, id) && row.status != Running
    ensures Inv(SetJob(s, id, row, track).(retriers := retriers), delay)
  {
    RowsStep(s, id, row, track, delay);
    hide JobInv;
    var s' := SetJob(s, id, row, track).(retriers := retriers);
    forall w | w in s.workers ensures WorkerInv(s'.jobs, s'.tracks, s'.workers[w]) {
      assert WorkerInv(s.jobs, s.tracks, s.workers[w]);
    }
    forall k | k in s'.jobs && IsRunning(s'.jobs, k) ensures exists v :: v in s'.workers && On(s'.workers[v], k) {
      assert IsRunning(s.jobs, k);
      var v :| v in s.workers && On(s.workers[v], k);
      assert On(s'.workers[v], k);
    }
  }

  lemma NobodyOn(s: State, id: nat, w: nat)
    requires WorkersInv(s) && OneWorkerEach(s) && w in s.workers
    requires On(s.workers[w], id) || !IsRunning(s.jobs, id)
    ensures HeldByNobody(s, id, {w})
  {
    forall v | v in s.workers && v != w ensures !On(s.workers[v], id) {
      assert WorkerInv(s.jobs, s.tracks, s.workers[v]);
    }
  }

  lemma ClaimStep(s: State, e: Event, delay: nat)
    requires Inv(s, delay) && e.ClaimRow? && Enabled(s, e)
    ensures Inv(Step(s, e, NANOS * delay), delay)
  {
    var j, t, now := s.jobs[e.id], s.tracks[e.id], Unix(e.nanos);
    ClaimKeeps(j, t, delay, now);
    NobodyOn(s, e.id, e.worker);
    hide JobInv, Inv, HeldByNobody;
    WorkerStep(s, e.id, j.(status := Running, startedAt := Some(now)), t.(starts := t.starts + [now], phase := JustClaimed),
               e.worker, Claiming(e.id, e.nanos), delay);
  }

  lemma ReadStep(s: State, e: Event, delay: nat)
    requires Inv(s, delay) && e.ReadRow? && Enabled(s, e) && InOrder(s, e)
    ensures Inv(Step(s, e, NANOS * delay), delay)
    ensures e.got == Some(s.workers[e.worker].id)
  {
    var id := s.workers[e.worker].id;
    SelectReturnsOwnIff(s.jobs, id);
    assert WorkerInv(s.jobs, s.tracks, s.workers[e.worker]);
    assert LatestRunning(s.jobs, id);
    NobodyOn(s, id, e.worker);
    var j, t, holding := s.jobs[id], s.tracks[id].(phase := Read), Holding(id, s.jobs[id], s.workers[e.worker].at);
    assert JobInv(j, t, delay) by { assert JobInv(s.jobs[id], s.tracks[id], delay); }
    assert Step(s, e, NANOS * delay) == SetWorker(SetJob(s, id, j, t), e.worker, holding);
    hide JobInv, Inv, HeldByNobody, Step, LatestRunning, OwnIsLatest;
    WorkerStep(s, id, j, t, e.worker, holding, delay);
  }

  lemma StartStep(s: State, e: Event, delay: nat)
    requires Inv(s, delay) && e.Start? && Enabled(s, e)
    ensures Inv(Step(s, e, NANOS * delay), delay)
  {
    var id := s.workers[e.worker].id;
    assert WorkerInv(s.jobs, s.tracks, s.workers[e.worker]);
    NobodyOn(s, id, e.worker);
    var j, t := s.jobs[id], s.tracks[id];
    StartKeeps(j, t, delay);
    var t', handling := t.(phase := Started, runs := t.runs + 1), Handling(id, Counted(j), s.workers[e.worker].at);
    assert Step(s, e, NANOS * delay) == SetWorker(SetJob(s, id, Counted(j), t'), e.worker, handling);
    hide JobInv, Inv, HeldByNobody, Step;
    WorkerStep(s, id, Counted(j), t', e.worker, handling, delay);
  }

  lemma RefuseStep(s: State, e: Event, delay: nat)
    requires Inv(s, delay) && e.Refuse? && Enabled(s, e)
    ensures Inv(Step(s, e, NANOS * delay), delay)
  {
    var id := s.workers[e.worker].id;
    assert WorkerInv(s.jobs, s.tracks, s.workers[e.worker]);
    NobodyOn(s, id, e.worker);
    var j, t := s.jobs[id], s.tracks[id];
    RefuseKeeps(j, t, delay, s.workers[e.worker].at, e.nanos);
    hide JobInv, Inv, HeldByNobody;
    WorkerStep(s, id, FailedRow(j, j, e.nanos, NANOS * delay), t.(starts := Dropped(t.starts), phase := Waiting),
               e.worker, Free, delay);
  }

  lemma FinishStep(s: State, e: Event, delay: nat)
    requires Inv(s, delay) && e.Finish? && Enabled(s, e)
    ensures Inv(Step(s, e, NANOS * delay), delay)
  {
    var id := s.workers[e.worker].id;
    assert WorkerInv(s.jobs, s.tracks, s.workers[e.worker]);
    NobodyOn(s, id, e.worker);
    var j, t := s.jobs[id], s.tracks[id];
    FailKeeps(j, t, delay, s.workers[e.worker].at, e.nanos);
    CompleteKeeps(j, t, delay, e.nanos);
    hide JobInv, Inv, HeldByNobody;
    WorkerStep(s, id, if e.ok then CompletedRow(j, e.nanos) else FailedRow(j, j, e.nanos, NANOS * delay),
               t.(phase := Waiting), e.worker, Free, delay);
  }

  lemma EnqueueStep(s: State, e: Event, delay: nat)
    requires Inv(s, delay) && e.Enqueue? && Enabled(s, e)
    ensures Inv(Step(s, e, NANOS * delay), delay)
  {
    var j := Job(e.jobType, Pending, e.priority, 0, e.maxAttempts, e.scheduledAt, None, None);
    NewKeeps(j, delay);
    hide JobInv, Inv;
    RowStep(s, e.id, j, NEW_TRACK, s.retriers, delay);
  }

  lemma RetryWriteStep(s: State, e: Event, delay: nat)
    requires Inv(s, delay) && Enabled(s, e) && InOrder(s, e) && e.RetryWrite? && Known(s, s.retriers[e.caller])
    ensures Inv(Step(s, e, NANOS * delay), delay)
  {
    var id := s.retriers[e.caller];
    var j, t := s.jobs[id], s.tracks[id];
    var row, track := RetriedRow(j, e.nanos), Track([], Waiting, t.runs, t.retries + 1);
    RetryKeeps(j, t, delay, e.nanos);
    assert row.status != Running && !IsRunning(s.jobs, id);
    hide JobInv, Inv, RetriedRow, Unix, Limit;
    assert Step(s, e, NANOS * delay) == SetJob(s, id, row, track).(retriers := s.retriers - {e.caller});
    hide Step;
    RowStep(s, id, row, track, s.retriers - {e.caller}, delay);
  }

  lemma RetryStep(s: State, e: Event, delay: nat)
    requires Inv(s, delay) && Enabled(s, e) && InOrder(s, e) && (e.RetryRead? || e.RetryWrite?)
    ensures Inv(Step(s, e, NANOS * delay), delay)
  {
    hide Inv, RetriedRow;
    if e.RetryRead? || !Known(s, s.retriers[e.caller]) {
      RetriersOnly(s, Step(s, e, NANOS * delay), delay);
    } else {
      RetryWriteStep(s, e, delay);
    }
  }

  lemma RetriersOnly(s: State, s': State, delay: nat)
    requires Inv(s, delay) && s'.jobs == s.jobs && s'.tracks == s.tracks && s'.workers == s.workers
    ensures Inv(s', delay)
  {
    hide JobInv, WorkerInv;
  }

  lemma CleanupStep(s: State, e: Event, delay: nat)
    requires Inv(s, delay) && e.Cleanup?
    ensures Inv(Step(s, e, NANOS * delay), delay)
  {
    hide JobInv;
  }

  /** Every step in order keeps the invariant. */
  lemma InvStep(s: State, e: Event, delay: nat)
    requires Inv(s, delay) && Enabled(s, e) && InOrder(s, e)
    ensures Inv(Step(s, e, NANOS * delay), delay)
  {
    hide Inv, Step, Enabled, InOrder;
    match e
    case Enqueue(_, _, _, _, _) => EnqueueStep(s, e, delay);
    case ClaimRow(_, _, _) => ClaimStep(s, e, delay);
    case ReadRow(_, _) => ReadStep(s, e, delay);
    case Start(_) => StartStep(s, e, delay);
    case Refuse(_, _) => RefuseStep(s, e, delay);
    case Finish(_, _, _) => FinishStep(s, e, delay);
    case RetryRead(_, _) => RetryStep(s, e, delay);
    case RetryWrite(_, _) => RetryStep(s, e, delay);
    case Cleanup(_) => CleanupStep(s, e, delay);
  }
}
