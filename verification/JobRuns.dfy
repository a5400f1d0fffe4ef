/**
 * Workers and callers of internal/jobs/jobs.go interleaved statement by statement: `fetchJob` claims with one statement and
 * reads the row with another, and `RetryJob` reads the row with one and writes it with another.
 */
module JobRuns {
  import opened Clock
  import opened Jobs
  import opened Wrappers

  /**
   * A worker between two polls; having claimed a row but not yet read it; or with the copy of the row it has read, before
   * or after starting its handler. `at` is the reading of the clock with which it claimed.
   */
  datatype Worker =
    | Free
    | Claiming(id: nat, at: int)
    | Holding(id: nat, job: Job, at: int)
    | Handling(id: nat, job: Job, at: int)

  /** How far a job has got since it was last pending. */
  datatype Phase = Waiting | JustClaimed | Read | Started

  /** History of a job: the claims of its attempts since it was enqueued or retried, handler runs, retries. */
  datatype Track = Track(starts: seq<int>, phase: Phase, runs: nat, retries: nat)

  const NEW_TRACK := Track([], Waiting, 0, 0)

  /** `retriers` are the callers of `RetryJob` that have read a failed row and have yet to write it. */
  datatype State = State(
    jobs: Table,
    tracks: map<nat, Track>,
    workers: map<nat, Worker>,
    retriers: map<nat, nat>)

  datatype Event =
    | Enqueue(id: nat, jobType: string, priority: int, maxAttempts: int, scheduledAt: int)
    | ClaimRow(worker: nat, id: nat, nanos: int)
    | ReadRow(worker: nat, got: Option<nat>)
    | Start(worker: nat)
    | Refuse(worker: nat, nanos: int)   // no handler is registered for the type
    | Finish(worker: nat, ok: bool, nanos: int)
    | RetryRead(caller: nat, id: nat)
    | RetryWrite(caller: nat, nanos: int)
    | Cleanup(cutoff: int)

  /**
   * The clock is read before the statement that uses the reading, so readings of different workers come in any order; a
   * worker's own do not go back.
   */
  predicate Enabled(s: State, e: Event) {
    match e
    case Enqueue(id, _, _, _, _) => id !in s.jobs
    case ClaimRow(w, id, nanos) =>
      && w in s.workers && s.workers[w].Free?
      && id in s.jobs && id in s.tracks && NextToRun(s.jobs, id, Unix(nanos))
    case ReadRow(w, got) =>
      && w in s.workers && s.workers[w].Claiming?
      && (got.Some? ==> LatestRunning(s.jobs, got.value))
      && (got.None? ==> forall k :: k in s.jobs ==> !IsRunning(s.jobs, k))
    case Start(w) => w in s.workers && s.workers[w].Holding?
    case Refuse(w, nanos) => w in s.workers && s.workers[w].Holding? && s.workers[w].at <= nanos
    case Finish(w, _, nanos) => w in s.workers && s.workers[w].Handling? && s.workers[w].at <= nanos
    case RetryRead(c, id) => c !in s.retriers && id in s.jobs && s.jobs[id].status == Failed
    case RetryWrite(c, _) => c in s.retriers
    case Cleanup(_) => true
  }

  function SetJob(s: State, id: nat, job: Job, track: Track): State {
    s.(jobs := s.jobs[id := job], tracks := s.tracks[id := track])
  }

  function SetWorker(s: State, w: nat, worker: Worker): State {
    s.(workers := s.workers[w := worker])
  }

  predicate Known(s: State, id: nat) {
    id in s.jobs && id in s.tracks
  }

  function Counted(job: Job): Job {
    job.(attempts := job.attempts + 1)
  }

  function Dropped(starts: seq<int>): seq<int> {
    if starts == [] then [] else starts[..|starts| - 1]
  }

  function AfterClaim(s: State, id: nat, now: int): State
    requires Known(s, id)
  {
    SetJob(s, id, s.jobs[id].(status := Running, startedAt := Some(now)),
           s.tracks[id].(starts := s.tracks[id].starts + [now], phase := JustClaimed))
  }

  /** An update by id of a row that is gone does nothing. */
  function AfterStart(s: State, id: nat, held: Job): State {
    if !Known(s, id) then s else
      SetJob(s, id, s.jobs[id].(attempts := held.attempts + 1), s.tracks[id].(phase := Started, runs := s.tracks[id].runs + 1))
  }

  function AfterRefuse(s: State, id: nat, held: Job, nanos: int, retryDelay: int): State {
    if !Known(s, id) then s else
      SetJob(s, id, FailedRow(s.jobs[id], held, nanos, retryDelay),
             s.tracks[id].(starts := Dropped(s.tracks[id].starts), phase := Waiting))
  }

  function AfterFinish(s: State, id: nat, held: Job, ok: bool, nanos: int, retryDelay: int): State {
    if !Known(s, id) then s else
      SetJob(s, id, if ok then CompletedRow(s.jobs[id], nanos) else FailedRow(s.jobs[id], held, nanos, retryDelay),
             s.tracks[id].(phase := Waiting))
  }

  function AfterRetry(s: State, id: nat, nanos: int): State {
    if !Known(s, id) then s else
      SetJob(s, id, RetriedRow(s.jobs[id], nanos), Track([], Waiting, s.tracks[id].runs, s.tracks[id].retries + 1))
  }

  function Step(s: State, e: Event, retryDelay: int): State
    requires Enabled(s, e)
  {
    match e
    case Enqueue(id, jobType, priority, maxAttempts, scheduledAt) =>
      SetJob(s, id, Job(jobType, Pending, priority, 0, maxAttempts, scheduledAt, None, None), NEW_TRACK)
    case ClaimRow(w, id, nanos) => SetWorker(AfterClaim(s, id, Unix(nanos)), w, Claiming(id, nanos))
    case ReadRow(w, got) =>
      if got.None? || !Known(s, got.value) then SetWorker(s, w, Free) else
        SetWorker(SetJob(s, got.value, s.jobs[got.value], s.tracks[got.value].(phase := Read)), w,
                  Holding(got.value, s.jobs[got.value], s.workers[w].at))
    case Start(w) =>
      var Holding(id, held, at) := s.workers[w];
      SetWorker(AfterStart(s, id, held), w, Handling(id, Counted(held), at))
    case Refuse(w, nanos) =>
      var Holding(id, held, at) := s.workers[w];
      SetWorker(AfterRefuse(s, id, held, nanos, retryDelay), w, Free)
    case Finish(w, ok, nanos) =>
      var Handling(id, held, _) := s.workers[w];
      SetWorker(AfterFinish(s, id, held, ok, nanos, retryDelay), w, Free)
    case RetryRead(c, id) => s.(retriers := s.retriers[c := id])
    case RetryWrite(c, nanos) =>
      AfterRetry(s, s.retriers[c], nanos).(retriers := s.retriers - {c})
    case Cleanup(cutoff) =>
      s.(jobs := map id | id in s.jobs && !Expired(s.jobs[id], cutoff) :: s.jobs[id],
         tracks := map id | id in s.tracks && id in s.jobs && !Expired(s.jobs[id], cutoff) :: s.tracks[id])
  }

  ghost predicate Runs(s: State, run: seq<Event>, retryDelay: int, end: State)
    decreases |run|
  {
    if run == [] then s == end else
      Enabled(s, run[0]) && Runs(Step(s, run[0], retryDelay), run[1..], retryDelay, end)
  }

  ghost predicate Initial(s: State) {
    s.jobs == map[] && s.tracks == map[] && s.retriers == map[] && forall w :: w in s.workers ==> s.workers[w] == Free
  }

  /** A whole `processJob` is the start of the handler followed by its end. */
  lemma ProcessIsStartAndFinish(s: State, w: nat, ok: bool, nanos: int, retryDelay: int)
    requires Enabled(s, Start(w)) && s.workers[w].at <= nanos && Known(s, s.workers[w].id)
    ensures var id, held := s.workers[w].id, s.workers[w].job;
      && Enabled(Step(s, Start(w), retryDelay), Finish(w, ok, nanos))
      && Step(Step(s, Start(w), retryDelay), Finish(w, ok, nanos), retryDelay).jobs
         == s.jobs[id := Processed(s.jobs[id], held, Some(ok), nanos, retryDelay)]
  {
    hide CompletedRow, FailedRow;
  }

  /** Without a handler a whole `processJob` is the one step that puts the row back or fails it. */
  lemma ProcessIsRefuse(s: State, w: nat, nanos: int, retryDelay: int)
    requires Enabled(s, Refuse(w, nanos)) && Known(s, s.workers[w].id)
    ensures var id, held := s.workers[w].id, s.workers[w].job;
      Step(s, Refuse(w, nanos), retryDelay).jobs == s.jobs[id := Processed(s.jobs[id], held, None, nanos, retryDelay)]
  {
    hide FailedRow;
  }

  /** A whole `RetryJob` is the read of a failed row, and of no other, followed by the write that starts it afresh. */
  lemma RetryIsReadAndWrite(s: State, c: nat, id: nat, nanos: int, retryDelay: int)
    requires c !in s.retriers && Known(s, id)
    ensures Enabled(s, RetryRead(c, id)) <==> s.jobs[id].status == Failed
    ensures Enabled(s, RetryRead(c, id)) ==>
      var read, row := Step(s, RetryRead(c, id), retryDelay), s.jobs[id];
      && Enabled(read, RetryWrite(c, nanos))
      && Step(read, RetryWrite(c, nanos), retryDelay).jobs
         == s.jobs[id := Job(row.jobType, Pending, row.priority, 0, row.maxAttempts, Unix(nanos), None, None)]
      && Step(read, RetryWrite(c, nanos), retryDelay).workers == s.workers
  {
    hide Unix;
  }

  // ----- What goes wrong between two statements -----

  /**
   * A worker reads its row only when no other running row was started in the same or a later second, and a caller of
   * `RetryJob` writes a row only when it is not running.
   */
  predicate InOrder(s: State, e: Event)
    requires Enabled(s, e)
  {
    match e
    case ReadRow(w, _) => OwnIsLatest(s.jobs, s.workers[w].id)
    case RetryWrite(c, _) => !IsRunning(s.jobs, s.retriers[c])
    case _ => true
  }

  /** Every busy worker is on a running job, no job has two workers, and no running job is without one. */
  ghost predicate OneToOne(s: State) {
    && (forall w :: w in s.workers && !s.workers[w].Free? ==> IsRunning(s.jobs, s.workers[w].id))
    && OneWorkerEach(s)
    && Manned(s)
  }

  ghost predicate OneWorkerEach(s: State) {
    forall v, w :: v in s.workers && w in s.workers && v != w && !s.workers[v].Free? && !s.workers[w].Free?
      ==> s.workers[v].id != s.workers[w].id
  }

  predicate On(worker: Worker, id: nat) {
    !worker.Free? && worker.id == id
  }

  ghost predicate Manned(s: State) {
    forall id :: id in s.jobs && IsRunning(s.jobs, id) ==> exists w :: w in s.workers && On(s.workers[w], id)
  }

  // ----- Each job on its own -----

  /** How often a job may run between two retries. */
  function Limit(j: Job): (m: int)
    ensures m >= 1
  {
    if j.maxAttempts < 1 then 1 else j.maxAttempts
  }

  function Tri(n: nat): nat {
    if n == 0 then 0 else Tri(n - 1) + n
  }

  lemma {:induction false} TriClosed(n: nat)
    ensures 2 * Tri(n) == n * (n + 1)
  {
    if n > 0 { TriClosed(n - 1); }
  }

  /** Handler runs still open to a job before somebody retries it. */
  function Remaining(j: Job): int {
    if j.status == Pending || j.status == Running then Limit(j) - j.attempts else 0
  }

  ghost predicate Spread(starts: seq<int>, delay: nat) {
    forall i :: 0 <= i < |starts| ==> starts[i] >= starts[0] + delay * Tri(i)
  }

  ghost predicate JobInv(j: Job, t: Track, delay: nat) {
    && 0 <= j.attempts <= Limit(j)
    && t.runs + Remaining(j) <= Limit(j) * (1 + t.retries)
    && (j.status == Running <==> t.phase != Waiting)
    && (j.status == Pending ==> j.attempts < Limit(j) && |t.starts| == j.attempts)
    && (j.status == Pending && t.starts != [] ==> j.scheduledAt >= t.starts[0] + delay * Tri(|t.starts|))
    && (j.status == Running ==> t.starts != [] && j.startedAt == Some(t.starts[|t.starts| - 1]))
    && (t.phase == JustClaimed || t.phase == Read ==> j.attempts < Limit(j) && |t.starts| == j.attempts + 1)
    && (t.phase == Started ==> |t.starts| == j.attempts)
    && Spread(t.starts, delay)
  }

  lemma ClaimKeeps(j: Job, t: Track, delay: nat, now: int)
    requires JobInv(j, t, delay) && j.status == Pending && j.scheduledAt <= now
    ensures JobInv(j.(status := Running, startedAt := Some(now)), t.(starts := t.starts + [now], phase := JustClaimed), delay)
  {
    if t.starts == [] {
      assert delay * Tri(0) == 0;
    }
  }

  lemma StartKeeps(j: Job, t: Track, delay: nat)
    requires JobInv(j, t, delay) && j.status == Running && t.phase == Read
    ensures JobInv(Counted(j), t.(phase := Started, runs := t.runs + 1), delay)
  {
  }

  lemma Rescheduled(nanos: int, delay: nat, k: nat)
    ensures Unix(nanos + NANOS * delay * k) == Unix(nanos) + delay * k && delay * k >= 0
  {
    UnixAdds(nanos, delay * k);
    assert NANOS * delay * k == NANOS * (delay * k);
  }

  lemma FailKeeps(j: Job, t: Track, delay: nat, at: int, nanos: int)
    requires JobInv(j, t, delay) && j.startedAt == Some(Unix(at)) && t.phase == Started && at <= nanos
    ensures JobInv(FailedRow(j, j, nanos, NANOS * delay), t.(phase := Waiting), delay)
  {
    UnixMonotone(at, nanos);
    var k := |t.starts|;
    Rescheduled(nanos, delay, k);
    hide Unix;
    assert delay * Tri(k) == delay * Tri(k - 1) + delay * k;
  }

  /** A claim for which no handler was registered is taken back; the row is due no earlier than before. */
  lemma RefuseKeeps(j: Job, t: Track, delay: nat, at: int, nanos: int)
    requires JobInv(j, t, delay) && j.startedAt == Some(Unix(at)) && t.phase == Read && at <= nanos
    ensures JobInv(FailedRow(j, j, nanos, NANOS * delay), t.(starts := Dropped(t.starts), phase := Waiting), delay)
  {
    UnixMonotone(at, nanos);
    var k := |t.starts| - 1;
    Rescheduled(nanos, delay, k);
    assert t.starts[k] >= t.starts[0] + delay * Tri(k);
    hide Unix, Tri;
  }

  lemma CompleteKeeps(j: Job, t: Track, delay: nat, nanos: int)
    requires JobInv(j, t, delay) && t.phase == Started
    ensures JobInv(CompletedRow(j, nanos), t.(phase := Waiting), delay)
  {
    hide Unix;
  }

  lemma RetryKeeps(j: Job, t: Track, delay: nat, nanos: int)
    requires JobInv(j, t, delay) && j.status != Running
    ensures JobInv(RetriedRow(j, nanos), Track([], Waiting, t.runs, t.retries + 1), delay)
  {
    assert Limit(j) * (2 + t.retries) == Limit(j) * (1 + t.retries) + Limit(j);
  }

  lemma NewKeeps(j: Job, delay: nat)
    requires j.status == Pending && j.attempts == 0
    ensures JobInv(j, NEW_TRACK, delay)
  {
  }

  // ----- Every run that is in order -----

  /** The worker's job is running, in the phase that belongs to the worker, and its copy is the row. */
  ghost predicate WorkerInv(jobs: Table, tracks: map<nat, Track>, w: Worker) {
    w.Free? ||
    (w.id in jobs && w.id in tracks && jobs[w.id].status == Running && jobs[w.id].startedAt == Some(Unix(w.at))
     && (w.Claiming? ==> tracks[w.id].phase == JustClaimed)
     && (w.Holding? ==> tracks[w.id].phase == Read && jobs[w.id] == w.job)
     && (w.Handling? ==> tracks[w.id].phase == Started && jobs[w.id] == w.job))
  }

  ghost predicate RowsInv(s: State, delay: nat) {
    s.jobs.Keys == s.tracks.Keys
    && forall id :: id in s.jobs ==> JobInv(s.jobs[id], s.tracks[id], delay)
  }

  ghost predicate WorkersInv(s: State) {
    forall w :: w in s.workers ==> WorkerInv(s.jobs, s.tracks, s.workers[w])
  }

  ghost predicate Inv(s: State, delay: nat) {
    RowsInv(s, delay) && WorkersInv(s) && OneWorkerEach(s) && Manned(s)
  }

  ghost predicate RunsInOrder(s: State, run: seq<Event>, retryDelay: int, end: State)
    decreases |run|
  {
    if run == [] then s == end else
      Enabled(s, run[0]) && InOrder(s, run[0]) && RunsInOrder(Step(s, run[0], retryDelay), run[1..], retryDelay, end)
  }
}
