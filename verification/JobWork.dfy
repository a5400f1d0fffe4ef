/** The work left to the workers of internal/jobs/jobs.go: a weight that each of their steps makes smaller. */
module JobWork {
  import opened Clock
  import opened Jobs
  import opened JobRuns
  import opened JobSteps
  import opened Sums
  import opened Wrappers

  /** Worker steps still open to a job. */
  function Weight(j: Job, t: Track): int {
    var attempts := 4 * (Limit(j) - j.attempts);
    match t.phase
    case Waiting => if j.status == Pending then attempts else 0
    case JustClaimed => attempts - 1
    case Read => attempts - 2
    case Started => attempts + 1
  }

  ghost function Weights(s: State): map<nat, int> {
    map id | id in s.jobs && id in s.tracks :: Weight(s.jobs[id], s.tracks[id])
  }

  predicate IsWork(e: Event) {
    e.ClaimRow? || e.ReadRow? || e.Start? || e.Refuse? || e.Finish?
  }

  /** What a step of a worker may add to the weight: only a refusal adds anything. */
  function Added(e: Event): int {
    if e.Refuse? then 2 else -1
  }

  lemma WeightsAreNatural(s: State, delay: nat)
    requires Inv(s, delay)
    ensures forall id :: id in Weights(s) ==> Weights(s)[id] >= 0
  {
    forall id | id in Weights(s) ensures Weights(s)[id] >= 0 {
      assert JobInv(s.jobs[id], s.tracks[id], delay);
    }
  }

  lemma FinishIsLighter(j: Job, t: Track, delay: nat, nanos: int, retryDelay: int)
    requires JobInv(j, t, delay) && t.phase == Started
    ensures Weight(FailedRow(j, j, nanos, retryDelay), t.(phase := Waiting)) < Weight(j, t)
    ensures Weight(CompletedRow(j, nanos), t.(phase := Waiting)) < Weight(j, t)
  {
    hide Unix;
  }

  lemma RefuseIsHeavier(j: Job, t: Track, delay: nat, nanos: int, retryDelay: int)
    requires JobInv(j, t, delay) && t.phase == Read
    ensures Weight(FailedRow(j, j, nanos, retryDelay), t.(starts := Dropped(t.starts), phase := Waiting)) <= Weight(j, t) + 2
  {
    hide Unix;
  }

  function RowOf(s: State, e: Event): nat
    requires IsWork(e) && Enabled(s, e)
  {
    if e.ClaimRow? then e.id else s.workers[e.worker].id
  }

  /** Only this row changes, and its weight by at most so much. */
  ghost predicate Lighter(s: State, s': State, id: nat, added: int) {
    && id in s.jobs && id in s.tracks && id in s'.jobs && id in s'.tracks
    && s'.jobs == s.jobs[id := s'.jobs[id]] && s'.tracks == s.tracks[id := s'.tracks[id]]
    && Weight(s'.jobs[id], s'.tracks[id]) <= Weight(s.jobs[id], s.tracks[id]) + added
  }

  lemma ClaimIsLighter(s: State, e: Event, delay: nat)
    requires Inv(s, delay) && Enabled(s, e) && e.ClaimRow?
    ensures Lighter(s, Step(s, e, NANOS * delay), e.id, -1)
  {
    assert JobInv(s.jobs[e.id], s.tracks[e.id], delay);
    hide Inv, NextToRun;
  }

  lemma ReadIsLighter(s: State, e: Event, delay: nat)
    requires Inv(s, delay) && Enabled(s, e) && InOrder(s, e) && e.ReadRow?
    ensures Lighter(s, Step(s, e, NANOS * delay), s.workers[e.worker].id, -1)
  {
    ReadStep(s, e, delay);
    assert WorkerInv(s.jobs, s.tracks, s.workers[e.worker]);
    hide Inv, JobInv, InOrder, LatestRunning, OwnIsLatest;
  }

  lemma StartIsLighter(s: State, e: Event, delay: nat)
    requires Inv(s, delay) && Enabled(s, e) && e.Start?
    ensures Lighter(s, Step(s, e, NANOS * delay), s.workers[e.worker].id, -1)
  {
    assert WorkerInv(s.jobs, s.tracks, s.workers[e.worker]);
    hide Inv, JobInv;
  }

  lemma EndIsLighter(s: State, e: Event, delay: nat)
    requires Inv(s, delay) && Enabled(s, e) && (e.Refuse? || e.Finish?)
    ensures Lighter(s, Step(s, e, NANOS * delay), s.workers[e.worker].id, Added(e))
  {
    var id := s.workers[e.worker].id;
    assert WorkerInv(s.jobs, s.tracks, s.workers[e.worker]);
    assert JobInv(s.jobs[id], s.tracks[id], delay);
    hide Inv, JobInv, FailedRow, CompletedRow, Weight;
    if e.Finish? {
      FinishIsLighter(s.jobs[id], s.tracks[id], delay, e.nanos, NANOS * delay);
    } else {
      RefuseIsHeavier(s.jobs[id], s.tracks[id], delay, e.nanos, NANOS * delay);
    }
  }

  lemma RowGetsLighter(s: State, e: Event, delay: nat)
    requires Inv(s, delay) && Enabled(s, e) && InOrder(s, e) && IsWork(e)
    ensures Lighter(s, Step(s, e, NANOS * delay), RowOf(s, e), Added(e))
  {
    hide Inv, Step, InOrder, Lighter;
    match e
    case ClaimRow(_, _, _) => ClaimIsLighter(s, e, delay);
    case ReadRow(_, _) => ReadIsLighter(s, e, delay);
    case Start(_) => StartIsLighter(s, e, delay);
    case Refuse(_, _) => EndIsLighter(s, e, delay);
    case Finish(_, _, _) => EndIsLighter(s, e, delay);
  }

  lemma WeightsUpdate(s: State, s': State, id: nat, added: int)
    requires Lighter(s, s', id, added)
    ensures id in Weights(s) && id in Weights(s') && Weights(s') == Weights(s)[id := Weights(s')[id]]
    ensures Weights(s')[id] <= Weights(s)[id] + added
  {
    hide Weight;
  }

  /**
   * Every claim, read, start and finish of a handler takes something off the weight of the whole queue; a refusal for want
   * of a handler adds at most two.
   */
  lemma WorkShrinks(s: State, e: Event, delay: nat)
    requires Inv(s, delay) && Enabled(s, e) && InOrder(s, e) && IsWork(e)
    ensures 0 <= Sum(Weights(Step(s, e, NANOS * delay))) <= Sum(Weights(s)) + Added(e)
  {
    hide Step, Weights, Inv, Enabled, InOrder, Added, Lighter;
    var id, s' := RowOf(s, e), Step(s, e, NANOS * delay);
    InvStep(s, e, delay);
    RowGetsLighter(s, e, delay);
    WeightsAreNatural(s', delay);
    WeightsUpdate(s, s', id, Added(e));
    SumUpdate(Weights(s), id, Weights(s')[id]);
    SumOfNaturals(Weights(s'));
  }

  function Refusals(run: seq<Event>): nat {
    if run == [] then 0 else (if run[0].Refuse? then 1 else 0) + Refusals(run[1..])
  }

  /**
   * Without new jobs or retries the workers come to rest within as many steps as the queue's weight, and three more for
   * each refusal; where every type has a handler there is none.
   */
  lemma {:induction false} WorkEnds(s: State, run: seq<Event>, delay: nat, end: State)
    requires Inv(s, delay) && RunsInOrder(s, run, NANOS * delay, end) && forall i :: 0 <= i < |run| ==> IsWork(run[i])
    ensures |run| <= Sum(Weights(s)) + 3 * Refusals(run)
    decreases |run|
  {
    if run == [] {
      WeightsAreNatural(s, delay);
      SumOfNaturals(Weights(s));
    } else {
      hide Inv, Weights, Step, Enabled, InOrder;
      WorkShrinks(s, run[0], delay);
      InvStep(s, run[0], delay);
      WorkEnds(Step(s, run[0], NANOS * delay), run[1..], delay, end);
    }
  }
}
