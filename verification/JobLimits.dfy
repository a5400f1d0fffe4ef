/** What every run in order of internal/jobs/jobs.go is held to, and exactly which steps keep workers and jobs one to one. */
module JobLimits {
  import opened Clock
  import opened Jobs
  import opened JobRuns
  import opened JobSteps
  import opened Wrappers

  lemma InvIsOneToOne(s: State, delay: nat)
    requires Inv(s, delay)
    ensures OneToOne(s)
  {
    hide JobInv;
    forall w | w in s.workers && !s.workers[w].Free? ensures IsRunning(s.jobs, s.workers[w].id) {
      assert WorkerInv(s.jobs, s.tracks, s.workers[w]);
    }
  }

  /** Reading its row keeps workers and running jobs one to one, whichever row is returned, exactly when it is in order. */
  lemma ReadKeepsOneToOneIff(s: State, w: nat, delay: nat)
    requires Inv(s, delay) && w in s.workers && s.workers[w].Claiming?
    ensures (forall got :: Enabled(s, ReadRow(w, got)) ==> OneToOne(Step(s, ReadRow(w, got), NANOS * delay)))
      <==> OwnIsLatest(s.jobs, s.workers[w].id)
  {
    var own := s.workers[w].id;
    assert WorkerInv(s.jobs, s.tracks, s.workers[w]);
    if OwnIsLatest(s.jobs, own) {
      forall got | Enabled(s, ReadRow(w, got)) ensures OneToOne(Step(s, ReadRow(w, got), NANOS * delay)) {
        hide OneToOne, Inv, Step;
        InvStep(s, ReadRow(w, got), delay);
        InvIsOneToOne(Step(s, ReadRow(w, got), NANOS * delay), delay);
      }
    } else {
      hide JobInv;
      var late :| late in s.jobs && late != own && IsRunning(s.jobs, late)
                  && StartedNoLater(s.jobs[own].startedAt, s.jobs[late].startedAt);
      var got := SomeOtherLatest(s.jobs, own, late);
      ReadOfAnother(s, w, got, delay);
    }
  }

  lemma ReadOfAnother(s: State, w: nat, got: nat, delay: nat)
    requires Manned(s) && w in s.workers && s.workers[w].Claiming? && got != s.workers[w].id
    requires LatestRunning(s.jobs, got) && got in s.tracks
    ensures Enabled(s, ReadRow(w, Some(got))) && !OneWorkerEach(Step(s, ReadRow(w, Some(got)), NANOS * delay))
  {
    assert got in s.jobs && IsRunning(s.jobs, got);
    var v :| v in s.workers && On(s.workers[v], got);
    var s' := Step(s, ReadRow(w, Some(got)), NANOS * delay);
    assert v != w && s'.workers[v] == s.workers[v] && s'.workers[w].id == got;
    hide Manned, LatestRunning;
  }

  /** So does the write of `RetryJob`, exactly when the row is not running. */
  lemma RetryKeepsOneToOneIff(s: State, c: nat, nanos: int, delay: nat)
    requires Inv(s, delay) && Enabled(s, RetryWrite(c, nanos))
    ensures OneToOne(Step(s, RetryWrite(c, nanos), NANOS * delay)) <==> !IsRunning(s.jobs, s.retriers[c])
  {
    var id, e := s.retriers[c], RetryWrite(c, nanos);
    if IsRunning(s.jobs, id) {
      hide JobInv;
      var v :| v in s.workers && On(s.workers[v], id);
      assert Step(s, e, NANOS * delay).jobs[id].status == Pending;
      assert !IsRunning(Step(s, e, NANOS * delay).jobs, Step(s, e, NANOS * delay).workers[v].id);
    } else {
      hide OneToOne, Inv, Step;
      InvStep(s, e, delay);
      InvIsOneToOne(Step(s, e, NANOS * delay), delay);
    }
  }

  lemma {:induction false} InvRuns(s: State, run: seq<Event>, delay: nat, end: State)
    requires Inv(s, delay) && RunsInOrder(s, run, NANOS * delay, end)
    ensures Inv(end, delay)
    decreases |run|
  {
    if run != [] {
      hide Inv, Step, Enabled, InOrder;
      InvStep(s, run[0], delay);
      InvRuns(Step(s, run[0], NANOS * delay), run[1..], delay, end);
    }
  }

  /**
   * In every run in order of any number of workers and callers, a job runs its handler at most max(1, maxAttempts) times per
   * enqueueing or retry, and workers and running jobs are one to one.
   */
  lemma HandlerRunsBounded(s: State, run: seq<Event>, delay: nat, end: State)
    requires Initial(s) && RunsInOrder(s, run, NANOS * delay, end)
    ensures forall id :: id in end.jobs ==>
      id in end.tracks && end.tracks[id].runs <= Limit(end.jobs[id]) * (1 + end.tracks[id].retries)
    ensures OneToOne(end)
  {
    InvRuns(s, run, delay, end);
    InvIsOneToOne(end, delay);
    hide RunsInOrder, OneToOne;
    forall id | id in end.jobs
      ensures id in end.tracks && end.tracks[id].runs <= Limit(end.jobs[id]) * (1 + end.tracks[id].retries)
    {
      assert JobInv(end.jobs[id], end.tracks[id], delay);
    }
  }

  lemma QuadraticLag(starts: seq<int>, delay: nat, m: nat)
    requires Spread(starts, delay) && 1 <= m <= |starts|
    ensures 2 * (starts[m - 1] - starts[0]) >= delay * m * (m - 1)
  {
    TriClosed(m - 1);
    var t := Tri(m - 1);
    assert starts[m - 1] - starts[0] >= delay * t;
    assert delay * m * (m - 1) == delay * ((m - 1) * m) == delay * (2 * t) == 2 * (delay * t);
  }

  /** With a retry delay of whole seconds, the m-th attempt in a row of failures is claimed delay * m * (m - 1) / 2 after the first. */
  lemma BackoffIsQuadratic(s: State, run: seq<Event>, delay: nat, end: State, id: nat, m: nat)
    requires Initial(s) && RunsInOrder(s, run, NANOS * delay, end)
    requires id in end.jobs && id in end.tracks && 1 <= m <= |end.tracks[id].starts|
    ensures 2 * (end.tracks[id].starts[m - 1] - end.tracks[id].starts[0]) >= delay * m * (m - 1)
  {
    InvRuns(s, run, delay, end);
    assert JobInv(end.jobs[id], end.tracks[id], delay);
    assert Spread(end.tracks[id].starts, delay);
    hide *;
    QuadraticLag(end.tracks[id].starts, delay, m);
  }
}
