/** The order in which the workers of internal/jobs/jobs.go claim jobs, on the columns of the claiming statement alone. */
module JobOrder {
  import opened Clock
  import opened Jobs
  import opened JobRuns
  import opened Wrappers

  /**
   * In any state whatever: a free worker may claim a row if and only if it is pending and due, no pending and due row has a
   * greater priority, and none of the same priority is scheduled earlier; then only that row's status and start change.
   */
  lemma ClaimableIff(s: State, w: nat, id: nat, nanos: int, delay: int)
    requires w in s.workers && s.workers[w].Free? && Known(s, id)
    ensures Enabled(s, ClaimRow(w, id, nanos)) <==>
      && s.jobs[id].status == Pending && s.jobs[id].scheduledAt <= Unix(nanos)
      && !exists k | k in s.jobs ::
           && s.jobs[k].status == Pending && s.jobs[k].scheduledAt <= Unix(nanos)
           && (s.jobs[k].priority > s.jobs[id].priority
               || (s.jobs[k].priority == s.jobs[id].priority && s.jobs[k].scheduledAt < s.jobs[id].scheduledAt))
    ensures Enabled(s, ClaimRow(w, id, nanos)) ==>
      Step(s, ClaimRow(w, id, nanos), delay).jobs == s.jobs[id := s.jobs[id].(status := Running, startedAt := Some(Unix(nanos)))]
  {
    if !Enabled(s, ClaimRow(w, id, nanos)) && Due(s.jobs, id, Unix(nanos)) {
      var k :| k in s.jobs && Due(s.jobs, k, Unix(nanos)) && !Before(s.jobs[id], s.jobs[k]);
      assert k in s.jobs;
    }
  }

  ghost predicate ClaimsAt(run: seq<Event>, now: int) {
    forall i :: 0 <= i < |run| ==> run[i].ClaimRow? && Unix(run[i].nanos) == now
  }

  lemma {:induction false} ClaimedWereDue(s: State, run: seq<Event>, delay: int, end: State, now: int, j: nat)
    requires Runs(s, run, delay, end) && ClaimsAt(run, now) && j < |run|
    ensures Due(s.jobs, run[j].id, now)
    ensures j > 0 ==> run[j].id != run[0].id
    decreases |run|
  {
    if j > 0 {
      ClaimedWereDue(Step(s, run[0], delay), run[1..], delay, end, now, j - 1);
    }
  }

  /**
   * Whatever the workers, the jobs claimed one after the other within a second come out of the queue sorted: each only
   * once, by descending priority, and among equals by the time for which they were scheduled.
   */
  lemma {:induction false} ClaimsAreSorted(s: State, run: seq<Event>, delay: int, end: State, now: int, i: nat, j: nat)
    requires Runs(s, run, delay, end) && ClaimsAt(run, now) && i < j < |run|
    ensures run[i].id in s.jobs && run[j].id in s.jobs && run[i].id != run[j].id
    ensures s.jobs[run[i].id].priority > s.jobs[run[j].id].priority
      || (s.jobs[run[i].id].priority == s.jobs[run[j].id].priority
          && s.jobs[run[i].id].scheduledAt <= s.jobs[run[j].id].scheduledAt)
    decreases |run|
  {
    ClaimedWereDue(s, run, delay, end, now, i);
    ClaimedWereDue(s, run, delay, end, now, j);
    if i > 0 {
      ClaimsAreSorted(Step(s, run[0], delay), run[1..], delay, end, now, i - 1, j - 1);
    }
  }
}
