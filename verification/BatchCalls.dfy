/** What the calls of internal/batch/batch.go do when nobody interrupts them, and that no entry of the set is left behind. */
module BatchCalls {
  import opened BatchProtocol
  import opened BatchStatus
  import opened Collections

  // ----- Cancel -----

  lemma CancelChecks(s: State, t: nat, id: nat, user: nat)
    requires t in s.calls && s.calls[t] == Idle && id !in s.processing && id in s.batches && s.batches[id] == Batch(user, Pending)
    ensures var s1 := s.(calls := s.calls[t := CancelSawPending(id)]);
      Enabled(s, t, CallCancel(id, user)) && Step(s, t, CallCancel(id, user)) == s1
      && Enabled(s1, t, OK) && Step(s1, t, OK) == s.(calls := s.calls[t := CancelUnlocked(id)])
  {
  }

  lemma CancelWrites(s: State, t: nat, id: nat)
    requires t in s.calls && s.calls[t] == CancelUnlocked(id) && id in s.batches
    ensures var s1 := s.(batches := s.batches[id := s.batches[id].(status := Cancelled)], calls := s.calls[t := CancelMarked(id)]);
      var s2 := Step(s1, t, OK);
      && Enabled(s, t, OK) && Step(s, t, OK) == s1 && Enabled(s1, t, OK)
      && s2 == State(s.processing, s1.batches, s2.txs, s.calls[t := Idle], s.sent)
      && s2.txs.Keys == s.txs.Keys
      && forall x :: x in s.txs ==>
           s2.txs[x] == if s.txs[x].batch == id && s.txs[x].status == TxPending then Tx(id, TxCancelled) else s.txs[x]
  {
  }

  /**
   * A `Cancel` that nobody interrupts, by the owner of a pending batch that nobody holds, ends with the batch cancelled and
   * every pending transaction of it cancelled; every other row, what was sent, the entries and the other threads are as before.
   */
  lemma LoneCancel(s: State, t: nat, id: nat, user: nat) returns (run: seq<Move>, end: State)
    requires t in s.calls && s.calls[t] == Idle && id !in s.processing && id in s.batches && s.batches[id] == Batch(user, Pending)
    ensures Runs(s, run, end) && OnlyBy(run, t) && |run| == 4
    ensures end.batches == s.batches[id := Batch(user, Cancelled)] && end.txs.Keys == s.txs.Keys
    ensures forall x :: x in s.txs ==>
      end.txs[x] == if s.txs[x].batch == id && s.txs[x].status == TxPending then Tx(id, TxCancelled) else s.txs[x]
    ensures end.sent == s.sent && end.processing == s.processing && end.calls == s.calls
  {
    CancelChecks(s, t, id, user);
    var s2 := s.(calls := s.calls[t := CancelUnlocked(id)]);
    CancelWrites(s2, t, id);
    hide Enabled, Step, Runs, OnlyBy;
    end := Step(Step(s2, t, OK), t, OK);
    NoMoves(end, t);
    TwoThen(s2, t, OK, OK, [], end);
    run := [Move(t, OK), Move(t, OK)] + [];
    TwoThen(s, t, CallCancel(id, user), OK, run, end);
    run := [Move(t, CallCancel(id, user)), Move(t, OK)] + run;
    assert s.calls[t := Idle] == s.calls;
  }

  /** A `Cancel` of a batch that is not there, not the caller's or not pending is over at once and changes nothing. */
  lemma CancelRefused(s: State, t: nat, id: nat, user: nat)
    requires t in s.calls && s.calls[t] == Idle
    ensures Enabled(s, t, CallCancel(id, user))
    ensures Step(s, t, CallCancel(id, user)) == s <==>
      !(id in s.batches && s.batches[id].user == user && s.batches[id].status == Pending)
  {
    assert s.calls[t := Idle] == s.calls;
  }

  /** So is one that finds the batch in the set, a step later. */
  lemma CancelFindsEntry(s: State, t: nat, id: nat)
    requires t in s.calls && s.calls[t] == CancelSawPending(id)
    ensures Enabled(s, t, OK)
    ensures Step(s, t, OK) == s.(calls := s.calls[t := Idle]) <==> id in s.processing
  {
    assert s.calls[t := Idle][t] != s.calls[t := CancelUnlocked(id)][t];
  }

  // ----- Process -----

  /** A `Process` of a batch that somebody holds changes nothing. */
  lemma ProcessFindsEntry(s: State, t: nat, id: nat)
    requires t in s.calls && s.calls[t] == Idle
    ensures Enabled(s, t, CallProcess(id))
    ensures Step(s, t, CallProcess(id)) == s <==> id in s.processing
  {
    assert s.calls[t := Idle] == s.calls;
  }

  /** One of a batch that is not there or not pending, uninterrupted, ends in the state in which it began. */
  lemma ProcessRefused(s: State, t: nat, id: nat)
    requires t in s.calls && s.calls[t] == Idle && id !in s.processing
    requires id !in s.batches || s.batches[id].status != Pending
    ensures Runs(s, [Move(t, CallProcess(id)), Move(t, OK), Move(t, OK)], s)
  {
    var s1 := s.(processing := s.processing + {id}, calls := s.calls[t := Locked(id)]);
    var s2 := s1.(calls := s.calls[t := Releasing(id)]);
    assert Enabled(s, t, CallProcess(id)) && Step(s, t, CallProcess(id)) == s1;
    assert Enabled(s1, t, OK) && Step(s1, t, OK) == s2;
    assert Enabled(s2, t, OK) && Step(s2, t, OK) == s by {
      assert s.processing + {id} - {id} == s.processing && s.calls[t := Idle] == s.calls;
    }
    hide Step, Enabled;
    NoMoves(s, t);
    var run := [Move(t, CallProcess(id)), Move(t, OK), Move(t, OK)];
    assert [Move(t, OK)][1..] == [] && Runs(s2, [Move(t, OK)], s);
    assert run[1..][1..] == [Move(t, OK)] && Runs(s1, run[1..], s);
  }

  // ----- Create -----

  function Insertions(t: nat, ids: seq<nat>): seq<Move> {
    if ids == [] then [Move(t, OK)] else [Move(t, Advance(Outcome(true, [], ids[0])))] + Insertions(t, ids[1..])
  }

  lemma AllInserted(s: State, t: nat, id: nat)
    requires t in s.calls && s.calls[t] == Inserting(id, 0) && 0 !in s.txs
    ensures Enabled(s, t, OK) && Step(s, t, OK) == s.(calls := s.calls[t := Idle])
  {
  }

  /** The insertions of `Create`, each under a fresh id, add exactly one pending row for each id. */
  lemma {:induction false} RowsInserted(s: State, t: nat, id: nat, ids: seq<nat>) returns (end: State)
    requires t in s.calls && s.calls[t] == Inserting(id, |ids|) && 0 !in s.txs
    requires Distinct(ids) && forall i :: 0 <= i < |ids| ==> ids[i] !in s.txs && ids[i] != 0
    ensures Runs(s, Insertions(t, ids), end)
    ensures end == State(s.processing, s.batches, end.txs, s.calls[t := Idle], s.sent)
    ensures forall x :: x in end.txs <==> x in s.txs || x in ids
    ensures forall x :: x in end.txs ==> end.txs[x] == if x in ids then Tx(id, TxPending) else s.txs[x]
    decreases |ids|
  {
    if ids == [] {
      AllInserted(s, t, id);
      end := s.(calls := s.calls[t := Idle]);
      hide Step, Enabled;
      assert Insertions(t, [])[1..] == [] && Runs(end, [], end);
    } else {
      var a := Advance(Outcome(true, [], ids[0]));
      OneInserted(s, t, id, ids[0], |ids|);
      var s1 := Step(s, t, a);
      hide Step, Enabled;
      end := RowsInserted(s1, t, id, ids[1..]);
      assert Insertions(t, ids)[1..] == Insertions(t, ids[1..]);
      assert ids == [ids[0]] + ids[1..];
      assert s1.calls[t := Idle] == s.calls[t := Idle];
    }
  }

  /** A `Create` that nobody interrupts leaves a new pending batch of the caller with one pending row for each input. */
  lemma LoneCreate(s: State, t: nat, id: nat, user: nat, ids: seq<nat>) returns (run: seq<Move>, end: State)
    requires t in s.calls && s.calls[t] == Idle && id !in s.batches && 1 <= |ids| <= 100 && 0 !in s.txs
    requires Distinct(ids) && forall i :: 0 <= i < |ids| ==> ids[i] !in s.txs && ids[i] != 0
    ensures Runs(s, run, end)
    ensures end.batches == s.batches[id := Batch(user, Pending)]
    ensures forall x :: x in end.txs <==> x in s.txs || x in ids
    ensures forall x :: x in end.txs ==> end.txs[x] == if x in ids then Tx(id, TxPending) else s.txs[x]
    ensures end.sent == s.sent && end.processing == s.processing && end.calls == s.calls
  {
    var s1 := s.(batches := s.batches[id := Batch(user, Pending)], calls := s.calls[t := Inserting(id, |ids|)]);
    var call := CallCreate(id, user, |ids|);
    assert Enabled(s, t, call) && Step(s, t, call) == s1;
    hide Step, Enabled;
    end := RowsInserted(s1, t, id, ids);
    run := [Move(t, call)] + Insertions(t, ids);
    assert run[1..] == Insertions(t, ids);
    assert s1.calls[t := Idle] == s.calls;
  }

  // ----- Failures -----

  /** A statement that fails changes no row, and ends the call: `Process` goes on to give up its entry, the others stop. */
  lemma FailedStatement(s: State, pc: Pc, rows: seq<nat>, x: nat)
    ensures var (s', pc') := Effect(s, pc, Advance(Outcome(false, rows, x)));
      && s'.batches == s.batches && s'.txs == s.txs
      && (pc.Locked? || pc.SawPending? || pc.Marked? ==> pc' == Releasing(pc.id) && s' == s)
      && (pc.CancelUnlocked? || pc.CancelMarked? || pc.Inserting? ==> pc' == Idle && s' == s)
      && (pc.Sending? && pc.todo == [] ==> pc' == Releasing(pc.id) && s' == s)
  {
  }

  // ----- No entry is left behind -----

  ghost predicate Held(s: State, id: nat) {
    exists t :: t in s.calls && Holds(s.calls[t]) && s.calls[t].id == id
  }

  ghost predicate AllHeld(s: State) {
    forall id :: id in s.processing ==> Held(s, id)
  }

  /** A step takes the entry it gives the thread, keeps it while the thread goes on, and gives it back with the thread's release. */
  lemma EntryEffect(s: State, pc: Pc, a: Action)
    requires a.Advance? || pc.Idle?
    ensures var (s', pc') := Effect(s, pc, a);
      && s'.calls == s.calls
      && (s'.processing == s.processing || (Holds(pc') && s'.processing == s.processing + {pc'.id})
          || (pc.Releasing? && s'.processing == s.processing - {pc.id}))
      && (Holds(pc) ==> (Holds(pc') && pc'.id == pc.id) || (pc.Releasing? && s'.processing == s.processing - {pc.id}))
  {
  }

  lemma AllHeldStep(s: State, t: nat, a: Action)
    requires AllHeld(s) && Enabled(s, t, a)
    ensures AllHeld(Step(s, t, a))
  {
    var s', pc := Step(s, t, a), s.calls[t];
    EntryEffect(s, pc, a);
    hide Effect, Holds;
    forall id | id in s'.processing ensures Held(s', id) {
      if Holds(s'.calls[t]) && s'.calls[t].id == id {
      } else {
        assert id in s.processing;
        var u :| u in s.calls && Holds(s.calls[u]) && s.calls[u].id == id;
        assert u != t;
        assert s'.calls[u] == s.calls[u];
      }
    }
  }

  lemma {:induction false} AllHeldRuns(s: State, run: seq<Move>, end: State)
    requires AllHeld(s) && Runs(s, run, end)
    ensures AllHeld(end)
    decreases |run|
  {
    if run != [] {
      hide AllHeld, Step, Enabled;
      AllHeldStep(s, run[0].thread, run[0].action);
      AllHeldRuns(Step(s, run[0].thread, run[0].action), run[1..], end);
    }
  }

  predicate BothHold(pc: Pc, qc: Pc) {
    Holds(pc) && Holds(qc) && pc.id == qc.id
  }

  /** In every interleaving, whatever fails: a batch is in the set if and only if a thread is processing it, and then one thread is. */
  lemma EntryIffHeld(s: State, run: seq<Move>, end: State, id: nat)
    requires Initial(s) && Runs(s, run, end)
    ensures id in end.processing <==> exists t :: t in end.calls && Holds(end.calls[t]) && end.calls[t].id == id
    ensures forall t, u :: t in end.calls && u in end.calls && BothHold(end.calls[t], end.calls[u]) ==> t == u
  {
    InvRuns(s, run, end);
    AllHeldRuns(s, run, end);
    assert forall t :: t in end.calls ==> ThreadInv(end, end.calls[t]);
    hide Runs, DataInv;
  }
}
