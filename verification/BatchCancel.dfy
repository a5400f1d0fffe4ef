/** When a batch that `Cancel` of internal/batch/batch.go marks as cancelled can have a transaction that was sent. */
module BatchCancel {
  import opened BatchProtocol
  import opened BatchStatus
  import opened Collections

  predicate IsCancelled(s: State, id: nat) {
    id in s.batches && s.batches[id].status == Cancelled
  }

  // ----- What makes a cancelled batch dangerous -----

  /** Some caller of `Cancel` has found the batch pending and has yet to write. */
  predicate Cancelling(pc: Pc, id: nat) {
    (pc.CancelSawPending? || pc.CancelUnlocked?) && pc.id == id
  }

  ghost predicate SomeCancelling(s: State, id: nat) {
    exists t :: t in s.calls && Cancelling(s.calls[t], id)
  }

  predicate PendingRow(s: State, id: nat, x: nat) {
    x in s.txs && s.txs[x].batch == id && s.txs[x].status == TxPending
  }

  predicate StillInserting(pc: Pc, id: nat) {
    pc.Inserting? && pc.id == id && pc.left > 0
  }

  /** The batch has a pending transaction or may still get one. */
  ghost predicate RowsToCome(s: State, id: nat) {
    (exists x :: PendingRow(s, id, x)) || (exists t :: t in s.calls && StillInserting(s.calls[t], id))
  }

  /** The thread will send a transaction of the batch unless it stops, whatever happens to the status. */
  predicate InHand(pc: Pc, id: nat) {
    (pc.Sending? && pc.id == id && pc.todo != []) || (pc.Recording? && pc.id == id && |pc.todo| > 1)
  }

  /**
   * Nothing of the batch has been sent or is in hand; nobody who has marked it can fetch a row of it; and nobody who has
   * read it as pending can do so before another `Cancel` writes.
   */
  ghost predicate Harmless(s: State, id: nat) {
    && Unsent(s, id)
    && (forall t :: t in s.calls ==> !InHand(s.calls[t], id))
    && (RowsToCome(s, id) ==>
          forall t :: t in s.calls ==>
            s.calls[t] != Marked(id) && (SomeCancelling(s, id) ==> s.calls[t] != SawPending(id)))
  }

  /** Some continuation ends with the batch cancelled and a transaction of it sent. */
  ghost predicate CanEndSent(s: State, id: nat) {
    exists run: seq<Move>, end: State :: Runs(s, run, end) && IsCancelled(end, id) && !Unsent(end, id)
  }

  // ----- A harmless batch stays harmless, or is never cancelled again -----

  /** Nobody will mark the batch as cancelled any more, and it is not. */
  ghost predicate Over(s: State, id: nat) {
    !IsCancelled(s, id) && !SomeCancelling(s, id)
  }

  lemma RowsEffect(s: State, pc: Pc, a: Action, id: nat, x: nat)
    requires Left(s, id) && (a.Advance? || pc.Idle?) && (a.CallCreate? ==> a.id !in s.batches)
    ensures var (s', pc') := Effect(s, pc, a);
      && (PendingRow(s', id, x) ==> PendingRow(s, id, x) || StillInserting(pc, id))
      && (StillInserting(pc', id) ==> StillInserting(pc, id))
      && s'.calls == s.calls
  {
  }

  lemma RowsToComeStep(s: State, t: nat, a: Action, id: nat)
    requires Enabled(s, t, a) && Left(s, id) && RowsToCome(Step(s, t, a), id)
    ensures RowsToCome(s, id)
  {
    var s' := Step(s, t, a);
    RowsEffect(s, s.calls[t], a, id, 0);
    hide Effect, PendingRow, StillInserting;
    if x :| PendingRow(s', id, x) {
      RowsEffect(s, s.calls[t], a, id, x);
      SameTxs(s, t, a, id, x);
    } else {
      var u :| u in s'.calls && StillInserting(s'.calls[u], id);
      assert StillInserting(s.calls[u], id);
    }
  }

  lemma SameTxs(s: State, t: nat, a: Action, id: nat, x: nat)
    requires t in s.calls
    ensures PendingRow(Step(s, t, a), id, x) <==> PendingRow(Effect(s, s.calls[t], a).0, id, x)
  {
    hide Effect;
  }

  lemma CancellingEffect(s: State, pc: Pc, a: Action, id: nat)
    requires Left(s, id) && (a.Advance? || pc.Idle?)
    ensures Cancelling(Effect(s, pc, a).1, id) ==> Cancelling(pc, id)
    ensures Effect(s, pc, a).0.calls == s.calls
  {
  }

  lemma CancellingStep(s: State, t: nat, a: Action, id: nat)
    requires Enabled(s, t, a) && Left(s, id) && SomeCancelling(Step(s, t, a), id)
    ensures SomeCancelling(s, id)
  {
    var s' := Step(s, t, a);
    CancellingEffect(s, s.calls[t], a, id);
    hide Effect, Cancelling;
    var u :| u in s'.calls && Cancelling(s'.calls[u], id);
    assert Cancelling(s.calls[u], id);
  }

  lemma SentStep(s: State, t: nat, a: Action, id: nat)
    requires Inv(s) && Enabled(s, t, a) && Left(s, id) && Unsent(s, id) && !InHand(s.calls[t], id)
    ensures Unsent(Step(s, t, a), id)
  {
    var pc := s.calls[t];
    assert ThreadInv(s, pc);
    EffectFrame(s, pc, a);
    if a.Advance? && pc.Sending? && pc.todo != [] {
      assert pc.todo[0] in pc.todo;
    }
  }

  /** A thread takes a batch that has left pending in hand only by fetching rows of it. */
  lemma OwnPcStep(s: State, t: nat, a: Action, id: nat)
    requires Inv(s) && Enabled(s, t, a) && Left(s, id)
    ensures var pc, pc' := s.calls[t], Step(s, t, a).calls[t];
      && (InHand(pc', id) ==> InHand(pc, id) || (pc == Marked(id) && RowsToCome(s, id)))
      && (pc' == Marked(id) ==> pc == SawPending(id) && !IsCancelled(Step(s, t, a), id))
      && pc' != SawPending(id)
  {
    var pc := s.calls[t];
    assert ThreadInv(s, pc);
    if pc == Marked(id) && a.Advance? && a.outcome.ok && a.outcome.rows != [] {
      assert PendingRow(s, id, a.outcome.rows[0]);
    }
  }

  lemma LeftStep(s: State, t: nat, a: Action, id: nat)
    requires Inv(s) && Enabled(s, t, a) && Left(s, id)
    ensures Left(Step(s, t, a), id)
    ensures forall u :: u in s.calls && u != t ==> Step(s, t, a).calls[u] == s.calls[u]
    ensures Step(s, t, a).calls.Keys == s.calls.Keys
  {
    assert ThreadInv(s, s.calls[t]);
    EffectFrame(s, s.calls[t], a);
    ExclusiveStep(s, t, a);
  }

  lemma HarmlessStep(s: State, t: nat, a: Action, id: nat)
    requires Inv(s) && Enabled(s, t, a) && Left(s, id) && Harmless(s, id)
    ensures Harmless(Step(s, t, a), id) || Over(Step(s, t, a), id)
  {
    var s' := Step(s, t, a);
    LeftStep(s, t, a, id);
    SentStep(s, t, a, id);
    OwnPcStep(s, t, a, id);
    if SomeCancelling(s', id) { CancellingStep(s, t, a, id); }
    if RowsToCome(s', id) { RowsToComeStep(s, t, a, id); }
    hide Step, Enabled, Inv, Unsent, RowsToCome, SomeCancelling, InHand, IsCancelled;
  }

  /** A batch becomes cancelled only by the write of `Cancel`. */
  lemma NotCancelledBy(s: State, t: nat, a: Action, id: nat)
    requires Enabled(s, t, a) && !IsCancelled(s, id) && !(a.Advance? && a.outcome.ok && s.calls[t] == CancelUnlocked(id))
    ensures !IsCancelled(Step(s, t, a), id)
  {
  }

  lemma OverStep(s: State, t: nat, a: Action, id: nat)
    requires Inv(s) && Enabled(s, t, a) && Left(s, id) && Over(s, id)
    ensures Over(Step(s, t, a), id)
  {
    assert !Cancelling(s.calls[t], id);
    hide Step, Inv, IsCancelled;
    NotCancelledBy(s, t, a, id);
    if SomeCancelling(Step(s, t, a), id) { CancellingStep(s, t, a, id); }
  }

  lemma {:induction false} HarmlessRuns(s: State, run: seq<Move>, end: State, id: nat)
    requires Inv(s) && Left(s, id) && (Harmless(s, id) || Over(s, id)) && Runs(s, run, end)
    ensures Harmless(end, id) || Over(end, id)
    decreases |run|
  {
    if run != [] {
      var t, a := run[0].thread, run[0].action;
      hide Inv, Enabled, Step, Left, Harmless, Over;
      InvStep(s, t, a);
      LeftStep(s, t, a, id);
      if Harmless(s, id) {
        HarmlessStep(s, t, a, id);
      } else {
        OverStep(s, t, a, id);
      }
      HarmlessRuns(Step(s, t, a), run[1..], end, id);
    }
  }

  // ----- A batch that is not harmless can end cancelled with a transaction sent -----

  lemma Sooner(s: State, t: nat, a: Action, id: nat)
    requires Enabled(s, t, a) && CanEndSent(Step(s, t, a), id)
    ensures CanEndSent(s, id)
  {
    hide Step, Unsent, IsCancelled;
    var run: seq<Move>, end: State :| Runs(Step(s, t, a), run, end) && IsCancelled(end, id) && !Unsent(end, id);
    assert ([Move(t, a)] + run)[1..] == run;
    assert Runs(s, [Move(t, a)] + run, end);
  }

  lemma {:induction false} MuchSooner(s: State, run: seq<Move>, mid: State, id: nat)
    requires Runs(s, run, mid) && CanEndSent(mid, id)
    ensures CanEndSent(s, id)
    decreases |run|
  {
    if run != [] {
      hide Enabled, Step, CanEndSent;
      MuchSooner(Step(s, run[0].thread, run[0].action), run[1..], mid, id);
      Sooner(s, run[0].thread, run[0].action, id);
    }
  }

  lemma AlreadySent(s: State, id: nat)
    requires IsCancelled(s, id) && !Unsent(s, id)
    ensures CanEndSent(s, id)
  {
    assert Runs(s, [], s);
  }

  lemma SendNow(s: State, t: nat, id: nat)
    requires Inv(s) && t in s.calls && s.calls[t].Sending? && s.calls[t].id == id && s.calls[t].todo != []
    ensures Enabled(s, t, OK) && !Unsent(Step(s, t, OK), id)
    ensures Step(s, t, OK).batches == s.batches && Step(s, t, OK).txs == s.txs
  {
    var x := s.calls[t].todo[0];
    assert ThreadInv(s, s.calls[t]) && x in s.calls[t].todo;
    assert x in Step(s, t, OK).sent;
  }

  lemma RecordNow(s: State, t: nat, id: nat)
    requires Inv(s) && t in s.calls && s.calls[t].Recording? && s.calls[t].id == id && |s.calls[t].todo| > 1
    ensures var s' := Step(s, t, OK);
      Enabled(s, t, OK) && s'.batches == s.batches && s'.calls.Keys == s.calls.Keys
      && s'.calls[t].Sending? && s'.calls[t].id == id && s'.calls[t].todo != []
  {
  }

  lemma InHandEndsSent(s: State, t: nat, id: nat)
    requires Inv(s) && IsCancelled(s, id) && t in s.calls && InHand(s.calls[t], id)
    ensures CanEndSent(s, id)
  {
    hide Inv, Enabled, Step, CanEndSent, Unsent;
    if s.calls[t].Sending? {
      SendNow(s, t, id);
      AlreadySent(Step(s, t, OK), id);
    } else {
      var s' := Step(s, t, OK);
      RecordNow(s, t, id);
      InvStep(s, t, OK);
      SendNow(s', t, id);
      AlreadySent(Step(s', t, OK), id);
      Sooner(s', t, OK, id);
    }
    Sooner(s, t, OK, id);
  }

  ghost function PendingSet(s: State, id: nat): set<nat> {
    set x | x in s.txs && PendingRow(s, id, x)
  }

  lemma SomeRows(s: State, id: nat) returns (rows: seq<nat>)
    requires exists x :: PendingRow(s, id, x)
    ensures PendingRows(s, id, rows) && rows != []
  {
    rows := Listing(PendingSet(s, id));
    var x :| PendingRow(s, id, x);
    assert x in PendingSet(s, id);
    forall y ensures y in rows <==> PendingRow(s, id, y) {
      assert y in rows <==> y in Elements(rows);
    }
    assert rows != [] by { assert x in rows; }
  }

  lemma Fetch(s: State, t: nat, id: nat, rows: seq<nat>)
    requires t in s.calls && s.calls[t] == Marked(id) && PendingRows(s, id, rows)
    ensures var a := Advance(Outcome(true, rows, 0));
      Enabled(s, t, a) && Step(s, t, a) == s.(calls := s.calls[t := Sending(id, rows, 0, 0)])
  {
    hide PendingRows;
  }

  lemma MarkedEndsSent(s: State, t: nat, id: nat)
    requires Inv(s) && IsCancelled(s, id) && t in s.calls && s.calls[t] == Marked(id) && exists x :: PendingRow(s, id, x)
    ensures CanEndSent(s, id)
  {
    var rows := SomeRows(s, id);
    var a := Advance(Outcome(true, rows, 0));
    hide Inv, CanEndSent, PendingRow, PendingRows;
    Fetch(s, t, id, rows);
    InvStep(s, t, a);
    hide Enabled, Step;
    InHandEndsSent(Step(s, t, a), t, id);
    Sooner(s, t, a, id);
  }

  lemma {:induction false} AboveAll(xs: seq<nat>) returns (n: nat)
    ensures forall i :: 0 <= i < |xs| ==> xs[i] < n
  {
    n := 0;
    if xs != [] {
      n := AboveAll(xs[..|xs| - 1]);
      n := if n <= xs[|xs| - 1] then xs[|xs| - 1] + 1 else n;
    }
  }

  lemma FreshRow(s: State) returns (x: nat)
    ensures x !in s.txs
  {
    var xs := Listing(s.txs.Keys);
    x := AboveAll(xs);
    assert x in s.txs ==> x in Elements(xs);
  }

  lemma WriteNow(s: State, u: nat, id: nat)
    requires u in s.calls && s.calls[u] == CancelUnlocked(id) && id in s.batches && !Unsent(s, id)
    ensures Enabled(s, u, OK) && IsCancelled(Step(s, u, OK), id) && !Unsent(Step(s, u, OK), id)
  {
  }

  lemma CheckNow(s: State, u: nat, id: nat)
    requires u in s.calls && s.calls[u] == CancelSawPending(id) && id !in s.processing
    ensures Enabled(s, u, OK) && Step(s, u, OK) == s.(calls := s.calls[u := CancelUnlocked(id)])
  {
  }

  lemma CancelAfterSending(s: State, u: nat, id: nat)
    requires u in s.calls && Cancelling(s.calls[u], id) && id in s.batches && id !in s.processing && !Unsent(s, id)
    ensures CanEndSent(s, id)
  {
    hide Enabled, Step, CanEndSent;
    var s' := s;
    if s.calls[u].CancelSawPending? {
      CheckNow(s, u, id);
      s' := Step(s, u, OK);
    }
    assert !Unsent(s', id);
    hide Unsent, IsCancelled;
    WriteNow(s', u, id);
    AlreadySent(Step(s', u, OK), id);
    Sooner(s', u, OK, id);
    if s' != s { Sooner(s, u, OK, id); }
  }

  lemma AllSentIsSent(s: State, t: nat, id: nat, rows: seq<nat>, delivers: nat -> bool)
    requires id in s.batches && rows != [] && rows[0] in s.txs && s.txs[rows[0]].batch == id
    ensures !Unsent(AllSent(s, t, id, rows, 0, 0, delivers), id)
  {
    var end := AllSent(s, t, id, rows, 0, 0, delivers);
    assert rows[0] in end.sent && end.txs[rows[0]].batch == id;
  }

  lemma SendingEndsSent(s: State, t: nat, u: nat, id: nat, rows: seq<nat>)
    requires t in s.calls && s.calls[t] == Sending(id, rows, 0, 0) && id in s.batches && PendingRows(s, id, rows) && rows != []
    requires u in s.calls && u != t && Cancelling(s.calls[u], id)
    ensures CanEndSent(s, id)
  {
    assert forall i :: 0 <= i < |rows| ==> rows[i] in s.txs && s.txs[rows[i]].batch == id;
    hide PendingRows, Runs, CanEndSent, Unsent;
    var delivers: nat -> bool := x => true;
    var run, end := RowsSent(s, t, id, rows, 0, 0, delivers);
    AllSentIsSent(s, t, id, rows, delivers);
    hide Answered, Delivered;
    CancelAfterSending(end, u, id);
    MuchSooner(s, run, end, id);
  }

  lemma MarkNow(s: State, t: nat, id: nat)
    requires t in s.calls && s.calls[t] == SawPending(id) && id in s.batches
    ensures Enabled(s, t, OK)
    ensures Step(s, t, OK)
         == s.(batches := s.batches[id := s.batches[id].(status := Processing)], calls := s.calls[t := Marked(id)])
  {
  }

  lemma SawPendingEndsSent(s: State, t: nat, u: nat, id: nat)
    requires id in s.batches && t in s.calls && s.calls[t] == SawPending(id) && exists x :: PendingRow(s, id, x)
    requires u in s.calls && Cancelling(s.calls[u], id)
    ensures CanEndSent(s, id)
  {
    MarkNow(s, t, id);
    var m := Step(s, t, OK);
    assert forall x :: PendingRow(m, id, x) == PendingRow(s, id, x);
    hide Enabled, Step, CanEndSent, PendingRow, PendingRows;
    var rows := SomeRows(m, id);
    Fetch(m, t, id, rows);
    var f := Step(m, t, Advance(Outcome(true, rows, 0)));
    SameRows(m, f, id, rows);
    SendingEndsSent(f, t, u, id, rows);
    Sooner(m, t, Advance(Outcome(true, rows, 0)), id);
    Sooner(s, t, OK, id);
  }

  lemma SameRows(s: State, s': State, id: nat, rows: seq<nat>)
    requires PendingRows(s, id, rows) && s'.txs == s.txs
    ensures PendingRows(s', id, rows)
  {
  }

  /** A thread that can still fetch a row of the batch, now that there is one. */
  lemma FetchingEndsSent(s: State, t: nat, id: nat)
    requires Inv(s) && IsCancelled(s, id) && exists x :: PendingRow(s, id, x)
    requires t in s.calls && (s.calls[t] == Marked(id) || (s.calls[t] == SawPending(id) && SomeCancelling(s, id)))
    ensures CanEndSent(s, id)
  {
    hide CanEndSent, Inv;
    if s.calls[t] == Marked(id) {
      MarkedEndsSent(s, t, id);
    } else {
      var u :| u in s.calls && Cancelling(s.calls[u], id);
      SawPendingEndsSent(s, t, u, id);
    }
  }

  lemma RowsToComeEndsSent(s: State, t: nat, id: nat)
    requires Inv(s) && IsCancelled(s, id) && RowsToCome(s, id)
    requires t in s.calls && (s.calls[t] == Marked(id) || (s.calls[t] == SawPending(id) && SomeCancelling(s, id)))
    ensures CanEndSent(s, id)
  {
    hide CanEndSent, Inv, Step, Enabled;
    if exists x :: PendingRow(s, id, x) {
      FetchingEndsSent(s, t, id);
    } else {
      var u :| u in s.calls && StillInserting(s.calls[u], id);
      var x := FreshRow(s);
      var a := Advance(Outcome(true, [], x));
      OneInserted(s, u, id, x, s.calls[u].left);
      assert PendingRow(Step(s, u, a), id, x);
      InvStep(s, u, a);
      if v :| v in s.calls && Cancelling(s.calls[v], id) {
        assert Cancelling(Step(s, u, a).calls[v], id);
      }
      FetchingEndsSent(Step(s, u, a), t, id);
      Sooner(s, u, a, id);
    }
  }

  /** From a cancelled batch a run can end with it cancelled and sent from if and only if it is not harmless. */
  lemma CanEndSentIff(s: State, id: nat)
    requires Inv(s) && IsCancelled(s, id)
    ensures CanEndSent(s, id) <==> !Harmless(s, id)
  {
    if Harmless(s, id) {
      if CanEndSent(s, id) {
        var run: seq<Move>, end: State :| Runs(s, run, end) && IsCancelled(end, id) && !Unsent(end, id);
        HarmlessRuns(s, run, end, id);
      }
    } else {
      hide Inv, CanEndSent, RowsToCome, SomeCancelling, InHand, Unsent;
      if !Unsent(s, id) {
        AlreadySent(s, id);
      } else if t :| t in s.calls && InHand(s.calls[t], id) {
        InHandEndsSent(s, t, id);
      } else {
        var t :| t in s.calls && (s.calls[t] == Marked(id) || (s.calls[t] == SawPending(id) && SomeCancelling(s, id)));
        RowsToComeEndsSent(s, t, id);
      }
    }
  }

  // ----- The write of Cancel -----

  /** What decides, before thread `t` writes, whether its write does harm; another caller of `Cancel` may be under way. */
  ghost predicate SafeToCancel(s: State, t: nat, id: nat) {
    && Unsent(s, id)
    && (forall u :: u in s.calls ==> !InHand(s.calls[u], id))
    && (RowsToCome(s, id) ==>
          forall u :: u in s.calls ==>
            s.calls[u] != Marked(id)
            && ((exists v :: v in s.calls && v != t && Cancelling(s.calls[v], id)) ==> s.calls[u] != SawPending(id)))
  }

  lemma WriteEffect(s: State, t: nat, id: nat)
    requires t in s.calls && s.calls[t] == CancelUnlocked(id) && id in s.batches
    ensures Enabled(s, t, OK) && IsCancelled(Step(s, t, OK), id)
    ensures Step(s, t, OK)
         == s.(batches := s.batches[id := s.batches[id].(status := Cancelled)], calls := s.calls[t := CancelMarked(id)])
  {
  }

  lemma SafeMeansHarmless(s: State, t: nat, id: nat)
    requires t in s.calls && s.calls[t] == CancelUnlocked(id) && id in s.batches
    ensures Harmless(Step(s, t, OK), id) <==> SafeToCancel(s, t, id)
  {
    WriteEffect(s, t, id);
    var s' := Step(s, t, OK);
    hide Step, Enabled, IsCancelled;
    assert RowsToCome(s', id) <==> RowsToCome(s, id) by { RowsAfterWrite(s, s', t, id); }
    assert Unsent(s', id) <==> Unsent(s, id);
    assert SomeCancelling(s', id) <==> exists v :: v in s.calls && v != t && Cancelling(s.calls[v], id) by {
      CancellingAfterWrite(s, s', t, id);
    }
    hide RowsToCome, Unsent, SomeCancelling, InHand;
    NotInHand(id);
    assert forall u :: u in s.calls ==>
      && InHand(s'.calls[u], id) == InHand(s.calls[u], id)
      && (s'.calls[u] == Marked(id) <==> s.calls[u] == Marked(id))
      && (s'.calls[u] == SawPending(id) <==> s.calls[u] == SawPending(id));
    assert s'.calls.Keys == s.calls.Keys;
  }

  lemma NotInHand(id: nat)
    ensures !InHand(CancelMarked(id), id) && !InHand(CancelUnlocked(id), id)
  {
  }

  lemma RowsAfterWrite(s: State, s': State, t: nat, id: nat)
    requires t in s.calls && s.calls[t] == CancelUnlocked(id) && s'.txs == s.txs && s'.calls == s.calls[t := CancelMarked(id)]
    ensures RowsToCome(s', id) <==> RowsToCome(s, id)
  {
    assert forall x :: PendingRow(s', id, x) == PendingRow(s, id, x);
    if u :| u in s.calls && StillInserting(s.calls[u], id) {
      assert StillInserting(s'.calls[u], id);
    }
    if u :| u in s'.calls && StillInserting(s'.calls[u], id) {
      assert StillInserting(s.calls[u], id);
    }
  }

  lemma CancellingAfterWrite(s: State, s': State, t: nat, id: nat)
    requires t in s.calls && s.calls[t] == CancelUnlocked(id) && s'.calls == s.calls[t := CancelMarked(id)]
    ensures SomeCancelling(s', id) <==> exists v :: v in s.calls && v != t && Cancelling(s.calls[v], id)
  {
    if v :| v in s.calls && v != t && Cancelling(s.calls[v], id) {
      assert Cancelling(s'.calls[v], id);
    }
    if v :| v in s'.calls && Cancelling(s'.calls[v], id) {
      assert v != t && Cancelling(s.calls[v], id);
    }
  }

  /**
   * The write of `Cancel` can lead to a batch that ends cancelled with a transaction sent if and only if one has been sent
   * or is in hand, or a row can still be fetched: by a thread that has marked the batch, or by one that has read it as
   * pending while another caller of `Cancel` is under way.
   */
  lemma WriteIsHarmfulIff(s: State, t: nat, id: nat)
    requires Inv(s) && t in s.calls && s.calls[t] == CancelUnlocked(id)
    ensures CanEndSent(Step(s, t, OK), id) <==> !SafeToCancel(s, t, id)
  {
    assert ThreadInv(s, s.calls[t]);
    hide Inv, CanEndSent, SafeToCancel, Harmless, Unsent;
    WriteEffect(s, t, id);
    InvStep(s, t, OK);
    SafeMeansHarmless(s, t, id);
    CanEndSentIff(Step(s, t, OK), id);
  }

  /** In time, that is before the batch has left pending or is in anybody's hands, a write is safe. */
  lemma InTimeIsSafe(s: State, t: nat, id: nat)
    requires Inv(s) && id !in s.processing && !Left(s, id)
    ensures SafeToCancel(s, t, id)
  {
    forall u | u in s.calls ensures !InHand(s.calls[u], id) && s.calls[u] != Marked(id) && s.calls[u] != SawPending(id) {
      assert ThreadInv(s, s.calls[u]);
    }
  }

  // ----- Whole runs -----

  /** Every write of `Cancel` in the run is safe when it is made. */
  ghost predicate WritesSafe(s: State, run: seq<Move>)
    decreases |run|
  {
    run == [] ||
    (run[0].thread in s.calls
     && SafeWrite(s, run[0].thread, run[0].action)
     && WritesSafe(Step(s, run[0].thread, run[0].action), run[1..]))
  }

  ghost predicate SafeWrite(s: State, t: nat, a: Action)
    requires t in s.calls
  {
    a.Advance? && a.outcome.ok && s.calls[t].CancelUnlocked? ==> SafeToCancel(s, t, s.calls[t].id)
  }

  ghost predicate Quiet(s: State) {
    forall id :: IsCancelled(s, id) ==> Harmless(s, id)
  }

  lemma WriteAsOK(s: State, t: nat, a: Action, id: nat)
    requires t in s.calls && s.calls[t] == CancelUnlocked(id) && a.Advance? && a.outcome.ok
    ensures Step(s, t, a) == Step(s, t, OK)
  {
  }

  lemma QuietStep(s: State, t: nat, a: Action)
    requires Inv(s) && Enabled(s, t, a) && SafeWrite(s, t, a) && Quiet(s)
    ensures Quiet(Step(s, t, a))
  {
    var s' := Step(s, t, a);
    forall id | IsCancelled(s', id) ensures Harmless(s', id) {
      if IsCancelled(s, id) {
        assert Left(s, id);
        hide Step, Enabled, Inv, IsCancelled;
        HarmlessStep(s, t, a, id);
      } else {
        CancelledHere(s, t, a, id);
      }
    }
  }

  lemma CancelledHere(s: State, t: nat, a: Action, id: nat)
    requires Inv(s) && Enabled(s, t, a) && SafeWrite(s, t, a) && IsCancelled(Step(s, t, a), id) && !IsCancelled(s, id)
    ensures Harmless(Step(s, t, a), id)
  {
    if !(a.Advance? && a.outcome.ok && s.calls[t] == CancelUnlocked(id)) {
      NotCancelledBy(s, t, a, id);
      assert false;
    }
    assert ThreadInv(s, s.calls[t]);
    hide Inv, Step, Enabled, Harmless, SafeToCancel;
    WriteAsOK(s, t, a, id);
    SafeMeansHarmless(s, t, id);
  }

  /** If every write of `Cancel` is safe, no transaction of a cancelled batch was ever sent. */
  lemma {:induction false} CancelledMeansUnsent(s: State, run: seq<Move>, end: State)
    requires Inv(s) && Quiet(s) && Runs(s, run, end) && WritesSafe(s, run)
    ensures forall id :: IsCancelled(end, id) ==> Unsent(end, id)
    decreases |run|
  {
    if run != [] {
      var t, a := run[0].thread, run[0].action;
      hide Inv, Quiet, Step, Enabled, SafeWrite;
      InvStep(s, t, a);
      QuietStep(s, t, a);
      CancelledMeansUnsent(Step(s, t, a), run[1..], end);
    }
  }

  lemma InitialIsQuiet(s: State)
    requires Initial(s)
    ensures Inv(s) && Quiet(s)
  {
  }

  // ----- A run with a late write -----

  lemma {:induction false} Append(s: State, first: seq<Move>, mid: State, second: seq<Move>, end: State)
    requires Runs(s, first, mid) && Runs(mid, second, end)
    ensures Runs(s, first + second, end)
    decreases |first|
  {
    hide Step;
    if first == [] {
      assert first + second == second;
    } else {
      Append(Step(s, first[0].thread, first[0].action), first[1..], mid, second, end);
      assert (first + second)[1..] == first[1..] + second;
    }
  }

  /** Batch 7 with its one transaction 5, thread 0 cancelling and thread 1 processing. */
  function Race(status: Status, tx: TxStatus, canceller: Pc, processor: Pc, processing: set<nat>, sent: seq<nat>): State {
    State(processing, map[7 := Batch(1, status)], map[5 := Tx(7, tx)], map[0 := canceller, 1 := processor], sent)
  }

  const GO := Advance(Outcome(true, [], 5))

  lemma TwoMoves(x: State, t: nat, a: Action, y: State, b: Action, z: State)
    requires Enabled(x, t, a) && Step(x, t, a) == y && Enabled(y, t, b) && Step(y, t, b) == z
    ensures Runs(x, [Move(t, a), Move(t, b)], z)
  {
    hide Step;
    assert [Move(t, b)][1..] == [] && Runs(z, [], z);
    assert Runs(y, [Move(t, b)], z);
    assert [Move(t, a), Move(t, b)][1..] == [Move(t, b)];
  }

  lemma RaceChecks()
    ensures Runs(Race(Pending, TxPending, Idle, Idle, {}, []), [Move(0, CallCancel(7, 1)), Move(0, GO)],
                 Race(Pending, TxPending, CancelUnlocked(7), Idle, {}, []))
  {
    hide Runs;
    TwoMoves(Race(Pending, TxPending, Idle, Idle, {}, []), 0, CallCancel(7, 1),
             Race(Pending, TxPending, CancelSawPending(7), Idle, {}, []), GO,
             Race(Pending, TxPending, CancelUnlocked(7), Idle, {}, []));
  }

  const SENDS_ALL: nat -> bool := x => true

  lemma RaceRows()
    ensures PendingRows(Race(Pending, TxPending, CancelUnlocked(7), Idle, {}, []), 7, [5])
    ensures Delivered([5], SENDS_ALL) == 1
    ensures Answered(map[5 := Tx(7, TxPending)], [5], SENDS_ALL) == map[5 := Tx(7, TxSubmitted)]
  {
  }

  /** A whole `Process` between the check of `Cancel` and its write. */
  lemma RaceProcesses() returns (run: seq<Move>)
    ensures Runs(Race(Pending, TxPending, CancelUnlocked(7), Idle, {}, []), run,
                 Race(Completed, TxSubmitted, CancelUnlocked(7), Idle, {}, [5]))
  {
    hide Runs, OnlyBy, PendingRows, Delivered, Answered;
    RaceRows();
    var s := Race(Pending, TxPending, CancelUnlocked(7), Idle, {}, []);
    var end;
    run, end := LoneProcess(s, 1, 7, [5], SENDS_ALL);
    assert s.batches[7 := Batch(1, Completed)] == map[7 := Batch(1, Completed)];
    assert end == Race(Completed, TxSubmitted, CancelUnlocked(7), Idle, {}, [5]);
  }

  lemma RaceEnds()
    ensures Step(Race(Completed, TxSubmitted, CancelUnlocked(7), Idle, {}, [5]), 0, GO)
         == Race(Cancelled, TxSubmitted, CancelMarked(7), Idle, {}, [5])
    ensures Step(Race(Cancelled, TxSubmitted, CancelMarked(7), Idle, {}, [5]), 0, GO)
         == Race(Cancelled, TxSubmitted, Idle, Idle, {}, [5])
  {
    var s := Race(Cancelled, TxSubmitted, CancelMarked(7), Idle, {}, [5]);
    assert CancelTxs(s, 7).txs == s.txs;
  }

  lemma RaceCancels()
    ensures Runs(Race(Completed, TxSubmitted, CancelUnlocked(7), Idle, {}, [5]), [Move(0, GO), Move(0, GO)],
                 Race(Cancelled, TxSubmitted, Idle, Idle, {}, [5]))
  {
    RaceEnds();
    hide Runs, Step;
    TwoMoves(Race(Completed, TxSubmitted, CancelUnlocked(7), Idle, {}, [5]), 0, GO,
             Race(Cancelled, TxSubmitted, CancelMarked(7), Idle, {}, [5]), GO,
             Race(Cancelled, TxSubmitted, Idle, Idle, {}, [5]));
  }

  /**
   * The mutex does not cover the write of `Cancel`: a batch can end cancelled although its transaction was
   * submitted, when a whole `Process` runs between the check of `Cancel` and its write.
   */
  lemma LateCancel() returns (s: State, run: seq<Move>, end: State)
    ensures Initial(s) && Runs(s, run, end) && !WritesSafe(s, run)
    ensures IsCancelled(end, 7) && end.sent == [5] && end.txs == map[5 := Tx(7, TxSubmitted)]
    ensures forall t :: t in end.calls ==> end.calls[t] == Idle
  {
    hide Runs, WritesSafe, Inv, Quiet, Enabled, Step;
    s := Race(Pending, TxPending, Idle, Idle, {}, []);
    InitialIsQuiet(s);
    end := Race(Cancelled, TxSubmitted, Idle, Idle, {}, [5]);
    var processing := RaceProcesses();
    RaceChecks();
    RaceCancels();
    Append(Race(Pending, TxPending, CancelUnlocked(7), Idle, {}, []), processing,
           Race(Completed, TxSubmitted, CancelUnlocked(7), Idle, {}, [5]), [Move(0, GO), Move(0, GO)], end);
    run := [Move(0, CallCancel(7, 1)), Move(0, GO)] + (processing + [Move(0, GO), Move(0, GO)]);
    Append(s, [Move(0, CallCancel(7, 1)), Move(0, GO)], Race(Pending, TxPending, CancelUnlocked(7), Idle, {}, []),
           processing + [Move(0, GO), Move(0, GO)], end);
    assert !Unsent(end, 7) by { assert 5 in end.sent; }
    if WritesSafe(s, run) {
      CancelledMeansUnsent(s, run, end);
    }
  }
}
