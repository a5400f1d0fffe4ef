/**
 * The calls of internal/batch/batch.go as an interleaving of their atomic steps: one step is one
 * section under the mutex, one SQL statement, or one `provider.Send`.
 */
module BatchProtocol {
  import opened BatchStatus
  import opened Collections

  datatype Batch = Batch(user: nat, status: Status)

  datatype Tx = Tx(batch: nat, status: TxStatus)

  /** Where a caller's thread stands; every constructor of `Process` from `Locked` on holds its batch's entry. */
  datatype Pc =
    | Idle
    // Process
    | Locked(id: nat)
    | SawPending(id: nat)
    | Marked(id: nat)
    | Sending(id: nat, todo: seq<nat>, succeeded: nat, failed: nat)
    | Recording(id: nat, todo: seq<nat>, succeeded: nat, failed: nat, delivered: bool)
    | Releasing(id: nat)
    // Cancel
    | CancelSawPending(id: nat)
    | CancelUnlocked(id: nat)
    | CancelMarked(id: nat)
    // Create
    | Inserting(id: nat, left: nat)

  datatype State = State(
    processing: set<nat>,
    batches: map<nat, Batch>,
    txs: map<nat, Tx>,
    calls: map<nat, Pc>,
    sent: seq<nat>)   // every transaction handed to `provider.Send`, in order

  /** The outcome of what a step asks of the database or the provider. */
  datatype Outcome = Outcome(ok: bool, rows: seq<nat>, freshTx: nat)

  datatype Action =
    | CallProcess(id: nat)
    | CallCancel(id: nat, user: nat)
    | CallCreate(id: nat, user: nat, count: nat)
    | Advance(outcome: Outcome)

  function SetStatus(s: State, id: nat, status: Status): State {
    if id in s.batches then s.(batches := s.batches[id := s.batches[id].(status := status)]) else s
  }

  function SetTx(s: State, tx: nat, status: TxStatus): State {
    if tx in s.txs then s.(txs := s.txs[tx := s.txs[tx].(status := status)]) else s
  }

  function CancelTxs(s: State, id: nat): State {
    s.(txs := map x | x in s.txs ::
      if s.txs[x].batch == id && s.txs[x].status == TxPending then s.txs[x].(status := TxCancelled) else s.txs[x])
  }

  /** What GetTransactions hands to the sending loop: the pending rows of the batch, in some order. */
  ghost predicate PendingRows(s: State, id: nat, rows: seq<nat>) {
    && Distinct(rows)
    && forall x :: x in rows <==> x in s.txs && s.txs[x].batch == id && s.txs[x].status == TxPending
  }

  ghost predicate Enabled(s: State, t: nat, a: Action) {
    && t in s.calls
    && match a
       case CallProcess(_) => s.calls[t].Idle?
       case CallCancel(_, _) => s.calls[t].Idle?
       case CallCreate(id, _, count) => s.calls[t].Idle? && id !in s.batches && 1 <= count <= 100
       case Advance(o) =>
         && !s.calls[t].Idle?
         && (s.calls[t].Marked? ==> PendingRows(s, s.calls[t].id, o.rows))
         && (s.calls[t].Inserting? ==> o.freshTx !in s.txs)
  }

  /** The shared state after a thread's step, and where the thread stands then. */
  ghost function Effect(s: State, pc: Pc, a: Action): (State, Pc) {
    match a
    case CallProcess(id) =>
      if id in s.processing then (s, Idle) else (s.(processing := s.processing + {id}), Locked(id))
    case CallCancel(id, user) =>
      if id in s.batches && s.batches[id] == Batch(user, Pending) then (s, CancelSawPending(id)) else (s, Idle)
    case CallCreate(id, user, count) =>
      (s.(batches := s.batches[id := Batch(user, Pending)]), Inserting(id, count))
    case Advance(o) =>
      match pc
      case Idle => (s, Idle)
      case Locked(id) =>
        if o.ok && id in s.batches && s.batches[id].status == Pending then (s, SawPending(id)) else (s, Releasing(id))
      case SawPending(id) =>
        if o.ok then (SetStatus(s, id, Processing), Marked(id)) else (s, Releasing(id))
      case Marked(id) =>
        if o.ok then (s, Sending(id, o.rows, 0, 0)) else (s, Releasing(id))
      case Sending(id, todo, succeeded, failed) =>
        if todo == [] then
          (if o.ok then SetStatus(s, id, Final(succeeded, failed)) else s, Releasing(id))
        else
          (s.(sent := s.sent + [todo[0]]), Recording(id, todo, succeeded, failed, o.ok))
      case Recording(id, todo, succeeded, failed, delivered) =>
        var s' := if o.ok && todo != [] then SetTx(s, todo[0], if delivered then TxSubmitted else TxFailed) else s;
        var rest := if todo == [] then [] else todo[1..];
        (s', if delivered then Sending(id, rest, succeeded + 1, failed) else Sending(id, rest, succeeded, failed + 1))
      case Releasing(id) =>
        (s.(processing := s.processing - {id}), Idle)
      case CancelSawPending(id) =>
        (s, if id in s.processing then Idle else CancelUnlocked(id))
      case CancelUnlocked(id) =>
        if o.ok then (SetStatus(s, id, Cancelled), CancelMarked(id)) else (s, Idle)
      case CancelMarked(id) =>
        (if o.ok then CancelTxs(s, id) else s, Idle)
      case Inserting(id, left) =>
        if o.ok && left > 0 then (s.(txs := s.txs[o.freshTx := Tx(id, TxPending)]), Inserting(id, left - 1)) else (s, Idle)
  }

  ghost function Step(s: State, t: nat, a: Action): State
    requires t in s.calls
  {
    var (s', pc) := Effect(s, s.calls[t], a);
    s'.(calls := s'.calls[t := pc])
  }

  /** A manager just started over existing tables, in which transactions belong to batches. */
  ghost predicate Initial(s: State) {
    && s.processing == {} && s.sent == []
    && (forall t :: t in s.calls ==> s.calls[t] == Idle)
    && (forall x :: x in s.txs ==> s.txs[x].batch in s.batches)
  }

  datatype Move = Move(thread: nat, action: Action)

  /** `run` is a run of the manager that starts in `s` and ends in `end`. */
  ghost predicate Runs(s: State, run: seq<Move>, end: State)
    decreases |run|
  {
    if run == [] then s == end else
      Enabled(s, run[0].thread, run[0].action) && Runs(Step(s, run[0].thread, run[0].action), run[1..], end)
  }

  // ----- At most once -----

  predicate Holds(pc: Pc) {
    pc.Locked? || pc.SawPending? || pc.Marked? || pc.Sending? || pc.Recording? || pc.Releasing?
  }

  ghost predicate Unsent(s: State, id: nat) {
    forall x :: x in s.sent && x in s.txs ==> s.txs[x].batch != id
  }

  predicate Left(s: State, id: nat) {
    id in s.batches && s.batches[id].status != Pending
  }

  ghost predicate Queue(s: State, id: nat, todo: seq<nat>) {
    Distinct(todo) && forall x :: x in todo ==> x in s.txs && s.txs[x].batch == id && x !in s.sent
  }

  /** What one thread may rely on. */
  ghost predicate ThreadInv(s: State, pc: Pc) {
    && (Holds(pc) ==> pc.id in s.processing)
    && (pc.SawPending? ==> pc.id in s.batches && Unsent(s, pc.id))
    && (pc.Marked? ==> Left(s, pc.id) && Unsent(s, pc.id))
    && (pc.Sending? ==> Left(s, pc.id) && Queue(s, pc.id, pc.todo))
    && (pc.Recording? ==> Left(s, pc.id) && pc.todo != [] && Queue(s, pc.id, pc.todo[1..]))
    && (pc.Inserting? || pc.CancelSawPending? || pc.CancelUnlocked? || pc.CancelMarked? ==> pc.id in s.batches)
  }

  ghost predicate DataInv(s: State) {
    && (forall x :: x in s.txs ==> s.txs[x].batch in s.batches)
    && (forall x :: x in s.sent ==> x in s.txs && Left(s, s.txs[x].batch))
    && Distinct(s.sent)
  }

  ghost predicate Exclusive(s: State) {
    forall t, u :: t in s.calls && u in s.calls && t != u && Holds(s.calls[t]) && Holds(s.calls[u])
      ==> s.calls[t].id != s.calls[u].id
  }

  ghost predicate Inv(s: State) {
    && DataInv(s)
    && Exclusive(s)
    && forall t :: t in s.calls ==> ThreadInv(s, s.calls[t])
  }

  /** No step takes a batch back to pending or loses a row, and only the thread's own batch is sent from. */
  lemma EffectFrame(s: State, pc: Pc, a: Action)
    requires DataInv(s) && ThreadInv(s, pc)
    ensures var s' := Effect(s, pc, a).0;
      && (forall id :: id in s.batches ==> id in s'.batches)
      && ((a.CallCreate? ==> a.id !in s.batches) ==> forall id :: Left(s, id) ==> Left(s', id))
      && (forall x :: x in s.txs && (a.Advance? && pc.Inserting? ==> x != a.outcome.freshTx)
            ==> x in s'.txs && s'.txs[x].batch == s.txs[x].batch)
      && (forall x :: x in s'.sent && x !in s.sent ==> Holds(pc) && pc.Sending? && pc.todo != [] && x == pc.todo[0])
      && (forall x :: x in s.sent ==> x in s'.sent)
  {
  }

  lemma DataStep(s: State, t: nat, a: Action)
    requires Inv(s) && Enabled(s, t, a)
    ensures DataInv(Step(s, t, a))
  {
    var pc := s.calls[t];
    assert ThreadInv(s, pc);
    EffectFrame(s, pc, a);
    if a.Advance? && pc.Sending? && pc.todo != [] {
      assert pc.todo[0] in pc.todo;
    }
  }

  lemma OwnSending(s: State, t: nat, a: Action)
    requires DataInv(s) && Enabled(s, t, a) && ThreadInv(s, s.calls[t]) && a.Advance? && s.calls[t].Sending?
    ensures ThreadInv(Step(s, t, a), Step(s, t, a).calls[t])
  {
    var pc := s.calls[t];
    if pc.todo != [] {
      assert forall x :: x in pc.todo[1..] ==> x in pc.todo && x != pc.todo[0];
    }
  }

  lemma OwnOther(s: State, t: nat, a: Action)
    requires DataInv(s) && Enabled(s, t, a) && ThreadInv(s, s.calls[t]) && !(a.Advance? && s.calls[t].Sending?)
    ensures ThreadInv(Step(s, t, a), Step(s, t, a).calls[t])
  {
  }

  lemma OwnStep(s: State, t: nat, a: Action)
    requires Inv(s) && Enabled(s, t, a)
    ensures ThreadInv(Step(s, t, a), Step(s, t, a).calls[t])
  {
    assert ThreadInv(s, s.calls[t]);
    hide ThreadInv, Step, DataInv, Exclusive;
    if a.Advance? && s.calls[t].Sending? {
      OwnSending(s, t, a);
    } else {
      OwnOther(s, t, a);
    }
  }

  lemma OtherStep(s: State, t: nat, a: Action, other: Pc)
    requires Inv(s) && Enabled(s, t, a) && ThreadInv(s, other)
    requires Holds(other) && Holds(s.calls[t]) ==> other.id != s.calls[t].id
    ensures ThreadInv(Step(s, t, a), other)
  {
    var pc := s.calls[t];
    assert ThreadInv(s, pc);
    EffectFrame(s, pc, a);
    if a.Advance? && pc.Sending? && pc.todo != [] {
      assert pc.todo[0] in pc.todo;
    }
  }

  lemma OthersApart(s: State, t: nat, u: nat)
    requires Exclusive(s) && t in s.calls && u in s.calls && t != u
    ensures Holds(s.calls[u]) && Holds(s.calls[t]) ==> s.calls[u].id != s.calls[t].id
  {
  }

  /** A thread comes to hold an entry only when nobody holds it. */
  lemma EntryTaken(s: State, pc: Pc, a: Action)
    requires a.Advance? || pc.Idle?
    ensures var (s', pc') := Effect(s, pc, a);
      && s'.calls == s.calls
      && (Holds(pc') ==> (Holds(pc) && pc'.id == pc.id) || pc'.id !in s.processing)
  {
  }

  lemma ExclusiveStep(s: State, t: nat, a: Action)
    requires Inv(s) && Enabled(s, t, a)
    ensures Exclusive(Step(s, t, a)) && Step(s, t, a).calls.Keys == s.calls.Keys
    ensures forall u :: u in s.calls && u != t ==> Step(s, t, a).calls[u] == s.calls[u]
  {
    EntryTaken(s, s.calls[t], a);
    assert forall u :: u in s.calls && Holds(s.calls[u]) ==> s.calls[u].id in s.processing by {
      assert forall u :: u in s.calls ==> ThreadInv(s, s.calls[u]);
    }
    hide Effect, ThreadInv, DataInv;
  }

  lemma InvStep(s: State, t: nat, a: Action)
    requires Inv(s) && Enabled(s, t, a)
    ensures Inv(Step(s, t, a))
  {
    DataStep(s, t, a);
    ExclusiveStep(s, t, a);
    hide ThreadInv, DataInv, Exclusive, Effect, Enabled;
    forall u | u in s.calls ensures ThreadInv(Step(s, t, a), Step(s, t, a).calls[u]) {
      if u == t {
        OwnStep(s, t, a);
      } else {
        OthersApart(s, t, u);
        OtherStep(s, t, a, s.calls[u]);
      }
    }
  }

  lemma {:induction false} InvRuns(s: State, run: seq<Move>, end: State)
    requires Inv(s) && Runs(s, run, end)
    ensures Inv(end)
    decreases |run|
  {
    if run != [] {
      InvStep(s, run[0].thread, run[0].action);
      InvRuns(Step(s, run[0].thread, run[0].action), run[1..], end);
    }
  }

  /** In every interleaving each transaction is handed to the provider at most once. */
  lemma SentAtMostOnce(s: State, run: seq<Move>, end: State)
    requires Initial(s) && Runs(s, run, end)
    ensures Distinct(end.sent)
  {
    InvRuns(s, run, end);
  }

  // ----- A call that nobody interrupts -----

  ghost predicate OnlyBy(run: seq<Move>, t: nat) {
    forall i :: 0 <= i < |run| ==> run[i].thread == t
  }

  lemma TwoThen(s: State, t: nat, a: Action, b: Action, rest: seq<Move>, end: State)
    requires Enabled(s, t, a) && Enabled(Step(s, t, a), t, b) && Runs(Step(Step(s, t, a), t, b), rest, end) && OnlyBy(rest, t)
    ensures Runs(s, [Move(t, a), Move(t, b)] + rest, end) && OnlyBy([Move(t, a), Move(t, b)] + rest, t)
  {
    hide Enabled, Step;
    var run := [Move(t, a), Move(t, b)] + rest;
    assert run[1..] == [Move(t, b)] + rest && run[1..][1..] == rest;
  }

  function Answered(txs: map<nat, Tx>, rows: seq<nat>, delivers: nat -> bool): map<nat, Tx> {
    map x | x in txs :: if x in rows then txs[x].(status := if delivers(x) then TxSubmitted else TxFailed) else txs[x]
  }

  function Delivered(rows: seq<nat>, delivers: nat -> bool): (n: nat)
    ensures n <= |rows|
  {
    if rows == [] then 0 else (if delivers(rows[0]) then 1 else 0) + Delivered(rows[1..], delivers)
  }

  const OK := Advance(Outcome(true, [], 0))

  lemma OneRowSent(s: State, t: nat, id: nat, todo: seq<nat>, succeeded: nat, failed: nat, ok: bool)
    requires t in s.calls && s.calls[t] == Sending(id, todo, succeeded, failed) && todo != [] && todo[0] in s.txs
    ensures Enabled(s, t, Advance(Outcome(ok, [], 0))) && Enabled(Step(s, t, Advance(Outcome(ok, [], 0))), t, OK)
    ensures Step(Step(s, t, Advance(Outcome(ok, [], 0))), t, OK)
         == State(s.processing, s.batches,
                  s.txs[todo[0] := s.txs[todo[0]].(status := if ok then TxSubmitted else TxFailed)],
                  s.calls[t := if ok then Sending(id, todo[1..], succeeded + 1, failed) else Sending(id, todo[1..], succeeded, failed + 1)],
                  s.sent + [todo[0]])
  {
  }

  lemma LastRowSent(s: State, t: nat, id: nat, succeeded: nat, failed: nat)
    requires t in s.calls && s.calls[t] == Sending(id, [], succeeded, failed) && id in s.batches
    ensures Enabled(s, t, OK) && Enabled(Step(s, t, OK), t, OK)
    ensures Step(Step(s, t, OK), t, OK)
         == State(s.processing - {id}, s.batches[id := s.batches[id].(status := Final(succeeded, failed))], s.txs,
                  s.calls[t := Idle], s.sent)
  {
  }

  /** The state in which the sending loop of thread `t` leaves `s` once it has handled `todo`. */
  function AllSent(s: State, t: nat, id: nat, todo: seq<nat>, succeeded: nat, failed: nat, delivers: nat -> bool): State
    requires id in s.batches
  {
    var n := Delivered(todo, delivers);
    State(s.processing - {id}, s.batches[id := s.batches[id].(status := Final(succeeded + n, failed + |todo| - n))],
          Answered(s.txs, todo, delivers), s.calls[t := Idle], s.sent + todo)
  }

  lemma NoneLeft(s: State, t: nat, id: nat, succeeded: nat, failed: nat, delivers: nat -> bool)
    requires id in s.batches
    ensures AllSent(s, t, id, [], succeeded, failed, delivers)
         == State(s.processing - {id}, s.batches[id := s.batches[id].(status := Final(succeeded, failed))], s.txs,
                  s.calls[t := Idle], s.sent)
  {
    assert Answered(s.txs, [], delivers) == s.txs && s.sent + [] == s.sent;
  }

  lemma OneLess(s: State, t: nat, id: nat, todo: seq<nat>, succeeded: nat, failed: nat, delivers: nat -> bool)
    requires id in s.batches && todo != [] && todo[0] in s.txs
    ensures var x, ok := todo[0], delivers(todo[0]);
      var s' := State(s.processing, s.batches, s.txs[x := s.txs[x].(status := if ok then TxSubmitted else TxFailed)],
                      s.calls[t := if ok then Sending(id, todo[1..], succeeded + 1, failed)
                                   else Sending(id, todo[1..], succeeded, failed + 1)],
                      s.sent + [x]);
      AllSent(s', t, id, todo[1..], if ok then succeeded + 1 else succeeded, if ok then failed else failed + 1, delivers)
        == AllSent(s, t, id, todo, succeeded, failed, delivers)
  {
    AnsweredInTurn(s.txs, todo, delivers);
    hide Answered, Final;
    assert s.sent + [todo[0]] + todo[1..] == s.sent + todo;
  }

  lemma {:induction false} RowsSent(s: State, t: nat, id: nat, todo: seq<nat>, succeeded: nat, failed: nat, delivers: nat -> bool)
    returns (run: seq<Move>, end: State)
    requires t in s.calls && s.calls[t] == Sending(id, todo, succeeded, failed) && id in s.batches
    requires forall i :: 0 <= i < |todo| ==> todo[i] in s.txs
    ensures Runs(s, run, end) && OnlyBy(run, t)
    ensures end == AllSent(s, t, id, todo, succeeded, failed, delivers)
    decreases |todo|
  {
    hide Runs, Enabled, Step, OnlyBy, AllSent;
    if todo == [] {
      LastRowSent(s, t, id, succeeded, failed);
      NoneLeft(s, t, id, succeeded, failed, delivers);
      end := Step(Step(s, t, OK), t, OK);
      NoMoves(end, t);
      TwoThen(s, t, OK, OK, [], end);
      run := [Move(t, OK), Move(t, OK)] + [];
    } else {
      var ok := delivers(todo[0]);
      var a := Advance(Outcome(ok, [], 0));
      OneRowSent(s, t, id, todo, succeeded, failed, ok);
      OneLess(s, t, id, todo, succeeded, failed, delivers);
      var rest;
      rest, end := RowsSent(Step(Step(s, t, a), t, OK), t, id, todo[1..], if ok then succeeded + 1 else succeeded,
                            if ok then failed else failed + 1, delivers);
      TwoThen(s, t, a, OK, rest, end);
      run := [Move(t, a), Move(t, OK)] + rest;
    }
  }

  lemma NoMoves(s: State, t: nat)
    ensures Runs(s, [], s) && OnlyBy([], t)
  {
  }

  lemma AnsweredInTurn(txs: map<nat, Tx>, rows: seq<nat>, delivers: nat -> bool)
    requires rows != [] && rows[0] in txs
    ensures var x := rows[0];
      Answered(txs[x := txs[x].(status := if delivers(x) then TxSubmitted else TxFailed)], rows[1..], delivers)
        == Answered(txs, rows, delivers)
  {
    assert rows == [rows[0]] + rows[1..];
  }

  lemma LoneStart(s: State, t: nat, id: nat, rows: seq<nat>)
    requires t in s.calls && s.calls[t] == Idle && id !in s.processing && id in s.batches && s.batches[id].status == Pending
    requires PendingRows(s, id, rows)
    ensures var s1 := Step(s, t, CallProcess(id));
      var s2 := Step(s1, t, OK);
      var s3 := Step(s2, t, OK);
      && Enabled(s, t, CallProcess(id)) && Enabled(s1, t, OK) && Enabled(s2, t, OK)
      && Enabled(s3, t, Advance(Outcome(true, rows, 0)))
      && Step(s3, t, Advance(Outcome(true, rows, 0)))
         == State(s.processing + {id}, s.batches[id := s.batches[id].(status := Processing)], s.txs,
                  s.calls[t := Sending(id, rows, 0, 0)], s.sent)
  {
    hide Distinct;
  }

  /**
   * A `Process` that nobody interrupts, on a pending batch, does its whole work: it sends each pending transaction of the
   * batch, once, records every answer and the final status, and releases the entry.
   */
  lemma LoneProcess(s: State, t: nat, id: nat, rows: seq<nat>, delivers: nat -> bool) returns (run: seq<Move>, end: State)
    requires t in s.calls && s.calls[t] == Idle && id !in s.processing && id in s.batches && s.batches[id].status == Pending
    requires PendingRows(s, id, rows)
    ensures Runs(s, run, end) && OnlyBy(run, t)
    ensures var n := Delivered(rows, delivers);
      end == State(s.processing, s.batches[id := s.batches[id].(status := Final(n, |rows| - n))],
                   Answered(s.txs, rows, delivers), s.calls, s.sent + rows)
  {
    assert forall i :: 0 <= i < |rows| ==> rows[i] in s.txs;
    hide Runs, Enabled, Step, OnlyBy, PendingRows, AllSent;
    LoneStart(s, t, id, rows);
    LoneEnd(s, t, id, rows, delivers);
    var s2 := Step(Step(s, t, CallProcess(id)), t, OK);
    var fetch := Advance(Outcome(true, rows, 0));
    run, end := RowsSent(Step(Step(s2, t, OK), t, fetch), t, id, rows, 0, 0, delivers);
    TwoThen(s2, t, OK, fetch, run, end);
    run := [Move(t, OK), Move(t, fetch)] + run;
    TwoThen(s, t, CallProcess(id), OK, run, end);
    run := [Move(t, CallProcess(id)), Move(t, OK)] + run;
  }

  lemma LoneEnd(s: State, t: nat, id: nat, rows: seq<nat>, delivers: nat -> bool)
    requires t in s.calls && s.calls[t] == Idle && id !in s.processing && id in s.batches
    ensures var s' := State(s.processing + {id}, s.batches[id := s.batches[id].(status := Processing)], s.txs,
                            s.calls[t := Sending(id, rows, 0, 0)], s.sent);
      var n := Delivered(rows, delivers);
      AllSent(s', t, id, rows, 0, 0, delivers)
        == State(s.processing, s.batches[id := s.batches[id].(status := Final(n, |rows| - n))],
                 Answered(s.txs, rows, delivers), s.calls, s.sent + rows)
  {
    hide Answered, Delivered, Final;
    assert s.processing + {id} - {id} == s.processing;
  }

  lemma OneInserted(s: State, t: nat, id: nat, x: nat, left: nat)
    requires t in s.calls && s.calls[t] == Inserting(id, left) && left > 0 && x !in s.txs
    ensures var a := Advance(Outcome(true, [], x));
      Enabled(s, t, a) && Step(s, t, a) == s.(txs := s.txs[x := Tx(id, TxPending)], calls := s.calls[t := Inserting(id, left - 1)])
  {
  }
}
