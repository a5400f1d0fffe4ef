/** The calls of internal/batch/batch.go, each run to its end before the next: counts, statuses and the 64-bit total. */
module BatchManager {
  import opened BatchStatus
  import opened Wrappers

  const MAX_BATCH_SIZE: nat := 100
  const MIN_INT64: int := -0x8000_0000_0000_0000
  const MAX_INT64: int := 0x7fff_ffff_ffff_ffff

  type Int64 = x: int | MIN_INT64 <= x <= MAX_INT64

  datatype Error = BatchNotFound | BatchNotPending | BatchEmpty | BatchProcessing | TxLimitExceeded

  datatype Input = Input(from: string, to: string, amount: Int64)

  datatype Batch = Batch(user: nat, status: Status, totalAmount: Int64, txCount: nat, processedCount: nat)

  datatype Tx = Tx(batch: nat, input: Input, status: TxStatus)

  // ----- The total and its 64-bit width -----

  /** The value an int64 holds after an addition whose exact result is `x`. */
  function Wrap64(x: int): (r: Int64) {
    (x - MIN_INT64) % 0x1_0000_0000_0000_0000 + MIN_INT64
  }

  function Total(inputs: seq<Input>): int {
    if inputs == [] then 0 else Total(inputs[..|inputs| - 1]) + inputs[|inputs| - 1].amount
  }

  lemma WrapStep(x: int, y: int)
    ensures Wrap64(Wrap64(x) + y) == Wrap64(x + y)
  {
  }

  /** The stored total is the exact sum precisely when the sum fits in 64 bits. */
  lemma ExactIff(inputs: seq<Input>)
    ensures Wrap64(Total(inputs)) == Total(inputs) <==> MIN_INT64 <= Total(inputs) <= MAX_INT64
    ensures (Total(inputs) - Wrap64(Total(inputs))) % 0x1_0000_0000_0000_0000 == 0
  {
  }

  lemma {:induction false} TotalConcat(a: seq<Input>, b: seq<Input>)
    ensures Total(a + b) == Total(a) + Total(b)
    ensures |b| == 1 ==> Total(b) == b[0].amount
  {
    if b == [] {
      assert a + b == a;
    } else {
      TotalConcat(a, b[..|b| - 1]);
      assert (a + b)[..|a + b| - 1] == a + b[..|b| - 1];
    }
  }

  lemma {:induction false} TotalBound(inputs: seq<Input>, bound: int)
    requires bound >= 0 && forall i :: 0 <= i < |inputs| ==> -bound <= inputs[i].amount <= bound
    ensures -(bound * |inputs|) <= Total(inputs) <= bound * |inputs|
  {
    if inputs != [] {
      var n := |inputs|;
      TotalBound(inputs[..n - 1], bound);
      assert bound * n == bound * (n - 1) + bound;
    }
  }

  /** With at most 100 amounts, each within a hundredth of the int64 range, the stored total is the exact sum. */
  lemma NoOverflow(inputs: seq<Input>)
    requires |inputs| <= MAX_BATCH_SIZE
    requires forall i :: 0 <= i < |inputs| ==> -(MAX_INT64 / 100) <= inputs[i].amount <= MAX_INT64 / 100
    ensures Wrap64(Total(inputs)) == Total(inputs)
  {
    var bound := MAX_INT64 / 100;
    TotalBound(inputs, bound);
    assert bound * |inputs| <= bound * 100;
  }

  // ----- The manager -----

  function Members(txs: map<nat, Tx>, id: nat): set<nat> {
    set x | x in txs && txs[x].batch == id
  }

  function PendingMembers(txs: map<nat, Tx>, id: nat): set<nat> {
    set x | x in txs && txs[x].batch == id && txs[x].status == TxPending
  }

  /** The ids handed out to `n` rows inserted one after the other. */
  ghost function Ids(from: nat, n: nat): (r: set<nat>)
    ensures |r| == n && forall x :: x in r <==> from <= x < from + n
  {
    if n == 0 then {} else Ids(from, n - 1) + {from + n - 1}
  }

  /** A pending batch has all its transactions, all pending; no other batch has one. */
  ghost predicate Consistent(batches: map<nat, Batch>, txs: map<nat, Tx>) {
    && (forall x :: x in txs ==> txs[x].batch in batches)
    && (forall id :: id in batches ==> |Members(txs, id)| == batches[id].txCount >= 1)
    && (forall id :: id in batches && batches[id].status == Pending ==> batches[id].processedCount == 0)
    && (forall x :: x in txs ==> (txs[x].status == TxPending <==> batches[txs[x].batch].status == Pending))
  }

  lemma Settle(batches: map<nat, Batch>, txs: map<nat, Tx>, id: nat, batch: Batch, txs': map<nat, Tx>)
    requires Consistent(batches, txs) && id in batches
    requires batch.status != Pending && batch.txCount == batches[id].txCount
    requires txs'.Keys == txs.Keys
    requires forall x :: x in txs ==> txs'[x].batch == txs[x].batch
    requires forall x :: x in txs && txs[x].batch != id ==> txs'[x] == txs[x]
    requires forall x :: x in txs && txs[x].batch == id ==> txs'[x].status != TxPending
    ensures Consistent(batches[id := batch], txs')
  {
    forall b | b in batches ensures Members(txs', b) == Members(txs, b) {
    }
    hide Members;
  }

  /** The table with one pending row for each input, under consecutive ids. */
  ghost function Inserted(txs: map<nat, Tx>, from: nat, id: nat, inputs: seq<Input>): (r: map<nat, Tx>)
    ensures forall x :: x in r <==> x in txs || from <= x < from + |inputs|
    ensures forall x :: from <= x < from + |inputs| ==> r[x] == Tx(id, inputs[x - from], TxPending)
    ensures forall x :: x in txs && x < from ==> r[x] == txs[x]
  {
    txs + map x | x in Ids(from, |inputs|) :: Tx(id, inputs[x - from], TxPending)
  }

  lemma InsertNone(txs: map<nat, Tx>, from: nat, id: nat, inputs: seq<Input>)
    ensures Inserted(txs, from, id, inputs[..0]) == txs && inputs[..|inputs|] == inputs
  {
  }

  lemma InsertOne(txs: map<nat, Tx>, from: nat, id: nat, inputs: seq<Input>, i: nat)
    requires i < |inputs|
    ensures Inserted(txs, from, id, inputs[..i + 1]) == Inserted(txs, from, id, inputs[..i])[from + i := Tx(id, inputs[i], TxPending)]
  {
  }

  lemma InsertedMembers(txs: map<nat, Tx>, from: nat, id: nat, inputs: seq<Input>)
    requires forall x :: x in txs ==> x < from && txs[x].batch != id
    ensures Members(Inserted(txs, from, id, inputs), id) == Ids(from, |inputs|)
    ensures forall b :: b != id ==> Members(Inserted(txs, from, id, inputs), b) == Members(txs, b)
  {
  }

  lemma CreatesMembers(batches: map<nat, Batch>, txs: map<nat, Tx>, id: nat, batch: Batch, txs': map<nat, Tx>)
    requires Consistent(batches, txs) && id !in batches
    requires |Members(txs', id)| == batch.txCount >= 1 && forall b :: b != id ==> Members(txs', b) == Members(txs, b)
    ensures forall b :: b in batches[id := batch] ==> |Members(txs', b)| == batches[id := batch][b].txCount >= 1
  {
    forall b | b in batches && b != id ensures |Members(txs', b)| == batches[b].txCount {
      assert Members(txs', b) == Members(txs, b);
      hide Members;
    }
    hide Members;
  }

  lemma CreatesRows(batches: map<nat, Batch>, txs: map<nat, Tx>, id: nat, batch: Batch, txs': map<nat, Tx>)
    requires Consistent(batches, txs) && id !in batches && batch.status == Pending
    requires forall x :: x in txs' ==> (x in txs && txs'[x] == txs[x]) || (txs'[x].batch == id && txs'[x].status == TxPending)
    ensures forall x :: x in txs' ==>
      && txs'[x].batch in batches[id := batch]
      && (txs'[x].status == TxPending <==> batches[id := batch][txs'[x].batch].status == Pending)
  {
    hide Members;
  }

  lemma Creates(batches: map<nat, Batch>, txs: map<nat, Tx>, id: nat, user: nat, from: nat, inputs: seq<Input>)
    requires Consistent(batches, txs) && id !in batches && |inputs| >= 1
    requires forall x :: x in txs ==> x < from
    ensures Consistent(batches[id := Batch(user, Pending, Wrap64(Total(inputs)), |inputs|, 0)], Inserted(txs, from, id, inputs))
    ensures Members(Inserted(txs, from, id, inputs), id) == Ids(from, |inputs|)
  {
    hide Wrap64, Total, Inserted, Members;
    var batch := Batch(user, Pending, Wrap64(Total(inputs)), |inputs|, 0);
    InsertedMembers(txs, from, id, inputs);
    CreatesMembers(batches, txs, id, batch, Inserted(txs, from, id, inputs));
    CreatesRows(batches, txs, id, batch, Inserted(txs, from, id, inputs));
  }

  /** The table after every transaction in `done` has been answered by the provider. */
  ghost function Answered(txs: map<nat, Tx>, done: set<nat>, delivers: nat -> bool): (r: map<nat, Tx>)
    ensures r.Keys == txs.Keys
  {
    map x | x in txs :: if x in done then txs[x].(status := if delivers(x) then TxSubmitted else TxFailed) else txs[x]
  }

  lemma AnsweredRows(txs: map<nat, Tx>, id: nat, delivers: nat -> bool)
    ensures forall x :: x in txs ==>
      var answer := if delivers(x) then TxSubmitted else TxFailed;
      Answered(txs, Members(txs, id), delivers)[x] == if txs[x].batch == id then Tx(id, txs[x].input, answer) else txs[x]
  {
  }

  ghost function Delivered(s: set<nat>, delivers: nat -> bool): set<nat> {
    set x | x in s && delivers(x)
  }

  lemma DeliveredSplit(s: set<nat>, delivers: nat -> bool)
    ensures |Delivered(s, delivers)| <= |s|
    ensures |Delivered(s, delivers)| == |s| <==> forall x :: x in s ==> delivers(x)
    ensures |Delivered(s, delivers)| == 0 <==> forall x :: x in s ==> !delivers(x)
  {
    var yes := Delivered(s, delivers);
    var no := s - yes;
    assert s == yes + no;
    assert |s| == |yes| + |no|;
    assert forall x :: x in s ==> x in yes || x in no;
  }

  lemma AnswerOne(txs: map<nat, Tx>, done: set<nat>, x: nat, delivers: nat -> bool)
    requires x in txs && x !in done
    ensures Answered(txs, done + {x}, delivers)
         == Answered(txs, done, delivers)[x := txs[x].(status := if delivers(x) then TxSubmitted else TxFailed)]
    ensures x in Answered(txs, done, delivers) && Answered(txs, done, delivers)[x] == txs[x]
    ensures |Delivered(done + {x}, delivers)| == |Delivered(done, delivers)| + (if delivers(x) then 1 else 0)
  {
    assert Delivered(done + {x}, delivers) == if delivers(x) then Delivered(done, delivers) + {x} else Delivered(done, delivers);
  }

  /** Everything processed; completed, failed or partial as all, none or some of the members were delivered. */
  ghost predicate Settled(before: Batch, after: Batch, members: set<nat>, delivers: nat -> bool) {
    && after == Batch(before.user, after.status, before.totalAmount, before.txCount, before.txCount)
    && after.status in {Completed, Failed, Partial}
    && (after.status == Completed <==> forall x :: x in members ==> delivers(x))
    && (after.status == Failed <==> forall x :: x in members ==> !delivers(x))
  }

  lemma Settles(batches: map<nat, Batch>, txs: map<nat, Tx>, id: nat, delivers: nat -> bool, succeeded: nat, failed: nat)
    requires Consistent(batches, txs) && id in batches && batches[id].status == Pending
    requires succeeded == |Delivered(PendingMembers(txs, id), delivers)| && succeeded + failed == |PendingMembers(txs, id)|
    ensures PendingMembers(txs, id) == Members(txs, id) != {}
    ensures succeeded + failed == batches[id].txCount
    ensures var after := batches[id].(status := Final(succeeded, failed), processedCount := succeeded + failed);
      && Settled(batches[id], after, Members(txs, id), delivers)
      && Consistent(batches[id := after], Answered(txs, Members(txs, id), delivers))
  {
    var members := Members(txs, id);
    assert PendingMembers(txs, id) == members;
    DeliveredSplit(members, delivers);
    var after := batches[id].(status := Final(succeeded, failed), processedCount := succeeded + failed);
    Settle(batches, txs, id, after, Answered(txs, members, delivers));
  }

  function WithCount(batches: map<nat, Batch>, id: nat, count: nat): map<nat, Batch> {
    if id in batches then batches[id := batches[id].(processedCount := count)] else batches
  }

  lemma CountTwice(batches: map<nat, Batch>, id: nat, c: nat, d: nat)
    ensures WithCount(WithCount(batches, id, c), id, d) == WithCount(batches, id, d)
    ensures id in batches ==> WithCount(batches, id, batches[id].processedCount) == batches
  {
  }

  lemma PendingIsUncounted(batches: map<nat, Batch>, txs: map<nat, Tx>, id: nat)
    requires Consistent(batches, txs) && id in batches && batches[id].status == Pending
    ensures batches[id].processedCount == 0
  {
  }

  /** The three updates of the batch's row in a call of `Process`. */
  lemma FinalRow(batches: map<nat, Batch>, id: nat, count: nat, status: Status)
    requires id in batches
    ensures var counted := WithCount(batches[id := batches[id].(status := Processing)], id, count);
      && id in counted
      && counted[id := counted[id].(status := status)] == batches[id := batches[id].(status := status, processedCount := count)]
  {
  }

  /** Where the sending loop stands when the provider has answered the transactions in `done`. */
  ghost predicate SoFar(batches0: map<nat, Batch>, txs0: map<nat, Tx>, id: nat, delivers: nat -> bool, done: set<nat>,
                        batches: map<nat, Batch>, txs: map<nat, Tx>, succeeded: nat, failed: nat)
  {
    && txs == Answered(txs0, done, delivers)
    && succeeded == |Delivered(done, delivers)| && succeeded + failed == |done|
    && batches == WithCount(batches0, id, succeeded + failed)
  }

  lemma SoFarNone(batches: map<nat, Batch>, txs: map<nat, Tx>, id: nat, delivers: nat -> bool)
    requires id in batches && batches[id].processedCount == 0
    ensures SoFar(batches, txs, id, delivers, {}, batches, txs, 0, 0)
  {
    assert Answered(txs, {}, delivers) == txs && Delivered({}, delivers) == {};
    CountTwice(batches, id, 0, 0);
  }

  lemma SoFarDone(batches0: map<nat, Batch>, txs0: map<nat, Tx>, id: nat, delivers: nat -> bool, done: set<nat>,
                  batches: map<nat, Batch>, txs: map<nat, Tx>, succeeded: nat, failed: nat)
    requires SoFar(batches0, txs0, id, delivers, done, batches, txs, succeeded, failed)
    ensures txs == Answered(txs0, done, delivers)
    ensures succeeded == |Delivered(done, delivers)| && succeeded + failed == |done|
    ensures batches == WithCount(batches0, id, succeeded + failed)
  {
  }

  lemma SoFarStep(batches0: map<nat, Batch>, txs0: map<nat, Tx>, id: nat, delivers: nat -> bool, done: set<nat>,
                  batches: map<nat, Batch>, txs: map<nat, Tx>, succeeded: nat, failed: nat, x: nat)
    requires SoFar(batches0, txs0, id, delivers, done, batches, txs, succeeded, failed)
    requires x in PendingMembers(txs0, id) && x !in done
    ensures x in txs && SoFar(batches0, txs0, id, delivers, done + {x},
                              WithCount(batches, id, succeeded + failed + 1),
                              txs[x := txs[x].(status := if delivers(x) then TxSubmitted else TxFailed)],
                              if delivers(x) then succeeded + 1 else succeeded, if delivers(x) then failed else failed + 1)
  {
    AnswerOne(txs0, done, x, delivers);
    CountTwice(batches0, id, succeeded + failed, succeeded + failed + 1);
  }

  function CancelMembers(txs: map<nat, Tx>, id: nat): (r: map<nat, Tx>)
    ensures r.Keys == txs.Keys
  {
    map x | x in txs ::
      if txs[x].batch == id && txs[x].status == TxPending then txs[x].(status := TxCancelled) else txs[x]
  }

  lemma CancelSettles(batches: map<nat, Batch>, txs: map<nat, Tx>, id: nat)
    requires Consistent(batches, txs) && id in batches && batches[id].status == Pending
    ensures Consistent(batches[id := batches[id].(status := Cancelled)], CancelMembers(txs, id))
    ensures forall x :: x in Members(txs, id) ==> CancelMembers(txs, id)[x] == txs[x].(status := TxCancelled)
    ensures forall x :: x in txs && x !in Members(txs, id) ==> CancelMembers(txs, id)[x] == txs[x]
  {
    Settle(batches, txs, id, batches[id].(status := Cancelled), CancelMembers(txs, id));
  }

  /** Consistent tables, in which ids not yet given out are unused. */
  ghost predicate Sound(batches: map<nat, Batch>, txs: map<nat, Tx>, nextBatch: nat, nextTx: nat) {
    && (forall id :: id in batches ==> id < nextBatch)
    && (forall x :: x in txs ==> x < nextTx)
    && Consistent(batches, txs)
  }

  lemma CreateKeepsSound(batches: map<nat, Batch>, txs: map<nat, Tx>, nextBatch: nat, nextTx: nat, user: nat, inputs: seq<Input>)
    requires Sound(batches, txs, nextBatch, nextTx) && |inputs| >= 1
    ensures nextBatch !in batches
    ensures Sound(batches[nextBatch := Batch(user, Pending, Wrap64(Total(inputs)), |inputs|, 0)],
                  Inserted(txs, nextTx, nextBatch, inputs), nextBatch + 1, nextTx + |inputs|)
  {
    hide Consistent, Inserted, Total, Wrap64;
    Creates(batches, txs, nextBatch, user, nextTx, inputs);
  }

  lemma CancelKeepsSound(batches: map<nat, Batch>, txs: map<nat, Tx>, nextBatch: nat, nextTx: nat, id: nat)
    requires Sound(batches, txs, nextBatch, nextTx) && id in batches && batches[id].status == Pending
    ensures Sound(batches[id := batches[id].(status := Cancelled)], CancelMembers(txs, id), nextBatch, nextTx)
    ensures forall x :: x in txs ==>
      CancelMembers(txs, id)[x] == if txs[x].batch == id then Tx(id, txs[x].input, TxCancelled) else txs[x]
  {
    hide Consistent;
    CancelSettles(batches, txs, id);
    assert forall x :: x in txs ==> (x in Members(txs, id) <==> txs[x].batch == id);
  }

  class Manager {
    var batches: map<nat, Batch>
    var txs: map<nat, Tx>
    var processing: set<nat>
    var nextBatch: nat
    var nextTx: nat

    /** Between calls. */
    ghost predicate Valid()
      reads this
    {
      processing == {} && Sound(batches, txs, nextBatch, nextTx)
    }

    constructor ()
      ensures Valid() && batches == map[] && txs == map[]
    {
      batches, txs, processing, nextBatch, nextTx := map[], map[], {}, 0, 0;
    }

    method Create(user: nat, inputs: seq<Input>) returns (r: Result<nat, Error>)
      requires Valid()
      modifies this
      ensures Valid()
      ensures inputs == [] ==> r == Err(BatchEmpty)
      ensures |inputs| > MAX_BATCH_SIZE ==> r == Err(TxLimitExceeded)
      ensures r.Err? ==> !(1 <= |inputs| <= MAX_BATCH_SIZE) && batches == old(batches) && txs == old(txs)
      ensures r.Ok? ==>
        && r.value !in old(batches)
        && batches == old(batches)[r.value := Batch(user, Pending, Wrap64(Total(inputs)), |inputs|, 0)]
        && txs == Inserted(old(txs), old(nextTx), r.value, inputs)
    {
      hide Sound, Inserted, Total, Wrap64;
      if |inputs| == 0 {
        return Err(BatchEmpty);
      }
      if |inputs| > MAX_BATCH_SIZE {
        return Err(TxLimitExceeded);
      }
      CreateKeepsSound(batches, txs, nextBatch, nextTx, user, inputs);
      var total := AddUp(inputs);
      var id := nextBatch;
      nextBatch := nextBatch + 1;
      batches := batches[id := Batch(user, Pending, total, |inputs|, 0)];
      InsertAll(id, inputs);
      return Ok(id);
    }

    static method AddUp(inputs: seq<Input>) returns (total: Int64)
      ensures total == Wrap64(Total(inputs))
    {
      total := 0;
      for i := 0 to |inputs|
        invariant total == Wrap64(Total(inputs[..i]))
      {
        WrapStep(Total(inputs[..i]), inputs[i].amount);
        assert inputs[..i + 1][..i] == inputs[..i];
        total := Wrap64(total + inputs[i].amount);
      }
      assert inputs[..|inputs|] == inputs;
    }

    method InsertAll(id: nat, inputs: seq<Input>)
      modifies this`txs, this`nextTx
      ensures nextTx == old(nextTx) + |inputs|
      ensures txs == Inserted(old(txs), old(nextTx), id, inputs)
    {
      InsertNone(txs, nextTx, id, inputs);
      hide Inserted;
      for i := 0 to |inputs|
        invariant nextTx == old(nextTx) + i
        invariant txs == Inserted(old(txs), old(nextTx), id, inputs[..i])
      {
        InsertOne(old(txs), old(nextTx), id, inputs, i);
        txs := txs[nextTx := Tx(id, inputs[i], TxPending)];
        nextTx := nextTx + 1;
      }
    }

    /** `delivers` is the provider: whether `Send` succeeds for the transaction. */
    method Process(id: nat, delivers: nat -> bool) returns (r: Result<(), Error>)
      requires Valid()
      modifies this
      ensures Valid()
      ensures r == if id !in old(batches) then Err(BatchNotFound)
                   else if old(batches)[id].status != Pending then Err(BatchNotPending) else Ok(())
      ensures r.Err? ==> batches == old(batches) && txs == old(txs)
      ensures r.Ok? ==>
        && txs == Answered(old(txs), Members(old(txs), id), delivers)
        && id in batches && batches == old(batches)[id := batches[id]]
        && Settled(old(batches)[id], batches[id], Members(old(txs), id), delivers)
      ensures r.Ok? ==> forall x :: x in old(txs) ==>
        var answer := if delivers(x) then TxSubmitted else TxFailed;
        x in txs && txs[x] == if old(txs)[x].batch == id then Tx(id, old(txs)[x].input, answer) else old(txs)[x]
    {
      AnsweredRows(txs, id, delivers);
      hide Consistent, Members, Answered, Settled;
      if id in processing {
        return Err(BatchProcessing);
      }
      processing := processing + {id};
      if id !in batches {
        processing := processing - {id};
        return Err(BatchNotFound);
      }
      if batches[id].status != Pending {
        processing := processing - {id};
        return Err(BatchNotPending);
      }
      ProcessPending(id, delivers);
      processing := processing - {id};
      return Ok(());
    }

    /** The part of `Process` that follows the check of the status. */
    method ProcessPending(id: nat, delivers: nat -> bool)
      requires Consistent(batches, txs) && id in batches && batches[id].status == Pending
      modifies this`batches, this`txs
      ensures Consistent(batches, txs)
      ensures txs == Answered(old(txs), Members(old(txs), id), delivers)
      ensures id in batches && batches == old(batches)[id := batches[id]]
      ensures Settled(old(batches)[id], batches[id], Members(old(txs), id), delivers)
    {
      hide Members, PendingMembers, Answered, Settled, Delivered, Final, Consistent, WithCount;
      PendingIsUncounted(batches, txs, id);
      batches := batches[id := batches[id].(status := Processing)];
      var succeeded, failed := SendAll(id, delivers);
      Settles(old(batches), old(txs), id, delivers, succeeded, failed);
      FinalRow(old(batches), id, succeeded + failed, Final(succeeded, failed));
      batches := batches[id := batches[id].(status := Final(succeeded, failed))];
    }

    method SendAll(id: nat, delivers: nat -> bool) returns (succeeded: nat, failed: nat)
      requires id in batches && batches[id].processedCount == 0
      modifies this`batches, this`txs
      ensures txs == Answered(old(txs), PendingMembers(old(txs), id), delivers)
      ensures succeeded == |Delivered(PendingMembers(old(txs), id), delivers)|
      ensures succeeded + failed == |PendingMembers(old(txs), id)|
      ensures batches == WithCount(old(batches), id, succeeded + failed)
    {
      succeeded, failed := 0, 0;
      SoFarNone(batches, txs, id, delivers);
      hide SoFar, PendingMembers, Answered, Delivered, WithCount;
      var todo := PendingMembers(txs, id);
      ghost var done := {};
      while todo != {}
        invariant done !! todo && done + todo == PendingMembers(old(txs), id)
        invariant SoFar(old(batches), old(txs), id, delivers, done, batches, txs, succeeded, failed)
        decreases |todo|
      {
        var x :| x in todo;
        succeeded, failed := SendOne(id, x, delivers, succeeded, failed, old(batches), old(txs), done);
        todo, done := todo - {x}, done + {x};
      }
      assert done == PendingMembers(old(txs), id);
      SoFarDone(old(batches), old(txs), id, delivers, done, batches, txs, succeeded, failed);
    }

    /** One round of the sending loop, over tables that started as `batches0` and `txs0`. */
    method SendOne(id: nat, x: nat, delivers: nat -> bool, succeeded: nat, failed: nat,
                   ghost batches0: map<nat, Batch>, ghost txs0: map<nat, Tx>, ghost done: set<nat>)
      returns (succeeded': nat, failed': nat)
      requires SoFar(batches0, txs0, id, delivers, done, batches, txs, succeeded, failed)
      requires x in PendingMembers(txs0, id) && x !in done
      modifies this`batches, this`txs
      ensures SoFar(batches0, txs0, id, delivers, done + {x}, batches, txs, succeeded', failed')
    {
      SoFarStep(batches0, txs0, id, delivers, done, batches, txs, succeeded, failed, x);
      hide SoFar, PendingMembers;
      succeeded', failed' := succeeded, failed;
      if delivers(x) {
        succeeded' := succeeded + 1;
        txs := txs[x := txs[x].(status := TxSubmitted)];
      } else {
        failed' := failed + 1;
        txs := txs[x := txs[x].(status := TxFailed)];
      }
      if id in batches {
        batches := batches[id := batches[id].(processedCount := succeeded' + failed')];
      }
    }

    method Cancel(id: nat, user: nat) returns (r: Result<(), Error>)
      requires Valid()
      modifies this
      ensures Valid()
      ensures r == if id !in old(batches) || old(batches)[id].user != user then Err(BatchNotFound)
                   else if old(batches)[id].status != Pending then Err(BatchNotPending) else Ok(())
      ensures r.Err? ==> batches == old(batches) && txs == old(txs)
      ensures r.Ok? ==>
        && batches == old(batches)[id := old(batches)[id].(status := Cancelled)]
        && txs == CancelMembers(old(txs), id)
        && forall x :: x in old(txs) ==>
             x in txs && txs[x] == if old(txs)[x].batch == id then Tx(id, old(txs)[x].input, TxCancelled) else old(txs)[x]
    {
      hide Sound, CancelMembers;
      if id !in batches || batches[id].user != user {
        return Err(BatchNotFound);
      }
      if batches[id].status != Pending {
        return Err(BatchNotPending);
      }
      if id in processing {
        return Err(BatchProcessing);
      }
      CancelKeepsSound(batches, txs, nextBatch, nextTx, id);
      batches := batches[id := batches[id].(status := Cancelled)];
      txs := CancelMembers(txs, id);
      return Ok(());
    }
  }
}
