/** The states of batches and of their transactions in internal/batch/batch.go. */
module BatchStatus {
  datatype Status = Pending | Processing | Completed | Failed | Partial | Cancelled

  datatype TxStatus = TxPending | TxSubmitted | TxFailed | TxCancelled

  /** How a batch ends once every transaction has been answered. */
  function Final(succeeded: nat, failed: nat): Status {
    if failed == 0 then Completed else if succeeded == 0 then Failed else Partial
  }
}
