# Verified models of tonkey's stateful managers

tonkey keeps accounts, jobs, tokens and marketplaces in SQL tables and changes them by reading, checking and
writing. This project models those managers in Dafny and proves what their runs keep. A table is a `map` from id to
row, and every manager is a class whose methods follow the Go control flow. Each method is proved against a
specification function on values; the theorems are lemmas about those functions, over every input and every run.

How finely a run is cut into steps differs. In `BatchProtocol`, `BatchCalls`, `BatchCancel` and the `Job` modules other than
`Jobs` a step is one SQL statement, one section under the mutex, one `provider.Send` or one handler, and any number of
callers interleave. In `Hub` a step is one select case of the hub or one action of a client. In all other modules a call is
one step, so they say nothing about two calls of which one runs between the statements of the other.

| file | source | main results |
|---|---|---|
| `TokenBucket.dfy` | internal/georatelimit | sliding-window bound; eviction of idle buckets is invisible exactly for certain limits |
| `GrantRule.dfy` | internal/georatelimit | exactly which calls are granted, from answers and times alone |
| `BatchProtocol.dfy` | internal/batch, interleaved | each transaction is sent at most once |
| `BatchCalls.dfy` | internal/batch, interleaved | what an uninterrupted `Create`, `Process` and `Cancel` leaves, and that no entry of the set is left behind |
| `BatchCancel.dfy` | internal/batch, interleaved | exactly when the write of `Cancel` can lead to a cancelled batch that was sent from, and a run in which it does |
| `BatchManager.dfy` | internal/batch, call by call | statuses and counts after `Process`; when the 64-bit total is exact |
| `Hub.dfy` | internal/websocket | gap-free delivery, bounded queues, channels closed once, and exactly when a client leaves |
| `Jobs.dfy` | internal/jobs | the statements and the queue's methods; exactly when the fetched job is the claimed one |
| `JobRuns.dfy`, `JobSteps.dfy` | internal/jobs, interleaved | the steps of workers and callers, and what each step in order keeps |
| `JobLimits.dfy` | internal/jobs, interleaved | workers and running jobs one to one, and exactly which steps keep them so; attempts, quadratic backoff |
| `JobWork.dfy` | internal/jobs, interleaved | a weight of the queue that worker steps make smaller |
| `JobOrder.dfy` | internal/jobs, interleaved | exactly which job may be claimed, and in which order jobs come out |
| `JobRaces.dfy` | internal/jobs, interleaved | two runs in which a job gets two workers |
| `Multisig.dfy` | internal/multisig | a full vote always decides, exactly when signers are distinct; votes and the expiry |
| `Jetton.dfy` | internal/jetton | conservation of supply, exactly when nobody transfers to himself; decimal texts |
| `Migrations.dfy` | internal/migrations | the schema is a function of the version; the exact order condition on upward `MigrateTo` |
| `Nft.dfy` | internal/nft | numbering, listings and offers; who can lose an item without having acted |
| `NftRules.dfy` | internal/nft | exactly which calls change which row |
| `ApiKeys.dfy` | internal/apikeys | exactly which scopes survive storage, and exactly when storage changes no answer |
| `Reset.dfy` | internal/reset | spacing, an exact bound on usable tokens, single use |
| `RequestInterval.dfy` | internal/reset | exactly when a request is refused, and exactly when granted requests are five minutes apart |
| `QueryBuilder.dfy` | internal/store | rounds of replacing equal one numbering pass |
| `BatchStatus.dfy`, `Clock.dfy`, `Collections.dfy`, `Sums.dfy`, `Decimal.dfy`, `Wrappers.dfy` | | batch states, whole seconds, sets and sequences, sums over maps, decimal texts, options and results |

Assumptions throughout: clocks do not go backwards (in `JobRuns` the clock is read before the statement that uses the
reading, so readings of different workers may come in any order); a SQL write succeeds and a row reads back as written, unless a step
says otherwise (in `BatchProtocol` and `BatchCancel` every write may fail, in `Migrations` every transaction may fail, in `Nft` the
provider may fail); ids, keys and tokens that the original draws at random or from a sequence are fresh; hashes do not
collide, so a key or a token stands for its own hash. Instants are integers (nanoseconds where the code converts them to
seconds) or, in the token bucket, real seconds.

## Findings

Some properties that one would expect hold only under a condition. For each of them a lemma named here proves the
condition exact, and another gives an input or a run that fails it.

- Evicting a bucket that was idle for ten minutes is invisible if and only if `burst < 1` or `burst <= 600 * rps`
  (`EvictionInvisibleIff`); for all other limits `EvictionShows` builds a run in which a caller gets his burst twice.
- `Cancel` checks the `processing` set and writes afterwards without the lock. Its write can lead to a batch that ends
  cancelled with a transaction sent if and only if a transaction of it has been sent, or a thread has one in hand, or a row
  can still be fetched by a thread that has marked the batch, or by one that has read it as pending while another `Cancel` is
  under way (`WriteIsHarmfulIff`). `LateCancel` is a run in which it happens.
- The second statement of `fetchJob` is sure to return the worker's own row if and only if that row is running and no other
  running row was started in the same or a later second (`SelectReturnsOwnIff`), and a read keeps workers and running jobs one
  to one exactly then (`ReadKeepsOneToOneIff`). Claims in different seconds are not enough: in `CrossedReads` two workers
  claim a job each, both read the second one, and the first stays running with nobody on it.
- `RetryJob` reads the row with one statement and writes it with another. The write keeps workers and running jobs one to one
  if and only if the row is not running by then (`RetryKeepsOneToOneIff`); in `LateRetry` two workers hold one job.
- A job type without a handler never uses up an attempt, so a job of it is put back for ever exactly if it has an attempt
  left (`UnhandledForever`).
- Every full vote decides a multisig proposal if and only if no signer is listed twice (`AlwaysDecidedIff`).
- The balances of a jetton add up to its supply if and only if nobody transfers to himself (`Conservation`): both balances
  are read before either is written.
- `MigrateTo` never sorts its list upwards, and leaves it descending after a downward call: the next upward one then meets the
  order that `SchemaFollowsVersion` needs if and only if it has no two versions to apply (`OrderlyAfterDownIff`). With a schema
  that logs what was run, the result is canonical if and only if the part of the list that is applied is ascending
  (`CanonicalIffOrderly`). A version that is skipped stays skipped.
- Every seller of an active listing stays the owner of the item if and only if no listed item is transferred away
  (`HonestIff`). `LossHappens` is a run of calls in which a sale takes an item from its new owner, who did nothing.
- Storing API-key scopes changes no answer if and only if the scopes and the comma-separated parts of their quoted texts cover
  each other (`AccessKeptIff`), and a stored key grants everything if and only if such a part is a bare star or all of them are
  bare of anything (`GrantsEverythingIff`). The list `["read,*"]` refuses "write:all" before storage and grants it afterwards,
  and so does a list of empty scopes.
- A password reset request is refused if and only if the user's last granted one is less than five minutes old and its token
  still on record (`RefusedIff`). Granted requests are therefore five minutes apart at every moment of a run if and only if no
  cleanup in it removes a token of the user that is younger than that (`IntervalKeptIff`), which takes a password change by
  the user, or an expiration more than 23 hours and 55 minutes in the past (`IntervalKeptWithoutReset`).

## Model

| member | source | states |
|---|---|---|
| `TokenBucket.WindowBound` | internal/georatelimit/georatelimit.go:304-335 | In every window of every run on any number of keys, with fixed limits for one key and a clock that does not go back, the calls granted to that key number at most burst + rps * (length of the window); negative limits count as zero |
| `TokenBucket.WindowBoundWithEviction` | internal/georatelimit/georatelimit.go:304-367 | The same bound for the limiter as it runs, cleanups included, whenever `burst < 1` or `burst <= 600 * rps` |
| `TokenBucket.TokensInRange` | internal/georatelimit/georatelimit.go:321-333 | With limits that are not negative, no run leaves a bucket outside [0, burst] |
| `TokenBucket.SteadyCallerNeverRefused` | internal/georatelimit/georatelimit.go:304-335 | With burst >= 1, a caller whose calls are at least 1/rps apart is granted every one, whatever other keys do and whatever is evicted |
| `GrantRule.GrantedIff` | internal/georatelimit/georatelimit.go:304-335 | Without eviction and with limits that are not negative, which are those of the key's first call: call n of a key is granted if and only if for every call i of the key up to n the calls granted from i on, and one more, number at most burst + rps * (time from i to n) |
| `GrantRule.GrantedIffWithEviction` | internal/georatelimit/georatelimit.go:304-367 | The same with eviction, for fixed limits that refill an idle bucket in ten minutes |
| `TokenBucket.KeysAreIndependent` | internal/georatelimit/georatelimit.go:304-316 | The answers for a key in a run of the whole limiter are those of its own bucket run alone |
| `TokenBucket.EvictionInvisibleTo` | internal/georatelimit/georatelimit.go:346-357 | Under the refill condition every answer to the key equals that of a limiter that never evicts |
| `TokenBucket.EvictionInvisibleIff` | internal/georatelimit/georatelimit.go:346-357 | That holds for all keys and runs if and only if `burst < 1` or `burst <= 600 * rps` |
| `TokenBucket.EvictionShows` | internal/georatelimit/georatelimit.go:346-357 | For all other limits there is a run in which eviction changes an answer |
| `TokenBucket.RateLimiter.constructor` | internal/georatelimit/georatelimit.go:308-313 | A new bucket is full |
| `TokenBucket.RateLimiter.Take` | internal/georatelimit/georatelimit.go:318-334 | Refill up to the burst for the time elapsed, then refuse below one token or spend one |
| `TokenBucket.GeoRateLimiter.Allow` | internal/georatelimit/georatelimit.go:304-335 | Answer and new table are those of one step of the limiter: only this key's bucket changes, and is created full when missing |
| `TokenBucket.GeoRateLimiter.Cleanup` | internal/georatelimit/georatelimit.go:346-357 | The loop removes exactly the buckets last used more than ten minutes ago and changes no other |
| `BatchProtocol.SentAtMostOnce` | internal/batch/batch.go:263-392 | In every interleaving of the steps of any number of `Process`, `Cancel` and `Create` calls, with writes that may fail, no transaction is handed to the provider twice |
| `BatchProtocol.InvRuns` | internal/batch/batch.go:263-392 | Every interleaving keeps: one holder per entry of the `processing` set, a batch sent from has left `pending` for good, what is queued for sending was never sent, sent transactions are distinct |
| `BatchProtocol.InvStep` | internal/batch/batch.go:263-392 | Each single step of each thread keeps that invariant |
| `BatchProtocol.LoneProcess` | internal/batch/batch.go:263-349 | A `Process` that nobody interrupts sends each pending transaction of a pending batch, records every answer and the final status, and releases its entry; the other tables and threads are as before |
| `BatchCalls.LoneCancel` | internal/batch/batch.go:352-392 | A `Cancel` that nobody interrupts, by the owner of a pending batch that nobody holds, ends with the batch cancelled and every pending row of it cancelled; every other row, what was sent, the entries and the other threads are as before |
| `BatchCalls.CancelRefused` | internal/batch/batch.go:352-364 | A `Cancel` is over at its first step, without effect, if and only if the batch is not there, not the caller's or not pending |
| `BatchCalls.CancelFindsEntry` | internal/batch/batch.go:366-371 | At its second step if and only if the batch is in the set |
| `BatchCalls.ProcessFindsEntry` | internal/batch/batch.go:263-270 | A `Process` is over at its first step, without effect, if and only if the batch is in the set |
| `BatchCalls.ProcessRefused` | internal/batch/batch.go:272-285 | One of a batch that is not there or not pending ends in the state in which it began, its entry given back |
| `BatchCalls.LoneCreate` | internal/batch/batch.go:98-145 | A `Create` that nobody interrupts leaves a new pending batch of the caller and exactly one new pending row for each input, nothing else changed |
| `BatchCalls.FailedStatement` | internal/batch/batch.go:289-346 | A statement that fails changes no row and ends the call; `Process` goes on to give back its entry |
| `BatchCalls.EntryIffHeld` | internal/batch/batch.go:263-276 | In every interleaving, whatever fails, a batch is in the set if and only if a thread is processing it, and then exactly one is |
| `BatchCancel.WriteIsHarmfulIff` | internal/batch/batch.go:366-382 | At the write of `Cancel`: some continuation ends with the batch cancelled and a transaction of it sent, if and only if one has been sent or is in hand, or a row can still be fetched by a thread that has marked the batch, or by one that has read it as pending while another `Cancel` is under way |
| `BatchCancel.CanEndSentIff` | internal/batch/batch.go:263-392 | The same for any cancelled batch in any reachable state, whoever wrote it |
| `BatchCancel.CancelledMeansUnsent` | internal/batch/batch.go:352-392 | In every run in which each write of `Cancel` is safe in that sense, no transaction of a cancelled batch was ever sent |
| `BatchCancel.InTimeIsSafe` | internal/batch/batch.go:366-374 | A write made while the batch is still pending and not in the `processing` set is safe |
| `BatchCancel.LateCancel` | internal/batch/batch.go:366-392 | A run from idle threads to idle threads, with an unsafe write, ends with a cancelled batch whose transaction was sent and is marked submitted |
| `BatchManager.ExactIff` | internal/batch/batch.go:106-109 | The stored total is the exact sum if and only if the sum fits in 64 bits, and differs from it by a multiple of 2^64 in any case |
| `BatchManager.TotalConcat` | internal/batch/batch.go:106-109 | The exact sum of two lists of inputs is the sum of theirs, and of one input its amount |
| `BatchManager.NoOverflow` | internal/batch/batch.go:98-109 | At most 100 amounts, each within a hundredth of the int64 range, add up without overflow |
| `BatchManager.Manager.AddUp` | internal/batch/batch.go:106-109 | Adding with wrap-around at every step gives the wrapped exact sum |
| `BatchManager.Manager.Create` | internal/batch/batch.go:98-145 | Refused when empty or over 100; otherwise a new pending batch with its wrapped total and one pending row per input, in order; nothing else changes |
| `BatchManager.Manager.Process` | internal/batch/batch.go:263-349 | Refused without effect unless the batch exists and is pending; otherwise every transaction of it is submitted or failed as the provider answered, none stays pending, `processed_count = tx_count`, and the status is completed, failed or partial exactly when all, none or some were delivered |
| `BatchManager.Manager.ProcessPending` | internal/batch/batch.go:283-348 | The part after the status check, with the same result |
| `BatchManager.Manager.SendAll` | internal/batch/batch.go:303-327 | The sending loop answers exactly the pending transactions of the batch and counts both outcomes |
| `BatchManager.Settles` | internal/batch/batch.go:329-346 | In tables where pending batches hold only pending rows, the final status and counts follow from the number delivered, and the tables stay consistent |
| `BatchManager.CancelSettles` | internal/batch/batch.go:374-389 | Cancelling a pending batch cancels all of its transactions and no other |
| `BatchManager.Manager.Cancel` | internal/batch/batch.go:352-392 | Answers by existence, owner and status; on success the batch and all its transactions are cancelled, nothing else changes |
| `Hub.NothingMissed` | internal/websocket/hub.go:38-79 | In every run that registers a client at most once: while registered, what it has taken followed by what is queued is exactly the broadcasts it is owed, in order; afterwards a prefix; the queue holds at most 256; its channel is closed once, exactly when it leaves |
| `Hub.ItemsArrive` | internal/websocket/hub.go:38-79 | In every such run acknowledgments and wanted broadcasts arrive in one queue in the order of their events, none missing while the client has not left, and afterwards only a prefix; their number is that of the broadcasts owed and the acknowledgments |
| `Hub.LeavesIff` | internal/websocket/hub.go:47-74 | In every such run a registered client is no longer registered after an event if and only if the event is its own Unregister, or a broadcast that it wants while the broadcasts owed and the acknowledgments, less the items taken, number at least 256 |
| `Hub.SubscriptionsMatch` | internal/websocket/client.go:47-67 | A client is subscribed to an address exactly if its last call about the address was `Subscribe` |
| `Hub.HubLoop.OnRegister` | internal/websocket/hub.go:41-45 | Adds the client and changes nothing else |
| `Hub.HubLoop.OnUnregister` | internal/websocket/hub.go:47-54 | Removes a registered client and closes its channel; otherwise nothing happens |
| `Hub.HubLoop.Offer` | internal/websocket/hub.go:58-74 | One client is skipped, queued to, or closed and removed |
| `Hub.HubLoop.OnBroadcast` | internal/websocket/hub.go:56-76 | After the loop every registered client has the message, was not interested, or is closed and gone because its queue was full |
| `Hub.Client.IsSubscribed` | internal/websocket/client.go:47-51 | Whether the address is in the set |
| `Hub.Client.Subscribe` | internal/websocket/client.go:54-59 | Adds one address |
| `Hub.Client.Unsubscribe` | internal/websocket/client.go:62-67 | Removes one address |
| `Hub.Client.SendAck` | internal/websocket/client.go:126-134 | Puts an acknowledgment behind what is queued |
| `Hub.Client.Take` | internal/websocket/client.go:137-173 | Receives the oldest item and remembers it as taken |
| `Jobs.SelectReturnsOwnIff` | internal/jobs/jobs.go:210-222 | The second statement of `fetchJob` returns the worker's own row for sure, whatever happened since its claim, if and only if that row is running and no other running row was started in the same or a later second |
| `Jobs.SomethingIsNext` | internal/jobs/jobs.go:188-197 | Among due jobs one is first by priority and then by schedule |
| `JobOrder.ClaimableIff` | internal/jobs/jobs.go:188-197 | In any state a free worker may claim a row if and only if it is pending and due, no pending and due row has a greater priority, and none of the same priority is scheduled earlier; the claim changes its status and start and no other row |
| `JobOrder.ClaimsAreSorted` | internal/jobs/jobs.go:184-206 | Jobs claimed one after the other within a second, by any workers, are different and come out by descending priority and, among equals, by ascending schedule |
| `JobLimits.HandlerRunsBounded` | internal/jobs/jobs.go:184-296 | In every run of any number of workers and retrying callers, statement by statement and with or without handlers, whose reads and retry writes are in order, a job has run its handler at most max(1, maxAttempts) * (1 + retries) times, every busy worker is on a running job, no job has two workers and no running job has none |
| `JobLimits.ReadKeepsOneToOneIff` | internal/jobs/jobs.go:210-222 | From any state such a run reaches, the read of a worker keeps workers and running jobs one to one, whichever row the statement returns, if and only if the worker's own row is running and no other running row was started in the same or a later second |
| `JobLimits.RetryKeepsOneToOneIff` | internal/jobs/jobs.go:495-511 | From any such state the write of `RetryJob` keeps them one to one if and only if the row is not running |
| `JobRaces.CrossedReads` | internal/jobs/jobs.go:184-222 | A run from an empty queue: claims in different seconds, both before either read, end with two workers on one job and the other job running with nobody on it |
| `JobRaces.LateRetry` | internal/jobs/jobs.go:495-511 | A run from an empty queue: two callers retry the same failed job, and the later write falls after a claim; two workers hold the job |
| `JobLimits.BackoffIsQuadratic` | internal/jobs/jobs.go:239-296 | In every run in order, with a retry delay of whole seconds, the m-th attempt since enqueueing or retry is claimed at least delay * m * (m - 1) / 2 after the first; claims for want of a handler are no attempts |
| `JobLimits.InvRuns` | internal/jobs/jobs.go:184-296 | The invariant behind the bounds above, over every run in order: counts, start times and the copies that workers hold agree with the rows |
| `JobSteps.InvStep` | internal/jobs/jobs.go:184-296 | Each step in order keeps it |
| `JobWork.WorkShrinks` | internal/jobs/jobs.go:159-296 | In order, each claim, read, handler start and handler end makes a weight over the whole queue strictly smaller, a refusal for want of a handler adds at most two, and the weight is never negative |
| `JobWork.WorkEnds` | internal/jobs/jobs.go:159-296 | Without new jobs or retries a run in order has at most as many worker steps as the weight at its start and three for each refusal; with a handler for every type there is none |
| `Jobs.UnhandledForever` | internal/jobs/jobs.go:239-247 | Without a handler no attempt is counted: after any number of claims the job is pending again if it had an attempt left, and failed if not |
| `JobRuns.ProcessIsStartAndFinish` | internal/jobs/jobs.go:249-263 | A whole `processJob` leaves the row that the two steps of the run leave |
| `JobRuns.ProcessIsRefuse` | internal/jobs/jobs.go:239-247 | Without a handler it leaves the row that the one step leaves |
| `JobRuns.RetryIsReadAndWrite` | internal/jobs/jobs.go:495-511 | A caller of `RetryJob` goes on exactly from a failed row, and its two steps with nothing between leave the row pending, without attempts, due at once |
| `Jobs.CountsPartition` | internal/jobs/jobs.go:469-479 | Pending, running, completed and failed counts add up to the number of jobs |
| `Jobs.Queue.constructor` | internal/jobs/jobs.go:85-107 | Three retries and thirty seconds take the place of values that are not positive |
| `Jobs.Queue.Enqueue` | internal/jobs/jobs.go:299-327 | One new pending row with no attempts, limited by the option or the queue's default |
| `Jobs.Queue.ClaimNext` | internal/jobs/jobs.go:185-206 | Nothing exactly if no row is pending and due; otherwise some such row, with none of greater priority and none of the same priority scheduled earlier, becomes running, and nothing else changes |
| `Jobs.Queue.SelectLatest` | internal/jobs/jobs.go:208-236 | Nothing exactly if nothing is running; otherwise a running row with none started later |
| `Jobs.Queue.FetchJob` | internal/jobs/jobs.go:184-236 | Both statements with nothing in between: such a row is claimed, and a running row with none started later is returned |
| `Jobs.Queue.ProcessJob` | internal/jobs/jobs.go:239-263 | The row after handling, with the attempt counted only if there is a handler, and its status by outcome and attempts left |
| `Jobs.Queue.CompleteJob` | internal/jobs/jobs.go:266-272 | Marks the row completed |
| `Jobs.Queue.FailJob` | internal/jobs/jobs.go:275-296 | Puts the row back with a delay linear in the worker's count of attempts, or marks it failed |
| `Jobs.Queue.RetryJob` | internal/jobs/jobs.go:495-511 | With nothing between its two statements: only a failed job starts afresh, due at once |
| `Jobs.Queue.Cleanup` | internal/jobs/jobs.go:482-492 | Removes and counts exactly the finished jobs completed before the cutoff |
| `Multisig.ReachableInv` | internal/multisig/multisig.go:255-389 | After any calls on a new proposal, voters are distinct signers; pending means fewer than threshold approvals and at most n - threshold rejections, approved and executed exactly threshold approvals, rejected exactly n - threshold + 1 rejections |
| `Multisig.CallKeepsInv` | internal/multisig/multisig.go:255-389 | Each call keeps that invariant |
| `Multisig.StatusMovesForward` | internal/multisig/multisig.go:255-389 | Executed, rejected and expired never change, executed comes only from approved, votes are never withdrawn |
| `Multisig.FullVoteDecides` | internal/multisig/multisig.go:255-360 | With distinct signers, any expiry and one vote each in any order, each approval not later than the expiry, the proposal ends approved if at least threshold approve and rejected otherwise |
| `Multisig.AlwaysDecidedIff` | internal/multisig/multisig.go:102-143 | Whatever the expiry, every full vote of a wallet whose approvals come in time decides if and only if no signer is listed twice |
| `Multisig.CanBeApprovedIff` | internal/multisig/multisig.go:255-309 | Whatever the expiry, some calls get a proposal approved if and only if there are at least threshold different signers |
| `Multisig.Tally` | internal/multisig/multisig.go:255-360 | During a vote whose approvals come in time the stored lists are exactly the votes cast while pending, and a decision means its threshold was crossed |
| `Multisig.LateApproval` | internal/multisig/multisig.go:255-268 | After any calls whatever, an approval later than the expiry adds no vote: a pending proposal ends expired and the answer says so, any other stays as it is |
| `Multisig.TimelyApproval` | internal/multisig/multisig.go:255-309 | One that is not later has the answer, the votes and the status of the same call on a proposal that never expires |
| `Multisig.VotesWereCast` | internal/multisig/multisig.go:255-360 | After any calls on a new proposal, every approval on record was cast by its user not later than the expiry, and every rejection was cast by its user |
| `Multisig.Manager.CreateWallet` | internal/multisig/multisig.go:102-143 | Accepted exactly for 1 <= threshold <= n and a new address |
| `Multisig.Manager.IsSigner` | internal/multisig/multisig.go:519-526 | The scan finds a user exactly if he is listed |
| `Multisig.Manager.CreateProposal` | internal/multisig/multisig.go:207-252 | Only by a signer of an existing wallet; one new empty pending proposal |
| `Multisig.Manager.ApproveProposal` | internal/multisig/multisig.go:255-309 | Stored row of an approval, and exactly when each error is the answer, with expiry checked before the signer; the invariant is kept |
| `Multisig.Manager.RejectProposal` | internal/multisig/multisig.go:312-360 | Stored row of a rejection, and exactly when each error is the answer; the expiry is not looked at |
| `Multisig.Manager.ExecuteProposal` | internal/multisig/multisig.go:363-389 | Only an approved proposal is executed |
| `Multisig.Manager.ExpireProposals` | internal/multisig/multisig.go:535-545 | Exactly the pending proposals past their time expire |
| `Jetton.Conservation` | internal/jetton/jetton.go:524-770 | Over any run on a token the balances add up to the supply if and only if no transfer went from a user to himself; always supply = initial + minted - burned, within the cap, and no balance is negative |
| `Jetton.RunsAreBalanced` | internal/jetton/jetton.go:524-770 | The general invariant: sum of balances = supply + amounts transferred to oneself |
| `Jetton.SelfSentIff` | internal/jetton/jetton.go:577-587 | The excess grows exactly when somebody transfers to himself |
| `Jetton.SendMoves` | internal/jetton/jetton.go:577-587 | A transfer between two users moves its amount and touches nobody else; one to oneself adds its amount to the balance and to the excess |
| `Jetton.SupplyMoves` | internal/jetton/jetton.go:660-748 | A mint adds its amount to one balance and the supply, a burn takes it off both, and nothing else changes; minting is possible up to the cap, burning up to the balance |
| `Jetton.TransferAcceptedIff` | internal/jetton/jetton.go:524-560 | On tables that denote a ledger, a transfer is accepted if and only if transfers are on, the amount parses and is positive, the sender's wallet is there, not frozen, and holds the amount, and a recipient is named; and exactly when each error is the answer |
| `Jetton.MintAcceptedIff` | internal/jetton/jetton.go:615-642 | A mint is accepted if and only if it is the owner's, minting is on, the amount parses and is positive and the cap leaves room; and exactly when each error is the answer |
| `Jetton.BurnAcceptedIff` | internal/jetton/jetton.go:703-726 | A burn is accepted if and only if burning is on, the amount parses and is positive and the user holds it, frozen or not; and exactly when each error is the answer |
| `Jetton.SentDenotes` | internal/jetton/jetton.go:570-587 | Writing the two printed balances denotes the numeric transfer |
| `Jetton.MintDenotes` | internal/jetton/jetton.go:660-678 | Writing the printed balance and supply denotes the numeric mint |
| `Jetton.BurnDenotes` | internal/jetton/jetton.go:732-748 | Writing the printed balance and supply denotes the numeric burn |
| `Jetton.FundedDenotes` | internal/jetton/jetton.go:320-330 | The initial supply, stored as given, denotes a ledger whose whole supply is the owner's |
| `Jetton.PrintedBalance` | internal/jetton/jetton.go:570-584 | A printed balance reads back as its number and is "0" exactly for zero |
| `Jetton.HoldersHaveBalance` | internal/jetton/jetton.go:877-884 | The textual filter `balance != '0'` selects exactly the users with a balance that is not zero, even though initial supplies are stored unnormalised |
| `Jetton.PutKeepsTables` | internal/jetton/jetton.go:524-770 | Replacing one token's row and wallets by texts that denote a ledger keeps all tables denoting theirs |
| `Jetton.Manager.OpenWallet` | internal/jetton/jetton.go:473-507 | Returns the user's wallet, created with balance "0" and not frozen when missing; no amount changes |
| `Jetton.Manager.Create` | internal/jetton/jetton.go:261-333 | Accepted exactly for a supply that parses, is not negative and is within a maximum that parses; the new token is fully issued to its owner |
| `Jetton.Manager.Transfer` | internal/jetton/jetton.go:524-612 | The answer for every input; on success exactly the numeric transfer and its texts, on refusal at most a new empty wallet |
| `Jetton.Manager.Mint` | internal/jetton/jetton.go:615-700 | The answer for every input; on success exactly the numeric mint within the cap and its texts, on refusal no change |
| `Jetton.Manager.Burn` | internal/jetton/jetton.go:703-770 | The answer for every input; on success exactly the numeric burn and its texts |
| `Jetton.Manager.SetFrozen` | internal/jetton/jetton.go:813-846 | Freezing needs the owner and a freezable token, unfreezing only the owner; no balance changes |
| `Jetton.Manager.GetHolders` | internal/jetton/jetton.go:877-902 | Returns exactly the users whose balance is not zero |
| `Decimal.ParseOfPrint` | internal/jetton/jetton.go:570-584 | Printing a number and parsing it back gives the number |
| `Decimal.ParsesIff` | internal/jetton/jetton.go:534-537 | A text is read if and only if it is digits after at most one sign; a minus sign negates |
| `Decimal.PlaceValues` | internal/jetton/jetton.go:534-537 | Each place of a text stands for ten times the one after it |
| `Decimal.DigitValues` | internal/jetton/jetton.go:534-537 | The ten digits stand for zero to nine |
| `Decimal.PrintsZeroIff` | internal/jetton/jetton.go:877-884 | Zero is the only number printed as "0" |
| `Migrations.SchemaFollowsVersion` | internal/migrations/migrations.go:120-256 | Two runs of `Migrate`, `MigrateTo` and `Rollback` on the same fresh database, failed calls included, that reach the same version leave the same applied set and schema, if versions are distinct and positive, each down undoes its up and every upward `MigrateTo` finds its part of the list ascending |
| `Migrations.RunsStayCanonical` | internal/migrations/migrations.go:120-256 | Under the same conditions every run keeps: applied = all registered versions up to the current one, and the schema is theirs applied in order |
| `Migrations.StepKeeps` | internal/migrations/migrations.go:120-256 | Each single call keeps that |
| `Migrations.VersionDeterminesSchema` | internal/migrations/migrations.go:65-72 | Two databases in that state at the same version are equal |
| `Migrations.MigratedKeeps` | internal/migrations/migrations.go:120-139 | `Migrate` applies everything, or stops at the least version not applied, whose transaction fails, with everything below it applied |
| `Migrations.MovedKeeps` | internal/migrations/migrations.go:142-173 | A `MigrateTo` that succeeds leaves exactly the registered versions up to its target; one that fails leaves a canonical database, upwards at the version before the one whose transaction fails, downwards at the one whose rollback fails |
| `Migrations.UpAllKeeps` | internal/migrations/migrations.go:130-136 | Applying in ascending order stays canonical however far it gets |
| `Migrations.DownAllKeeps` | internal/migrations/migrations.go:163-169 | Rolling back in descending order stays canonical however far it gets |
| `Migrations.RunsPrefix` | internal/migrations/migrations.go:127-138 | For any list and either direction: what is done is a first part of the list, all of it exactly when nothing failed and otherwise up to the version that fails; the versions on record are the old ones with, or without, those of that part |
| `Migrations.UpDown` | internal/migrations/migrations.go:176-225 | Applying a version and rolling it back restores the database |
| `Migrations.LogUndoes` | internal/migrations/migrations.go:204-225 | The log schema is one whose down migrations undo their up migrations |
| `Migrations.OrderlyLogAscends` | internal/migrations/migrations.go:120-256 | After every orderly run of such a log its versions are ascending |
| `Migrations.CanonicalIffOrderly` | internal/migrations/migrations.go:148-156 | With a schema that logs what was run, an upward `MigrateTo` of any list is canonical if and only if the part of the list it applies is ascending |
| `Migrations.OrderlyAfterMigrate` | internal/migrations/migrations.go:75-94 | After a `Migrate`, which sorts the list in place, every upward `MigrateTo` finds its part ascending |
| `Migrations.OrderlyAfterDownIff` | internal/migrations/migrations.go:142-170 | After a downward `MigrateTo`, which leaves the list descending, an upward one finds its part ascending if and only if it has no two versions to apply |
| `Migrations.SkippedStaysSkipped` | internal/migrations/migrations.go:75-94 | A version below the current one that is not applied is never applied by `Migrate` |
| `Migrations.SecondWithoutFirst` | internal/migrations/migrations.go:148-156 | A concrete upward `MigrateTo` that applies the second version without the first |
| `Migrations.SortSorts` | internal/migrations/migrations.go:82-84 | Any list comes out in order, repeated versions included |
| `Migrations.SortOrders` | internal/migrations/migrations.go:82-84 | With distinct versions it comes out strictly in order |
| `Migrations.SortHolds` | internal/migrations/migrations.go:159-161 | The sorted list holds the same migrations, each as often |
| `Migrations.Manager.Register` | internal/migrations/migrations.go:43-50 | Appends to the list |
| `Migrations.Manager.Pending` | internal/migrations/migrations.go:75-94 | Sorts the list in place and returns those above the current version, in order |
| `Migrations.Manager.ApplyMigration` | internal/migrations/migrations.go:176-201 | Schema and record change together or not at all; they change exactly if the transaction works, the up text succeeds and the version is not on record |
| `Migrations.Manager.RollbackMigration` | internal/migrations/migrations.go:204-225 | Schema and record change together or not at all; they change exactly if the transaction works and the down text succeeds |
| `Migrations.Manager.Migrate` | internal/migrations/migrations.go:120-139 | New state, migrations done and failing version are those of the specified run |
| `Migrations.Manager.MigrateTo` | internal/migrations/migrations.go:142-173 | The same for either direction, with the list as found upwards and sorted downwards |
| `Migrations.Manager.Rollback` | internal/migrations/migrations.go:228-256 | Exactly when each of the three errors is the answer, without effect; otherwise the current version is rolled back |
| `Nft.ReachableInv` | internal/nft/nft.go:422-959 | In every reachable marketplace the items of a collection are numbered exactly 1 to `current_supply`, within a maximum unless nothing was minted, and an item has at most one active listing |
| `Nft.StepKeepsInv` | internal/nft/nft.go:422-959 | Each call keeps that |
| `Nft.MintingKeepsSupply` | internal/nft/nft.go:432-491 | Minting continues the numbering without gap or repetition |
| `Nft.FinalStaysFinal` | internal/nft/nft.go:661-959 | Over any run sold and cancelled listings and decided offers never change, nothing disappears, and items keep their number and collection |
| `Nft.AcceptedLeavesNothingOpen` | internal/nft/nft.go:913-959 | An accepted offer gives the item to the bidder and leaves no pending offer and no active listing on it; other items, offers and listings are untouched |
| `Nft.SaleMovesItem` | internal/nft/nft.go:782-833 | A sale gives the item to the buyer and leaves it without an active listing; every other item, listing and offer is untouched |
| `Nft.MintedItem` | internal/nft/nft.go:436-491 | The new item goes to the recipient, or to the caller when none is named, under the next number; nothing else is listed, offered or moved |
| `NftRules.ListingEndsIff` | internal/nft/nft.go:782-959 | An active listing is sold exactly by a sale not after its expiry to somebody other than the seller, and delisted exactly by its seller or by the owner's acceptance of an offer on its item; its other columns stay |
| `NftRules.OfferEndsIff` | internal/nft/nft.go:913-959 | A pending offer is accepted exactly by its acceptance by the item's owner, and refused exactly by that of another offer on the item |
| `NftRules.OwnerChangesIff` | internal/nft/nft.go:578-959 | The owner of an item after any call, from the call's arguments and the tables: changed by the owner's transfer, a sale in time of an active listing of it, or the acceptance of an offer on it, and by nothing else |
| `NftRules.MintsIff` | internal/nft/nft.go:422-491 | An item is added exactly when the owner of a collection asks for it, the maximum leaves room and the provider serves; then and only then the supply grows |
| `NftRules.ListsIff` | internal/nft/nft.go:661-705 | A listing is added exactly when the owner of an item without an active listing asks for it |
| `NftRules.BidsIff` | internal/nft/nft.go:856-882 | An offer is added exactly when its item exists |
| `Nft.HonestIff` | internal/nft/nft.go:578-631 | A call keeps "every seller of an active listing owns the item" if and only if it is not a successful transfer of a listed item to somebody else |
| `Nft.RunsStayHonest` | internal/nft/nft.go:578-959 | Over runs without such a transfer every seller of an active listing owns the item |
| `Nft.OwnerConsents` | internal/nft/nft.go:578-959 | Then an item changes hands only by its owner's own transfer, listing or acceptance |
| `Nft.SoldWithoutOwner` | internal/nft/nft.go:782-833 | With a listing whose seller is not the owner, a sale takes the item from an owner who did nothing |
| `Nft.LossHappens` | internal/nft/nft.go:578-833 | A run of five calls on an empty market ends that way: founding, minting, listing, transfer, sale |
| `Nft.OwnedByRight` | internal/nft/nft.go:422-959 | In every run that never transfers a listed item away, whoever owns an item has had it ever since it was minted for him, or its owner of that time gave it to him, sold it to him or accepted his offer |
| `Nft.Manager.CreateCollection` | internal/nft/nft.go:277-303 | A new empty collection |
| `Nft.Manager.MintNft` | internal/nft/nft.go:422-494 | The answer for every input and the new market |
| `Nft.Manager.TransferNft` | internal/nft/nft.go:578-631 | The answer for every input and the new market; without a recipient the owner stays |
| `Nft.Manager.CreateListing` | internal/nft/nft.go:661-705 | The answer for every input and the new market; refused while the item is listed |
| `Nft.Manager.BuyListing` | internal/nft/nft.go:782-833 | The answer for every input and the new market |
| `Nft.Manager.CancelListing` | internal/nft/nft.go:836-853 | The answer for every input and the new market |
| `Nft.Manager.CreateOffer` | internal/nft/nft.go:856-882 | The answer for every input and the new market |
| `Nft.Manager.AcceptOffer` | internal/nft/nft.go:913-959 | The answer for every input and the new market, statement by statement |
| `ApiKeys.RoundTripIff` | internal/apikeys/apikeys.go:77-81 | Printing and parsing a list of scopes gives it back if and only if every scope is non-empty, free of commas and neither starts nor ends with a double quote |
| `ApiKeys.ParseOfPrint` | internal/apikeys/apikeys.go:324-344 | For every list, each scope is read back on its own, into zero or more scopes |
| `ApiKeys.AllReadBackAreClean` | internal/apikeys/apikeys.go:333-343 | What is read back is always clean |
| `ApiKeys.SplitConcat` | internal/apikeys/apikeys.go:335-335 | Splitting at a comma splits the two sides on their own |
| `ApiKeys.TrimSpec` | internal/apikeys/apikeys.go:330-338 | Trimming takes off trimmed characters only, at the two ends only, and leaves none of them at an end |
| `ApiKeys.BareSpec` | internal/apikeys/apikeys.go:338-338 | A part loses the white space at its ends and then the quotes at its ends, and nothing else |
| `ApiKeys.PrintSpec` | internal/apikeys/apikeys.go:77-81 | The stored text is brackets around the quoted scopes, with a comma before each but the first |
| `ApiKeys.StorageKeepsAccess` | internal/apikeys/apikeys.go:183-201 | For clean scopes every request gets the same answer before and after storage |
| `ApiKeys.AccessKeptIff` | internal/apikeys/apikeys.go:77-81 | For every list: storage changes no answer if and only if every scope, taken as a request, is granted by a comma-separated part of a quoted scope, and every such part that is not empty is granted by the scopes |
| `ApiKeys.SameAccessIff` | internal/apikeys/apikeys.go:183-201 | Two lists that are not empty answer every request alike if and only if each grants every scope of the other |
| `ApiKeys.ReadBackTexts` | internal/apikeys/apikeys.go:335-342 | What is read back is exactly the comma-separated parts of the quoted scopes that are not empty once bare |
| `ApiKeys.GrantsEverythingIff` | internal/apikeys/apikeys.go:183-201 | A stored key grants everything if and only if one of those parts is a bare star, or all of them are bare of anything |
| `ApiKeys.CommaStarGrantsEverything` | internal/apikeys/apikeys.go:335-342 | A list with a scope that ends in a comma and a star grants everything once stored |
| `ApiKeys.StorageWidens` | internal/apikeys/apikeys.go:77-81 | The list with the one scope `read,*` refuses `write:all` before storage and grants it afterwards |
| `ApiKeys.EmptyScopesGrantEverything` | internal/apikeys/apikeys.go:183-201 | A list of empty scopes grants at most the empty request before storage and everything after |
| `ApiKeys.ParseScopes` | internal/apikeys/apikeys.go:324-344 | The loop computes the specified list |
| `ApiKeys.HasScope` | internal/apikeys/apikeys.go:183-201 | The scan answers yes exactly if the list is empty or a scope is the star, the request, or a prefix pattern of it |
| `ApiKeys.GrantsIff` | internal/apikeys/apikeys.go:183-201 | A request is granted if and only if the list is empty, or holds the star, the request itself, or some p followed by ":*" where the request starts with p and a colon |
| `ApiKeys.CreatedKeyIsAccepted` | internal/apikeys/apikeys.go:117-180 | A new key is accepted exactly until it expires, for its own user, with its own scopes if and only if they are clean |
| `ApiKeys.RevokedKeyIsRefused` | internal/apikeys/apikeys.go:253-268 | After a revocation the user's key of that id is refused as inactive, and every other key text has the answer it had |
| `ApiKeys.CleanupIsInvisible` | internal/apikeys/apikeys.go:347-357 | From a cleanup on, the same keys are accepted as without it |
| `ApiKeys.Manager.Create` | internal/apikeys/apikeys.go:64-114 | One new row with the printed scopes |
| `ApiKeys.Manager.Validate` | internal/apikeys/apikeys.go:117-180 | The answer for every key text, with or without its prefix, and exactly when a key is unknown or inactive; only an accepted key's usage changes |
| `ApiKeys.Manager.Revoke` | internal/apikeys/apikeys.go:253-268 | Deactivates exactly the user's row of that id, and fails exactly if there is none |
| `ApiKeys.Manager.Cleanup` | internal/apikeys/apikeys.go:347-357 | Removes exactly the expired rows and the old inactive ones |
| `Reset.UsableBound` | internal/reset/reset.go:59-148 | In every run of requests, resets, cleanups and changes of the expiration up to `life` seconds, a user has at most life / 300 + 1 usable tokens at any instant: 13 with one hour |
| `Reset.BoundIsReached` | internal/reset/reset.go:59-148 | For every life there is a run that reaches the bound |
| `Reset.ReachableInv` | internal/reset/reset.go:59-209 | In every run two tokens of one user on record are at least 300 seconds apart |
| `Reset.StepKeepsInv` | internal/reset/reset.go:59-209 | Each call keeps that |
| `Reset.RedeemedOnce` | internal/reset/reset.go:151-209 | In no run does a token change a password twice, even across cleanups |
| `Reset.ResetLeavesNoneUsable` | internal/reset/reset.go:151-196 | After a successful reset its user has no usable token at any instant, and other users' tokens are as before |
| `Reset.SweepIsInvisible` | internal/reset/reset.go:199-209 | A cleanup removes no token that is usable then or later |
| `RequestInterval.RefusedIff` | internal/reset/reset.go:71-86 | After every run a request is refused if and only if the user's last granted one is less than 300 seconds old and its token still on record |
| `RequestInterval.IntervalKeptIff` | internal/reset/reset.go:59-209 | At every moment of a run any further request leaves the granted ones 300 seconds apart, if and only if no cleanup in the run removes a token of the user younger than that |
| `RequestInterval.IntervalKept` | internal/reset/reset.go:59-115 | Over every run without such a cleanup all granted requests of the user are 300 seconds apart |
| `RequestInterval.EarlySweepShows` | internal/reset/reset.go:199-209 | Right after any such cleanup there is a request that is granted too early |
| `RequestInterval.IntervalKeptWithoutReset` | internal/reset/reset.go:59-209 | A user who changes no password has all granted requests 300 seconds apart, whatever is cleaned up, unless a token is issued more than 23 hours and 55 minutes past its expiry |
| `Reset.ResetAndSweepLiftLimit` | internal/reset/reset.go:71-86 | After a reset and a cleanup the next request is never refused |
| `Reset.Manager.CreateToken` | internal/reset/reset.go:59-115 | Nothing for an unknown or inactive address; refused exactly when the last request on record is under 300 seconds old; otherwise a new token with its expiry |
| `Reset.Manager.ValidateToken` | internal/reset/reset.go:118-148 | Returns a user exactly if the token is one of his usable ones, and the right error otherwise |
| `Reset.Manager.ResetPassword` | internal/reset/reset.go:151-196 | All or nothing: the password, the token and all unused tokens of the user |
| `Reset.Manager.Cleanup` | internal/reset/reset.go:199-209 | Removes exactly the used tokens and those expired for a day |
| `QueryBuilder.Builder.Build` | internal/store/dbutil.go:63-75 | On Postgres n rounds of replace-first number exactly the first n question marks, for any n; on SQLite nothing changes; the counter is reset |
| `QueryBuilder.RoundNumbers` | internal/store/dbutil.go:71-73 | One more round numbers exactly one more question mark |
| `QueryBuilder.NumberedIsWoven` | internal/store/dbutil.go:60-75 | The i-th question mark becomes the i-th parameter and every stretch of text between them stays as it was |
| `QueryBuilder.LeftOverIff` | internal/store/dbutil.go:60-75 | A question mark is left over if and only if there are more of them than parameters |
| `QueryBuilder.ExtraParameters` | internal/store/dbutil.go:71-73 | Rounds beyond the last question mark change nothing |
| `QueryBuilder.Builder.OnePass` | internal/store/dbutil.go:47-58 | Calling `Placeholder` at each question mark from a reset counter gives the text that `Build` gives when n is the number of question marks |
| `QueryBuilder.Builder.Placeholder` | internal/store/dbutil.go:47-53 | Counts up and returns the next mark of the driver |

## Left out

- HTTP handlers, routing, the dashboard, metrics, logging, configuration, the bot, the TON providers and the GraphQL stubs: plumbing. `provider.Send` and the NFT provider become an outcome chosen freely.
- Error texts, names, metadata, timestamps that nothing reads, transfer and mint records, listing and summary queries.
- BatchManager.Manager.Process: a whole call is one step here; `BatchProtocol` is the model of its interleavings.
- BatchProtocol.SentAtMostOnce: `processed_count` is not part of this step model (it is part of `BatchManager`), and transaction ids do not collide.
- TokenBucket.WindowBound: over real numbers, so float64 rounding is not modelled; `allow` is one step, so a cleanup between its two locks is not modelled.
- GrantRule.GrantedIff: over real numbers too, and for limits that are not negative; `TokenBucket.WindowBound` covers negative ones.
- Hub.NothingMissed: acknowledgments that `readPump` sends after the hub has evicted its client are outside the step model, as is the JSON encoding of what `writePump` takes.
- JobLimits.HandlerRunsBounded: for runs whose reads and retry writes are in order, which `JobLimits.ReadKeepsOneToOneIff` and `JobLimits.RetryKeepsOneToOneIff` prove to be exact step by step; a worker that crashes or is shut down in the middle of a job, and the handler timeout, are not modelled.
- JobLimits.BackoffIsQuadratic: the product of delay and attempts is exact, without the overflow of a 64-bit duration.
- Multisig.ReachableInv: a call is one step, although it reads the proposal with one statement and writes it with another; two approvals whose statements interleave can lose a vote, which is not covered.
- Multisig.FullVoteDecides: signatures, action data and the JSON form of the stored votes are not modelled.
- Jetton.Conservation: for calls that run one after the other and whose statements all succeed; the code uses no transaction, so a failure or another call between two statements is not covered.
- Jetton: `Deploy`, `UpdateSettings`, `GetTransferHistory` and paging of `GetHolders` are not modelled.
- Migrations.SchemaFollowsVersion: one process migrates at a time, so that nothing happens between reading the version and the transactions; versions are distinct, positive and registered before the first call; the built-in migrations' SQL texts are not interpreted.
- Nft.ReachableInv: calls run one after the other; deploying, payment and the UNIQUE constraint on addresses are not modelled; an offer's expiry is stored by the code but never read, so it is not modelled.
- ApiKeys.RoundTripIff: texts are sequences of Unicode characters; byte strings that are not valid UTF-8 are not covered.
- ApiKeys.Manager.Validate: a call is one step; a revocation between its two statements is not covered.
- ApiKeys.Manager.Create: key generation, hashing, rate limits, `List`, `Delete` and the HTTP middleware are not modelled.
- Reset.ReachableInv: a call is one step, although `CreateToken` checks with one statement and inserts with another; two requests whose statements interleave can both be granted, which is not covered here or in `RequestInterval`.
- Reset.UsableBound: token generation, hashing and bcrypt are abstract; `GetUserByResetToken` is not modelled.
- QueryBuilder.Builder.Build: driver detection is not modelled; a question mark inside a literal is numbered as the code numbers it.
- TOTP, audit checksums, the IP filter, tracing, validation, registration, contracts, users and internal/middleware: with the library parts abstracted only easy claims remain.
