# Paid stock analysis: a verified model

This project models the parts of the repository in which money, durable records and crashes
meet, and proves what they promise. Its files fall into groups.

- **The wallet limiter.** `WalletWindow` is the hourly reservation record of one wallet as a log
  of writes that landed. `WalletLimiter` is the limiter's code over that record: its admission,
  commit, release and confirm loops against a stored object that other replicas rewrite between
  any two of its operations. `RetryAfterHeader` and `Decimals` follow the refusal's Retry-After
  through the header text into the buyer's stored cooldown.
- **The paid-job protocol.** `JobRecord` is the durable job record and every change the service
  makes to it. `JobProtocol` is the service as a state machine: any number of requests and
  workers on any number of replicas, over the job record, the wallet record and the stored
  reports. Any activity can die at any point. A conditional write compares the whole stored
  record, so a record that has come back to an earlier value is accepted. A write whose caller
  saw an error may land at any later time, and more than once. `JobInvariant` and
  `JobSteps` show what every step keeps, `JobTheorems` states what follows for whole runs,
  and `JobRecovery` shows when an uninterrupted exact retry brings a job to its end, whatever
  a crash has left behind, and when it is refused.
- **The buyer's relay.** `Relay` is the upload store with its paged buffers, one method per
  request event. `RelayBytes` relates the pages to one flat byte string.
- **The polling loop.** `Polling` is the buyer's loop with its clock, network and callbacks.
- **The buyer's restarts.** `BuyerPayment` is the paid request over crashes: the pending file,
  the receipt file and the cooldown. `PendingCleanup` is the cleanup of the pending file while
  others write to the same directory.
- **The seller's delivery.** `SellerLife` is the life of one job in the seller's process.
  `SellerCore` is the bookkeeping for all jobs, field by field, and each of its methods is a
  step of `SellerLife`. `SellerRuns` runs them in any order for any jobs. `ThreadSlots` is the semaphore around uncancellable threads.
- **Canonical JSON.** `JsonStrings`, `JsonNumbers` and `CanonicalJson` are the printer whose
  output a deliverable's hash commits to. `JsonDecoding`, `JsonLiterals` and `CanonicalReading`
  are what RFC 8259 makes of that output, defined without the printer: strings, number literals
  and whole texts.
- **Reading a manifest.** `DuplicateKeys` is the scan that refuses repeated keys and deep nesting.
  `SentinelRewriting` is how a document with `__proto__` keys and the words NaN and Infinity is
  read through a strict parser, and `DocumentGrammar` says what a document stands for apart from
  any parser.
- `Wrappers` holds the option type, and `Basics` a few facts about numbers and sets.

Clock samples are parameters and may run backwards between replicas, except where a statement
bounds how far. Outcomes of network calls, and what other processes do, are left open: a method
calls an operation that may answer anything its contract allows, and a state machine has a step
for every answer.

## What the code does not meet

Some properties hold only under a condition, which is part of the theorem.

- A failure marked retryable is refused by resume exactly if its attempts are used up or the job
  has expired (`JobRecord.RetryableButRefused`), and such a record is reachable
  (`JobTheorems.RefusedRetryIsReachable`).
- A crash, or a lost reply, between the reservation and the job record leaves a reservation without
  a record. For the rest of its hour every exact retry is refused, because it takes the entry for
  that of another request about to create the record (`JobRecovery.OrphanBlocksForItsHour`).
- In every reachable state an exact retry is refused as unavailable exactly if a clock sample it
  takes is out of the limiter's range, or its reservation's hour ends between confirm's two
  samples, or, without a record, an entry of its own still counts in the wallet record, or, with
  one, its clock still counts a reservation that the wallet record has lost
  (`JobRecovery.RetryRecovers`). An entry is lost only to a replica whose clock was ahead and had
  found the hour over; such a refusal is reachable (`JobRecovery.LaggingClockIsRefused`).
- With clock samples that run backwards by up to D, a window of the full hour is no longer
  limited to 30 admissions; a window shorter by D is, and no longer one
  (`WalletWindow.WindowLimit`, `WalletWindow.WindowLimitIsSharp`).
- Retry-After is between 1 and 3600 exactly if the oldest reservation is not in the future of the
  refusing replica. Otherwise the buyer's parser refuses it and the stored cooldown is too short
  (`WalletWindow.RetryAfterRange`, `RetryAfterHeader.FutureReservationOutlastsCooldown`).
- A 429 answered to a settling recovery leaves a cooldown beside a receipt, and no restart leads
  out of that state (`BuyerPayment.StuckIsReachable`, `BuyerPayment.StuckForever`); nothing else
  leads into it (`BuyerPayment.StuckOnlyByLimitedRecovery`).
- Pruning can take a notification's context between its installation and the start of its worker,
  which then works without it (`SellerRuns.Overcrowd`). A sweep's check, and a notification that
  delivery has not overtaken, prune exactly if more than 1024 jobs are tracked, the swept one
  counted, and one of the others has no live work (`SellerCore.EvictsBeyondCap`). With at most
  1024 jobs tracked at every section no context is lost (`SellerRuns.Run`).
- A document with one of the words NaN, Infinity or -Infinity in the place of a key can be read
  although it is not one of the extended grammar (`SentinelRewriting.WordKeyIsRead`). A document
  that is read belongs to the grammar exactly if it has no such word
  (`SentinelRewriting.ReadIsSound`).

## Model

| member | source | states |
|---|---|---|
| `WalletWindow.WrittenWellFormed` | stockanalyst/app/agent/x402_job_store.py:132-182 | every limiter write takes a valid wallet record to a valid one: at most 30 entries, ids distinct, timestamps in range |
| `WalletWindow.AfterWellFormed` | stockanalyst/app/agent/x402_wallet_rate_limit.py:143-224 | so does any sequence of landed writes by any replicas |
| `WalletWindow.WrittenSlot` | stockanalyst/app/agent/x402_wallet_rate_limit.py:255-296 | a slot survives any write but its own release and the pruning of its hour |
| `WalletWindow.WrittenCommitted` | stockanalyst/app/agent/x402_wallet_rate_limit.py:255-296 | a committed slot stays committed under every other write in its hour |
| `WalletWindow.AdmissionSurvives` | stockanalyst/app/agent/x402_wallet_rate_limit.py:143-224 | an admission holds its slot at every later moment of the log at which it is neither released nor expired |
| `WalletWindow.WindowLimit` | stockanalyst/app/agent/x402_wallet_rate_limit.py:87-97 | over any run of landed writes whose samples run backwards by at most D, every window of 3,600,000 - D ms holds at most 30 admitted and unreleased reservations; D = 0 is the advertised limit |
| `WalletWindow.WindowLimitIsSharp` | stockanalyst/app/agent/x402_wallet_rate_limit.py:143-148 | for every D below the window there is a legal log with 31 admissions in a window one millisecond longer |
| `WalletWindow.RetryAfterIsExact` | stockanalyst/app/agent/x402_wallet_rate_limit.py:191-195 | for a full record, waiting a number of whole seconds frees a slot exactly if it is at least Retry-After |
| `WalletWindow.RetryAfterRange` | stockanalyst/app/agent/x402_wallet_rate_limit.py:191-195 | Retry-After lies in 1..3600 exactly if the oldest reservation is not in the future |
| `WalletLimiter.PlanReserve` | stockanalyst/app/agent/x402_wallet_rate_limit.py:155-213 | the write a reservation call plans is one the store's validation accepts, and carries the call's id and clock sample |
| `WalletLimiter.WalletObject.Read` | stockanalyst/app/agent/x402_job_store.py:250-288 | a successful read returns the record as it is at some moment of the call |
| `WalletLimiter.WalletObject.ConditionalPut` | stockanalyst/app/agent/x402_job_store.py:192-204 | a put answered Done landed, one answered Conflict did not and never will, and found another record or the store busy twice; one that raised may have landed or may land later; one that landed during the call replaced exactly the record it expected |
| `WalletLimiter.WalletObject.Reserve` | stockanalyst/app/agent/x402_wallet_rate_limit.py:132-224 | an answer of admitted is one landed reservation of this call with this sample; an existing one was in the record at a moment of the call; a refusal saw 30 active entries and gives their Retry-After; at most one write of the call lands, during it or later, and none after a refusal; the call is unavailable exactly if a clock sample was out of range, an operation failed or every try lost its race |
| `WalletLimiter.WalletObject.Commit` | stockanalyst/app/agent/x402_wallet_rate_limit.py:244-326 | success means the slot was committed in the record at some moment of the call, also after a lost reply; expiry is reported only for a slot whose hour is over, and unavailability only after a failure, as many lost races as tries, or a record seen without the slot; every write of the call that lands, during it or later, is a commit of exactly this slot |
| `WalletLimiter.WalletObject.Release` | stockanalyst/app/agent/x402_wallet_rate_limit.py:244-326 | success means the slot was not in the record at some moment of the call; at most one write of the call lands, during it or later, a release of exactly this slot; the call is unavailable exactly after a failure or as many lost races as tries |
| `WalletLimiter.WalletObject.Confirm` | stockanalyst/app/agent/x402_wallet_rate_limit.py:232-242 | active means the reserved slot was in the record during the call and in its hour; expired means its hour was over; unavailable means a failure, an hour that ended between the two samples, or a record that does not hold the slot as reserved |
| `Decimals.DecimalReads` | stockanalyst/app/agent/x402_wallet_rate_limit.py:191-195 | a decimal text has no leading zero and reads back as its number |
| `RetryAfterHeader.HeaderRoundTrip` | buyer-client/src/x402-async-client.ts:728-737 | the strict parser reads back exactly the printed numbers from 1 to 3600, as milliseconds, and refuses larger ones |
| `RetryAfterHeader.CooldownIsExact` | buyer-client/src/x402-async.ts:1206-1219 | for a full record with no future timestamps the stored cooldown is 1000 times Retry-After; after it a slot is free if nobody writes, and after no fewer whole seconds |
| `RetryAfterHeader.FutureReservationOutlastsCooldown` | buyer-client/src/x402-async.ts:1206-1212 | with the oldest reservation in the future the default cooldown of an hour ends with no slot free |
| `JobRecord.ChangeKeeps` | stockanalyst/app/agent/x402_job_service.py:1025-1153 | every change of the record keeps it consistent, and takes back nothing an earlier one said |
| `JobRecord.ChangeIsStamped` | stockanalyst/app/agent/x402_job_service.py:1105-1141 | every change is stamped with its own sample, a lease it gives runs for 120,000 ms from a sample of the change, and only the settling change sets the time of settlement |
| `JobRecord.RetryableButRefused` | stockanalyst/app/agent/x402_job_service.py:217-307 | a retryable failure is resumed exactly if fewer than three attempts are used and the job has not expired; an unexpired one that is refused failed on an empty answer at the third attempt |
| `JobRecord.ResumeAnswers` | stockanalyst/app/agent/x402_job_service.py:267-307 | resume answers expired from the lifetime on, exhausted once three attempts are used, queued or requeued exactly for a job that is queued, retryable, or running with its lease over |
| `JobRecord.TakenOverOnceLeaseIsOver` | stockanalyst/app/agent/x402_job_service.py:1542-1565 | a running execution is claimed by another worker, or queued again by resume, exactly once its lease is over, as long as attempts are left and, for resume, the job has not expired |
| `JobRecord.TransientFailureIsRetried` | stockanalyst/app/agent/x402_job_service.py:1710-1751 | after a failed execution a worker may claim the job, or resume queue it, exactly if the failure was transient and fewer than three attempts are used, and the claim is the next attempt; it is marked retryable exactly then, or for a transient empty answer |
| `JobInvariant.LandKeeps` | stockanalyst/app/agent/x402_job_store.py:342-358 | the invariant survives a conditional write landing at any time after it was issued |
| `JobInvariant.WalletKeeps` | stockanalyst/app/agent/x402_wallet_rate_limit.py:244-326 | and a wallet write landing at any time, by this job or another |
| `JobSteps.ClaimIsNew` | stockanalyst/app/agent/x402_job_service.py:813-824 | a create or claim write that can land carries a sample at least 120,000 ms after every earlier one |
| `JobSteps.ClaimKeeps` | stockanalyst/app/agent/x402_job_service.py:808-854 | the invariant survives a create or claim write, acknowledged or not, and the request's move to settling |
| `JobSteps.SettlementKeeps` | stockanalyst/app/agent/x402_job_service.py:1095-1153 | the facilitator's answer, written under the claim, keeps job and wallet in agreement |
| `JobSteps.PutReportKeeps` | stockanalyst/app/agent/x402_job_store.py:447-464 | the invariant survives a report upload, acknowledged or not |
| `JobSteps.StepKeeps` | stockanalyst/app/agent/x402_job_service.py:498-671 | the whole invariant survives every step of every activity, every crash and every late write |
| `JobSteps.RunKeeps` | stockanalyst/app/agent/x402_job_service.py:498-671 | and so every run |
| `JobTheorems.RecordNeverTakenBack` | stockanalyst/app/agent/x402_job_service.py:1025-1153 | over any continuation of any run a final payment state stays, attempts never fall, a committed or released slot stays so and a finished record stays what it is |
| `JobTheorems.PaymentIsFinal` | stockanalyst/app/agent/x402_job_service.py:1095-1153 | a payment that is settled or failed stays so over any continuation of any run |
| `JobTheorems.PaymentStartsSettling` | stockanalyst/app/agent/x402_job_service.py:575-610 | a job is first stored with both statuses settling |
| `JobTheorems.NoUnpaidAnalysis` | stockanalyst/app/agent/x402_job_service.py:1542-1565 | a provider call is made only while the payment is settled |
| `JobTheorems.ServedJobsArePaid` | stockanalyst/app/agent/x402_job_service.py:279-297 | every stored job that is queued, running, succeeded or may be retried is settled |
| `JobTheorems.SettlesUnderOwnClaim` | stockanalyst/app/agent/x402_job_service.py:602-664 | in every run the facilitator is called only by a request whose last step was its own acknowledged create or claim write, which stored a record with both statuses settling under a sample that no earlier call used |
| `JobTheorems.LostClaimNeverSettles` | stockanalyst/app/agent/x402_job_service.py:808-854 | in every run no call of the facilitator follows an unacknowledged create or claim write of a request, landed or not, unless the same request claims again and is told so |
| `JobTheorems.ClaimsLandApart` | stockanalyst/app/agent/x402_job_service.py:813-824 | in every run any two create or claim writes that land, at once or late, carry samples at least 120,000 ms apart in the order they land |
| `JobTheorems.SettlementCallsNeverOverlap` | stockanalyst/app/agent/x402_job_service.py:1155-1168 | two settlement calls of a job that start within a grace period of their claims and last at most 120 s less that period never overlap |
| `JobTheorems.ReleasedOnlyForFailure` | stockanalyst/app/agent/x402_job_service.py:981-1023 | a release of a slot lands only for a job whose payment durably failed, and only on its own slot |
| `JobTheorems.SettledSlotIsKept` | stockanalyst/app/agent/x402_job_service.py:939-979 | once a job is settled its slot stays in the wallet record for its hour, and is committed there once the job says so |
| `JobTheorems.ReservedExactlyWhileSettling` | stockanalyst/app/agent/x402_job_service.py:946-979 | a settled job with a slot reads reserved exactly while its status is settling |
| `JobTheorems.WorkIsBounded` | stockanalyst/app/agent/x402_job_service.py:1502-1613 | over all replicas, restarts and resumes at most 3 execution claims land and at most 9 provider calls are made |
| `JobTheorems.LostClaimIsAdopted` | stockanalyst/app/agent/x402_job_service.py:1502-1565 | a claim that landed although its reply was lost is taken up by the same worker and costs one attempt |
| `JobTheorems.LostClaimCostsOneAttempt` | stockanalyst/app/agent/x402_job_service.py:1502-1565 | a worker that gets no answer to its claim keeps driving, takes the claim up if it lands after all, and has used one attempt |
| `JobTheorems.LostLeaseIsPowerless` | stockanalyst/app/agent/x402_job_service.py:1678-1751 | in every run, once a worker that read its own lease in a record has lost it, no heartbeat, failure or success write computed from that record is accepted at any later moment, at once or late, even under a new lease of the same owner |
| `JobTheorems.FinishedForever` | stockanalyst/app/agent/x402_job_service.py:1438-1482 | after success neither the record nor the report it refers to changes again, whatever still arrives |
| `JobTheorems.ReportStays` | stockanalyst/app/agent/x402_job_store.py:447-464 | no step changes a stored report that is the only one sent under its key |
| `JobTheorems.SuccessNamesItsWriter` | stockanalyst/app/agent/x402_job_service.py:1438-1482 | the report a success record names is the lease holder's own and was stored before that write |
| `JobTheorems.SuccessWasAnalysed` | stockanalyst/app/agent/x402_job_service.py:1542-1613 | in every run a success names an execution that was claimed and that called the provider, once to three times |
| `JobTheorems.RefusedRetryIsReachable` | stockanalyst/app/agent/x402_job_service.py:1731-1738 | some run stores a failure marked retryable that resume refuses at every time: as expired from its expiry on, and before it for used-up attempts |
| `JobTheorems.ClaimableJobIsDone` | stockanalyst/app/agent/x402_job_service.py:1378-1482 | from any state a job that may be claimed can be done: a new worker's own steps lead to the success that names it, with its report stored and one more attempt used |
| `JobTheorems.LostUploadIsFailed` | stockanalyst/app/agent/x402_job_service.py:1446-1464 | a worker whose report could not be stored fails the execution, which may be claimed again exactly if attempts are left |
| `JobTheorems.LostPendingIsWrittenAgain` | stockanalyst/app/agent/x402_job_service.py:1025-1090 | a pending reference whose write was lost is written again over the record as it is now exactly while that record still waits for one and a try is left |
| `JobTheorems.PendingIsTriedAgain` | stockanalyst/app/agent/x402_job_service.py:1041-1065 | a request whose pending write and reread are lost writes again, three times in all, and then ends |
| `JobRecovery.ReconciledEndsWell` | stockanalyst/app/agent/x402_job_service.py:915-1023 | reconciling a final payment brings both records to their common end, and is refused exactly for a clock out of range or a settled slot that is gone while the caller's clock still counts it |
| `JobRecovery.RetryRecovers` | stockanalyst/app/agent/x402_job_service.py:531-671 | from every reachable state, with or without a job record, an uninterrupted exact retry after the lease is unavailable exactly if RetryFails, a condition on its clock samples and the stored records, and limited exactly if it has no record and the wallet is full; otherwise it is a run of the protocol that ends settled, committed and past settling, or failed and released, settled exactly if the chain has seen the reclaimed proof used or, where the chain says nothing, the facilitator settles it, and under the reference it names; a payment that was final before stays what it was; a refusal by readable clocks whose hour does not end during confirm has its cause in the past: a landed reservation of the job, or a clock ahead that found the hour over |
| `JobRecovery.RetryHeedsVerdict` | stockanalyst/app/agent/x402_job_service.py:831-876 | a retry of a payment still open ends paid, with the facilitator's reference or with none for a proof found used, or unpaid for a proof expired unused or rejected; a final payment keeps its state, reference, attempts and settlement time |
| `JobRecovery.OrphanBlocksForItsHour` | stockanalyst/app/agent/x402_job_service.py:570-583 | a crash between reservation and record is reachable; every exact retry sampled in the reservation's hour is then refused, and after it none is for that reason |
| `JobRecovery.LaggingClockIsRefused` | stockanalyst/app/agent/x402_wallet_rate_limit.py:232-242 | a reachable state in which a retry half a second behind another replica is refused although its hour still runs |
| `JobRecovery.RetryIsARun` | stockanalyst/app/agent/x402_job_service.py:531-671 | each recovery, with or without a record to begin with, is a run of the protocol by one new activity |
| `RelayBytes.FlatOverwrite` | buyer-client/src/gateway.ts:313-337 | writing into one page writes the flat byte string at the page's place and nowhere else |
| `RelayBytes.CopyHolds` | buyer-client/src/gateway.ts:313-337 | one copy extends the written prefix by exactly the copied bytes and leaves the cursor behind it |
| `RelayBytes.SumWithout` | buyer-client/src/gateway.ts:174-176 | the total of a ledger is any entry and the total of the rest |
| `Relay.AllocationIsRoundedUp` | buyer-client/src/gateway.ts:259-267 | what is retained for a size is the size rounded up to whole pages, cut off at the payload limit, and covers it |
| `Relay.AtMostMaxSegments` | buyer-client/src/gateway.ts:168-173 | pages of the chosen size number at most 32 |
| `Relay.PageSizeIsLeast` | buyer-client/src/gateway.ts:168-173 | a payload at the limit needs at most 32 pages of the chosen size, and more than 32 of any smaller one |
| `Relay.RelayStore.Release` | buyer-client/src/gateway.ts:235-245 | a reservation leaves the in-flight total once, into the stored total if committed; a second call changes nothing |
| `Relay.RelayStore.EnsureRetainedCapacity` | buyer-client/src/gateway.ts:252-292 | room is made exactly if the budget and the allocator allow it, and every byte reserved is charged |
| `Relay.RelayStore.Begin` | buyer-client/src/gateway.ts:199-297 | an upload is admitted exactly if its length is readable and within the limit, a payload slot is free and the bytes fit; a refused one leaves the relay as it was |
| `Relay.RelayStore.Data` | buyer-client/src/gateway.ts:299-338 | a chunk is appended whole behind the bytes received, or the upload ends and all it had reserved is free; it is refused exactly for size, budget or allocation; events after the end change nothing |
| `Relay.RelayStore.End` | buyer-client/src/gateway.ts:339-361 | the finished upload becomes a payload under a new id that stands for exactly the bytes received; its reservation moves from in flight to stored; other payloads are untouched |
| `Relay.RelayStore.Reject` | buyer-client/src/gateway.ts:247-257 | an aborted, failed or closed upload gives back all it had reserved, once |
| `Relay.RelayStore.Download` | buyer-client/src/gateway.ts:377-416 | a download emits exactly the bytes of the payload, whatever uploads came after |
| `Relay.RelayStore.PagesAreFew` | buyer-client/src/gateway.ts:168-173 | in every valid relay no payload and no upload has more than 32 pages |
| `Polling.Wait` | buyer-client/src/x402-async-client.ts:1084-1093 | a wait that comes back before the deadline has taken at least a second and at least the time that was asked for, and it times out exactly at or after the deadline |
| `Polling.OnFailed` | buyer-client/src/x402-async-client.ts:1119-1154 | a failed job is reported exactly if it is not retryable or was resumed before, and is resumed otherwise unless the time is up; going round takes a second or the one conflict |
| `Polling.OnSettling` | buyer-client/src/x402-async-client.ts:1155-1181 | a recovery is made exactly once the full recovery period has passed since settling was first observed or last recovered, unless the time is up |
| `Polling.OnRunning` | buyer-client/src/x402-async-client.ts:1185-1223 | a job that has been running for the recovery period is resumed, and none before; every round that goes on takes at least a second and, without a resume, the time the server asked for |
| `Polling.Round` | buyer-client/src/x402-async-client.ts:1095-1224 | a round makes at most one status read and goes on only after a wait, a recovery or the conflict; cleanup runs only after a status past settling or a 410; it throws only at the deadline or on a final error, and on every final error |
| `Polling.Poll` | buyer-client/src/x402-async-client.ts:1006-1225 | the loop ends; it reads the status at most 2 * ((timeout - 1) / 1000) + 2 times, resumes a failed job at most once, makes fewer recoveries than timeout seconds, returns success only on a succeeded status, and throws only at its deadline or on the one final error it met, which is its last |
| `BuyerPayment.StepKeeps` | buyer-client/src/x402-async.ts:1124-1247 | the invariant between files and history survives every step and every crash |
| `BuyerPayment.NewProofOnlyWhenDone` | buyer-client/src/x402-async.ts:1424-1523 | a proof is signed only with neither file on disk, and only when every proof sent before was answered 429 or belongs to a job that the server named for it, whose receipt was written, that a poll read succeeded and whose report was saved |
| `BuyerPayment.DurableBeforePost` | buyer-client/src/x402-async.ts:1514-1534 | every proof is on disk each time it is sent |
| `BuyerPayment.ProofIsRetained` | buyer-client/src/x402-async.ts:1195-1219 | a proof that was sent stays on disk until it was answered 429, or a receipt bound to it was written and a poll read that job past settling or gone |
| `BuyerPayment.PendingIsBoundToReceipt` | buyer-client/src/x402-async.ts:1195-1204 | a pending record beside a receipt is bound to the receipt's job and token |
| `BuyerPayment.ReceiptOutlivesPolling` | buyer-client/src/x402-async.ts:1388-1402 | once a receipt is written it stays until a poll has read its job succeeded and the report is saved |
| `BuyerPayment.SavedOnlyIfSucceeded` | buyer-client/src/x402-async.ts:1557-1575 | a report is saved, and a receipt removed, only after a poll of that job read it succeeded |
| `BuyerPayment.SucceededIsDelivered` | buyer-client/src/x402-async.ts:1557-1575 | from a poll whose pending file nobody replaced, a succeeded reading leads by the process's own steps to the saved report and the removed receipt |
| `BuyerPayment.UnfinishedIsPolledOn` | buyer-client/src/x402-async-client.ts:1114-1118 | a reading of queued, running or failed cleans up the pending file, leaves the receipt and saves nothing, and the polling goes on |
| `BuyerPayment.GoneIsGivenUp` | buyer-client/src/x402-async-client.ts:1104-1110 | a job that is gone keeps its receipt and ends the process |
| `BuyerPayment.ForeignIsPutBack` | buyer-client/src/x402-async.ts:1249-1303 | anything else found at the pending path by the cleanup is put back as it was, and the process ends |
| `BuyerPayment.PendingIsResumed` | buyer-client/src/x402-async.ts:1167-1204 | a proof found on disk without a receipt is sent again, and the job the server names for it gets a bound record and then its receipt |
| `BuyerPayment.FreshIsSigned` | buyer-client/src/x402-async.ts:1466-1514 | with nothing on disk, or a cooldown that is over, a fresh proof is signed and put on disk before anything is sent |
| `BuyerPayment.AnswersThatEnd` | buyer-client/src/x402-async.ts:1168-1243 | an answer to a POST ends the process exactly if it is final, names another job than the record or the poll does, or is the last attempt of a request outside a poll; no answer changes the disk by itself |
| `BuyerPayment.CooldownIsWaitedOut` | buyer-client/src/x402-async.ts:1425-1444 | from a cooldown on disk nothing is signed or sent, and nothing on disk changes, before a start at or after its end |
| `BuyerPayment.StuckForever` | buyer-client/src/x402-async.ts:1425-1444 | with a cooldown beside a receipt no restart changes the disk or sends anything |
| `BuyerPayment.StartsUnlessStuck` | buyer-client/src/x402-async.ts:1413-1475 | every other reachable disk lets the process start |
| `BuyerPayment.ReceiptIsPolledFor` | buyer-client/src/x402-async.ts:1445-1466 | a reachable disk with a receipt, unless stuck, starts a poll of that receipt's job with the pending record as its own |
| `BuyerPayment.LimitedRecoverySticks` | buyer-client/src/x402-async.ts:1206-1224 | a 429 answered to a settling recovery leads there from any poll with its pending record |
| `BuyerPayment.StuckIsReachable` | buyer-client/src/x402-async.ts:1206-1224 | so some run ends there |
| `BuyerPayment.StuckOnlyByLimitedRecovery` | buyer-client/src/x402-async.ts:1206-1224 | every run that ends with such a disk contains a 429 answered to a POST that recovers a settling job |
| `PendingCleanup.Directory.QuarantineRemoveOwned` | buyer-client/src/x402-async.ts:1249-1303 | cleanup destroys no file but the expected bound record, whoever replaces the pending file meanwhile; any other file it moved is kept under the quarantine name; if nobody interferes and nothing fails, the expected record is gone afterwards and anything else is where it was |
| `SellerLife.StepKeeps` | stockanalyst/app/agent/seller_core.py:473-562 | the job's bookkeeping agrees with its worker, thread and history after every step |
| `SellerLife.DeliversOnce` | stockanalyst/app/agent/seller_core.py:473-562 | in every run at most one submit of a job returns success, and after it no event starts a submit or schedules a worker, be it a notification, a sweep or a hand-off |
| `SellerLife.CountsAreKept` | stockanalyst/app/agent/seller_core.py:431-443 | the counted successes are the submits of the run that returned success, and the counted reports are the notifications installed and not yet spawned or ended |
| `SellerLife.SlotOutlivesThread` | stockanalyst/app/agent/seller_core.py:731-757 | a running submit thread keeps its job's slot through every other event, repeated cancellation included |
| `SellerLife.ContextlessExcludesContext` | stockanalyst/app/agent/seller_core.py:418-430 | a job worked on without a context never has one at the same time |
| `SellerLife.ContextIsNeverReplaced` | stockanalyst/app/agent/seller_core.py:431-437 | without pruning an installed context stays until the job is over, and none is installed after that |
| `SellerLife.NeededContextIsUsed` | stockanalyst/app/agent/seller_core.py:657-664 | without pruning no verified or context-requiring job is worked on without its context |
| `SellerLife.SweepNeverSkipsContext` | stockanalyst/app/agent/seller_core.py:565-588 | a sweep's worker never works without a needed context, pruning or not |
| `SellerLife.AcceptedIsUnderWay` | stockanalyst/app/agent/seller_core.py:479-487 | an accepted notification finds the job over, or leaves it with a verified worker or a hand-off |
| `SellerLife.HandoffIsKept` | stockanalyst/app/agent/seller_core.py:547-562 | a hand-off becomes a verified worker when the sweep's worker ends without an outcome exactly if the context is still there; without pruning it is |
| `SellerLife.SweepStartsIdleJob` | stockanalyst/app/agent/seller_core.py:473-487 | a sweep that finds a job neither over nor under way gives it an unverified worker, and leaves any other as it is |
| `SellerLife.AcceptedStartsIdleJob` | stockanalyst/app/agent/seller_core.py:473-487 | an accepted notification gives an idle job a verified worker, and marks a hand-off exactly beside a sweep's worker |
| `SellerLife.NotificationIsAnswered` | stockanalyst/app/agent/seller_core.py:418-437 | a notification is installed only before the job is over and only if the worker, once it has read a context, has read the same one; any other changes nothing |
| `SellerLife.WaitSeesContext` | stockanalyst/app/agent/seller_core.py:565-588 | a sweep's worker that waits for a context works with the one installed meanwhile |
| `SellerLife.OutcomeDecides` | stockanalyst/app/agent/seller_core.py:517-562 | a success or a permanent failure ends the job; after any other outcome the job keeps its context and has a verified worker or gets one from the next sweep |
| `SellerLife.CanStillBeDelivered` | stockanalyst/app/agent/seller_core.py:759-792 | any job neither over nor written off can be delivered: events of which none fails lead to its end with one successful submit, a notification among them only if the job needs a context and has none |
| `SellerLife.PruningCanStripContext` | stockanalyst/app/agent/seller_core.py:433-450 | in the life of one job: pruning between installation and spawn leaves an accepted, verified worker without its context |
| `SellerCore.SellerCore.SpawnJob` | stockanalyst/app/agent/seller_core.py:473-487 | a worker is started exactly as the life of the job says, field by field, and other jobs are untouched |
| `SellerCore.SellerCore.PruneTrackedState` | stockanalyst/app/agent/seller_core.py:265-295 | up to 1024 tracked jobs nothing goes; beyond it the jobs without live work with the earliest deadlines go, as many as are too many or all there are; nothing else of any job changes |
| `SellerCore.PickStalest` | stockanalyst/app/agent/seller_core.py:285-291 | the chosen candidates are no fresher than any that are left |
| `SellerCore.EvictsBeyondCap` | stockanalyst/app/agent/seller_core.py:276-295 | pruning takes something exactly if more than 1024 jobs are tracked and some candidate has no live work |
| `SellerCore.SellerCore.Notify` | stockanalyst/app/agent/seller_core.py:418-443 | a verified notification is one step of its own job; other jobs are pruned or untouched, and which are pruned is what the cap demands of the jobs tracked before |
| `SellerCore.SellerCore.PassCheck` | stockanalyst/app/agent/seller_core.py:565-625 | the sweep's check notes the spec, prunes what the cap then demands with the swept job counted, starts the grace period once, waits exactly while it runs and no context was announced, and is one step of its own job |
| `SellerCore.SellerCore.ExitThread` | stockanalyst/app/agent/seller_core.py:680-730 | the end of a submit thread is recorded for its own job only |
| `SellerCore.SellerCore.Drain` | stockanalyst/app/agent/seller_core.py:695-702 | a cancelled worker whose submit succeeded leaves a late success |
| `SellerCore.SellerCore.Finalize` | stockanalyst/app/agent/seller_core.py:536-562 | the end of a worker handles the job, or frees its slot and hands it over, and touches no other job |
| `SellerRuns.Handle` | stockanalyst/app/agent/seller_core.py:413-664 | one section of any coroutine tracks at most its own job more, and evicts nothing while the tracked jobs, its own included, are at most 1024 |
| `SellerRuns.Run` | stockanalyst/app/agent/seller_core.py:413-664 | any sequence of sections for any jobs: if at every section at most 1024 jobs are tracked, its own counted, no context is evicted and every worker that needs a context works with it |
| `SellerRuns.FewJobsFit` | stockanalyst/app/agent/seller_core.py:276-282 | that holds of every run with at most 1024 jobs tracked before or named at all |
| `SellerRuns.Overcrowd` | stockanalyst/app/agent/seller_core.py:431-444 | 1026 notifications before the first spawn leave an accepted job worked on without the context it needs |
| `ThreadSlots.SlotsAreConserved` | stockanalyst/app/agent/seller_core.py:201-244 | in every run free permits and held slots make up the capacity, no more threads run than slots, and a slot is given back once and only after its thread has exited |
| `ThreadSlots.RunsUntilItExits` | stockanalyst/app/agent/seller_core.py:201-244 | in every run a thread runs exactly from when its caller took a slot until it exits, cancelled or not |
| `ThreadSlots.HeldSlotIsReleased` | stockanalyst/app/agent/seller_core.py:225-244 | from any state a held slot's own next steps give it back, cancelled or not |
| `JsonStrings.JsonStringIsUnitwise` | buyer-client/src/deliverable.ts:257-271 | escaping in two stages escapes every UTF-16 unit on its own, paired or not |
| `JsonStrings.JsonStringPrefix` | buyer-client/src/deliverable.ts:257-271 | different strings have different texts, whatever follows them |
| `JsonStrings.KeyOrderTotal` | buyer-client/src/deliverable.ts:273-281 | key order by code point is irreflexive, asymmetric, transitive and total on strings |
| `JsonStrings.CompareUnicodeCodePoints` | buyer-client/src/deliverable.ts:273-281 | the comparison's sign is that order, and zero means equal strings |
| `JsonDecoding.JsonStringReads` | buyer-client/src/deliverable.ts:257-271 | every string is read back from its text by the escape rules of section 7 of RFC 8259, and the text ends where it is read to end |
| `JsonDecoding.EscapeIsShort` | buyer-client/src/deliverable.ts:257-271 | a unit is written as itself exactly if it is printable and neither quote nor backslash, and as four lower-case hex digits exactly if it is neither printable nor has a short escape |
| `JsonDecoding.PointsEncode` | buyer-client/src/deliverable.ts:273-281 | the code points keys are compared by are those that UTF-16 encodes as the key, surrogate pairs taken together |
| `JsonDecoding.KeyOrderIsLexicographic` | buyer-client/src/deliverable.ts:273-281 | a key is below another exactly if its code points are a proper prefix of the other's or smaller at the first difference |
| `JsonNumbers.FloatInjective` | buyer-client/src/deliverable.ts:283-312 | different doubles are written differently, in fixed and in exponent form |
| `JsonNumbers.FloatIsToken` | buyer-client/src/deliverable.ts:283-312 | no double is written like an integer literal, and its text is made of number characters |
| `JsonNumbers.NumberTextInjective` | buyer-client/src/deliverable.ts:314-327 | two numbers have the same text exactly if they are the same integer or the same double |
| `JsonLiterals.FloatDenotes` | buyer-client/src/deliverable.ts:283-312 | the text of a double is a number literal by section 6 of RFC 8259, denotes exactly the value of the double's digits, and has a minus exactly if the double has one, minus zero included |
| `JsonLiterals.FloatForm` | buyer-client/src/deliverable.ts:294-305 | a power of ten is written exactly outside 1e-4 to 1e16 |
| `JsonLiterals.IntegerIsNumber` | buyer-client/src/deliverable.ts:315 | the integer literals are the number literals with neither a point nor a power |
| `JsonLiterals.IntegerDenotes` | buyer-client/src/deliverable.ts:314-327 | an integer is written by a literal that denotes the same number, and never as minus zero |
| `CanonicalJson.SortedAscending` | buyer-client/src/deliverable.ts:336-338 | fields with distinct keys are sorted strictly |
| `CanonicalJson.AscendingUnique` | buyer-client/src/deliverable.ts:336-338 | there is one ascending arrangement of a set of keys |
| `CanonicalJson.PrintIsUnambiguous` | buyer-client/src/deliverable.ts:329-339 | whatever follows a canonical text, only the same document reads like it and ends where it ends |
| `CanonicalJson.SamePrint` | buyer-client/src/deliverable.ts:329-339 | documents equal up to key order and number spelling have one text |
| `CanonicalJson.CanonicalIsUnambiguous` | buyer-client/src/deliverable.ts:329-339 | canonical texts are equal exactly if the documents are equal up to key order and number spelling |
| `CanonicalReading.CanonicalIsRead` | buyer-client/src/deliverable.ts:329-339 | every canonical text is cut into lexemes and read as the document with its keys in order and its numbers as written |
| `CanonicalReading.CanonicalRoundTrip` | buyer-client/src/deliverable.ts:329-339 | where reading a double's text gives the double, reading a canonical text gives a document that is the same up to key order and number spelling, has its keys in order in every record, and has the same canonical text |
| `CanonicalReading.PrintIsAscii` | buyer-client/src/deliverable.ts:257-271 | every canonical text is printable ASCII |
| `DuplicateKeys.RejectDuplicateObjectKeys` | buyer-client/src/deliverable.ts:79-127 | the loop over lexemes with its stack of open records and lists accepts exactly what its recursive specification accepts |
| `DuplicateKeys.AcceptsExactlyProper` | buyer-client/src/deliverable.ts:79-127 | a document of the extended grammar is accepted exactly if no record of its value repeats a key and nothing is nested more than 128 deep |
| `DuplicateKeys.AcceptedTextsAreUnambiguous` | buyer-client/src/deliverable.ts:244-255 | two documents that are accepted, read and of the grammar have equal canonical texts exactly if their values are equal up to key order and number spelling |
| `SentinelRewriting.ChooseSentinel` | buyer-client/src/deliverable.ts:136-138 | the search for an unused string ends, with the first candidate that is unused |
| `SentinelRewriting.ChooseSentinels` | buyer-client/src/deliverable.ts:159-167 | the four sentinels are new to the document, differ from each other and are not the key they protect |
| `SentinelRewriting.ProtectedHasNoProtoKeys` | buyer-client/src/deliverable.ts:129-151 | a rewritten document has no `__proto__` key, whatever keys and strings it had |
| `SentinelRewriting.ValuesAgree` | buyer-client/src/deliverable.ts:206-242 | the strict parser on the rewritten document and the extended one on the original read the same value up to restoring |
| `SentinelRewriting.MeaningIsPreserved` | buyer-client/src/deliverable.ts:244-255 | every document of the extended grammar, `__proto__` keys included, is read as its value under that grammar by a strict parser that loses such keys |
| `SentinelRewriting.NothingElseIsRead` | buyer-client/src/deliverable.ts:244-255 | without a word in the place of a key everything else is refused |
| `SentinelRewriting.ReadIsSound` | buyer-client/src/deliverable.ts:244-255 | a document that is read belongs to the extended grammar exactly if no word stands in the place of a key |
| `SentinelRewriting.WordKeyIsRead` | buyer-client/src/deliverable.ts:183-200 | a document with such a word that is read as a record with a made-up key |
| `SentinelRewriting.ProtoFieldIsLost` | buyer-client/src/deliverable.ts:129-151 | without the rewriting the strict parser loses the field |
| `DocumentGrammar.DocumentSaysItsValue` | buyer-client/src/deliverable.ts:244-255 | a document of the extended grammar has a value exactly if it is that value's brackets, commas, keys, colons and leaves in order, with spaces anywhere between them |
| `DocumentGrammar.ReadIsItsValue` | buyer-client/src/deliverable.ts:244-255 | such a document is read as that value, and without words in the place of keys only such a document is |
| `DocumentGrammar.EveryValueIsRead` | buyer-client/src/deliverable.ts:206-255 | every value has a document, which is read as it whatever words and `__proto__` keys it holds |

## Left out

- JobProtocol models one job and its wallet; other jobs appear as wallet writes of other ids. Requests and workers are steps on values rather than methods on an object, because their interleavings at store operations are what the theorems are about.
- The service's accounting marker and usage reports: best-effort delivery beside the payment.
- Tokens, identity derivation and request normalisation: a request here is already the exact retry of the job it names.
- JobRecovery is about a service with a wallet limiter, and a retry that no other request interrupts. It takes the facilitator's answer as settled or rejected; an answer that stays pending leaves the job settling, which JobProtocol contains as a run.
- WalletLimiter leaves out backoff delays and the digest under which a wallet's record is stored.
- S3, HTTP, the facilitator, chain calls and file system internals: outcomes of steps. Renames, exclusive creation and no-replace links are taken as atomic.
- Cryptography: proofs, tokens and bindings are values; a binding is valid exactly if it was made for that job and token.
- Relay: bearer tokens, HTTP framing, the health check, the HEAD request and the onPayloadStored callback. A chunk is a byte string and the allocator a number of pages it can still give.
- Polling: times are whole milliseconds, and the parsing of responses is replaced by arbitrary replies.
- BuyerPayment: the number of create attempts is arbitrary, backoff and expiry only end the process early, and the steps are on values because a run crosses restarts of the process.
- SellerLife: the language model, prompts and chain reads are outcomes of steps; the sweep's listing is a step that may name any job.
- CanonicalJson: how a number literal becomes a double, and a double its shortest digits, is a parameter. Values are trees; the prototype tricks of the language are the subject of SentinelRewriting.
- SentinelRewriting: of what a strict parser does with a `__proto__` key only the loss of the field is modelled, not the prototype it may set. It works on lexemes; how the source's scanner cuts a text is not part of this model, and the cutting in CanonicalReading is the one of RFC 8259.
- DuplicateKeys: a word in the place of a key is no string, so the scan does not compare it; its statements are about documents of the grammar, which have no such word.
- The deliverable manifest's fields, report rendering, indicators, data sources, the tunnel and the command line: no property of the kinds proved here.
