/**
 The durable record of one paid job and every change the service makes to it.

 All writes go through the object store's conditional put, so a change is a function
 of the record it replaces (`before`) and of what the writer brings: clock samples,
 its lease owner, a settlement reference. Fields that no change ever touches (job id,
 payment key, proof digest, request, address, asset, token hash, event id) are left out.
 */
module JobRecord {
  import opened Wrappers

  const LEASE: int := 120_000
  const STALE: int := 120_000
  const LIFETIME: int := 604_800_000
  const MAX_ATTEMPTS: nat := 3

  /** A lease owner: 16 random bytes, drawn once per execution or per service. */
  type Owner = nat

  /** A settlement reference that passed the service's format check. */
  type Ref = nat

  datatype Payment = PaymentSettling | PaymentSettled | PaymentFailed

  datatype Status = Settling | Queued | Running | Succeeded | Failed

  datatype SlotState = SlotReserved | SlotCommitted | SlotReleased

  /** The job's copy of its wallet reservation; absent on records of earlier releases. */
  datatype Slot = Slot(at: int, state: SlotState)

  datatype ErrorCode = PaymentError | AnalysisTimeout | AnalysisEmpty | AnalysisError | TooManyUsers

  datatype Job = Job(
    payment: Payment,
    status: Status,
    pendingRef: Option<Ref>,
    settlementRef: Option<Ref>,
    reportId: Option<Owner>,
    settledAt: Option<int>,
    attempt: nat,
    leaseOwner: Option<Owner>,
    leaseExpiresAt: Option<int>,
    createdAt: int,
    updatedAt: int,
    expiresAt: int,
    errorCode: Option<ErrorCode>,
    retryable: Option<bool>,
    slot: Option<Slot>)

  predicate BothSettling(j: Job) {
    j.status == Settling && j.payment == PaymentSettling
  }

  /** A settlement lease that a caller with clock sample `now` may not take over. */
  predicate LeaseHeld(j: Job, now: int) {
    j.leaseExpiresAt.Some? && j.leaseExpiresAt.value > now
  }

  predicate StaleRun(j: Job, now: int) {
    j.status == Running && j.updatedAt <= now - STALE
  }

  predicate RetryableFailure(j: Job) {
    j.status == Failed && j.retryable == Some(true)
  }

  predicate LeasedTo(j: Job, owner: Owner) {
    j.status == Running && j.leaseOwner == Some(owner)
  }

  // ----- decisions that do not write -------------------------------------------------

  datatype ResumeAnswer = Expired | AttemptsExhausted | AlreadyQueued | ResumeConflict | Requeued

  /** Resume samples the clock twice: when it authorizes the caller, and when it looks at the record. */
  function Resume(j: Job, authorized: int, now: int): ResumeAnswer {
    if j.expiresAt <= authorized then Expired
    else if j.attempt >= MAX_ATTEMPTS then AttemptsExhausted
    else if j.status == Queued then AlreadyQueued
    else if StaleRun(j, now) || RetryableFailure(j) then Requeued
    else ResumeConflict
  }

  /** Whether a worker that is not already the lease owner may claim the execution. */
  predicate Claimable(j: Job, now: int) {
    && (j.status == Queued || StaleRun(j, now) || RetryableFailure(j))
    && j.attempt < MAX_ATTEMPTS
  }

  // ----- changes -----------------------------------------------------------------------

  datatype Change =
    | Create(now: int, owner: Owner, slotAt: Option<int>)
    | ClaimSettlement(now: int, owner: Owner)
    | PersistPending(ref: Ref, now: int)
    | Settle(settledRef: Option<Ref>, owner: Owner, settledNow: int, leaseNow: int, now: int)
    | FailPayment(now: int)
    | FinalizeCommit(now: int)
    | MarkReleased(now: int)
    | Requeue(authorized: int, now: int)
    | ClaimRun(owner: Owner, now: int)
    | Beat(owner: Owner, now: int)
    | FailRun(owner: Owner, code: ErrorCode, transient: bool, now: int)
    | Succeed(owner: Owner, now: int)

  /** When the service attempts the change on the record it read. */
  predicate Attempts(before: Option<Job>, c: Change) {
    if c.Create? then before.None?
    else
      && before.Some?
      && var j := before.value;
         match c
         case Create(_, _, _) => false
         case ClaimSettlement(now, _) => BothSettling(j) && !LeaseHeld(j, now)
         case PersistPending(_, _) => BothSettling(j)
         case Settle(_, _, _, _, _) => BothSettling(j)
         case FailPayment(_) => BothSettling(j)
         case FinalizeCommit(_) =>
           && j.payment == PaymentSettled && j.slot.Some?
           && (j.slot.value.state == SlotReserved
               || (j.slot.value.state == SlotCommitted && j.status == Settling))
         case MarkReleased(_) =>
           j.payment == PaymentFailed && j.slot.Some? && j.slot.value.state == SlotReserved
         case Requeue(authorized, now) => Resume(j, authorized, now) == Requeued
         case ClaimRun(owner, now) => Claimable(j, now) && !LeasedTo(j, owner)
         case Beat(owner, _) => LeasedTo(j, owner)
         case FailRun(owner, _, _, _) => LeasedTo(j, owner)
         case Succeed(owner, _) => LeasedTo(j, owner)
  }

  /** A failed execution stays retryable below the attempt limit, and always when the answer was empty. */
  predicate KeepsRetryable(j: Job, code: ErrorCode, transient: bool) {
    transient && (code == AnalysisEmpty || j.attempt < MAX_ATTEMPTS)
  }

  /** The record the change writes. */
  function Changed(before: Option<Job>, c: Change): Job
    requires Attempts(before, c)
  {
    match c
    case Create(now, owner, slotAt) =>
      Job(PaymentSettling, Settling, None, None, None, None, 0, Some(owner), Some(now + LEASE),
          now, now, now + LIFETIME, None, None,
          if slotAt.Some? then Some(Slot(slotAt.value, SlotReserved)) else None)
    case ClaimSettlement(now, owner) =>
      before.value.(leaseOwner := Some(owner), leaseExpiresAt := Some(now + LEASE), updatedAt := now)
    case PersistPending(ref, now) =>
      before.value.(payment := PaymentSettling, status := Settling,
                    pendingRef := Some(ref), settlementRef := None, updatedAt := now)
    case Settle(ref, owner, settledNow, leaseNow, now) =>
      var j := before.value;
      var held := j.slot.Some?;
      j.(payment := PaymentSettled, status := if held then Settling else Queued,
         pendingRef := None, settlementRef := ref,
         settledAt := if j.settledAt.Some? && j.settledAt.value > 0 then j.settledAt else Some(settledNow),
         leaseOwner := if held then Some(owner) else None,
         leaseExpiresAt := if held then Some(leaseNow + LEASE) else None,
         updatedAt := now)
    case FailPayment(now) =>
      before.value.(payment := PaymentFailed, status := Failed, pendingRef := None,
                    leaseOwner := None, leaseExpiresAt := None, updatedAt := now,
                    errorCode := Some(PaymentError), retryable := Some(false))
    case FinalizeCommit(now) =>
      before.value.(status := Queued, leaseOwner := None, leaseExpiresAt := None, updatedAt := now,
                    slot := Some(before.value.slot.value.(state := SlotCommitted)))
    case MarkReleased(now) =>
      before.value.(slot := Some(before.value.slot.value.(state := SlotReleased)), updatedAt := now)
    case Requeue(_, now) =>
      before.value.(status := Queued, leaseOwner := None, leaseExpiresAt := None, updatedAt := now,
                    errorCode := None, retryable := None)
    case ClaimRun(owner, now) =>
      before.value.(status := Running, attempt := before.value.attempt + 1, leaseOwner := Some(owner),
                    leaseExpiresAt := Some(now + LEASE), updatedAt := now,
                    errorCode := None, retryable := None)
    case Beat(_, now) =>
      before.value.(updatedAt := now, leaseExpiresAt := Some(now + LEASE))
    case FailRun(_, code, transient, now) =>
      before.value.(status := Failed, leaseOwner := None, leaseExpiresAt := None, updatedAt := now,
                    errorCode := Some(code),
                    retryable := Some(KeepsRetryable(before.value, code, transient)))
    case Succeed(owner, now) =>
      before.value.(status := Succeeded, reportId := Some(owner), leaseOwner := None,
                    leaseExpiresAt := None, updatedAt := now, errorCode := None, retryable := None)
  }

  // ----- what every stored record satisfies ------------------------------------------------

  /** What holds of the lease and the error fields, and when the job expires. */
  predicate Clocked(j: Job) {
    && j.expiresAt == j.createdAt + LIFETIME
    && (j.leaseOwner.Some? <==> j.status == Settling || j.status == Running)
    && (j.leaseExpiresAt.Some? <==> j.leaseOwner.Some?)
    && (j.status == Running ==> j.leaseExpiresAt == Some(j.updatedAt + LEASE))
    && (j.errorCode.Some? <==> j.status == Failed) && (j.retryable.Some? <==> j.status == Failed)
  }

  /** The combinations of payment, status and slot that can be stored. */
  predicate Consistent(j: Job) {
    Clocked(j) &&
    match j.payment
    case PaymentSettling =>
      && j.status == Settling && j.attempt == 0 && j.reportId.None? && j.settlementRef.None? && j.settledAt.None?
      && (j.slot.Some? ==> j.slot.value.state == SlotReserved)
    case PaymentFailed =>
      && j.status == Failed && j.attempt == 0 && j.reportId.None? && j.retryable == Some(false)
      && j.settlementRef.None? && j.pendingRef.None?
      && (j.slot.Some? ==> j.slot.value.state != SlotCommitted)
    case PaymentSettled =>
      && j.attempt <= MAX_ATTEMPTS && j.settledAt.Some? && j.pendingRef.None?
      && (j.status == Settling ==> j.slot.Some? && j.attempt == 0)
      && (j.slot.Some? ==> j.slot.value.state == if j.status == Settling then SlotReserved else SlotCommitted)
      && (j.status == Running || j.status == Failed ==> j.attempt >= 1)
      && (j.status == Failed && j.retryable == Some(true) ==>
            j.attempt < MAX_ATTEMPTS || j.errorCode == Some(AnalysisEmpty))
      && (j.reportId.Some? <==> j.status == Succeeded)
  }

  /** What no later record takes back. */
  predicate Precedes(a: Job, b: Job) {
    && (a.payment != PaymentSettling ==>
          b.payment == a.payment && b.settlementRef == a.settlementRef && b.settledAt == a.settledAt)
    && a.attempt <= b.attempt
    && a.createdAt == b.createdAt && a.expiresAt == b.expiresAt
    && (a.slot.Some? <==> b.slot.Some?)
    && (a.slot.Some? ==>
          && a.slot.value.at == b.slot.value.at
          && (a.slot.value.state != SlotReserved ==> b.slot.value.state == a.slot.value.state))
    && (a.status == Succeeded ==> b == a)
  }

  lemma PrecedesTransitive(a: Job, b: Job, c: Job)
    requires Precedes(a, b) && Precedes(b, c)
    ensures Precedes(a, c)
  {
  }

  /** Every change keeps stored records consistent and takes nothing back. */
  lemma ChangeKeeps(before: Option<Job>, c: Change)
    requires Attempts(before, c) && (before.Some? ==> Consistent(before.value))
    ensures Consistent(Changed(before, c))
    ensures before.Some? ==> Precedes(before.value, Changed(before, c))
  {
  }

  /**
   A stored failure that calls itself retryable is resumed exactly if its attempts are not
   used up and the job has not expired; an unexpired one that is refused failed on an empty
   answer at the last attempt.
   */
  lemma RetryableButRefused(j: Job, authorized: int, now: int)
    requires Consistent(j) && RetryableFailure(j)
    ensures Resume(j, authorized, now) == Requeued <==> j.attempt < MAX_ATTEMPTS && authorized < j.expiresAt
    ensures Resume(j, authorized, now) != Requeued ==>
      Resume(j, authorized, now) == if j.expiresAt <= authorized then Expired else AttemptsExhausted
    ensures Resume(j, authorized, now) == AttemptsExhausted ==>
      j.attempt == MAX_ATTEMPTS && j.errorCode == Some(AnalysisEmpty)
  {
  }

  /** The clock sample a change is written under. */
  function Stamp(c: Change): int {
    match c
    case Settle(_, _, _, _, now) => now
    case Requeue(_, now) => now
    case _ => c.now
  }

  /** Every change is stamped with its sample, and a lease that it gives runs for LEASE from a sample of the change. */
  lemma ChangeIsStamped(before: Option<Job>, c: Change)
    requires Attempts(before, c)
    ensures var j := Changed(before, c);
      && j.updatedAt == Stamp(c)
      && (j.leaseExpiresAt.Some? && (before.None? || before.value.leaseExpiresAt != j.leaseExpiresAt) ==>
            j.leaseExpiresAt == Some((if c.Settle? then c.leaseNow else c.now) + LEASE))
      && (j.settledAt.Some? && (before.None? || before.value.settledAt != j.settledAt) ==>
            c.Settle? && j.settledAt == Some(c.settledNow))
  {
  }

  /** A running execution is taken over, or queued again by resume, exactly once its lease is over. */
  lemma TakenOverOnceLeaseIsOver(j: Job, owner: Owner, authorized: int, now: int)
    requires Consistent(j) && j.status == Running && j.leaseOwner != Some(owner)
    ensures Attempts(Some(j), ClaimRun(owner, now)) <==> !LeaseHeld(j, now) && j.attempt < MAX_ATTEMPTS
    ensures Attempts(Some(j), Requeue(authorized, now)) <==>
      !LeaseHeld(j, now) && j.attempt < MAX_ATTEMPTS && authorized < j.expiresAt
  {
  }

  /**
   What becomes of a failed execution: a later worker may claim it, and resume queues it again,
   exactly if the failure was transient and attempts are left; a claim is the next attempt.
   */
  lemma TransientFailureIsRetried(j: Job, failure: Change, owner: Owner, authorized: int, now: int)
    requires Consistent(j) && failure.FailRun? && Attempts(Some(j), failure)
    ensures var f := Changed(Some(j), failure);
      && (Attempts(Some(f), ClaimRun(owner, now)) <==> failure.transient && j.attempt < MAX_ATTEMPTS)
      && (Attempts(Some(f), Requeue(authorized, now)) <==>
            failure.transient && j.attempt < MAX_ATTEMPTS && authorized < j.createdAt + LIFETIME)
      && (RetryableFailure(f) <==>
            Attempts(Some(f), ClaimRun(owner, now)) || (failure.transient && failure.code == AnalysisEmpty))
      && (Attempts(Some(f), ClaimRun(owner, now)) ==>
            var g := Changed(Some(f), ClaimRun(owner, now)); g.attempt == j.attempt + 1 && LeasedTo(g, owner))
  {
  }

  /** What resume answers: expired by the lifetime, exhausted by the attempts, else by what the job is doing. */
  lemma ResumeAnswers(j: Job, authorized: int, now: int)
    requires Consistent(j)
    ensures var answer, open := Resume(j, authorized, now), authorized < j.createdAt + LIFETIME && j.attempt < MAX_ATTEMPTS;
      && (answer == Expired <==> authorized >= j.createdAt + LIFETIME)
      && (answer == AttemptsExhausted <==> authorized < j.createdAt + LIFETIME && j.attempt == MAX_ATTEMPTS)
      && (answer == AlreadyQueued <==> open && j.status == Queued)
      && (answer == Requeued <==> open && (RetryableFailure(j) || (j.status == Running && !LeaseHeld(j, now))))
  {
  }
}
