/**
 Recovery by exact retry: the same buyer request, sent again after the settlement lease has
 run out and not interrupted, whatever earlier requests have left behind: nothing, a
 reservation without a job record, or a record in any state. `ExactRetry` is the request's
 own path through a service with a wallet limiter; it is proved to be a run of the protocol.
 */
module JobRecovery {
  import opened Wrappers
  import opened JobRecord
  import opened JobProtocol
  import opened JobInvariant
  import opened JobSteps
  import L = WalletLimiter
  import W = WalletWindow

  /** The clock samples the request takes; one it does not come to take does not matter. */
  datatype Samples = Samples(
    created: int, reserve: int, confirm: int, confirmRead: int, claim: int, settled: int, lease: int,
    updated: int, slot: int, final: int)

  /** What the chain says of a reclaimed proof; of one transfer method it is not asked. */
  datatype Chain = AlreadyUsed | ExpiredUnused | NothingSaid

  /** What the facilitator answers if it is asked to settle. */
  datatype Answer = SettledNow(ref: Ref) | RejectedNow

  datatype Verdict = Verdict(chain: Chain, answer: Answer)

  /** `Limited` is the 429 of a full wallet; `Closed` a proof that is too late, or a pause, for a new job. */
  datatype Outcome =
    | Recovered(job: Job, wallet: seq<W.Entry>)
    | Unavailable
    | Limited(retryAfter: int)
    | Closed

  // ----- the wallet side -----------------------------------------------------------------------

  datatype Confirmation = ConfirmedActive | ConfirmedExpired | NotConfirmed

  /** The limiter refuses to work with a clock sample outside this range. */
  predicate ClockOk(now: int) {
    1 <= now <= W.MAX_TIMESTAMP
  }

  /** The limiter's confirm: two clock samples around one read of the wallet record. */
  function Confirm(wallet: seq<W.Entry>, at: int, now: int, readNow: int): Confirmation {
    if !ClockOk(now) then NotConfirmed
    else if !W.IsActive(at, now) then ConfirmedExpired
    else if !ClockOk(readNow) || !W.IsActive(at, readNow) then NotConfirmed
    else if W.Entry(ME, at, W.Reserved) in W.Active(wallet, readNow) then ConfirmedActive
    else NotConfirmed
  }

  /** One uncontended attempt of the limiter's commit; None when it raises. */
  function CommitSlot(wallet: seq<W.Entry>, at: int, now: int): Option<seq<W.Entry>> {
    if !ClockOk(now) then None
    else if W.HasSlot(W.Active(wallet, now), ME, at) then Some(W.Written(wallet, W.Commit(ME, at, now)))
    else if W.IsActive(at, now) then None
    else Some(wallet)
  }

  /** One uncontended attempt of the limiter's release; None when it raises. */
  function ReleaseSlot(wallet: seq<W.Entry>, at: int, now: int): Option<seq<W.Entry>> {
    if !ClockOk(now) then None else Some(W.Written(wallet, W.Release(ME, at, now)))
  }

  // ----- the request ---------------------------------------------------------------------------

  /** A job just stored as settled, or found settled with its slot still reserved. */
  function Finish(j: Job, wallet: seq<W.Entry>, m: Samples): Outcome
    requires AwaitsCommit(j)
  {
    var committed := CommitSlot(wallet, j.slot.value.at, m.slot);
    if committed.None? then Unavailable
    else Recovered(Changed(Some(j), FinalizeCommit(m.final)), committed.value)
  }

  /** A payment just stored as failed, or found failed with its slot still reserved. */
  function GiveBack(j: Job, wallet: seq<W.Entry>, m: Samples): Outcome
    requires AwaitsRelease(j)
  {
    var released := ReleaseSlot(wallet, j.slot.value.at, m.slot);
    if released.None? then Unavailable
    else Recovered(Changed(Some(j), MarkReleased(m.final)), released.value)
  }

  function Reconciled(j: Job, wallet: seq<W.Entry>, m: Samples): Outcome {
    if AwaitsCommit(j) then Finish(j, wallet, m)
    else if AwaitsRelease(j) then GiveBack(j, wallet, m)
    else Recovered(j, wallet)
  }

  /** The chain has decided, so that the facilitator is not asked; only a reclaimed proof is looked up. */
  predicate ChainDecides(v: Verdict, reclaimed: bool) {
    reclaimed && v.chain != NothingSaid
  }

  predicate Settles(v: Verdict, reclaimed: bool) {
    if ChainDecides(v, reclaimed) then v.chain == AlreadyUsed else v.answer.SettledNow?
  }

  function VerdictChange(owner: Owner, m: Samples, v: Verdict, reclaimed: bool): Change {
    if !Settles(v, reclaimed) then FailPayment(m.updated)
    else Settle(if ChainDecides(v, reclaimed) then None else Some(v.answer.ref), owner, m.settled, m.lease, m.updated)
  }

  /** The settling job after the request's claim and the verdict's write. */
  function Judged(j: Job, owner: Owner, m: Samples, v: Verdict): Job
    requires BothSettling(j) && !LeaseHeld(j, m.claim)
  {
    var claimed := Changed(Some(j), ClaimSettlement(m.claim, owner));
    Changed(Some(claimed), VerdictChange(owner, m, v, true))
  }

  /** The request finds a job record. */
  function RetryStored(j: Job, wallet: seq<W.Entry>, owner: Owner, m: Samples, v: Verdict): Outcome {
    if BothSettling(j) then
      if j.slot.Some? && Confirm(wallet, j.slot.value.at, m.confirm, m.confirmRead).NotConfirmed? then Unavailable
      else if LeaseHeld(j, m.claim) then Recovered(j, wallet)
      else Reconciled(Judged(j, owner, m, v), wallet, m)
    else Reconciled(j, wallet, m)
  }

  /** The wallet record after the request's own reserve. */
  function Reserved(wallet: seq<W.Entry>, m: Samples): seq<W.Entry> {
    W.Written(wallet, W.Reserve(ME, m.reserve))
  }

  function Created(owner: Owner, m: Samples): Job {
    Changed(None, Create(m.created, owner, Some(m.reserve)))
  }

  /**
   The request finds no record: it reserves, creates the record, confirms and asks the
   facilitator. An entry of its own that it did not just write means to it that another request
   is about to create the record; it looks for that record for a while, and gives up.
   */
  function RetryFresh(wallet: seq<W.Entry>, owner: Owner, m: Samples, v: Verdict): Outcome {
    if !ClockOk(m.reserve) then Unavailable
    else
      match L.PlanReserve(wallet, ME, m.reserve).result
      case Existing(_, _) => Unavailable
      case Exceeded(retryAfter) => Limited(retryAfter)
      case ReserveUnavailable => Unavailable
      case Admitted(_) =>
        if Confirm(Reserved(wallet, m), m.reserve, m.confirm, m.confirmRead).NotConfirmed? then Unavailable
        else
          var judged := Changed(Some(Created(owner, m)), VerdictChange(owner, m, v, false));
          Reconciled(judged, Reserved(wallet, m), m)
  }

  /** `open`: the proof may still start a job, and the service starts new ones. */
  function ExactRetry(job: Option<Job>, wallet: seq<W.Entry>, open: bool, owner: Owner, m: Samples, v: Verdict): Outcome {
    if job.Some? then RetryStored(job.value, wallet, owner, m, v)
    else if !open then Closed
    else RetryFresh(wallet, owner, m, v)
  }

  // ----- when it is refused -----------------------------------------------------------------------

  /** The reservation counts at confirm's first clock sample, but no longer at the second. */
  predicate EndsDuringConfirm(at: int, m: Samples) {
    W.IsActive(at, m.confirm) && !W.IsActive(at, m.confirmRead)
  }

  /** The limiter's confirm takes its second sample only if the reservation counts at the first. */
  predicate ConfirmClockFails(at: int, m: Samples) {
    !ClockOk(m.confirm) || (W.IsActive(at, m.confirm) && !ClockOk(m.confirmRead)) || EndsDuringConfirm(at, m)
  }

  predicate ConfirmFails(wallet: seq<W.Entry>, at: int, m: Samples) {
    ConfirmClockFails(at, m) || (W.IsActive(at, m.confirm) && W.Entry(ME, at, W.Reserved) !in wallet)
  }

  /** By the caller's clock the reservation still counts, but the wallet record no longer has it. */
  predicate SlotGone(wallet: seq<W.Entry>, at: int, now: int) {
    W.IsActive(at, now) && !W.HasSlot(wallet, ME, at)
  }

  /** What stops the wallet side of a job whose payment is final. */
  predicate SlotFails(wallet: seq<W.Entry>, slot: JobRecord.Slot, settled: bool, m: Samples) {
    slot.state == SlotReserved && (!ClockOk(m.slot) || (settled && SlotGone(wallet, slot.at, m.slot)))
  }

  predicate StoredFails(j: Job, wallet: seq<W.Entry>, m: Samples, v: Verdict) {
    j.slot.Some?
    && if BothSettling(j)
       then ConfirmFails(wallet, j.slot.value.at, m) || SlotFails(wallet, j.slot.value, Settles(v, true), m)
       else SlotFails(wallet, j.slot.value, j.payment == PaymentSettled, m)
  }

  /** At the request's sample an entry of its own still counts in the wallet record. */
  predicate StillHeld(wallet: seq<W.Entry>, m: Samples) {
    ClockOk(m.reserve) && W.HasId(W.Active(wallet, m.reserve), ME)
  }

  /** At the request's sample the record is full of other jobs' entries. */
  predicate WalletFull(wallet: seq<W.Entry>, m: Samples) {
    && ClockOk(m.reserve) && !W.HasId(W.Active(wallet, m.reserve), ME)
    && |W.Active(wallet, m.reserve)| >= W.CAPACITY
  }

  predicate FreshFails(wallet: seq<W.Entry>, m: Samples) {
    || !ClockOk(m.reserve) || StillHeld(wallet, m)
    || (!WalletFull(wallet, m) && (ConfirmClockFails(m.reserve, m) || !ClockOk(m.slot)))
  }

  predicate RetryFails(job: Option<Job>, wallet: seq<W.Entry>, open: bool, m: Samples, v: Verdict) {
    if job.Some? then StoredFails(job.value, wallet, m, v) else open && FreshFails(wallet, m)
  }

  // ----- where it ends ----------------------------------------------------------------------------

  /** Settled, past settling, and the slot committed in both records; or failed, and the slot given back. */
  predicate Final(j: Job) {
    || (j.payment == PaymentSettled && j.status != Settling
        && (j.slot.Some? ==> j.slot.value.state == SlotCommitted))
    || (j.payment == PaymentFailed && (j.slot.Some? ==> j.slot.value.state == SlotReleased))
  }

  /** What a recovery leaves in both records; an untouched slot is left as it was. */
  predicate EndsWell(r: Outcome, slotBefore: Option<JobRecord.Slot>, m: Samples) {
    r.Recovered? ==>
      && Final(r.job)
      && (r.job.slot.Some? && r.job.slot != slotBefore ==>
            var at := r.job.slot.value.at;
            if r.job.payment == PaymentSettled
            then W.IsActive(at, m.slot) ==> W.Entry(ME, at, W.Committed) in r.wallet
            else !W.HasSlot(r.wallet, ME, at))
  }

  /** The wallet side of a final payment: refused exactly for what SlotFails says, and right otherwise. */
  lemma ReconciledEndsWell(wallet: seq<W.Entry>, j: Job, m: Samples)
    requires W.WellFormed(wallet) && Consistent(j) && j.payment != PaymentSettling
    ensures Reconciled(j, wallet, m).Unavailable? <==>
      j.slot.Some? && SlotFails(wallet, j.slot.value, j.payment == PaymentSettled, m)
    ensures EndsWell(Reconciled(j, wallet, m), j.slot, m)
  {
    if j.slot.Some? && ClockOk(m.slot) {
      var at := j.slot.value.at;
      W.WrittenSlot(wallet, W.Release(ME, at, m.slot), ME, at);
      if W.HasSlot(W.Active(wallet, m.slot), ME, at) {
        W.WrittenCommitted(wallet, W.Commit(ME, at, m.slot), ME, at);
      }
    }
  }

  lemma ConfirmAnswers(wallet: seq<W.Entry>, at: int, m: Samples)
    ensures Confirm(wallet, at, m.confirm, m.confirmRead).NotConfirmed? <==> ConfirmFails(wallet, at, m)
  {
  }

  lemma StoredEndsWell(g: Shared, owner: Owner, m: Samples, v: Verdict)
    requires SharedOk(g) && g.job.Some?
    requires BothSettling(g.job.value) ==> !LeaseHeld(g.job.value, m.claim)
    ensures RetryStored(g.job.value, g.wallet, owner, m, v).Unavailable? <==> StoredFails(g.job.value, g.wallet, m, v)
    ensures EndsWell(RetryStored(g.job.value, g.wallet, owner, m, v), g.job.value.slot, m)
  {
    var j := g.job.value;
    if BothSettling(j) {
      if j.slot.Some? {
        ConfirmAnswers(g.wallet, j.slot.value.at, m);
      }
      var claim := ClaimSettlement(m.claim, owner);
      var claimed := Changed(Some(j), claim);
      ChangeKeeps(Some(j), claim);
      ChangeKeeps(Some(claimed), VerdictChange(owner, m, v, true));
      ReconciledEndsWell(g.wallet, Judged(j, owner, m, v), m);
    } else {
      ReconciledEndsWell(g.wallet, j, m);
    }
  }

  /** The reserve of a request without a record. */
  lemma PlanDecides(wallet: seq<W.Entry>, m: Samples)
    requires ClockOk(m.reserve)
    ensures
      var r := L.PlanReserve(wallet, ME, m.reserve).result;
      && !r.ReserveUnavailable? && (r.Existing? <==> StillHeld(wallet, m))
      && (r.Exceeded? <==> WalletFull(wallet, m))
      && (r.Exceeded? ==> r.retryAfter == W.RetryAfter(W.Active(wallet, m.reserve), m.reserve))
      && (r.Admitted? ==> W.Enabled(wallet, W.Reserve(ME, m.reserve)))
  {
  }

  lemma ReserveHolds(wallet: seq<W.Entry>, m: Samples)
    requires W.WellFormed(wallet) && W.Enabled(wallet, W.Reserve(ME, m.reserve))
    ensures W.WellFormed(Reserved(wallet, m))
    ensures W.Entry(ME, m.reserve, W.Reserved) in Reserved(wallet, m) && W.HasSlot(Reserved(wallet, m), ME, m.reserve)
  {
    W.WrittenWellFormed(wallet, W.Reserve(ME, m.reserve));
    var after := Reserved(wallet, m);
    assert after[|after| - 1] == W.Entry(ME, m.reserve, W.Reserved);
  }

  lemma FreshEndsWell(wallet: seq<W.Entry>, owner: Owner, m: Samples, v: Verdict)
    requires W.WellFormed(wallet)
    ensures RetryFresh(wallet, owner, m, v).Unavailable? <==> FreshFails(wallet, m)
    ensures RetryFresh(wallet, owner, m, v).Limited? <==> WalletFull(wallet, m)
    ensures
      var r := RetryFresh(wallet, owner, m, v);
      r.Limited? ==> r.retryAfter == W.RetryAfter(W.Active(wallet, m.reserve), m.reserve)
    ensures EndsWell(RetryFresh(wallet, owner, m, v), None, m)
  {
    if ClockOk(m.reserve) {
      PlanDecides(wallet, m);
      if !StillHeld(wallet, m) && !WalletFull(wallet, m) {
        ReserveHolds(wallet, m);
        ConfirmAnswers(Reserved(wallet, m), m.reserve, m);
        var created := Created(owner, m);
        ChangeKeeps(None, Create(m.created, owner, Some(m.reserve)));
        ChangeKeeps(Some(created), VerdictChange(owner, m, v, false));
        ReconciledEndsWell(Reserved(wallet, m), Changed(Some(created), VerdictChange(owner, m, v, false)), m);
      }
    }
  }

  function SlotOf(job: Option<Job>): Option<JobRecord.Slot> {
    if job.Some? then job.value.slot else None
  }

  /**
   An uninterrupted exact retry from any state that satisfies the invariant, whatever the
   clocks: it is refused exactly if RetryFails, limited exactly if the wallet is full for a
   new job, and otherwise ends settled, committed and past settling, or failed and released.
   */
  lemma RetryEndsWell(g: Shared, open: bool, owner: Owner, m: Samples, v: Verdict)
    requires SharedOk(g)
    requires g.job.Some? && BothSettling(g.job.value) ==> !LeaseHeld(g.job.value, m.claim)
    ensures
      var r := ExactRetry(g.job, g.wallet, open, owner, m, v);
      && (r.Unavailable? <==> RetryFails(g.job, g.wallet, open, m, v))
      && (r.Limited? <==> g.job.None? && open && WalletFull(g.wallet, m))
      && (r.Closed? <==> g.job.None? && !open)
      && EndsWell(r, SlotOf(g.job), m)
  {
    if g.job.Some? {
      StoredEndsWell(g, owner, m, v);
    } else {
      FreshEndsWell(g.wallet, owner, m, v);
    }
  }

  // ----- whom the money goes to --------------------------------------------------------------------

  /**
   A payment that is still open is settled exactly if it was made: if the chain has seen a
   reclaimed proof used, or the facilitator settles one the chain says nothing of. A new proof
   is the facilitator's alone to judge. A payment that was final stays what it was.
   */
  predicate HeedsVerdict(job: Option<Job>, r: Outcome, v: Verdict) {
    r.Recovered? ==>
      if job.None? then
        if v.answer.SettledNow? then PaidBy(r.job, Some(v.answer.ref)) else Unpaid(r.job)
      else if BothSettling(job.value) then
        match v.chain
        case AlreadyUsed => PaidBy(r.job, None)
        case ExpiredUnused => Unpaid(r.job)
        case NothingSaid => if v.answer.SettledNow? then PaidBy(r.job, Some(v.answer.ref)) else Unpaid(r.job)
      else
        && r.job.payment == job.value.payment && r.job.settlementRef == job.value.settlementRef
        && r.job.attempt == job.value.attempt && r.job.settledAt == job.value.settledAt
  }

  /** The job is paid for, under this settlement reference, and waits for its analysis. */
  predicate PaidBy(j: Job, settlementRef: Option<Ref>) {
    j.payment == PaymentSettled && j.status == Queued && j.settlementRef == settlementRef && j.settledAt.Some?
  }

  /** The payment has failed for good, and no analysis follows. */
  predicate Unpaid(j: Job) {
    && j.payment == PaymentFailed && j.status == Failed && j.settlementRef.None?
    && j.errorCode == Some(PaymentError) && j.retryable == Some(false)
  }

  lemma ReconciledHeeds(j: Job, wallet: seq<W.Entry>, m: Samples)
    requires Consistent(j) && Reconciled(j, wallet, m).Recovered?
    ensures
      var after := Reconciled(j, wallet, m).job;
      && after.payment == j.payment && after.settlementRef == j.settlementRef && after.attempt == j.attempt
      && after.settledAt == j.settledAt && after.errorCode == j.errorCode && after.retryable == j.retryable
      && after.status == (if AwaitsCommit(j) then Queued else j.status)
  {
  }

  lemma JudgedHeeds(j: Job, owner: Owner, m: Samples, v: Verdict, reclaimed: bool, wallet: seq<W.Entry>)
    requires Consistent(j) && BothSettling(j)
    requires Reconciled(Changed(Some(j), VerdictChange(owner, m, v, reclaimed)), wallet, m).Recovered?
    ensures
      var after := Reconciled(Changed(Some(j), VerdictChange(owner, m, v, reclaimed)), wallet, m).job;
      if reclaimed && v.chain == AlreadyUsed then PaidBy(after, None)
      else if (reclaimed && v.chain == ExpiredUnused) || v.answer.RejectedNow? then Unpaid(after)
      else PaidBy(after, Some(v.answer.ref))
  {
    var c := VerdictChange(owner, m, v, reclaimed);
    ChangeKeeps(Some(j), c);
    ReconciledHeeds(Changed(Some(j), c), wallet, m);
  }

  lemma RetryHeedsVerdict(g: Shared, open: bool, owner: Owner, m: Samples, v: Verdict)
    requires SharedOk(g)
    requires g.job.Some? && BothSettling(g.job.value) ==> !LeaseHeld(g.job.value, m.claim)
    ensures HeedsVerdict(g.job, ExactRetry(g.job, g.wallet, open, owner, m, v), v)
  {
    var r := ExactRetry(g.job, g.wallet, open, owner, m, v);
    if r.Recovered? {
      if g.job.None? {
        ChangeKeeps(None, Create(m.created, owner, Some(m.reserve)));
        JudgedHeeds(Created(owner, m), owner, m, v, false, Reserved(g.wallet, m));
      } else if BothSettling(g.job.value) {
        var claim := ClaimSettlement(m.claim, owner);
        ChangeKeeps(g.job, claim);
        JudgedHeeds(Changed(g.job, claim), owner, m, v, true, g.wallet);
      } else {
        ReconciledHeeds(g.job.value, g.wallet, m);
      }
    }
  }

  // ----- who can have taken the entry away ---------------------------------------------------------

  /** The clock sample of a step that lands a wallet write or sees a commit return. */
  function WalletSample(step: Step): Option<int> {
    match step
    case Payment(Admit(_, _, at)) => Some(at)
    case Slots(CommitReturns(_, now)) => Some(now)
    case World(LateWallet(op)) => Some(op.now)
    case World(OtherWallet(op)) => Some(op.now)
    case _ => None
  }

  lemma PaymentSamples(s: State, step: PaymentStep)
    requires PaymentEnabled(s, step)
    ensures
      var after := PaymentNext(s, step).shared.history.walletMax;
      after == s.shared.history.walletMax || WalletSample(Payment(step)) == Some(after)
  {
  }

  lemma SlotSamples(s: State, step: SlotStep)
    requires SlotEnabled(s, step)
    ensures
      var after := SlotNext(s, step).shared.history.walletMax;
      after == s.shared.history.walletMax || WalletSample(Slots(step)) == Some(after)
  {
  }

  lemma WorkerLeavesWallet(s: State, step: WorkerStep)
    requires WorkerEnabled(s, step)
    ensures WorkerNext(s, step).shared.history.walletMax == s.shared.history.walletMax
    ensures WorkerNext(s, step).shared.wallet == s.shared.wallet
  {
  }

  lemma StepSamples(s: State, step: Step)
    requires Enabled(s, step)
    ensures
      var after := Next(s, step).shared.history.walletMax;
      after == s.shared.history.walletMax || WalletSample(step) == Some(after)
  {
    match step
    case Payment(x) => PaymentSamples(s, x);
    case Slots(x) => SlotSamples(s, x);
    case Worker(x) => WorkerLeavesWallet(s, x);
    case World(x) =>
  }

  lemma {:induction false} MaxWasSampled(s: State, steps: seq<Step>)
    requires Executes(s, steps) && Exec(s, steps).shared.history.walletMax != s.shared.history.walletMax
    ensures exists k: nat :: k < |steps| && WalletSample(steps[k]) == Some(Exec(s, steps).shared.history.walletMax)
    decreases |steps|
  {
    var s1 := Next(s, steps[0]);
    StepSamples(s, steps[0]);
    if Exec(s, steps).shared.history.walletMax != s1.shared.history.walletMax {
      MaxWasSampled(s1, steps[1..]);
      var k: nat :| k < |steps| - 1 && WalletSample(steps[1..][k]) == Some(Exec(s, steps).shared.history.walletMax);
      assert steps[k + 1] == steps[1..][k];
    }
  }

  /** Some wallet operation of the run found the hour of a reservation at `at` over. */
  ghost predicate FoundOver(past: seq<Step>, at: int) {
    exists k: nat :: k < |past| && WalletSample(past[k]).Some? && !W.IsActive(at, WalletSample(past[k]).value)
  }

  /** An entry that is missing although its hour runs by one clock was given up by a clock ahead of it. */
  lemma GoneMeansFoundOver(past: seq<Step>, at: int, now: int)
    requires Executes(INITIAL, past) && ClockOk(now) && W.IsActive(at, now)
    requires !Unexpired(Exec(INITIAL, past).shared, at)
    ensures FoundOver(past, at)
  {
    MaxWasSampled(INITIAL, past);
    var k: nat :| k < |past| && WalletSample(past[k]) == Some(Exec(INITIAL, past).shared.history.walletMax);
    assert !W.IsActive(at, WalletSample(past[k]).value);
  }

  // ----- the retry is a run of the protocol --------------------------------------------------------

  /** Some run leads from `s` to the records of `r`. */
  ghost predicate Achieves(s: State, r: Outcome) {
    r.Recovered? && exists s' :: Leads(s, s') && s'.shared.job == Some(r.job) && s'.shared.wallet == r.wallet
  }

  /** The wallet commit, up to its return. */
  lemma CommitIsARun(s: State, t: Tid, j: Job, now: int) returns (s': State)
    requires At(s, t) && s.activities[t] == Committing(j) && j.slot.Some?
    requires CommitSlot(s.shared.wallet, j.slot.value.at, now).Some?
    requires W.WellFormed(s.shared.wallet)
    ensures Leads(s, s') && At(s', t) && s'.activities[t] == Committing(j)
    ensures s'.shared.job == s.shared.job
    ensures s'.shared.wallet == CommitSlot(s.shared.wallet, j.slot.value.at, now).value
    ensures CommitReturned(s'.shared.wallet, j.slot.value.at, now)
  {
    var at := j.slot.value.at;
    var op := W.Commit(ME, at, now);
    s' := s;
    LeadsSame(s);
    if W.HasSlot(W.Active(s.shared.wallet, now), ME, at) {
      LeadsNext(s, s, Slots(SendCommit(t, now)));
      s' := Next(s, Slots(SendCommit(t, now)));
      LeadsNext(s, s', World(LateWallet(op)));
      W.WrittenCommitted(s'.shared.wallet, op, ME, at);
      s' := Next(s', World(LateWallet(op)));
    }
  }

  lemma FinishIsARun(s: State, t: Tid, j: Job, m: Samples)
    requires At(s, t) && s.activities[t] == Committing(j) && s.shared.job == Some(j) && AwaitsCommit(j)
    requires Finish(j, s.shared.wallet, m).Recovered?
    requires W.WellFormed(s.shared.wallet)
    ensures Achieves(s, Finish(j, s.shared.wallet, m))
  {
    var s1 := CommitIsARun(s, t, j, m.slot);
    LeadsNext(s, s1, Slots(CommitReturns(t, m.slot)));
    var s2 := Next(s1, Slots(CommitReturns(t, m.slot)));
    LeadsNext(s, s2, Slots(WriteFinal(t, m.final, true)));
    var s3 := Next(s2, Slots(WriteFinal(t, m.final, true)));
    assert Leads(s, s3) && s3.shared.job == Some(Changed(Some(j), FinalizeCommit(m.final)));
  }

  lemma GiveBackIsARun(s: State, t: Tid, j: Job, m: Samples)
    requires At(s, t) && s.activities[t] == Releasing(j) && s.shared.job == Some(j) && AwaitsRelease(j)
    requires GiveBack(j, s.shared.wallet, m).Recovered? && W.WellFormed(s.shared.wallet)
    ensures Achieves(s, GiveBack(j, s.shared.wallet, m))
  {
    var at := j.slot.value.at;
    var op := W.Release(ME, at, m.slot);
    LeadsStep(s, Slots(SendRelease(t, m.slot)));
    var s1 := Next(s, Slots(SendRelease(t, m.slot)));
    LeadsNext(s, s1, World(LateWallet(op)));
    var s2 := Next(s1, World(LateWallet(op)));
    W.WrittenSlot(s1.shared.wallet, op, ME, at);
    LeadsNext(s, s2, Slots(ReleaseReturns(t)));
    var s3 := Next(s2, Slots(ReleaseReturns(t)));
    LeadsNext(s, s3, Slots(WriteReleased(t, m.final, true)));
    var s4 := Next(s3, Slots(WriteReleased(t, m.final, true)));
    assert Leads(s, s4) && s4.shared.job == Some(Changed(Some(j), MarkReleased(m.final)));
  }

  /** A request that read the record and need not settle. */
  lemma ReconciledIsARun(s: State, t: Tid, j: Job, m: Samples)
    requires At(s, t) && s.activities[t] == Observed(Some(j)) && s.shared.job == Some(j) && Consistent(j)
    requires Reconciled(j, s.shared.wallet, m).Recovered?
    requires W.WellFormed(s.shared.wallet)
    ensures Achieves(s, Reconciled(j, s.shared.wallet, m))
  {
    LeadsSame(s);
    if AwaitsCommit(j) || AwaitsRelease(j) {
      var s1 := Next(s, Slots(Reconcile(t)));
      LeadsStep(s, Slots(Reconcile(t)));
      if AwaitsCommit(j) { FinishIsARun(s1, t, j, m); } else { GiveBackIsARun(s1, t, j, m); }
      AchievesAfter(s, s1, Reconciled(j, s.shared.wallet, m));
    }
  }

  lemma AchievesAfter(s: State, s1: State, r: Outcome)
    requires Leads(s, s1) && Achieves(s1, r)
    ensures Achieves(s, r)
  {
    var s' :| Leads(s1, s') && s'.shared.job == Some(r.job) && s'.shared.wallet == r.wallet;
    LeadsOn(s, s1, s');
  }

  /** The verdict's write, from an acknowledged create or claim on. */
  lemma JudgedIsARun(s: State, t: Tid, j: Job, sample: int, owner: Owner, m: Samples, v: Verdict, reclaimed: bool)
    requires At(s, t) && s.activities[t] == Claimed(j, sample, reclaimed) && s.shared.job == Some(j)
    requires BothSettling(j) && Consistent(j) && W.WellFormed(s.shared.wallet)
    requires Reconciled(Changed(Some(j), VerdictChange(owner, m, v, reclaimed)), s.shared.wallet, m).Recovered?
    ensures Achieves(s, Reconciled(Changed(Some(j), VerdictChange(owner, m, v, reclaimed)), s.shared.wallet, m))
  {
    var c := VerdictChange(owner, m, v, reclaimed);
    var judged := Changed(Some(j), c);
    var s1 := s;
    LeadsSame(s);
    if !ChainDecides(v, reclaimed) {
      LeadsNext(s, s, Payment(CallSettle(t)));
      s1 := Next(s, Payment(CallSettle(t)));
    }
    var answer := if c.Settle? then AnswerSettled(t, c.settledRef, owner, m.settled, m.lease, m.updated, true)
                  else AnswerRejected(t, m.updated, true);
    assert PaymentEnabled(s1, answer);
    LeadsNext(s, s1, Payment(answer));
    var s2 := Next(s1, Payment(answer));
    assert s2.shared.job == Some(judged) && s2.shared.wallet == s.shared.wallet;
    ChangeKeeps(Some(j), c);
    if j.slot.Some? {
      if c.Settle? { FinishIsARun(s2, t, judged, m); } else { GiveBackIsARun(s2, t, judged, m); }
      AchievesAfter(s, s2, Reconciled(judged, s.shared.wallet, m));
    }
  }

  lemma StoredIsARun(s: State, t: Tid, owner: Owner, m: Samples, v: Verdict)
    requires SharedOk(s.shared) && s.shared.job.Some? && !At(s, t)
    requires RetryStored(s.shared.job.value, s.shared.wallet, owner, m, v).Recovered?
    ensures Achieves(s, RetryStored(s.shared.job.value, s.shared.wallet, owner, m, v))
  {
    var j := s.shared.job.value;
    var s1 := Next(s, Payment(Observe(t)));
    LeadsStep(s, Payment(Observe(t)));
    if !BothSettling(j) {
      ReconciledIsARun(s1, t, j, m);
    } else if LeaseHeld(j, m.claim) {
      LeadsSame(s1);
    } else {
      var claim := ClaimJob(t, m.claim, owner, true);
      var claimed := Changed(Some(j), ClaimSettlement(m.claim, owner));
      ChangeKeeps(Some(j), ClaimSettlement(m.claim, owner));
      var s2 := Next(s1, Payment(claim));
      LeadsStep(s1, Payment(claim));
      JudgedIsARun(s2, t, claimed, m.claim, owner, m, v, true);
      AchievesAfter(s1, s2, RetryStored(j, s.shared.wallet, owner, m, v));
    }
    AchievesAfter(s, s1, RetryStored(j, s.shared.wallet, owner, m, v));
  }

  lemma FreshIsARun(s: State, t: Tid, owner: Owner, m: Samples, v: Verdict)
    requires SharedOk(s.shared) && s.shared.job.None? && !At(s, t)
    requires RetryFresh(s.shared.wallet, owner, m, v).Recovered?
    ensures Achieves(s, RetryFresh(s.shared.wallet, owner, m, v))
  {
    PlanDecides(s.shared.wallet, m);
    ReserveHolds(s.shared.wallet, m);
    var s1 := Next(s, Payment(Admit(t, m.created, m.reserve)));
    LeadsStep(s, Payment(Admit(t, m.created, m.reserve)));
    var s2 := Next(s1, Payment(CreateJob(t, owner, true)));
    LeadsNext(s, s1, Payment(CreateJob(t, owner, true)));
    ChangeKeeps(None, Create(m.created, owner, Some(m.reserve)));
    JudgedIsARun(s2, t, Created(owner, m), m.created, owner, m, v, false);
    AchievesAfter(s, s2, RetryFresh(s.shared.wallet, owner, m, v));
  }

  /** Every recovery of ExactRetry is the end of a run of the protocol by one new activity. */
  lemma RetryIsARun(s: State, t: Tid, open: bool, owner: Owner, m: Samples, v: Verdict)
    requires SharedOk(s.shared) && !At(s, t)
    requires ExactRetry(s.shared.job, s.shared.wallet, open, owner, m, v).Recovered?
    ensures Achieves(s, ExactRetry(s.shared.job, s.shared.wallet, open, owner, m, v))
  {
    if s.shared.job.Some? {
      StoredIsARun(s, t, owner, m, v);
    } else {
      FreshIsARun(s, t, owner, m, v);
    }
  }

  // ----- recovery over all runs ----------------------------------------------------------------------

  /** The limiter accepts every sample it takes. */
  predicate ClocksOk(m: Samples) {
    ClockOk(m.reserve) && ClockOk(m.confirm) && ClockOk(m.confirmRead) && ClockOk(m.slot)
  }

  /** Why a retry with readable clocks can be refused: confirm's samples straddle the hour's end, or the past. */
  ghost predicate RefusalExplained(past: seq<Step>, job: Option<Job>, m: Samples) {
    if job.None? then EndsDuringConfirm(m.reserve, m) || ReservedBefore(past)
    else
      && job.value.slot.Some?
      && var at := job.value.slot.value.at;
         (BothSettling(job.value) && EndsDuringConfirm(at, m)) || FoundOver(past, at)
  }

  /**
   From every reachable state, with or without a job record, an uninterrupted exact retry after
   the lease, whatever its clock: it is refused as unavailable exactly if RetryFails, and as
   limited exactly if there is no record and the wallet is full. Otherwise, unless it is closed
   out, it is a run of the protocol that ends settled, committed and past settling, or failed and
   released, as the chain and the facilitator have it. If its clock samples are readable and its hour does not end during confirm, a
   refusal has a cause in the past: without a record, a reservation of the job that landed; with
   one, a wallet operation with a clock ahead that found the reservation's hour over.
   */
  lemma RetryRecovers(past: seq<Step>, t: Tid, open: bool, owner: Owner, m: Samples, v: Verdict)
    requires Executes(INITIAL, past) && !At(Exec(INITIAL, past), t)
    requires
      var job := Exec(INITIAL, past).shared.job;
      job.Some? && BothSettling(job.value) ==> !LeaseHeld(job.value, m.claim)
    ensures
      var s := Exec(INITIAL, past);
      var job, wallet := s.shared.job, s.shared.wallet;
      var r := ExactRetry(job, wallet, open, owner, m, v);
      && (r.Unavailable? <==> RetryFails(job, wallet, open, m, v))
      && (r.Limited? <==> job.None? && open && WalletFull(wallet, m))
      && (r.Closed? <==> job.None? && !open)
      && (r.Recovered? ==> Achieves(s, r) && EndsWell(r, SlotOf(job), m))
      && HeedsVerdict(job, r, v)
      && (r.Unavailable? && ClocksOk(m) ==> RefusalExplained(past, job, m))
  {
    InitialOk();
    RunKeeps(INITIAL, past);
    var s := Exec(INITIAL, past);
    var r := ExactRetry(s.shared.job, s.shared.wallet, open, owner, m, v);
    RetryEndsWell(s.shared, open, owner, m, v);
    RetryHeedsVerdict(s.shared, open, owner, m, v);
    if r.Recovered? {
      RetryIsARun(s, t, open, owner, m, v);
    } else if r.Unavailable? && ClocksOk(m) {
      if s.shared.job.Some? {
        StoredRefusalIsExplained(past, m, v);
      } else if StillHeld(s.shared.wallet, m) {
        HeldWasReserved(INITIAL, past);
      }
    }
  }

  lemma StoredRefusalIsExplained(past: seq<Step>, m: Samples, v: Verdict)
    requires Executes(INITIAL, past) && Exec(INITIAL, past).shared.job.Some? && SharedOk(Exec(INITIAL, past).shared)
    requires ClocksOk(m)
    requires StoredFails(Exec(INITIAL, past).shared.job.value, Exec(INITIAL, past).shared.wallet, m, v)
    ensures RefusalExplained(past, Exec(INITIAL, past).shared.job, m)
  {
    var g := Exec(INITIAL, past).shared;
    var at := g.job.value.slot.value.at;
    if !(BothSettling(g.job.value) && EndsDuringConfirm(at, m)) {
      assert !Unexpired(g, at);
      GoneMeansFoundOver(past, at, if W.IsActive(at, m.slot) then m.slot else m.confirm);
    }
  }

  // ----- a reservation without a record ---------------------------------------------------------------

  /** A reservation of the job under study that lands, acknowledged or late. */
  predicate ReservesOwn(step: Step) {
    match step
    case Payment(Admit(_, _, _)) => true
    case World(LateWallet(op)) => op.Reserve? && op.id == ME
    case _ => false
  }

  ghost predicate ReservedBefore(past: seq<Step>) {
    exists k: nat :: k < |past| && ReservesOwn(past[k])
  }

  lemma WrittenId(wallet: seq<W.Entry>, op: W.Op)
    requires W.WellFormed(wallet) && W.Enabled(wallet, op) && W.HasId(W.Written(wallet, op), ME)
    ensures W.HasId(wallet, ME) || (op.Reserve? && op.id == ME)
  {
    var e :| e in W.Written(wallet, op) && e.id == ME;
    assert W.HasSlot(W.Written(wallet, op), ME, e.at);
    W.WrittenSlot(wallet, op, ME, e.at);
  }

  lemma WorldReserves(s: State, step: WorldStep)
    requires SharedOk(s.shared) && WorldEnabled(s, step) && W.HasId(WorldNext(s, step).shared.wallet, ME)
    ensures W.HasId(s.shared.wallet, ME) || ReservesOwn(World(step))
  {
    if step.LateWallet? || step.OtherWallet? {
      WrittenId(s.shared.wallet, step.op);
    }
  }

  lemma PaymentReserves(s: State, step: PaymentStep)
    requires PaymentEnabled(s, step)
    ensures PaymentNext(s, step).shared.wallet == s.shared.wallet || ReservesOwn(Payment(step))
  {
  }

  lemma SlotsLeaveWallet(s: State, step: SlotStep)
    requires SlotEnabled(s, step)
    ensures SlotNext(s, step).shared.wallet == s.shared.wallet
  {
  }

  lemma StepReserves(s: State, step: Step)
    requires SharedOk(s.shared) && Enabled(s, step) && W.HasId(Next(s, step).shared.wallet, ME)
    ensures W.HasId(s.shared.wallet, ME) || ReservesOwn(step)
  {
    match step
    case Payment(x) => PaymentReserves(s, x);
    case Slots(x) => SlotsLeaveWallet(s, x);
    case Worker(x) => WorkerLeavesWallet(s, x);
    case World(x) => WorldReserves(s, x);
  }

  lemma {:induction false} HeldWasReserved(s: State, steps: seq<Step>)
    requires Inv(s) && Executes(s, steps) && !W.HasId(s.shared.wallet, ME) && W.HasId(Exec(s, steps).shared.wallet, ME)
    ensures ReservedBefore(steps)
    decreases |steps|
  {
    var s1, rest := Next(s, steps[0]), steps[1..];
    StepKeeps(s, steps[0]);
    if W.HasId(s1.shared.wallet, ME) {
      StepReserves(s, steps[0]);
    } else {
      HeldWasReserved(s1, rest);
      var k: nat :| k < |rest| && ReservesOwn(rest[k]);
      assert steps[k + 1] == rest[k];
    }
  }

  /** A reservation whose caller stopped before it wrote a record. */
  lemma OrphanedReservation(entry: W.Entry) returns (s: State)
    requires entry == W.Entry(ME, 1000, W.Reserved)
    ensures Leads(INITIAL, s) && s.activities == map[] && s.issued == {} && s.walletIssued == {} && s.shared.job.None?
    ensures s.shared.wallet == [entry]
  {
    LeadsStep(INITIAL, Payment(Admit(0, 1000, 1000)));
    var s1 := Next(INITIAL, Payment(Admit(0, 1000, 1000)));
    LeadsNext(INITIAL, s1, World(Stop(0)));
    s := Next(s1, World(Stop(0)));
    assert s.activities == map[];
  }

  /**
   A crash between the reservation and the record leaves a state that does not heal for an hour:
   every exact retry at a sample of that hour is refused, and once it is over a retry starts anew.
   */
  lemma OrphanBlocksForItsHour()
    ensures exists s ::
      && Leads(INITIAL, s) && s.activities == map[] && s.issued == {} && s.walletIssued == {} && s.shared.job.None?
      && (forall owner, m: Samples, v :: 1 <= m.reserve < 1000 + W.WINDOW ==>
            ExactRetry(None, s.shared.wallet, true, owner, m, v) == Unavailable)
      && (forall m: Samples :: 1000 + W.WINDOW <= m.reserve <= W.MAX_TIMESTAMP ==>
            !StillHeld(s.shared.wallet, m) && !WalletFull(s.shared.wallet, m))
  {
    var entry := W.Entry(ME, 1000, W.Reserved);
    var s := OrphanedReservation(entry);
    forall owner, m: Samples, v | 1 <= m.reserve < 1000 + W.WINDOW
      ensures ExactRetry(None, s.shared.wallet, true, owner, m, v) == Unavailable
    {
      assert entry in W.Active([entry], m.reserve);
      PlanDecides(s.shared.wallet, m);
    }
    forall m: Samples | 1000 + W.WINDOW <= m.reserve <= W.MAX_TIMESTAMP
      ensures !StillHeld(s.shared.wallet, m) && !WalletFull(s.shared.wallet, m)
    {
      assert W.Active([entry], m.reserve) == [];
    }
  }

  // ----- a record without its reservation --------------------------------------------------------------

  /** Another job's reserve, sampled at the end of the hour, drops the entry of a settling job. */
  lemma DroppedEntry() returns (s: State)
    ensures Leads(INITIAL, s) && s.shared.wallet == [W.Entry(1, 3_601_000, W.Reserved)]
    ensures s.shared.job == Some(Changed(None, Create(1000, 0, Some(1000))))
  {
    LeadsStep(INITIAL, Payment(Admit(0, 1000, 1000)));
    var s1 := Next(INITIAL, Payment(Admit(0, 1000, 1000)));
    assert s1.shared.wallet == [W.Entry(ME, 1000, W.Reserved)];
    LeadsNext(INITIAL, s1, Payment(CreateJob(0, 0, true)));
    var s2 := Next(s1, Payment(CreateJob(0, 0, true)));
    s := AfterDrop(s2);
    LeadsOn(INITIAL, s2, s);
  }

  lemma AfterDrop(s: State) returns (s': State)
    requires s.shared.wallet == [W.Entry(ME, 1000, W.Reserved)]
    ensures Leads(s, s') && s'.shared.job == s.shared.job
    ensures s'.shared.wallet == [W.Entry(1, 3_601_000, W.Reserved)]
  {
    var op := W.Reserve(1, 3_601_000);
    assert W.Active(s.shared.wallet, op.now) == [];
    LeadsStep(s, World(OtherWallet(op)));
    s' := Next(s, World(OtherWallet(op)));
  }

  /** The same sample throughout. */
  function Always(now: int): Samples {
    Samples(now, now, now, now, now, now, now, now, now, now)
  }

  /** Half a second behind that clock, with the hour still running, the retry is refused. */
  lemma LaggingClockIsRefused(owner: Owner, v: Verdict)
    ensures
      var m := Always(3_600_500);
      exists s :: Leads(INITIAL, s) && s.shared.job.Some? && !LeaseHeld(s.shared.job.value, m.claim)
        && s.shared.job.value.slot.Some? && !EndsDuringConfirm(s.shared.job.value.slot.value.at, m)
        && ExactRetry(s.shared.job, s.shared.wallet, true, owner, m, v).Unavailable?
  {
    var s := DroppedEntry();
  }
}
