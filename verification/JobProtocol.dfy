/**
 The paid-job protocol as a state machine: one job, the rate-limit record of its wallet,
 its report objects, and any number of activities (requests and workers of any replica)
 that interleave at every store operation.

 A conditional write has three outcomes. It lands and the writer is told so; it never
 lands; or the writer sees an error although the write lands then, later, or again. The
 last two are one step here: the write joins `issued`, from where it may land at any
 later moment at which the stored record equals the record it was computed from. Equality
 of whole records is what an entity tag of the content compares, so a record that comes
 back to an earlier value is accepted (sections 13.1.1 and 13.1.2 of RFC 9110).
 */
module JobProtocol {
  import opened Basics
  import opened Wrappers
  import opened JobRecord
  import W = WalletWindow

  /** The reservation id of the job under study; other jobs of the wallet use other ids. */
  const ME: W.Id := 0

  const PROVIDER_CALLS: nat := 3
  const DRIVES: nat := 3
  const PENDING_WRITES: nat := 3

  type Tid = nat
  type Report = nat

  datatype Write = Write(before: Option<Job>, change: Change)

  /** What an activity knows between two store operations. */
  datatype Pc =
    | Observed(seen: Option<Job>)                       // a request or a resume read the record
    | Admitted(now: int, at: int)                       // this request's own reserve was acknowledged
    | Claimed(snap: Job, sample: int, reclaimed: bool)  // this request's own create or claim was acknowledged
    | Calling(snap: Job, sample: int)                   // the facilitator is being asked to settle
    | Pending(snap: Job, ref: Ref, writes: nat)         // about to persist a pending reference
    | PendingLost(snap: Job, ref: Ref, writes: nat)     // that write was not acknowledged
    | Committing(snap: Job)                             // must commit the wallet slot of a settled job
    | Finalizing(snap: Job)                             // the wallet commit returned
    | Releasing(snap: Job)                              // must release the wallet slot of a failed payment
    | Marking(snap: Job)                                // the wallet release returned
    | Driving(owner: Owner, drives: nat, seen: Option<Job>)
    | Working(snap: Job, owner: Owner, leaseLost: bool, calls: nat)
    | Fenced(snap: Job, owner: Owner, report: Report)   // lease refreshed after the work
    | PutFailed(snap: Job, owner: Owner)
    | Stored(snap: Job, owner: Owner)                   // the report was stored

  /** What happened so far; no step reads it. */
  datatype History = History(
    walletMax: int,             // largest sample of a wallet write that landed or a commit that returned
    claims: seq<int>,           // samples of landed create and settlement-claim writes
    calls: seq<int>,            // the claim sample of every settlement call
    runs: seq<Owner>,           // owners of landed execution claims
    provider: map<Owner, nat>,  // provider calls of every execution that started
    owners: set<Owner>)         // execution owners drawn

  /** The stored objects, and what happened to them. */
  datatype Shared = Shared(
    job: Option<Job>,
    wallet: seq<W.Entry>,
    reports: map<Owner, Report>,
    puts: map<Owner, Report>,   // report writes sent so far
    history: History)

  datatype State = State(
    shared: Shared,
    activities: map<Tid, Pc>,
    issued: set<Write>,
    walletIssued: set<W.Op>)

  const INITIAL :=
    State(Shared(None, [], map[], map[], History(0, [], [], [], map[], {})), map[], {}, {})

  // ----- effects on the stored objects -----------------------------------------------------

  function Recorded(h: History, c: Change): History {
    match c
    case Create(now, _, _) => h.(claims := h.claims + [now])
    case ClaimSettlement(now, _) => h.(claims := h.claims + [now])
    case ClaimRun(owner, _) => h.(runs := h.runs + [owner])
    case _ => h
  }

  /** The write lands. */
  function Land(g: Shared, w: Write): Shared
    requires Attempts(w.before, w.change)
  {
    g.(job := Some(Changed(w.before, w.change)), history := Recorded(g.history, w.change))
  }

  function Sampled(g: Shared, now: int): Shared {
    g.(history := g.history.(walletMax := Max(now, g.history.walletMax)))
  }

  function LandWallet(g: Shared, op: W.Op): Shared {
    Sampled(g.(wallet := W.Written(g.wallet, op)), op.now)
  }

  function Called(g: Shared, sample: int): Shared {
    g.(history := g.history.(calls := g.history.calls + [sample]))
  }

  function Drawn(g: Shared, owner: Owner): Shared {
    g.(history := g.history.(owners := g.history.owners + {owner}))
  }

  function CountedProvider(g: Shared, owner: Owner, calls: nat): Shared {
    g.(history := g.history.(provider := g.history.provider[owner := calls]))
  }

  function Sent(g: Shared, owner: Owner, report: Report): Shared {
    g.(puts := g.puts[owner := report])
  }

  function Arrived(g: Shared, owner: Owner): Shared
    requires owner in g.puts
  {
    g.(reports := g.reports[owner := g.puts[owner]])
  }

  // ----- effects on the state ----------------------------------------------------------------

  function With(s: State, g: Shared): State {
    s.(shared := g)
  }

  function SetPc(s: State, t: Tid, pc: Pc): State {
    s.(activities := s.activities[t := pc])
  }

  function Drop(s: State, t: Tid): State {
    s.(activities := s.activities - {t})
  }

  /** The activity moves to `next`, or ends. */
  function Move(s: State, t: Tid, next: Option<Pc>): State {
    if next.Some? then SetPc(s, t, next.value) else Drop(s, t)
  }

  /** The write is on its way without acknowledgement. */
  function Issue(s: State, w: Write): State {
    s.(issued := s.issued + {w})
  }

  function Send(s: State, op: W.Op): State {
    s.(walletIssued := s.walletIssued + {op})
  }

  /** An activity attempts a change of the record it holds: acknowledged, or lost. */
  predicate CanWrite(s: State, before: Option<Job>, c: Change, acked: bool) {
    Attempts(before, c) && (acked ==> s.shared.job == before)
  }

  function Put(s: State, before: Option<Job>, c: Change, acked: bool): State
    requires CanWrite(s, before, c, acked)
  {
    if acked then With(s, Land(s.shared, Write(before, c))) else Issue(s, Write(before, c))
  }

  /** `commit` returned to a caller whose last sample was `now`. */
  predicate CommitReturned(wallet: seq<W.Entry>, at: int, now: int) {
    W.Entry(ME, at, W.Committed) in wallet || !W.IsActive(at, now)
  }

  /** `release` returned: the slot is gone. */
  predicate ReleaseReturned(wallet: seq<W.Entry>, at: int) {
    !W.HasSlot(wallet, ME, at)
  }

  // ----- steps -----------------------------------------------------------------------------

  /** A request, from the first read of the record to the answer of the facilitator. */
  datatype PaymentStep =
    | Observe(t: Tid)
    | Admit(t: Tid, now: int, at: int)
    | LoseReserve(at: int)
    | CreateJob(t: Tid, owner: Owner, acked: bool)
    | CreateWithoutSlot(t: Tid, now: int, owner: Owner, acked: bool)
    | ClaimJob(t: Tid, now: int, owner: Owner, acked: bool)
    | CallSettle(t: Tid)
    | AnswerSettled(t: Tid, settledRef: Option<Ref>, owner: Owner, settledNow: int, leaseNow: int, now: int, acked: bool)
    | AnswerRejected(t: Tid, now: int, acked: bool)
    | AnswerPending(t: Tid, ref: Ref)
    | WritePending(t: Tid, now: int, acked: bool)
    | RereadPending(t: Tid)
    | RetryPending(t: Tid)

  /** A request that settles accounts with the wallet record, and a resume. */
  datatype SlotStep =
    | Reconcile(t: Tid)
    | SendCommit(t: Tid, now: int)
    | CommitReturns(t: Tid, now: int)
    | WriteFinal(t: Tid, now: int, acked: bool)
    | SendRelease(t: Tid, now: int)
    | ReleaseReturns(t: Tid)
    | WriteReleased(t: Tid, now: int, acked: bool)
    | ResumeJob(t: Tid, authorized: int, now: int, acked: bool)

  /** A worker, from its draw of an owner to its closing write. */
  datatype WorkerStep =
    | Spawn(t: Tid, owner: Owner)
    | Drive(t: Tid)
    | ClaimExecution(t: Tid, now: int, acked: bool)
    | Adopt(t: Tid)
    | CallProvider(t: Tid)
    | Heartbeat(t: Tid, now: int, acked: bool)
    | FailExecution(t: Tid, code: ErrorCode, transient: bool, now: int, acked: bool)
    | Fence(t: Tid, report: Report, now: int, acked: bool)
    | PutReport(t: Tid, acked: bool)
    | WriteSuccess(t: Tid, now: int, acked: bool)

  /** Late landings, the other jobs of the wallet, and crashes. */
  datatype WorldStep =
    | LateWrite(w: Write)
    | LateReport(owner: Owner)
    | LateWallet(op: W.Op)
    | OtherWallet(op: W.Op)
    | Stop(t: Tid)

  datatype Step =
    | Payment(payment: PaymentStep)
    | Slots(slots: SlotStep)
    | Worker(worker: WorkerStep)
    | World(world: WorldStep)

  predicate At(s: State, t: Tid) { t in s.activities }

  /** The record a worker in one of its last stages may fail. */
  predicate MayFail(pc: Pc) {
    (pc.Working? && !pc.leaseLost) || pc.PutFailed?
  }

  predicate PaymentEnabled(s: State, step: PaymentStep) {
    match step
    case Observe(t) => !At(s, t)
    case Admit(t, now, at) =>
      !At(s, t) && W.Enabled(s.shared.wallet, W.Reserve(ME, at))
    case LoseReserve(at) => true
    case CreateJob(t, owner, acked) =>
      At(s, t) && s.activities[t].Admitted?
      && var pc := s.activities[t];
         CanWrite(s, None, Create(pc.now, owner, Some(pc.at)), acked)
    case CreateWithoutSlot(t, now, owner, acked) =>
      !At(s, t) && CanWrite(s, None, Create(now, owner, None), acked)
    case ClaimJob(t, now, owner, acked) =>
      At(s, t) && s.activities[t].Observed?
      && CanWrite(s, s.activities[t].seen, ClaimSettlement(now, owner), acked)
    case CallSettle(t) => At(s, t) && s.activities[t].Claimed?
    case AnswerSettled(t, ref, owner, settledNow, leaseNow, now, acked) =>
      At(s, t)
      && var pc := s.activities[t];
         // the facilitator names a transaction; a used authorization found on chain has none
         && ((pc.Calling? && ref.Some?) || (pc.Claimed? && pc.reclaimed && ref.None?))
         && CanWrite(s, Some(pc.snap), Settle(ref, owner, settledNow, leaseNow, now), acked)
    case AnswerRejected(t, now, acked) =>
      At(s, t)
      && var pc := s.activities[t];
         // rejected by the facilitator, or the reclaimed proof has expired unused
         && (pc.Calling? || (pc.Claimed? && pc.reclaimed))
         && CanWrite(s, Some(pc.snap), FailPayment(now), acked)
    case AnswerPending(t, ref) => At(s, t) && s.activities[t].Calling?
    case WritePending(t, now, acked) =>
      At(s, t) && s.activities[t].Pending?
      && var pc := s.activities[t];
         pc.writes < PENDING_WRITES && CanWrite(s, Some(pc.snap), PersistPending(pc.ref, now), acked)
    case RereadPending(t) => At(s, t) && s.activities[t].PendingLost?
    case RetryPending(t) => At(s, t) && s.activities[t].PendingLost?
  }

  predicate SlotEnabled(s: State, step: SlotStep) {
    match step
    case Reconcile(t) => At(s, t) && s.activities[t].Observed? && s.activities[t].seen.Some?
    case SendCommit(t, now) => At(s, t) && s.activities[t].Committing?
    case CommitReturns(t, now) =>
      At(s, t) && s.activities[t].Committing?
      && var j := s.activities[t].snap;
         j.slot.Some? && CommitReturned(s.shared.wallet, j.slot.value.at, now)
    case WriteFinal(t, now, acked) =>
      At(s, t) && s.activities[t].Finalizing?
      && CanWrite(s, Some(s.activities[t].snap), FinalizeCommit(now), acked)
    case SendRelease(t, now) => At(s, t) && s.activities[t].Releasing?
    case ReleaseReturns(t) =>
      At(s, t) && s.activities[t].Releasing?
      && var j := s.activities[t].snap;
         j.slot.Some? && ReleaseReturned(s.shared.wallet, j.slot.value.at)
    case WriteReleased(t, now, acked) =>
      At(s, t) && s.activities[t].Marking?
      && CanWrite(s, Some(s.activities[t].snap), MarkReleased(now), acked)
    case ResumeJob(t, authorized, now, acked) =>
      At(s, t) && s.activities[t].Observed?
      && CanWrite(s, s.activities[t].seen, Requeue(authorized, now), acked)
  }

  predicate WorkerEnabled(s: State, step: WorkerStep) {
    match step
    case Spawn(t, owner) => !At(s, t) && owner !in s.shared.history.owners
    case Drive(t) => At(s, t) && s.activities[t].Driving? && s.activities[t].drives < DRIVES
    case ClaimExecution(t, now, acked) =>
      At(s, t) && s.activities[t].Driving?
      && var pc := s.activities[t];
         pc.drives < DRIVES && CanWrite(s, pc.seen, ClaimRun(pc.owner, now), acked)
    case Adopt(t) =>
      At(s, t) && s.activities[t].Driving?
      && var pc := s.activities[t];
         pc.drives < DRIVES && pc.seen.Some? && LeasedTo(pc.seen.value, pc.owner)
    case CallProvider(t) =>
      At(s, t) && s.activities[t].Working? && s.activities[t].calls < PROVIDER_CALLS
    case Heartbeat(t, now, acked) =>
      At(s, t) && s.activities[t].Working? && !s.activities[t].leaseLost
      && var pc := s.activities[t];
         CanWrite(s, Some(pc.snap), Beat(pc.owner, now), acked)
    case FailExecution(t, code, transient, now, acked) =>
      At(s, t) && MayFail(s.activities[t])
      && var pc := s.activities[t];
         && (code == AnalysisEmpty ==> pc.Working? && pc.calls == PROVIDER_CALLS)
         && CanWrite(s, Some(pc.snap), FailRun(pc.owner, code, transient, now), acked)
    case Fence(t, report, now, acked) =>
      At(s, t) && s.activities[t].Working? && !s.activities[t].leaseLost && s.activities[t].calls > 0
      && var pc := s.activities[t];
         CanWrite(s, Some(pc.snap), Beat(pc.owner, now), acked)
    case PutReport(t, acked) => At(s, t) && s.activities[t].Fenced?
    case WriteSuccess(t, now, acked) =>
      At(s, t) && s.activities[t].Stored?
      && var pc := s.activities[t];
         CanWrite(s, Some(pc.snap), Succeed(pc.owner, now), acked)
  }

  predicate WorldEnabled(s: State, step: WorldStep) {
    match step
    case LateWrite(w) => w in s.issued && s.shared.job == w.before && Attempts(w.before, w.change)
    case LateReport(owner) => owner in s.shared.puts
    case LateWallet(op) => op in s.walletIssued && W.Enabled(s.shared.wallet, op)
    case OtherWallet(op) => (op.id != ME || op.Prune?) && W.Enabled(s.shared.wallet, op)
    case Stop(t) => At(s, t)
  }

  predicate Enabled(s: State, step: Step) {
    match step
    case Payment(x) => PaymentEnabled(s, x)
    case Slots(x) => SlotEnabled(s, x)
    case Worker(x) => WorkerEnabled(s, x)
    case World(x) => WorldEnabled(s, x)
  }

  /** What a request does after a lost pending write, having read the record again. */
  function AfterReread(job: Option<Job>, ref: Ref, writes: nat): Option<Pc> {
    if job.Some? && BothSettling(job.value) && job.value.settlementRef.None? && job.value.pendingRef.None?
       && writes < PENDING_WRITES
    then Some(Pending(job.value, ref, writes))
    else None
  }

  /** What a request does with a record it read and did not have to settle. */
  function AfterReconcile(j: Job): Option<Pc> {
    if j.slot.None? then None
    else if j.payment == PaymentSettled && j.slot.value.state == SlotReserved then Some(Committing(j))
    else if j.payment == PaymentSettled && j.slot.value.state == SlotCommitted && j.status == Settling then
      Some(Finalizing(j))
    else if j.payment == PaymentFailed && j.slot.value.state == SlotReserved then Some(Releasing(j))
    else None
  }

  function StartWork(s: State, t: Tid, j: Job, owner: Owner): State {
    SetPc(With(s, CountedProvider(s.shared, owner, 0)), t, Working(j, owner, false, 0))
  }

  function PaymentNext(s: State, step: PaymentStep): State
    requires PaymentEnabled(s, step)
  {
    match step
    case Observe(t) => SetPc(s, t, Observed(s.shared.job))
    case Admit(t, now, at) => SetPc(With(s, LandWallet(s.shared, W.Reserve(ME, at))), t, Admitted(now, at))
    case LoseReserve(at) => Send(s, W.Reserve(ME, at))
    case CreateJob(t, owner, acked) =>
      var pc := s.activities[t];
      var c := Create(pc.now, owner, Some(pc.at));
      Move(Put(s, None, c, acked), t, if acked then Some(Claimed(Changed(None, c), pc.now, false)) else None)
    case CreateWithoutSlot(t, now, owner, acked) =>
      var c := Create(now, owner, None);
      Move(Put(s, None, c, acked), t, if acked then Some(Claimed(Changed(None, c), now, false)) else None)
    case ClaimJob(t, now, owner, acked) =>
      var seen := s.activities[t].seen;
      var c := ClaimSettlement(now, owner);
      Move(Put(s, seen, c, acked), t, if acked then Some(Claimed(Changed(seen, c), now, true)) else None)
    case CallSettle(t) =>
      var pc := s.activities[t];
      SetPc(With(s, Called(s.shared, pc.sample)), t, Calling(pc.snap, pc.sample))
    case AnswerSettled(t, ref, owner, settledNow, leaseNow, now, acked) =>
      var before := Some(s.activities[t].snap);
      var c := Settle(ref, owner, settledNow, leaseNow, now);
      Move(Put(s, before, c, acked), t,
           if acked && before.value.slot.Some? then Some(Committing(Changed(before, c))) else None)
    case AnswerRejected(t, now, acked) =>
      var before := Some(s.activities[t].snap);
      var c := FailPayment(now);
      Move(Put(s, before, c, acked), t,
           if acked && before.value.slot.Some? then Some(Releasing(Changed(before, c))) else None)
    case AnswerPending(t, ref) => SetPc(s, t, Pending(s.activities[t].snap, ref, 0))
    case WritePending(t, now, acked) =>
      var pc := s.activities[t];
      Move(Put(s, Some(pc.snap), PersistPending(pc.ref, now), acked), t,
           if acked then None else Some(PendingLost(pc.snap, pc.ref, pc.writes + 1)))
    case RereadPending(t) =>
      Move(s, t, AfterReread(s.shared.job, s.activities[t].ref, s.activities[t].writes))
    case RetryPending(t) =>
      var pc := s.activities[t];
      Move(s, t, if pc.writes < PENDING_WRITES then Some(Pending(pc.snap, pc.ref, pc.writes)) else None)
  }

  function SlotNext(s: State, step: SlotStep): State
    requires SlotEnabled(s, step)
  {
    match step
    case Reconcile(t) => Move(s, t, AfterReconcile(s.activities[t].seen.value))
    case SendCommit(t, now) =>
      var j := s.activities[t].snap;
      if j.slot.Some? then Send(s, W.Commit(ME, j.slot.value.at, now)) else s
    case CommitReturns(t, now) =>
      SetPc(With(s, Sampled(s.shared, now)), t, Finalizing(s.activities[t].snap))
    case WriteFinal(t, now, acked) =>
      Drop(Put(s, Some(s.activities[t].snap), FinalizeCommit(now), acked), t)
    case SendRelease(t, now) =>
      var j := s.activities[t].snap;
      if j.slot.Some? then Send(s, W.Release(ME, j.slot.value.at, now)) else s
    case ReleaseReturns(t) => SetPc(s, t, Marking(s.activities[t].snap))
    case WriteReleased(t, now, acked) =>
      Drop(Put(s, Some(s.activities[t].snap), MarkReleased(now), acked), t)
    case ResumeJob(t, authorized, now, acked) =>
      Drop(Put(s, s.activities[t].seen, Requeue(authorized, now), acked), t)
  }

  function WorkerNext(s: State, step: WorkerStep): State
    requires WorkerEnabled(s, step)
  {
    match step
    case Spawn(t, owner) => SetPc(With(s, Drawn(s.shared, owner)), t, Driving(owner, 0, None))
    case Drive(t) => SetPc(s, t, Driving(s.activities[t].owner, s.activities[t].drives, s.shared.job))
    case ClaimExecution(t, now, acked) =>
      var pc := s.activities[t];
      var c := ClaimRun(pc.owner, now);
      var s' := Put(s, pc.seen, c, acked);
      if acked then StartWork(s', t, Changed(pc.seen, c), pc.owner)
      else SetPc(s', t, Driving(pc.owner, pc.drives + 1, None))
    case Adopt(t) => StartWork(s, t, s.activities[t].seen.value, s.activities[t].owner)
    case CallProvider(t) =>
      var pc := s.activities[t];
      SetPc(With(s, CountedProvider(s.shared, pc.owner, pc.calls + 1)), t,
            Working(pc.snap, pc.owner, pc.leaseLost, pc.calls + 1))
    case Heartbeat(t, now, acked) =>
      var pc := s.activities[t];
      var c := Beat(pc.owner, now);
      SetPc(Put(s, Some(pc.snap), c, acked), t,
            if acked then Working(Changed(Some(pc.snap), c), pc.owner, false, pc.calls)
            else Working(pc.snap, pc.owner, true, pc.calls))
    case FailExecution(t, code, transient, now, acked) =>
      var pc := s.activities[t];
      Drop(Put(s, Some(pc.snap), FailRun(pc.owner, code, transient, now), acked), t)
    case Fence(t, report, now, acked) =>
      var pc := s.activities[t];
      var c := Beat(pc.owner, now);
      Move(Put(s, Some(pc.snap), c, acked), t,
           if acked then Some(Fenced(Changed(Some(pc.snap), c), pc.owner, report)) else None)
    case PutReport(t, acked) =>
      var pc := s.activities[t];
      var sent := Sent(s.shared, pc.owner, pc.report);
      if acked then SetPc(With(s, Arrived(sent, pc.owner)), t, Stored(pc.snap, pc.owner))
      else SetPc(With(s, sent), t, PutFailed(pc.snap, pc.owner))
    case WriteSuccess(t, now, acked) =>
      var pc := s.activities[t];
      Drop(Put(s, Some(pc.snap), Succeed(pc.owner, now), acked), t)
  }

  function WorldNext(s: State, step: WorldStep): State
    requires WorldEnabled(s, step)
  {
    match step
    case LateWrite(w) => With(s, Land(s.shared, w))
    case LateReport(owner) => With(s, Arrived(s.shared, owner))
    case LateWallet(op) => With(s, LandWallet(s.shared, op))
    case OtherWallet(op) => With(s, LandWallet(s.shared, op))
    case Stop(t) => Drop(s, t)
  }

  function Next(s: State, step: Step): State
    requires Enabled(s, step)
  {
    match step
    case Payment(x) => PaymentNext(s, x)
    case Slots(x) => SlotNext(s, x)
    case Worker(x) => WorkerNext(s, x)
    case World(x) => WorldNext(s, x)
  }

  // ----- runs ------------------------------------------------------------------------------

  ghost predicate Executes(s: State, steps: seq<Step>)
    decreases |steps|
  {
    steps == [] || (Enabled(s, steps[0]) && Executes(Next(s, steps[0]), steps[1..]))
  }

  ghost function Exec(s: State, steps: seq<Step>): State
    requires Executes(s, steps)
    decreases |steps|
  {
    if steps == [] then s else Exec(Next(s, steps[0]), steps[1..])
  }

  /** The state after the first `k` steps. */
  ghost function StateAt(s: State, steps: seq<Step>, k: nat): State
    requires Executes(s, steps) && k <= |steps|
    decreases |steps|
  {
    if k == 0 then s else StateAt(Next(s, steps[0]), steps[1..], k - 1)
  }

  /** The activity that takes the step, or begins or ends with it. */
  function Actor(step: Step): Option<Tid> {
    match step
    case Payment(x) => if x.LoseReserve? then None else Some(x.t)
    case Slots(x) => Some(x.t)
    case Worker(x) => Some(x.t)
    case World(x) => if x.Stop? then Some(x.t) else None
  }
}
