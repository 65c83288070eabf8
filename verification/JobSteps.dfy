/** Every step of the paid-job protocol keeps the invariant, hence every run does. */
module JobSteps {
  import opened Wrappers
  import opened JobRecord
  import opened JobProtocol
  import opened JobInvariant
  import W = WalletWindow

  // ----- admission and settlement claims -----------------------------------------------------

  /** A settlement claim that lands carries a sample a lease later than every earlier claim's. */
  lemma ClaimIsNew(g: Shared, before: Option<Job>, c: Change)
    requires SharedOk(g) && WriteOk(g, Write(before, c)) && g.job == before
    requires c.Create? || c.ClaimSettlement?
    ensures forall sample :: sample in g.history.claims ==> c.now - sample >= LEASE
    ensures c.now !in g.history.claims && c.now !in g.history.calls
  {
    var claims := g.history.claims;
    if c.ClaimSettlement? {
      forall i | 0 <= i < |claims| ensures c.now - claims[i] >= LEASE {
        assert i < |claims| - 1 ==> claims[|claims| - 1] - claims[i] >= LEASE;
      }
    }
  }

  /** A create or claim write; only its acknowledgement lets the request go on to settle. */
  lemma ClaimKeeps(s: State, t: Tid, before: Option<Job>, c: Change, acked: bool, reclaimed: bool)
    requires Inv(s) && CanWrite(s, before, c, acked) && WriteOk(s.shared, Write(before, c))
    requires c.Create? || c.ClaimSettlement?
    ensures Inv(Move(Put(s, before, c, acked), t, if acked then Some(Claimed(Changed(before, c), c.now, reclaimed)) else None))
  {
    PutKeeps(s, before, c, acked);
    var s' := Put(s, before, c, acked);
    if acked {
      ClaimIsNew(s.shared, before, c);
      assert s'.shared.history.claims[|s'.shared.history.claims| - 1] == c.now;
      forall u | u in s.activities && s.activities[u].Claimed? ensures s.activities[u].sample != c.now {
        assert PcOk(s.shared, s.activities[u]);
      }
      MoveKeeps(s', t, s'.shared, Claimed(Changed(before, c), c.now, reclaimed));
    } else {
      MoveOnKeeps(s', t, None);
    }
  }

  lemma AdmitKeeps(s: State, step: PaymentStep)
    requires Inv(s) && step.Admit? && PaymentEnabled(s, step)
    ensures Inv(PaymentNext(s, step))
  {
    var op := W.Reserve(ME, step.at);
    WalletKeeps(s, op);
    assert W.Written(s.shared.wallet, op)[|W.Written(s.shared.wallet, op)| - 1] == W.Entry(ME, step.at, W.Reserved);
    MoveOnKeeps(With(s, LandWallet(s.shared, op)), step.t, Some(Admitted(step.now, step.at)));
  }

  lemma CreateKeeps(s: State, step: PaymentStep)
    requires Inv(s) && PaymentEnabled(s, step) && (step.CreateJob? || step.CreateWithoutSlot? || step.ClaimJob?)
    ensures Inv(PaymentNext(s, step))
  {
    match step
    case CreateJob(t, owner, acked) =>
      var pc := s.activities[t];
      assert PcOk(s.shared, pc);
      ClaimKeeps(s, t, None, Create(pc.now, owner, Some(pc.at)), acked, false);
    case CreateWithoutSlot(t, now, owner, acked) =>
      ClaimKeeps(s, t, None, Create(now, owner, None), acked, false);
    case ClaimJob(t, now, owner, acked) =>
      assert PcOk(s.shared, s.activities[t]);
      ClaimKeeps(s, t, s.activities[t].seen, ClaimSettlement(now, owner), acked, true);
  }

  // ----- settlement -----------------------------------------------------------------------------

  /** A settlement call uses up the claim it was made under. */
  lemma CallSettleKeeps(s: State, t: Tid)
    requires Inv(s) && PaymentEnabled(s, CallSettle(t))
    ensures Inv(PaymentNext(s, CallSettle(t)))
  {
    assert PcOk(s.shared, s.activities[t]);
    match s.activities[t]
    case Claimed(snap, sample, _) =>
      var g' := Called(s.shared, sample);
      forall u | u in s.activities && u != t ensures PcOk(g', s.activities[u]) {
        assert PcOk(s.shared, s.activities[u]) && Apart(s.activities[t], s.activities[u]);
      }
      forall w | w in s.issued ensures WriteOk(g', w) { assert WriteOk(s.shared, w); }
      forall op | op in s.walletIssued ensures WalletOpOk(g', op) { assert WalletOpOk(s.shared, op); }
      MoveKeeps(s, t, g', Calling(snap, sample));
  }

  lemma AnswerKeeps(s: State, t: Tid, c: Change, acked: bool)
    requires Inv(s) && At(s, t) && (s.activities[t].Calling? || s.activities[t].Claimed?)
    requires c.Settle? || c.FailPayment?
    requires CanWrite(s, Some(s.activities[t].snap), c, acked)
    ensures
      var before := Some(s.activities[t].snap);
      var next := if !acked || before.value.slot.None? then None
                  else if c.Settle? then Some(Committing(Changed(before, c)))
                  else Some(Releasing(Changed(before, c)));
      Inv(Move(Put(s, before, c, acked), t, next))
  {
    var before := Some(s.activities[t].snap);
    assert PcOk(s.shared, s.activities[t]);
    PutKeeps(s, before, c, acked);
    var next := if !acked || before.value.slot.None? then None
                else if c.Settle? then Some(Committing(Changed(before, c)))
                else Some(Releasing(Changed(before, c)));
    WriteThenKeeps(s, t, before, c, acked, next);
  }

  lemma SettlementKeeps(s: State, step: PaymentStep)
    requires Inv(s) && PaymentEnabled(s, step) && (step.AnswerSettled? || step.AnswerRejected?)
    ensures Inv(PaymentNext(s, step))
  {
    match step
    case AnswerSettled(t, ref, owner, settledNow, leaseNow, now, acked) =>
      AnswerKeeps(s, t, Settle(ref, owner, settledNow, leaseNow, now), acked);
    case AnswerRejected(t, now, acked) => AnswerKeeps(s, t, FailPayment(now), acked);
  }

  lemma AnswerPendingKeeps(s: State, t: Tid, ref: Ref)
    requires Inv(s) && PaymentEnabled(s, AnswerPending(t, ref))
    ensures Inv(PaymentNext(s, AnswerPending(t, ref)))
  {
    assert PcOk(s.shared, s.activities[t]);
    match s.activities[t]
    case Calling(snap, _) => MoveOnKeeps(s, t, Some(Pending(snap, ref, 0)));
  }

  lemma WritePendingKeeps(s: State, step: PaymentStep)
    requires Inv(s) && PaymentEnabled(s, step) && step.WritePending?
    ensures Inv(PaymentNext(s, step))
  {
    assert PcOk(s.shared, s.activities[step.t]);
    match s.activities[step.t]
    case Pending(snap, ref, writes) =>
      PutKeeps(s, Some(snap), PersistPending(ref, step.now), step.acked);
      WriteThenKeeps(s, step.t, Some(snap), PersistPending(ref, step.now), step.acked,
                     if step.acked then None else Some(PendingLost(snap, ref, writes + 1)));
  }

  lemma LostPendingKeeps(s: State, step: PaymentStep)
    requires Inv(s) && PaymentEnabled(s, step) && (step.RereadPending? || step.RetryPending?)
    ensures Inv(PaymentNext(s, step))
  {
    assert PcOk(s.shared, s.activities[step.t]);
    match s.activities[step.t]
    case PendingLost(snap, ref, writes) =>
      if step.RereadPending? {
        MoveOnKeeps(s, step.t, AfterReread(s.shared.job, ref, writes));
      } else {
        MoveOnKeeps(s, step.t, if writes < PENDING_WRITES then Some(Pending(snap, ref, writes)) else None);
      }
  }

  // ----- the wallet slot ---------------------------------------------------------------------------

  lemma ReconcileKeeps(s: State, t: Tid)
    requires Inv(s) && SlotEnabled(s, SlotStep.Reconcile(t))
    ensures Inv(SlotNext(s, SlotStep.Reconcile(t)))
  {
    assert PcOk(s.shared, s.activities[t]);
    MoveOnKeeps(s, t, AfterReconcile(s.activities[t].seen.value));
  }

  lemma SendSlotKeeps(s: State, step: SlotStep)
    requires Inv(s) && SlotEnabled(s, step) && (step.SendCommit? || step.SendRelease?)
    ensures Inv(SlotNext(s, step))
  {
    var snap := s.activities[step.t].snap;
    assert PcOk(s.shared, s.activities[step.t]);
    if step.SendCommit? {
      SendKeeps(s, W.Commit(ME, snap.slot.value.at, step.now));
    } else {
      SendKeeps(s, W.Release(ME, snap.slot.value.at, step.now));
    }
  }

  lemma SampledKeeps(s: State, now: int)
    requires Inv(s)
    ensures Inv(With(s, Sampled(s.shared, now)))
  {
    var g' := Sampled(s.shared, now);
    forall t | t in s.activities ensures PcOk(g', s.activities[t]) { assert PcOk(s.shared, s.activities[t]); }
    forall w | w in s.issued ensures WriteOk(g', w) { assert WriteOk(s.shared, w); }
    forall op | op in s.walletIssued ensures WalletOpOk(g', op) { assert WalletOpOk(s.shared, op); }
  }

  lemma SlotReturnsKeeps(s: State, step: SlotStep)
    requires Inv(s) && SlotEnabled(s, step) && (step.CommitReturns? || step.ReleaseReturns?)
    ensures Inv(SlotNext(s, step))
  {
    var snap := s.activities[step.t].snap;
    assert PcOk(s.shared, s.activities[step.t]);
    if step.CommitReturns? {
      SampledKeeps(s, step.now);
      MoveOnKeeps(With(s, Sampled(s.shared, step.now)), step.t, Some(Finalizing(snap)));
    } else {
      MoveOnKeeps(s, step.t, Some(Marking(snap)));
    }
  }

  /** The closing writes of a request or a resume. */
  lemma RequestEndKeeps(s: State, step: SlotStep)
    requires Inv(s) && SlotEnabled(s, step) && (step.WriteFinal? || step.WriteReleased? || step.ResumeJob?)
    ensures Inv(SlotNext(s, step))
  {
    var t := step.t;
    var pc := s.activities[t];
    assert PcOk(s.shared, pc);
    match step
    case WriteFinal(_, now, acked) => WriteThenKeeps(s, t, Some(pc.snap), FinalizeCommit(now), acked, None);
    case WriteReleased(_, now, acked) => WriteThenKeeps(s, t, Some(pc.snap), MarkReleased(now), acked, None);
    case ResumeJob(_, authorized, now, acked) => WriteThenKeeps(s, t, pc.seen, Requeue(authorized, now), acked, None);
  }

  // ----- workers -------------------------------------------------------------------------------------

  lemma SpawnKeeps(s: State, t: Tid, owner: Owner)
    requires Inv(s) && WorkerEnabled(s, Spawn(t, owner))
    ensures Inv(WorkerNext(s, Spawn(t, owner)))
  {
    var g' := Drawn(s.shared, owner);
    forall u | u in s.activities ensures PcOk(g', s.activities[u]) && OwnerOf(s.activities[u]) != Some(owner) {
      assert PcOk(s.shared, s.activities[u]);
    }
    forall w | w in s.issued ensures WriteOk(g', w) { assert WriteOk(s.shared, w); }
    forall op | op in s.walletIssued ensures WalletOpOk(g', op) { assert WalletOpOk(s.shared, op); }
    MoveKeeps(s, t, g', Driving(owner, 0, None));
  }

  lemma CountedKeeps(s: State, t: Tid, owner: Owner, calls: nat, pc: Pc, s': State)
    requires s' == SetPc(With(s, CountedProvider(s.shared, owner, calls)), t, pc)
    requires Inv(s) && At(s, t) && OwnerOf(s.activities[t]) == Some(owner)
    requires owner in s.shared.history.runs && calls <= PROVIDER_CALLS
    requires pc.Working? && pc.owner == owner && pc.calls == calls
    requires SnapOk(s.shared, pc.snap) && LeasedTo(pc.snap, owner) && owner !in s.shared.puts
    ensures Inv(s')
  {
    var g' := CountedProvider(s.shared, owner, calls);
    forall u | u in s.activities && u != t ensures PcOk(g', s.activities[u]) {
      assert PcOk(s.shared, s.activities[u]) && Apart(s.activities[t], s.activities[u]);
    }
    forall w | w in s.issued ensures WriteOk(g', w) { assert WriteOk(s.shared, w); }
    forall op | op in s.walletIssued ensures WalletOpOk(g', op) { assert WalletOpOk(s.shared, op); }
    forall u | u in s.activities && u != t ensures Apart(pc, s.activities[u]) && Apart(s.activities[u], pc) {
      assert Apart(s.activities[t], s.activities[u]) && Apart(s.activities[u], s.activities[t]);
    }
    MoveKeeps(s, t, g', pc);
  }

  lemma DriveKeeps(s: State, t: Tid)
    requires Inv(s) && WorkerEnabled(s, Drive(t))
    ensures Inv(WorkerNext(s, Drive(t)))
  {
    var pc := s.activities[t];
    assert PcOk(s.shared, pc);
    MoveOnKeeps(s, t, Some(Driving(pc.owner, pc.drives, s.shared.job)));
  }

  lemma AdoptKeeps(s: State, t: Tid)
    requires Inv(s) && WorkerEnabled(s, Adopt(t))
    ensures Inv(WorkerNext(s, Adopt(t)))
  {
    var pc := s.activities[t];
    assert PcOk(s.shared, pc);
    CountedKeeps(s, t, pc.owner, 0, Working(pc.seen.value, pc.owner, false, 0), WorkerNext(s, Adopt(t)));
  }

  lemma WorkingKnows(s: State, t: Tid)
    requires Inv(s) && At(s, t) && s.activities[t].Working?
    ensures
      var pc := s.activities[t];
      && SnapOk(s.shared, pc.snap) && LeasedTo(pc.snap, pc.owner)
      && pc.owner in s.shared.history.runs && pc.owner !in s.shared.puts
  {
    assert PcOk(s.shared, s.activities[t]);
  }

  lemma CallProviderKeeps(s: State, t: Tid)
    requires Inv(s) && WorkerEnabled(s, CallProvider(t))
    ensures Inv(WorkerNext(s, CallProvider(t)))
  {
    var pc := s.activities[t];
    WorkingKnows(s, t);
    CountedKeeps(s, t, pc.owner, pc.calls + 1, Working(pc.snap, pc.owner, pc.leaseLost, pc.calls + 1),
                 WorkerNext(s, CallProvider(t)));
  }

  lemma ClaimAckedKeeps(s: State, t: Tid, now: int)
    requires Inv(s) && WorkerEnabled(s, ClaimExecution(t, now, true))
    ensures Inv(WorkerNext(s, ClaimExecution(t, now, true)))
  {
    assert PcOk(s.shared, s.activities[t]);
    var owner, seen := s.activities[t].owner, s.activities[t].seen;
    var c := ClaimRun(owner, now);
    PutKeeps(s, seen, c, true);
    var s' := Put(s, seen, c, true);
    assert s'.shared.history.runs[|s'.shared.history.runs| - 1] == owner;
    CountedKeeps(s', t, owner, 0, Working(Changed(seen, c), owner, false, 0),
                 WorkerNext(s, ClaimExecution(t, now, true)));
  }

  lemma ClaimLostKeeps(s: State, t: Tid, now: int)
    requires Inv(s) && WorkerEnabled(s, ClaimExecution(t, now, false))
    ensures Inv(WorkerNext(s, ClaimExecution(t, now, false)))
  {
    assert PcOk(s.shared, s.activities[t]);
    var pc := s.activities[t];
    WriteThenKeeps(s, t, pc.seen, ClaimRun(pc.owner, now), false, Some(Driving(pc.owner, pc.drives + 1, None)));
  }

  lemma HeartbeatKeeps(s: State, step: WorkerStep)
    requires Inv(s) && WorkerEnabled(s, step) && step.Heartbeat?
    ensures Inv(WorkerNext(s, step))
  {
    var t, acked := step.t, step.acked;
    var pc := s.activities[t];
    assert PcOk(s.shared, pc);
    var c := Beat(pc.owner, step.now);
    PutKeeps(s, Some(pc.snap), c, acked);
    var next := if acked then Working(Changed(Some(pc.snap), c), pc.owner, false, pc.calls)
                else Working(pc.snap, pc.owner, true, pc.calls);
    WriteThenKeeps(s, t, Some(pc.snap), c, acked, Some(next));
  }

  lemma FenceKeeps(s: State, step: WorkerStep)
    requires Inv(s) && WorkerEnabled(s, step) && step.Fence?
    ensures Inv(WorkerNext(s, step))
  {
    var t, acked := step.t, step.acked;
    var pc := s.activities[t];
    assert PcOk(s.shared, pc);
    var c := Beat(pc.owner, step.now);
    PutKeeps(s, Some(pc.snap), c, acked);
    WriteThenKeeps(s, t, Some(pc.snap), c, acked,
                   if acked then Some(Fenced(Changed(Some(pc.snap), c), pc.owner, step.report)) else None);
  }

  /** The first report sent under an owner's key notices nobody else. */
  lemma SentUnnoticed(s: State, t: Tid, arrived: bool)
    requires Inv(s) && At(s, t) && s.activities[t].Fenced?
    ensures
      var pc := s.activities[t];
      var sent := Sent(s.shared, pc.owner, pc.report);
      Unnoticed(s, t, if arrived then Arrived(sent, pc.owner) else sent)
  {
    var pc := s.activities[t];
    var sent := Sent(s.shared, pc.owner, pc.report);
    var g' := if arrived then Arrived(sent, pc.owner) else sent;
    assert PcOk(s.shared, pc);
    forall u | u in s.activities && u != t ensures PcOk(g', s.activities[u]) {
      assert PcOk(s.shared, s.activities[u]) && Apart(pc, s.activities[u]);
    }
    forall w | w in s.issued ensures WriteOk(g', w) { assert WriteOk(s.shared, w); }
    forall op | op in s.walletIssued ensures WalletOpOk(g', op) { assert WalletOpOk(s.shared, op); }
  }

  lemma PutReportKeeps(s: State, step: WorkerStep)
    requires Inv(s) && step.PutReport? && WorkerEnabled(s, step)
    ensures Inv(WorkerNext(s, step))
  {
    var t := step.t;
    assert PcOk(s.shared, s.activities[t]);
    SentUnnoticed(s, t, step.acked);
    match s.activities[t]
    case Fenced(snap, owner, report) =>
      var sent := Sent(s.shared, owner, report);
      if step.acked {
        MoveKeeps(s, t, Arrived(sent, owner), Stored(snap, owner));
      } else {
        MoveKeeps(s, t, sent, PutFailed(snap, owner));
      }
  }

  lemma WorkerEndKeeps(s: State, step: WorkerStep)
    requires Inv(s) && WorkerEnabled(s, step) && (step.FailExecution? || step.WriteSuccess?)
    ensures Inv(WorkerNext(s, step))
  {
    var t := step.t;
    var pc := s.activities[t];
    assert PcOk(s.shared, pc);
    match step
    case FailExecution(_, code, transient, now, acked) =>
      WriteThenKeeps(s, t, Some(pc.snap), FailRun(pc.owner, code, transient, now), acked, None);
    case WriteSuccess(_, now, acked) => WriteThenKeeps(s, t, Some(pc.snap), Succeed(pc.owner, now), acked, None);
  }

  // ----- the rest of the world --------------------------------------------------------------------------

  lemma LateReportKeeps(s: State, owner: Owner)
    requires Inv(s) && owner in s.shared.puts
    ensures Inv(With(s, Arrived(s.shared, owner)))
  {
    var g' := Arrived(s.shared, owner);
    forall t | t in s.activities ensures PcOk(g', s.activities[t]) { assert PcOk(s.shared, s.activities[t]); }
    forall w | w in s.issued ensures WriteOk(g', w) { assert WriteOk(s.shared, w); }
    forall op | op in s.walletIssued ensures WalletOpOk(g', op) { assert WalletOpOk(s.shared, op); }
  }

  lemma WorldKeeps(s: State, step: WorldStep)
    requires Inv(s) && WorldEnabled(s, step)
    requires step.LateWrite? || step.LateReport? || step.LateWallet? || step.OtherWallet? || step.Stop?
    ensures Inv(WorldNext(s, step))
  {
    match step
    case LateWrite(w) => LandKeeps(s, w);
    case LateReport(owner) => LateReportKeeps(s, owner);
    case LateWallet(op) => WalletKeeps(s, op);
    case OtherWallet(op) => WalletKeeps(s, op);
    case Stop(t) => MoveOnKeeps(s, t, None);
  }

  // ----- all steps -----------------------------------------------------------------------------------------

  lemma PaymentStepKeeps(s: State, step: PaymentStep)
    requires Inv(s) && PaymentEnabled(s, step)
    ensures Inv(PaymentNext(s, step))
  {
    if step.Observe? { MoveOnKeeps(s, step.t, Some(Observed(s.shared.job))); }
    else if step.Admit? { AdmitKeeps(s, step); }
    else if step.LoseReserve? { SendKeeps(s, W.Reserve(ME, step.at)); }
    else if step.CreateJob? || step.CreateWithoutSlot? || step.ClaimJob? { CreateKeeps(s, step); }
    else if step.CallSettle? { CallSettleKeeps(s, step.t); }
    else if step.AnswerSettled? || step.AnswerRejected? { SettlementKeeps(s, step); }
    else if step.AnswerPending? { AnswerPendingKeeps(s, step.t, step.ref); }
    else if step.WritePending? { WritePendingKeeps(s, step); }
    else { LostPendingKeeps(s, step); }
  }

  lemma SlotStepKeeps(s: State, step: SlotStep)
    requires Inv(s) && SlotEnabled(s, step)
    ensures Inv(SlotNext(s, step))
  {
    if step.Reconcile? { ReconcileKeeps(s, step.t); }
    else if step.SendCommit? || step.SendRelease? { SendSlotKeeps(s, step); }
    else if step.CommitReturns? || step.ReleaseReturns? { SlotReturnsKeeps(s, step); }
    else { RequestEndKeeps(s, step); }
  }

  lemma WorkerStepKeeps(s: State, step: WorkerStep)
    requires Inv(s) && WorkerEnabled(s, step)
    ensures Inv(WorkerNext(s, step))
  {
    if step.Spawn? { SpawnKeeps(s, step.t, step.owner); }
    else if step.Drive? { DriveKeeps(s, step.t); }
    else if step.Adopt? { AdoptKeeps(s, step.t); }
    else if step.CallProvider? { CallProviderKeeps(s, step.t); }
    else if step.ClaimExecution? {
      if step.acked { ClaimAckedKeeps(s, step.t, step.now); } else { ClaimLostKeeps(s, step.t, step.now); }
    }
    else if step.Heartbeat? { HeartbeatKeeps(s, step); }
    else if step.Fence? { FenceKeeps(s, step); }
    else if step.PutReport? { PutReportKeeps(s, step); }
    else { WorkerEndKeeps(s, step); }
  }

  /** Every step of every interleaving keeps the invariant. */
  lemma StepKeeps(s: State, step: Step)
    requires Inv(s) && Enabled(s, step)
    ensures Inv(Next(s, step))
  {
    match step
    case Payment(x) => PaymentStepKeeps(s, x);
    case Slots(x) => SlotStepKeeps(s, x);
    case Worker(x) => WorkerStepKeeps(s, x);
    case World(x) => WorldKeeps(s, x);
  }

  /** The invariant holds in every reachable state. */
  lemma {:induction false} RunKeeps(s: State, steps: seq<Step>)
    requires Inv(s) && Executes(s, steps)
    ensures Inv(Exec(s, steps))
    decreases |steps|
  {
    if steps != [] {
      StepKeeps(s, steps[0]);
      RunKeeps(Next(s, steps[0]), steps[1..]);
    }
  }

  // ----- composing runs -----------------------------------------------------------------------------------

  ghost predicate Leads(s: State, s': State) {
    exists steps :: Executes(s, steps) && Exec(s, steps) == s'
  }

  lemma LeadsStep(s: State, step: Step)
    requires Enabled(s, step)
    ensures Leads(s, Next(s, step))
  {
    assert [step][1..] == [];
    LeadsSame(Next(s, step));
    assert Executes(Next(s, step), []) && Exec(Next(s, step), []) == Next(s, step);
    assert Executes(s, [step]) && Exec(s, [step]) == Next(s, step);
  }

  lemma {:induction false} ExecAppend(s: State, a: seq<Step>, b: seq<Step>)
    requires Executes(s, a) && Executes(Exec(s, a), b)
    ensures Executes(s, a + b) && Exec(s, a + b) == Exec(Exec(s, a), b)
    decreases |a|
  {
    if a == [] {
      assert a + b == b;
    } else {
      ExecAppend(Next(s, a[0]), a[1..], b);
      assert (a + b)[1..] == a[1..] + b;
    }
  }

  lemma LeadsOn(s: State, s': State, s'': State)
    requires Leads(s, s') && Leads(s', s'')
    ensures Leads(s, s'')
  {
    var a :| Executes(s, a) && Exec(s, a) == s';
    var b :| Executes(s', b) && Exec(s', b) == s'';
    ExecAppend(s, a, b);
  }

  lemma LeadsNext(s: State, s': State, step: Step)
    requires Leads(s, s') && Enabled(s', step)
    ensures Leads(s, Next(s', step))
  {
    LeadsStep(s', step);
    LeadsOn(s, s', Next(s', step));
  }

  lemma LeadsSame(s: State)
    ensures Leads(s, s)
  {
    assert Executes(s, []) && Exec(s, []) == s;
  }
}
