/**
 What the paid-job protocol promises over whole runs. A reachable state is the end of a
 run from INITIAL; JobSteps.RunKeeps puts the invariant at every one of them.
 */
module JobTheorems {
  import opened Wrappers
  import opened JobRecord
  import opened JobProtocol
  import opened JobInvariant
  import opened JobSteps
  import W = WalletWindow

  // ----- one step of the record -----------------------------------------------------------------

  ghost predicate Evolves(before: Option<Job>, after: Option<Job>) {
    before == after || exists c :: Attempts(before, c) && after == Some(Changed(before, c))
  }

  lemma PutEvolves(s: State, before: Option<Job>, c: Change, acked: bool)
    requires CanWrite(s, before, c, acked)
    ensures Evolves(s.shared.job, Put(s, before, c, acked).shared.job)
  {
  }

  lemma PaymentEvolves(s: State, step: PaymentStep)
    requires PaymentEnabled(s, step)
    ensures Evolves(s.shared.job, PaymentNext(s, step).shared.job)
  {
    match step
    case CreateJob(t, owner, acked) =>
      var pc := s.activities[t];
      PutEvolves(s, None, Create(pc.now, owner, Some(pc.at)), acked);
    case CreateWithoutSlot(t, now, owner, acked) => PutEvolves(s, None, Create(now, owner, None), acked);
    case ClaimJob(t, now, owner, acked) => PutEvolves(s, s.activities[t].seen, ClaimSettlement(now, owner), acked);
    case AnswerSettled(t, ref, owner, settledNow, leaseNow, now, acked) =>
      PutEvolves(s, Some(s.activities[t].snap), Settle(ref, owner, settledNow, leaseNow, now), acked);
    case AnswerRejected(t, now, acked) => PutEvolves(s, Some(s.activities[t].snap), FailPayment(now), acked);
    case WritePending(t, now, acked) =>
      PutEvolves(s, Some(s.activities[t].snap), PersistPending(s.activities[t].ref, now), acked);
    case _ =>
  }

  lemma SlotEvolves(s: State, step: SlotStep)
    requires SlotEnabled(s, step)
    ensures Evolves(s.shared.job, SlotNext(s, step).shared.job)
  {
    match step
    case WriteFinal(t, now, acked) => PutEvolves(s, Some(s.activities[t].snap), FinalizeCommit(now), acked);
    case WriteReleased(t, now, acked) => PutEvolves(s, Some(s.activities[t].snap), MarkReleased(now), acked);
    case ResumeJob(t, authorized, now, acked) => PutEvolves(s, s.activities[t].seen, Requeue(authorized, now), acked);
    case _ =>
  }

  lemma WorkerEvolves(s: State, step: WorkerStep)
    requires WorkerEnabled(s, step)
    ensures Evolves(s.shared.job, WorkerNext(s, step).shared.job)
  {
    match step
    case ClaimExecution(t, now, acked) =>
      PutEvolves(s, s.activities[t].seen, ClaimRun(s.activities[t].owner, now), acked);
    case Heartbeat(t, now, acked) =>
      PutEvolves(s, Some(s.activities[t].snap), Beat(s.activities[t].owner, now), acked);
    case FailExecution(t, code, transient, now, acked) =>
      PutEvolves(s, Some(s.activities[t].snap), FailRun(s.activities[t].owner, code, transient, now), acked);
    case Fence(t, report, now, acked) =>
      PutEvolves(s, Some(s.activities[t].snap), Beat(s.activities[t].owner, now), acked);
    case WriteSuccess(t, now, acked) =>
      PutEvolves(s, Some(s.activities[t].snap), Succeed(s.activities[t].owner, now), acked);
    case _ =>
  }

  lemma StepEvolves(s: State, step: Step)
    requires Enabled(s, step)
    ensures Evolves(s.shared.job, Next(s, step).shared.job)
  {
    match step
    case Payment(x) => PaymentEvolves(s, x);
    case Slots(x) => SlotEvolves(s, x);
    case Worker(x) => WorkerEvolves(s, x);
    case World(x) =>
      if x.LateWrite? { assert Attempts(s.shared.job, x.w.change); }
  }

  // ----- payment ------------------------------------------------------------------------------------

  lemma StepPrecedes(s: State, step: Step)
    requires Inv(s) && Enabled(s, step) && s.shared.job.Some?
    ensures Next(s, step).shared.job.Some? && Precedes(s.shared.job.value, Next(s, step).shared.job.value)
  {
    StepEvolves(s, step);
    EvolvedPrecedes(s.shared.job, Next(s, step).shared.job);
  }

  lemma EvolvedPrecedes(before: Option<Job>, after: Option<Job>)
    requires Evolves(before, after) && before.Some? && Consistent(before.value)
    ensures after.Some? && Precedes(before.value, after.value)
  {
    if before != after {
      var c :| Attempts(before, c) && after == Some(Changed(before, c));
      ChangeKeeps(before, c);
    }
  }

  /**
   Over any continuation of any run nothing the record says is taken back: a settled or
   failed payment stays so, attempts never fall, a committed or released slot stays so,
   and a finished record stays what it is.
   */
  lemma {:induction false} RecordNeverTakenBack(s: State, more: seq<Step>)
    requires Inv(s) && Executes(s, more) && s.shared.job.Some?
    ensures Exec(s, more).shared.job.Some?
    ensures Precedes(s.shared.job.value, Exec(s, more).shared.job.value)
    decreases |more|
  {
    if more != [] {
      var s' := Next(s, more[0]);
      StepKeeps(s, more[0]);
      StepPrecedes(s, more[0]);
      RecordNeverTakenBack(s', more[1..]);
      PrecedesTransitive(s.shared.job.value, s'.shared.job.value, Exec(s, more).shared.job.value);
    }
  }

  /** In every run, paymentStatus goes from settling to settled or to failed and stays there. */
  lemma PaymentIsFinal(past: seq<Step>, more: seq<Step>)
    requires Executes(INITIAL, past) && Executes(Exec(INITIAL, past), more)
    ensures
      var before := Exec(INITIAL, past).shared.job;
      var after := Exec(Exec(INITIAL, past), more).shared.job;
      before.Some? && before.value.payment != PaymentSettling ==>
        after.Some? && after.value.payment == before.value.payment
  {
    InitialOk();
    RunKeeps(INITIAL, past);
    if Exec(INITIAL, past).shared.job.Some? {
      RecordNeverTakenBack(Exec(INITIAL, past), more);
    }
  }

  /** A job is first stored with its payment settling, by a create write. */
  lemma PaymentStartsSettling(past: seq<Step>, step: Step)
    requires Executes(INITIAL, past) && Enabled(Exec(INITIAL, past), step)
    requires Exec(INITIAL, past).shared.job.None? && Next(Exec(INITIAL, past), step).shared.job.Some?
    ensures BothSettling(Next(Exec(INITIAL, past), step).shared.job.value)
  {
    StepEvolves(Exec(INITIAL, past), step);
  }

  /** No analysis starts unpaid: a provider call is made only while the payment is settled for good. */
  lemma NoUnpaidAnalysis(past: seq<Step>, t: Tid)
    requires Executes(INITIAL, past) && Enabled(Exec(INITIAL, past), Worker(CallProvider(t)))
    ensures var job := Exec(INITIAL, past).shared.job; job.Some? && job.value.payment == PaymentSettled
  {
    InitialOk();
    RunKeeps(INITIAL, past);
    var s := Exec(INITIAL, past);
    assert PcOk(s.shared, s.activities[t]);
  }

  /** Every stored job that is queued, running, succeeded or may be retried has been paid for. */
  lemma ServedJobsArePaid(past: seq<Step>)
    requires Executes(INITIAL, past) && Exec(INITIAL, past).shared.job.Some?
    ensures
      var j := Exec(INITIAL, past).shared.job.value;
      j.status in {Queued, Running, Succeeded} || RetryableFailure(j) ==> j.payment == PaymentSettled
  {
    InitialOk();
    RunKeeps(INITIAL, past);
  }

  // ----- settlement calls ---------------------------------------------------------------------------

  /** An acknowledged create or claim write of `t` that carries this sample. */
  predicate OwnClaim(s: State, step: Step, t: Tid, sample: int) {
    step.Payment?
    && match step.payment
       case CreateJob(u, _, acked) =>
         u == t && acked && At(s, t) && s.activities[t].Admitted? && s.activities[t].now == sample
       case CreateWithoutSlot(u, now, _, acked) => u == t && acked && now == sample
       case ClaimJob(u, now, _, acked) => u == t && acked && now == sample
       case _ => false
  }

  /** Step `k` was the claim of `t`, it stored `snap`, and `t` has taken no step since. */
  ghost predicate ClaimedAt(s: State, steps: seq<Step>, k: nat, t: Tid, snap: Job, sample: int)
    requires Executes(s, steps)
  {
    && k < |steps|
    && OwnClaim(StateAt(s, steps, k), steps[k], t, sample)
    && StateAt(s, steps, k + 1).shared.job == Some(snap)
    && forall i :: k < i < |steps| ==> Actor(steps[i]) != Some(t)
  }

  lemma OnlyActorMoves(s: State, step: Step, t: Tid)
    requires Enabled(s, step) && Actor(step) != Some(t)
    ensures At(Next(s, step), t) <==> At(s, t)
    ensures At(s, t) ==> Next(s, step).activities[t] == s.activities[t]
  {
    match step
    case Payment(x) =>
    case Slots(x) =>
    case Worker(x) =>
    case World(x) =>
  }

  lemma ClaimedByClaim(s: State, step: Step, t: Tid)
    requires Enabled(s, step) && Actor(step) == Some(t) && At(Next(s, step), t)
    requires Next(s, step).activities[t].Claimed?
    ensures OwnClaim(s, step, t, Next(s, step).activities[t].sample)
    ensures Next(s, step).shared.job == Some(Next(s, step).activities[t].snap)
  {
    match step
    case Payment(x) =>
    case Slots(x) =>
    case Worker(x) =>
    case World(x) =>
  }

  lemma {:induction false} ClaimedSince(s: State, steps: seq<Step>, t: Tid)
    requires Executes(s, steps) && At(Exec(s, steps), t) && Exec(s, steps).activities[t].Claimed?
    ensures
      var pc := Exec(s, steps).activities[t];
      || (exists k: nat :: ClaimedAt(s, steps, k, t, pc.snap, pc.sample))
      || (At(s, t) && s.activities[t] == pc && forall i :: 0 <= i < |steps| ==> Actor(steps[i]) != Some(t))
    decreases |steps|
  {
    if steps != [] {
      var s1, rest := Next(s, steps[0]), steps[1..];
      var pc := Exec(s, steps).activities[t];
      ClaimedSince(s1, rest, t);
      if k: nat :| ClaimedAt(s1, rest, k, t, pc.snap, pc.sample) {
        forall i | k + 1 < i < |steps| ensures Actor(steps[i]) != Some(t) { assert steps[i] == rest[i - 1]; }
        assert ClaimedAt(s, steps, k + 1, t, pc.snap, pc.sample);
      } else {
        forall i | 0 < i < |steps| ensures Actor(steps[i]) != Some(t) { assert steps[i] == rest[i - 1]; }
        if Actor(steps[0]) == Some(t) {
          ClaimedByClaim(s, steps[0], t);
          assert StateAt(s, steps, 1) == s1;
          assert ClaimedAt(s, steps, 0, t, pc.snap, pc.sample);
        } else {
          OnlyActorMoves(s, steps[0], t);
        }
      }
    }
  }

  /**
   In every run a request calls the facilitator only if the last thing it did was a create
   or claim write of its own that was acknowledged, that stored a record with both statuses
   settling, and whose sample no earlier call has used.
   */
  lemma SettlesUnderOwnClaim(past: seq<Step>, t: Tid)
    requires Executes(INITIAL, past) && Enabled(Exec(INITIAL, past), Payment(CallSettle(t)))
    ensures
      var s := Exec(INITIAL, past);
      var pc := s.activities[t];
      && (exists k: nat :: ClaimedAt(INITIAL, past, k, t, pc.snap, pc.sample))
      && BothSettling(pc.snap) && pc.sample in s.shared.history.claims && pc.sample !in s.shared.history.calls
  {
    InitialOk();
    RunKeeps(INITIAL, past);
    assert PcOk(Exec(INITIAL, past).shared, Exec(INITIAL, past).activities[t]);
    ClaimedSince(INITIAL, past, t);
  }

  /** A create or claim write of `t`, acknowledged or not. */
  predicate ClaimStep(step: Step, t: Tid) {
    step.Payment? && Actor(step) == Some(t)
    && (step.payment.CreateJob? || step.payment.CreateWithoutSlot? || step.payment.ClaimJob?)
  }

  /**
   After a create or claim write that was not acknowledged, whether or not it lands, no call
   of the facilitator follows in any run unless the request claims again and is told so.
   */
  lemma LostClaimNeverSettles(past: seq<Step>, lost: nat, t: Tid)
    requires Executes(INITIAL, past) && lost < |past|
    requires ClaimStep(past[lost], t) && !past[lost].payment.acked
    requires forall i :: lost < i < |past| && ClaimStep(past[i], t) ==> !past[i].payment.acked
    ensures !Enabled(Exec(INITIAL, past), Payment(CallSettle(t)))
  {
    if Enabled(Exec(INITIAL, past), Payment(CallSettle(t))) {
      SettlesUnderOwnClaim(past, t);
    }
  }

  /** The sample of a create or claim write that lands in this step, acknowledged or late. */
  function LandedClaim(s: State, step: Step): Option<int> {
    match step
    case Payment(CreateJob(t, _, acked)) =>
      if acked && At(s, t) && s.activities[t].Admitted? then Some(s.activities[t].now) else None
    case Payment(CreateWithoutSlot(_, now, _, acked)) => if acked then Some(now) else None
    case Payment(ClaimJob(_, now, _, acked)) => if acked then Some(now) else None
    case World(LateWrite(w)) => if w.change.Create? || w.change.ClaimSettlement? then Some(w.change.now) else None
    case _ => None
  }

  function WithClaim(claims: seq<int>, landed: Option<int>): seq<int> {
    claims + if landed.Some? then [landed.value] else []
  }

  lemma PaymentClaimsGrow(s: State, step: PaymentStep)
    requires PaymentEnabled(s, step)
    ensures PaymentNext(s, step).shared.history.claims ==
      WithClaim(s.shared.history.claims, LandedClaim(s, Payment(step)))
  {
  }

  lemma SlotClaimsStay(s: State, step: SlotStep)
    requires SlotEnabled(s, step)
    ensures SlotNext(s, step).shared.history.claims == s.shared.history.claims
  {
  }

  lemma WorkerClaimsStay(s: State, step: WorkerStep)
    requires WorkerEnabled(s, step)
    ensures WorkerNext(s, step).shared.history.claims == s.shared.history.claims
  {
  }

  lemma ClaimsGrow(s: State, step: Step)
    requires Enabled(s, step)
    ensures Next(s, step).shared.history.claims == WithClaim(s.shared.history.claims, LandedClaim(s, step))
  {
    match step
    case Payment(x) => PaymentClaimsGrow(s, x);
    case Slots(x) => SlotClaimsStay(s, x);
    case Worker(x) => WorkerClaimsStay(s, x);
    case World(x) =>
  }

  lemma LandedIsRecorded(s: State, step: Step)
    requires Enabled(s, step) && LandedClaim(s, step).Some?
    ensures LandedClaim(s, step).value in Next(s, step).shared.history.claims
  {
    ClaimsGrow(s, step);
    var claims := Next(s, step).shared.history.claims;
    assert claims[|claims| - 1] == LandedClaim(s, step).value;
  }

  lemma {:induction false} NextClaimIsLater(s: State, steps: seq<Step>, first: int, k: nat)
    requires Inv(s) && Executes(s, steps) && k < |steps| && first in s.shared.history.claims
    requires LandedClaim(StateAt(s, steps, k), steps[k]).Some?
    ensures LandedClaim(StateAt(s, steps, k), steps[k]).value - first >= LEASE
    decreases |steps|
  {
    var s1 := Next(s, steps[0]);
    StepKeeps(s, steps[0]);
    ClaimsGrow(s, steps[0]);
    var claims, claims1 := s.shared.history.claims, s1.shared.history.claims;
    var i :| 0 <= i < |claims| && claims[i] == first;
    assert claims1[i] == first;
    if k == 0 {
      assert claims1[|claims1| - 1] - claims1[i] >= LEASE;
    } else {
      NextClaimIsLater(s1, steps[1..], first, k - 1);
    }
  }

  lemma {:induction false} ClaimsLandApartFrom(s: State, steps: seq<Step>, i: nat, k: nat)
    requires Inv(s) && Executes(s, steps) && i < k < |steps|
    requires LandedClaim(StateAt(s, steps, i), steps[i]).Some? && LandedClaim(StateAt(s, steps, k), steps[k]).Some?
    ensures LandedClaim(StateAt(s, steps, k), steps[k]).value - LandedClaim(StateAt(s, steps, i), steps[i]).value >= LEASE
    decreases |steps|
  {
    var s1 := Next(s, steps[0]);
    StepKeeps(s, steps[0]);
    if i == 0 {
      LandedIsRecorded(s, steps[0]);
      NextClaimIsLater(s1, steps[1..], LandedClaim(s, steps[0]).value, k - 1);
    } else {
      ClaimsLandApartFrom(s1, steps[1..], i - 1, k - 1);
    }
  }

  /** In every run, any two create or claim writes that land carry samples at least 120,000 ms apart, in their order. */
  lemma ClaimsLandApart(past: seq<Step>, i: nat, k: nat)
    requires Executes(INITIAL, past) && i < k < |past|
    requires LandedClaim(StateAt(INITIAL, past, i), past[i]).Some?
    requires LandedClaim(StateAt(INITIAL, past, k), past[k]).Some?
    ensures
      LandedClaim(StateAt(INITIAL, past, k), past[k]).value - LandedClaim(StateAt(INITIAL, past, i), past[i]).value >= LEASE
  {
    InitialOk();
    ClaimsLandApartFrom(INITIAL, past, i, k);
  }

  lemma ClaimsApart(g: Shared, a: int, b: int)
    requires ClaimsOk(g) && a in g.history.claims && b in g.history.claims && a < b
    ensures b - a >= LEASE
  {
    var claims := g.history.claims;
    var i :| 0 <= i < |claims| && claims[i] == a;
    var k :| 0 <= k < |claims| && claims[k] == b;
  }

  /**
   Two settlement calls of one job never overlap: if each starts within `grace` of its
   claim's clock sample and lasts at most LEASE - grace, one ends before the other starts.
   */
  lemma SettlementCallsNeverOverlap(past: seq<Step>, i: nat, k: nat, grace: int, startI: int, startK: int)
    requires Executes(INITIAL, past)
    requires i < |Exec(INITIAL, past).shared.history.calls| && k < |Exec(INITIAL, past).shared.history.calls| && i != k
    requires
      var calls := Exec(INITIAL, past).shared.history.calls;
      calls[i] <= startI <= calls[i] + grace && calls[k] <= startK <= calls[k] + grace
    ensures startI + (LEASE - grace) <= startK || startK + (LEASE - grace) <= startI
  {
    InitialOk();
    RunKeeps(INITIAL, past);
    var g := Exec(INITIAL, past).shared;
    var calls := g.history.calls;
    assert calls[i] in g.history.claims && calls[k] in g.history.claims && calls[i] != calls[k];
    if calls[i] < calls[k] {
      ClaimsApart(g, calls[i], calls[k]);
    } else {
      ClaimsApart(g, calls[k], calls[i]);
    }
  }

  // ----- the wallet slot -----------------------------------------------------------------------------

  /** A release lands only for a job whose payment durably failed, and only on that job's own slot. */
  lemma ReleasedOnlyForFailure(past: seq<Step>, op: W.Op)
    requires Executes(INITIAL, past) && op.Release? && op.id == ME
    requires Enabled(Exec(INITIAL, past), World(LateWallet(op)))
    ensures
      var job := Exec(INITIAL, past).shared.job;
      job.Some? && job.value.payment == PaymentFailed && job.value.slot.Some? && job.value.slot.value.at == op.at
  {
    InitialOk();
    RunKeeps(INITIAL, past);
    assert WalletOpOk(Exec(INITIAL, past).shared, op);
  }

  /**
   Once a job is settled its wallet slot is in the wallet record at every later moment
   at which no wallet operation has found its hour over, and committed once the job says so.
   */
  lemma SettledSlotIsKept(past: seq<Step>, more: seq<Step>)
    requires Executes(INITIAL, past) && Executes(Exec(INITIAL, past), more)
    requires
      var job := Exec(INITIAL, past).shared.job;
      job.Some? && job.value.payment == PaymentSettled && job.value.slot.Some?
    ensures
      var slot := Exec(INITIAL, past).shared.job.value.slot.value;
      var g := Exec(Exec(INITIAL, past), more).shared;
      Unexpired(g, slot.at) ==>
        && W.HasSlot(g.wallet, ME, slot.at)
        && (slot.state == SlotCommitted ==> W.Entry(ME, slot.at, W.Committed) in g.wallet)
  {
    InitialOk();
    RunKeeps(INITIAL, past);
    RecordNeverTakenBack(Exec(INITIAL, past), more);
    RunKeeps(Exec(INITIAL, past), more);
  }

  /** A settled job's own copy of its slot reads "reserved" exactly while its status is "settling". */
  lemma ReservedExactlyWhileSettling(past: seq<Step>)
    requires Executes(INITIAL, past)
    requires
      var job := Exec(INITIAL, past).shared.job;
      job.Some? && job.value.payment == PaymentSettled && job.value.slot.Some?
    ensures
      var j := Exec(INITIAL, past).shared.job.value;
      j.slot.value.state == SlotReserved <==> j.status == Settling
  {
    InitialOk();
    RunKeeps(INITIAL, past);
  }

  // ----- executions -------------------------------------------------------------------------------------

  ghost function Total(m: map<Owner, nat>): nat
    decreases |m|
  {
    if m == map[] then 0
    else
      var o :| o in m;
      assert (m - {o}).Keys == m.Keys - {o};
      m[o] + Total(m - {o})
  }

  lemma {:induction false} TotalBound(m: map<Owner, nat>)
    requires forall o :: o in m ==> m[o] <= PROVIDER_CALLS
    ensures Total(m) <= PROVIDER_CALLS * |m|
    decreases |m|
  {
    if m != map[] {
      var o :| o in m && Total(m) == m[o] + Total(m - {o});
      assert (m - {o}).Keys == m.Keys - {o};
      assert |m - {o}| == |m| - 1;
      TotalBound(m - {o});
    }
  }

  lemma {:induction false} KeysAmong(keys: set<Owner>, runs: seq<Owner>)
    requires forall o :: o in keys ==> o in runs
    ensures |keys| <= |runs|
    decreases |runs|
  {
    if runs == [] {
      assert keys == {};
    } else {
      var rest := keys - {runs[0]};
      forall o | o in rest ensures o in runs[1..] {
        var i :| 0 <= i < |runs| && runs[i] == o;
        assert runs[1..][i - 1] == o;
      }
      KeysAmong(rest, runs[1..]);
      assert keys <= rest + {runs[0]};
      assert |keys| <= |rest| + 1 by {
        if runs[0] in keys { assert keys == rest + {runs[0]}; } else { assert keys == rest; }
      }
    }
  }

  /** Over all replicas, restarts and resumes: at most three claims land and nine provider calls are made. */
  lemma WorkIsBounded(past: seq<Step>)
    requires Executes(INITIAL, past)
    ensures
      var h := Exec(INITIAL, past).shared.history;
      |h.runs| <= MAX_ATTEMPTS && Total(h.provider) <= MAX_ATTEMPTS * PROVIDER_CALLS
  {
    InitialOk();
    RunKeeps(INITIAL, past);
    var h := Exec(INITIAL, past).shared.history;
    KeysAmong(h.provider.Keys, h.runs);
    TotalBound(h.provider);
    assert |h.provider| == |h.provider.Keys|;
  }

  /**
   A claim that landed although its worker saw an error is taken up by the same worker
   when it reads the record again, at the cost of exactly the one attempt that landed.
   */
  lemma LostClaimIsAdopted(s: State, t: Tid, w: Write)
    requires Inv(s) && At(s, t) && s.activities[t].Driving? && s.activities[t].drives < DRIVES
    requires w.change.ClaimRun? && w.change.owner == s.activities[t].owner
    requires Enabled(s, World(LateWrite(w)))
    ensures
      var steps := [World(LateWrite(w)), Worker(Drive(t)), Worker(Adopt(t))];
      && Executes(s, steps)
      && var s' := Exec(s, steps);
         && At(s', t) && s'.activities[t].Working? && s'.activities[t].owner == w.change.owner
         && s.shared.job.Some? && s'.shared.job.Some? && s'.shared.job.value.attempt == s.shared.job.value.attempt + 1
         && |s'.shared.history.runs| == |s.shared.history.runs| + 1
  {
    assert WriteOk(s.shared, w);
    var s1 := Next(s, World(LateWrite(w)));
    assert LeasedTo(s1.shared.job.value, w.change.owner);
    var s2 := Next(s1, Worker(Drive(t)));
    assert Enabled(s2, Worker(Adopt(t)));
    var s3 := Next(s2, Worker(Adopt(t)));
    assert Executes(s3, []) && Exec(s3, []) == s3;
    var last := [Worker(Adopt(t))];
    assert last[1..] == [];
    assert Executes(s2, last) && Exec(s2, last) == s3;
    var two := [Worker(Drive(t)), Worker(Adopt(t))];
    assert two[1..] == last;
    assert Executes(s1, two) && Exec(s1, two) == s3;
    assert [World(LateWrite(w)), Worker(Drive(t)), Worker(Adopt(t))][1..] == two;
  }

  /** A worker that got no answer to its claim keeps driving, and takes the claim up if it lands after all. */
  lemma LostClaimCostsOneAttempt(s: State, t: Tid, now: int)
    requires Inv(s) && At(s, t) && s.activities[t].Driving? && s.activities[t].drives + 1 < DRIVES
    requires Enabled(s, Worker(ClaimExecution(t, now, true)))
    ensures
      var w := Write(s.activities[t].seen, ClaimRun(s.activities[t].owner, now));
      var steps := [Worker(ClaimExecution(t, now, false)), World(LateWrite(w)), Worker(Drive(t)), Worker(Adopt(t))];
      && Executes(s, steps)
      && var s' := Exec(s, steps);
         && At(s', t) && s'.activities[t].Working? && s'.activities[t].owner == s.activities[t].owner
         && s.shared.job.Some? && s'.shared.job.Some? && s'.shared.job.value.attempt == s.shared.job.value.attempt + 1
         && |s'.shared.history.runs| == |s.shared.history.runs| + 1
  {
    var lost := Worker(ClaimExecution(t, now, false));
    var w := Write(s.activities[t].seen, ClaimRun(s.activities[t].owner, now));
    var s1 := Next(s, lost);
    StepKeeps(s, lost);
    LostClaimIsAdopted(s1, t, w);
    var rest := [World(LateWrite(w)), Worker(Drive(t)), Worker(Adopt(t))];
    assert ([lost] + rest)[1..] == rest;
    assert [lost, World(LateWrite(w)), Worker(Drive(t)), Worker(Adopt(t))] == [lost] + rest;
  }

  // ----- completion ----------------------------------------------------------------------------------------

  // The lease of an execution, once lost, is lost for good: the record only comes back to a
  // lease of `owner` through a claim, and a claim raises the attempt.

  /** The lease that `j` gives its owner is over: a later attempt has begun, or this one has ended. */
  predicate LeaseOver(j: Job, job: Option<Job>, owner: Owner) {
    job.Some? && (j.attempt < job.value.attempt || (j.attempt == job.value.attempt && !LeasedTo(job.value, owner)))
  }

  lemma {:induction false} LeaseStaysOver(s: State, more: seq<Step>, j: Job, owner: Owner)
    requires Inv(s) && Executes(s, more) && LeaseOver(j, s.shared.job, owner)
    ensures LeaseOver(j, Exec(s, more).shared.job, owner)
    decreases |more|
  {
    if more != [] {
      StepKeeps(s, more[0]);
      StepEvolves(s, more[0]);
      LeaseOverEvolves(s.shared.job, Next(s, more[0]).shared.job, j, owner);
      LeaseStaysOver(Next(s, more[0]), more[1..], j, owner);
    }
  }

  lemma LeaseOverEvolves(before: Option<Job>, after: Option<Job>, j: Job, owner: Owner)
    requires Evolves(before, after) && LeaseOver(j, before, owner) && Consistent(before.value)
    ensures LeaseOver(j, after, owner)
  {
    if before != after {
      var c :| Attempts(before, c) && after == Some(Changed(before, c));
      ChangeKeeps(before, c);
    }
  }

  lemma {:induction false} Split(s: State, steps: seq<Step>, k: nat)
    requires Inv(s) && Executes(s, steps) && k <= |steps|
    ensures Inv(StateAt(s, steps, k)) && Executes(StateAt(s, steps, k), steps[k..])
    ensures Exec(StateAt(s, steps, k), steps[k..]) == Exec(s, steps)
    decreases k
  {
    if k == 0 {
      assert steps[0..] == steps;
    } else {
      StepKeeps(s, steps[0]);
      Split(Next(s, steps[0]), steps[1..], k - 1);
      assert steps[1..][k - 1..] == steps[k..];
    }
  }

  lemma {:induction false} PrecedesLater(s: State, steps: seq<Step>, k: nat)
    requires Inv(s) && Executes(s, steps) && k <= |steps| && s.shared.job.Some?
    ensures StateAt(s, steps, k).shared.job.Some?
    ensures Precedes(s.shared.job.value, StateAt(s, steps, k).shared.job.value)
    decreases k
  {
    if k > 0 {
      var s1 := Next(s, steps[0]);
      StepKeeps(s, steps[0]);
      StepPrecedes(s, steps[0]);
      PrecedesLater(s1, steps[1..], k - 1);
      PrecedesTransitive(s.shared.job.value, s1.shared.job.value, StateAt(s, steps, k).shared.job.value);
    }
  }

  lemma {:induction false} RecordPrecedes(s: State, steps: seq<Step>, read: nat, lost: nat)
    requires Inv(s) && Executes(s, steps) && read <= lost <= |steps| && StateAt(s, steps, read).shared.job.Some?
    ensures StateAt(s, steps, lost).shared.job.Some?
    ensures Precedes(StateAt(s, steps, read).shared.job.value, StateAt(s, steps, lost).shared.job.value)
    decreases read
  {
    if read == 0 {
      PrecedesLater(s, steps, lost);
    } else {
      StepKeeps(s, steps[0]);
      RecordPrecedes(Next(s, steps[0]), steps[1..], read - 1, lost - 1);
    }
  }

  /**
   In every run: once the worker that read its own lease in a record has lost it, no heartbeat,
   failure or success write computed from that record is accepted any more, at once or late,
   even if the same owner were to hold a lease again.
   */
  lemma LostLeaseIsPowerless(past: seq<Step>, read: nat, lost: nat, w: Write)
    requires Executes(INITIAL, past) && read <= lost <= |past|
    requires w.change.Beat? || w.change.FailRun? || w.change.Succeed?
    requires StateAt(INITIAL, past, read).shared.job == w.before && Attempts(w.before, w.change)
    requires
      var job := StateAt(INITIAL, past, lost).shared.job;
      job.Some? && !LeasedTo(job.value, w.change.owner)
    ensures !CanWrite(Exec(INITIAL, past), w.before, w.change, true)
    ensures !Enabled(Exec(INITIAL, past), World(LateWrite(w)))
  {
    InitialOk();
    RecordPrecedes(INITIAL, past, read, lost);
    Split(INITIAL, past, lost);
    LeaseStaysOver(StateAt(INITIAL, past, lost), past[lost..], w.before.value, w.change.owner);
  }

  lemma PaymentLeavesReports(s: State, step: PaymentStep)
    requires PaymentEnabled(s, step)
    ensures PaymentNext(s, step).shared.puts == s.shared.puts
    ensures PaymentNext(s, step).shared.reports == s.shared.reports
  {
  }

  lemma SlotLeavesReports(s: State, step: SlotStep)
    requires SlotEnabled(s, step)
    ensures SlotNext(s, step).shared.puts == s.shared.puts
    ensures SlotNext(s, step).shared.reports == s.shared.reports
  {
  }

  lemma WorkerLeavesReport(s: State, step: WorkerStep, owner: Owner)
    requires Inv(s) && WorkerEnabled(s, step) && owner in s.shared.puts && owner in s.shared.reports
    ensures owner in WorkerNext(s, step).shared.puts
    ensures owner in WorkerNext(s, step).shared.reports
    ensures WorkerNext(s, step).shared.puts[owner] == s.shared.puts[owner]
    ensures WorkerNext(s, step).shared.reports[owner] == s.shared.reports[owner]
  {
    if step.PutReport? {
      assert PcOk(s.shared, s.activities[step.t]);
    }
  }

  lemma ReportStays(s: State, step: Step, owner: Owner)
    requires Inv(s) && Enabled(s, step) && ReportFixed(s.shared, owner)
    ensures ReportFixed(Next(s, step).shared, owner)
    ensures Next(s, step).shared.reports[owner] == s.shared.reports[owner]
  {
    match step
    case Payment(x) => PaymentLeavesReports(s, x);
    case Slots(x) => SlotLeavesReports(s, x);
    case Worker(x) => WorkerLeavesReport(s, x, owner);
    case World(x) =>
  }

  lemma FinishedRecordStays(s: State, step: Step)
    requires Inv(s) && Enabled(s, step)
    requires s.shared.job.Some? && s.shared.job.value.status == Succeeded
    ensures Next(s, step).shared.job == s.shared.job
  {
    StepEvolves(s, step);
    forall c | Attempts(s.shared.job, c) ensures Changed(s.shared.job, c) == s.shared.job.value {
      ChangeKeeps(s.shared.job, c);
    }
  }

  /**
   Fenced completion: once a job has succeeded, neither its record nor the report it
   refers to ever changes, whatever late writes and late report uploads still arrive.
   */
  lemma {:induction false} FinishedForever(s: State, more: seq<Step>, owner: Owner)
    requires Inv(s) && Executes(s, more)
    requires s.shared.job.Some? && s.shared.job.value.status == Succeeded
    requires s.shared.job.value.reportId == Some(owner)
    ensures ReportFixed(s.shared, owner) && ReportFixed(Exec(s, more).shared, owner)
    ensures Exec(s, more).shared.job == s.shared.job
    ensures Exec(s, more).shared.reports[owner] == s.shared.reports[owner]
    decreases |more|
  {
    if more != [] {
      StepKeeps(s, more[0]);
      FinishedRecordStays(s, more[0]);
      ReportStays(s, more[0], owner);
      FinishedForever(Next(s, more[0]), more[1..], owner);
    }
  }

  lemma SuccessWriter(before: Option<Job>, c: Change)
    requires Attempts(before, c) && (before.Some? ==> Consistent(before.value))
    requires Changed(before, c).status == Succeeded && before != Some(Changed(before, c))
    ensures before.Some? && Changed(before, c).reportId.Some?
    ensures LeasedTo(before.value, Changed(before, c).reportId.value)
  {
  }

  /** A success record names the worker whose write landed, and that worker's report was stored before it. */
  lemma SuccessNamesItsWriter(past: seq<Step>, step: Step, after: Job)
    requires Executes(INITIAL, past) && Enabled(Exec(INITIAL, past), step)
    requires Next(Exec(INITIAL, past), step).shared.job == Some(after)
    requires after.status == Succeeded && Exec(INITIAL, past).shared.job != Some(after)
    ensures
      var s := Exec(INITIAL, past);
      && s.shared.job.Some? && after.reportId.Some?
      && LeasedTo(s.shared.job.value, after.reportId.value)
      && ReportFixed(s.shared, after.reportId.value)
  {
    InitialOk();
    RunKeeps(INITIAL, past);
    var s := Exec(INITIAL, past);
    StepEvolves(s, step);
    var c :| Attempts(s.shared.job, c) && Some(after) == Some(Changed(s.shared.job, c));
    SuccessWriter(s.shared.job, c);
    StoredBeforeSuccess(s, step, after);
  }

  /** A job succeeds only after a call of the provider by the execution that its record names. */
  lemma SuccessWasAnalysed(past: seq<Step>)
    requires Executes(INITIAL, past)
    ensures var g := Exec(INITIAL, past).shared;
      g.job.Some? && g.job.value.status == Succeeded ==>
        && g.job.value.reportId.Some?
        && var owner := g.job.value.reportId.value;
           owner in g.history.runs && owner in g.history.provider && 1 <= g.history.provider[owner] <= PROVIDER_CALLS
  {
    InitialOk();
    RunKeeps(INITIAL, past);
  }

  /** A worker's step writes the record or the reports, not both. */
  lemma WorkerWritesOne(s: State, step: WorkerStep)
    requires WorkerEnabled(s, step)
    ensures
      var next := WorkerNext(s, step).shared;
      next.job == s.shared.job || (next.puts == s.shared.puts && next.reports == s.shared.reports)
  {
  }

  lemma StoredBeforeSuccess(s: State, step: Step, after: Job)
    requires Inv(s) && Enabled(s, step)
    requires Next(s, step).shared.job == Some(after) && s.shared.job != Some(after)
    requires after.status == Succeeded && after.reportId.Some?
    ensures ReportFixed(s.shared, after.reportId.value)
  {
    StepKeeps(s, step);
    assert ReportsOk(Next(s, step).shared);
    match step
    case Payment(x) => PaymentLeavesReports(s, x);
    case Slots(x) => SlotLeavesReports(s, x);
    case Worker(x) => WorkerWritesOne(s, x);
    case World(x) =>
  }

  // ----- what a worker can do, and a retryable failure that cannot be resumed ------------------------------------------------------

  /** A new worker claims the job. */
  lemma ClaimedAttempt(s: State, t: Tid, owner: Owner, now: int) returns (s': State)
    requires !At(s, t) && owner !in s.shared.history.owners
    requires s.shared.job.Some? && Claimable(s.shared.job.value, now) && !LeasedTo(s.shared.job.value, owner)
    ensures Leads(s, s')
    ensures
      var j := Changed(s.shared.job, ClaimRun(owner, now));
      s'.shared.job == Some(j) && s'.activities == s.activities[t := Working(j, owner, false, 0)]
    ensures s'.shared.history.owners == s.shared.history.owners + {owner}
  {
    LeadsStep(s, Worker(Spawn(t, owner)));
    var s1 := Next(s, Worker(Spawn(t, owner)));
    LeadsNext(s, s1, Worker(Drive(t)));
    var s2 := Next(s1, Worker(Drive(t)));
    LeadsNext(s, s2, Worker(ClaimExecution(t, now, true)));
    s' := Next(s2, Worker(ClaimExecution(t, now, true)));
  }

  /** A worker that holds the job calls the provider and renews its lease with what it got. */
  lemma WorkIsFenced(s: State, t: Tid, owner: Owner, report: Report, k: Job, now: int) returns (s': State, j: Job)
    requires At(s, t) && s.activities[t] == Working(k, owner, false, 0)
    requires s.shared.job == Some(k) && LeasedTo(k, owner)
    ensures Leads(s, s') && At(s', t) && s'.activities[t] == Fenced(j, owner, report)
    ensures s'.shared.job == Some(j) && LeasedTo(j, owner) && j.attempt == k.attempt
  {
    LeadsStep(s, Worker(CallProvider(t)));
    var s1 := Next(s, Worker(CallProvider(t)));
    LeadsNext(s, s1, Worker(Fence(t, report, now, true)));
    s' := Next(s1, Worker(Fence(t, report, now, true)));
    j := s'.shared.job.value;
  }

  /** The success of an attempt with its report. */
  predicate DoneBy(g: Shared, owner: Owner, report: Report, attempt: nat) {
    && g.job.Some? && g.job.value.status == Succeeded && g.job.value.reportId == Some(owner)
    && g.job.value.attempt == attempt
    && owner in g.reports && g.reports[owner] == report
  }

  lemma FencedIsDone(s: State, t: Tid, owner: Owner, report: Report, j: Job, now: int) returns (s': State)
    requires At(s, t) && s.activities[t] == Fenced(j, owner, report)
    requires s.shared.job == Some(j) && LeasedTo(j, owner)
    ensures Leads(s, s') && DoneBy(s'.shared, owner, report, j.attempt)
  {
    LeadsStep(s, Worker(PutReport(t, true)));
    var s1 := Next(s, Worker(PutReport(t, true)));
    LeadsNext(s, s1, Worker(WriteSuccess(t, now, true)));
    s' := Next(s1, Worker(WriteSuccess(t, now, true)));
  }

  /** From any state, a job that may be claimed can be done: a new worker's own steps lead to the success with its report. */
  lemma ClaimableJobIsDone(s: State, t: Tid, owner: Owner, report: Report, now: int) returns (s': State)
    requires !At(s, t) && owner !in s.shared.history.owners
    requires s.shared.job.Some? && Claimable(s.shared.job.value, now) && !LeasedTo(s.shared.job.value, owner)
    ensures Leads(s, s') && DoneBy(s'.shared, owner, report, s.shared.job.value.attempt + 1)
  {
    var s1 := ClaimedAttempt(s, t, owner, now);
    var k := s1.shared.job.value;
    assert LeasedTo(k, owner) && k.attempt == s.shared.job.value.attempt + 1;
    s' := HeldJobIsDone(s, s1, t, owner, report, k, now);
  }

  lemma HeldJobIsDone(s0: State, s: State, t: Tid, owner: Owner, report: Report, k: Job, now: int) returns (s': State)
    requires Leads(s0, s) && At(s, t) && s.activities[t] == Working(k, owner, false, 0)
    requires s.shared.job == Some(k) && LeasedTo(k, owner)
    ensures Leads(s0, s') && DoneBy(s'.shared, owner, report, k.attempt)
  {
    var s1, j := WorkIsFenced(s, t, owner, report, k, now);
    LeadsOn(s0, s, s1);
    s' := FencedIsDone(s1, t, owner, report, j, now);
    LeadsOn(s0, s1, s');
  }

  /** The record still waits for the reference of a settlement that the facilitator has not finished. */
  predicate AwaitsReference(job: Option<Job>) {
    job.Some? && BothSettling(job.value) && job.value.settlementRef.None? && job.value.pendingRef.None?
  }

  /**
   A pending reference whose write was lost is written again, over the record as it is now, as
   long as that record still waits for one and a try is left; otherwise the request ends.
   */
  lemma LostPendingIsWrittenAgain(s: State, t: Tid, now: int)
    requires At(s, t) && s.activities[t].PendingLost?
    ensures
      var pc, next := s.activities[t], Next(s, Payment(RereadPending(t)));
      next.shared == s.shared &&
      if AwaitsReference(s.shared.job) && pc.writes < PENDING_WRITES then
        && Enabled(next, Payment(WritePending(t, now, true)))
        && var last := Next(next, Payment(WritePending(t, now, true)));
           last.shared.job == Some(s.shared.job.value.(pendingRef := Some(pc.ref), updatedAt := now))
      else !At(next, t)
  {
  }

  /** A lost write of a pending reference, from which a request goes on without having read the record. */
  lemma PendingIsTriedAgain(s: State, t: Tid, now: int)
    requires At(s, t) && s.activities[t].Pending? && s.activities[t].writes < PENDING_WRITES
    requires Enabled(s, Payment(WritePending(t, now, false)))
    ensures
      var pc, lost := s.activities[t], Next(s, Payment(WritePending(t, now, false)));
      && Enabled(lost, Payment(RetryPending(t)))
      && var next := Next(lost, Payment(RetryPending(t)));
         && next.shared == s.shared
         && (if pc.writes + 1 < PENDING_WRITES then
               At(next, t) && next.activities[t] == Pending(pc.snap, pc.ref, pc.writes + 1)
             else !At(next, t) && !At(Next(lost, Payment(RereadPending(t))), t))
  {
  }

  /** A worker whose report could not be stored fails the execution, and another may claim the job if attempts are left. */
  lemma LostUploadIsFailed(s: State, t: Tid, code: ErrorCode, now: int)
    requires At(s, t) && s.activities[t].Fenced? && s.shared.job == Some(s.activities[t].snap)
    requires LeasedTo(s.activities[t].snap, s.activities[t].owner) && code != AnalysisEmpty
    ensures
      var next := Next(s, Worker(PutReport(t, false)));
      var fail := Worker(FailExecution(t, code, true, now, true));
      && next.shared.job == s.shared.job && Enabled(next, fail)
      && var last := Next(next, fail);
         && !At(last, t) && last.shared.job.Some? && last.shared.job.value.errorCode == Some(code)
         && (Claimable(last.shared.job.value, now) <==> s.activities[t].snap.attempt < MAX_ATTEMPTS)
  {
  }

  lemma ThreeCalls(s: State, t: Tid, owner: Owner) returns (s': State)
    requires At(s, t) && s.activities[t].Working? && s.activities[t].calls == 0
    requires s.activities[t].owner == owner
    ensures Leads(s, s')
    ensures s'.shared.job == s.shared.job && s'.shared.history.owners == s.shared.history.owners
    ensures
      s'.activities == s.activities[t := Working(s.activities[t].snap, owner, s.activities[t].leaseLost, PROVIDER_CALLS)]
  {
    var call := Worker(CallProvider(t));
    LeadsStep(s, call);
    var s1 := Next(s, call);
    LeadsNext(s, s1, call);
    var s2 := Next(s1, call);
    LeadsNext(s, s2, call);
    s' := Next(s2, call);
  }

  /** One worker from spawn to an empty answer. */
  lemma EmptyAttempt(s: State, t: Tid, owner: Owner) returns (s': State)
    requires !At(s, t) && owner !in s.shared.history.owners
    requires s.shared.job.Some? && Claimable(s.shared.job.value, 1) && s.shared.job.value.status != Running
    ensures Leads(s, s') && s'.activities == s.activities
    ensures s'.shared.history.owners == s.shared.history.owners + {owner}
    ensures s'.shared.job.Some? && RetryableFailure(s'.shared.job.value)
    ensures s'.shared.job.value.attempt == s.shared.job.value.attempt + 1
  {
    var s1 := ClaimedAttempt(s, t, owner, 1);
    var s2 := ThreeCalls(s1, t, owner);
    LeadsOn(s, s1, s2);
    LeadsNext(s, s2, Worker(FailExecution(t, AnalysisEmpty, true, 1, true)));
    s' := Next(s2, Worker(FailExecution(t, AnalysisEmpty, true, 1, true)));
    assert s'.activities == s.activities;
  }

  /** A job created and settled at sample 1. */
  lemma SettledJobIsReachable()
    ensures exists s ::
      && Leads(INITIAL, s) && s.activities == map[] && s.shared.history.owners == {}
      && s.shared.job.Some? && s.shared.job.value.status == Queued && s.shared.job.value.attempt == 0
  {
    LeadsStep(INITIAL, Payment(CreateWithoutSlot(0, 1, 0, true)));
    var s1 := Next(INITIAL, Payment(CreateWithoutSlot(0, 1, 0, true)));
    LeadsNext(INITIAL, s1, Payment(CallSettle(0)));
    var s2 := Next(s1, Payment(CallSettle(0)));
    LeadsNext(INITIAL, s2, Payment(AnswerSettled(0, Some(0), 0, 1, 1, 1, true)));
    var s3 := Next(s2, Payment(AnswerSettled(0, Some(0), 0, 1, 1, 1, true)));
    assert s3.activities == map[];
  }

  /**
   "Retryable" does not imply "resumable": some run stores a failure marked retryable that
   resume refuses at every time, before its expiry because the attempts are used up.
   */
  lemma RefusedRetryIsReachable()
    ensures exists s ::
      && Leads(INITIAL, s) && s.shared.job.Some? && RetryableFailure(s.shared.job.value)
      && (forall authorized, now :: Resume(s.shared.job.value, authorized, now) ==
            if s.shared.job.value.expiresAt <= authorized then Expired else AttemptsExhausted)
  {
    SettledJobIsReachable();
    var s0 :| Leads(INITIAL, s0) && s0.activities == map[] && s0.shared.history.owners == {}
              && s0.shared.job.Some? && s0.shared.job.value.status == Queued && s0.shared.job.value.attempt == 0;
    var s1 := EmptyAttempt(s0, 1, 1);
    var s2 := EmptyAttempt(s1, 2, 2);
    var s3 := EmptyAttempt(s2, 3, 3);
    LeadsOn(INITIAL, s0, s1);
    LeadsOn(INITIAL, s1, s2);
    LeadsOn(INITIAL, s2, s3);
  }
}
