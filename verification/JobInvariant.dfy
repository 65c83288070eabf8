/**
 The invariant of the paid-job protocol, and the proof that every step of every
 interleaving keeps it. A step is a composition of a few effects (a record lands, a
 wallet write lands, an activity moves on), so the proof is one lemma per effect.
 */
module JobInvariant {
  import opened Wrappers
  import opened JobRecord
  import opened JobProtocol
  import W = WalletWindow

  // ----- what activities and unacknowledged writes know ---------------------------------------

  /** A record some activity read earlier. */
  predicate SnapOk(g: Shared, j: Job) {
    Consistent(j) && g.job.Some? && Precedes(j, g.job.value)
  }

  predicate SeenOk(g: Shared, seen: Option<Job>) {
    seen.Some? ==> SnapOk(g, seen.value)
  }

  /** No wallet operation found the reservation's hour over. */
  predicate Unexpired(g: Shared, at: int) {
    g.history.walletMax < at + W.WINDOW
  }

  predicate HoldsReserved(g: Shared, at: int) {
    Unexpired(g, at) ==> W.Entry(ME, at, W.Reserved) in g.wallet
  }

  predicate HoldsCommitted(g: Shared, at: int) {
    Unexpired(g, at) ==> W.Entry(ME, at, W.Committed) in g.wallet
  }

  predicate HoldsSlot(g: Shared, at: int) {
    Unexpired(g, at) ==> W.HasSlot(g.wallet, ME, at)
  }

  /** A settled job whose slot is not yet recorded as committed. */
  predicate AwaitsCommit(j: Job) {
    j.payment == PaymentSettled && j.status == Settling && j.slot.Some? && j.slot.value.state == SlotReserved
  }

  predicate AwaitsRelease(j: Job) {
    j.payment == PaymentFailed && j.slot.Some? && j.slot.value.state == SlotReserved
  }

  /** The execution `owner` was paid for by a landed claim and has begun. */
  predicate Started(g: Shared, owner: Owner) {
    owner in g.history.owners && owner in g.history.runs && owner in g.history.provider
  }

  /** The report of `owner` is stored and is the only one ever sent under that key. */
  predicate ReportFixed(g: Shared, owner: Owner) {
    owner in g.puts && owner in g.reports && g.puts[owner] == g.reports[owner]
  }

  predicate PcOk(g: Shared, pc: Pc) {
    match pc
    case Observed(seen) => SeenOk(g, seen)
    case Admitted(_, at) => g.job.None? ==> HoldsReserved(g, at)
    case Claimed(snap, sample, _) =>
      SnapOk(g, snap) && BothSettling(snap) && sample in g.history.claims && sample !in g.history.calls
    case Calling(snap, _) => SnapOk(g, snap) && BothSettling(snap)
    case Pending(snap, _, _) => SnapOk(g, snap) && BothSettling(snap)
    case PendingLost(snap, _, _) => SnapOk(g, snap) && BothSettling(snap)
    case Committing(snap) => SnapOk(g, snap) && AwaitsCommit(snap)
    case Finalizing(snap) => SnapOk(g, snap) && AwaitsCommit(snap) && HoldsCommitted(g, snap.slot.value.at)
    case Releasing(snap) => SnapOk(g, snap) && AwaitsRelease(snap)
    case Marking(snap) => SnapOk(g, snap) && AwaitsRelease(snap)
    case Driving(owner, _, seen) =>
      && owner in g.history.owners && owner !in g.history.provider && owner !in g.puts && SeenOk(g, seen)
      && (seen.Some? && LeasedTo(seen.value, owner) ==> owner in g.history.runs)
    case Working(snap, owner, _, calls) =>
      && SnapOk(g, snap) && LeasedTo(snap, owner) && Started(g, owner) && owner !in g.puts
      && g.history.provider[owner] == calls
    case Fenced(snap, owner, _) =>
      && SnapOk(g, snap) && LeasedTo(snap, owner) && Started(g, owner) && owner !in g.puts
      && g.history.provider[owner] >= 1
    case PutFailed(snap, owner) => SnapOk(g, snap) && LeasedTo(snap, owner) && Started(g, owner)
    case Stored(snap, owner) =>
      SnapOk(g, snap) && LeasedTo(snap, owner) && Started(g, owner) && ReportFixed(g, owner)
  }

  predicate WriteOk(g: Shared, w: Write) {
    && Attempts(w.before, w.change)
    && SeenOk(g, w.before)
    && match w.change
       case Create(_, _, slotAt) => slotAt.Some? && g.job.None? ==> HoldsReserved(g, slotAt.value)
       case FinalizeCommit(_) => AwaitsCommit(w.before.value) && HoldsCommitted(g, w.before.value.slot.value.at)
       case ClaimRun(owner, _) => owner in g.history.owners
       case Succeed(owner, _) => ReportFixed(g, owner)
       case _ => true
  }

  /** Commits are sent only for a durably settled job, releases only for a durably failed payment. */
  predicate WalletOpOk(g: Shared, op: W.Op) {
    && op.id == ME
    && match op
       case Commit(_, at, _) =>
         && g.job.Some? && g.job.value.payment == PaymentSettled
         && g.job.value.slot.Some? && g.job.value.slot.value.at == at
       case Release(_, at, _) =>
         && g.job.Some? && g.job.value.payment == PaymentFailed
         && g.job.value.slot.Some? && g.job.value.slot.value.at == at
       case _ => true
  }

  // ----- the invariant ----------------------------------------------------------------------------

  /** Job record and wallet record agree for as long as the slot counts. */
  predicate Agreement(g: Shared) {
    g.job.Some? && g.job.value.slot.Some? ==>
      var j := g.job.value;
      var at := j.slot.value.at;
      && (j.payment == PaymentSettling ==> HoldsReserved(g, at))
      && (j.payment == PaymentSettled ==> HoldsSlot(g, at))
      && (j.slot.value.state == SlotCommitted ==> HoldsCommitted(g, at))
  }

  /** Landed settlement claims are a lease apart, and the current lease runs from the last one. */
  ghost predicate ClaimsOk(g: Shared) {
    && (forall i, k :: 0 <= i < k < |g.history.claims| ==> g.history.claims[k] - g.history.claims[i] >= LEASE)
    && (g.job.None? ==> g.history.claims == [])
    && (g.job.Some? && g.job.value.payment == PaymentSettling ==>
          && g.history.claims != []
          && g.job.value.leaseExpiresAt == Some(g.history.claims[|g.history.claims| - 1] + LEASE))
  }

  /** A settlement claim is used for at most one settlement call. */
  ghost predicate CallsOk(g: Shared) {
    && (forall i :: 0 <= i < |g.history.calls| ==> g.history.calls[i] in g.history.claims)
    && (forall i, k :: 0 <= i < k < |g.history.calls| ==> g.history.calls[i] != g.history.calls[k])
  }

  /** One attempt per landed execution claim, at most three provider calls per execution, and one before its report. */
  ghost predicate RunsOk(g: Shared) {
    && |g.history.runs| == (if g.job.Some? then g.job.value.attempt else 0)
    && (forall o :: o in g.history.runs ==> o in g.history.owners)
    && (forall o :: o in g.history.provider ==> o in g.history.runs && g.history.provider[o] <= PROVIDER_CALLS)
    && (forall o :: o in g.puts ==> o in g.history.provider && g.history.provider[o] >= 1)
    && (g.job.Some? && g.job.value.status == Running ==>
          g.job.value.leaseOwner.Some? && g.job.value.leaseOwner.value in g.history.runs)
  }

  /** A finished job refers to a stored report that can no longer change. */
  predicate ReportsOk(g: Shared) {
    g.job.Some? && g.job.value.status == Succeeded ==>
      g.job.value.reportId.Some? && ReportFixed(g, g.job.value.reportId.value)
  }

  ghost predicate SharedOk(g: Shared) {
    && W.WellFormed(g.wallet)
    && (g.job.Some? ==> Consistent(g.job.value))
    && Agreement(g) && ClaimsOk(g) && CallsOk(g) && RunsOk(g) && ReportsOk(g)
  }

  function OwnerOf(pc: Pc): Option<Owner> {
    match pc
    case Driving(owner, _, _) => Some(owner)
    case Working(_, owner, _, _) => Some(owner)
    case Fenced(_, owner, _) => Some(owner)
    case PutFailed(_, owner) => Some(owner)
    case Stored(_, owner) => Some(owner)
    case _ => None
  }

  /** No two activities share an execution owner or a settlement claim. */
  predicate Apart(a: Pc, b: Pc) {
    && (OwnerOf(a).Some? ==> OwnerOf(a) != OwnerOf(b))
    && (a.Claimed? && b.Claimed? ==> a.sample != b.sample)
  }

  ghost predicate ActivitiesOk(g: Shared, activities: map<Tid, Pc>) {
    && (forall t :: t in activities ==> PcOk(g, activities[t]))
    && (forall t, u :: t in activities && u in activities && t != u ==> Apart(activities[t], activities[u]))
  }

  ghost predicate IssuedOk(g: Shared, issued: set<Write>) {
    forall w :: w in issued ==> WriteOk(g, w)
  }

  ghost predicate WalletIssuedOk(g: Shared, ops: set<W.Op>) {
    forall op :: op in ops ==> WalletOpOk(g, op)
  }

  ghost predicate Inv(s: State) {
    && SharedOk(s.shared)
    && ActivitiesOk(s.shared, s.activities)
    && IssuedOk(s.shared, s.issued)
    && WalletIssuedOk(s.shared, s.walletIssued)
  }

  lemma InitialOk()
    ensures Inv(INITIAL)
  {
  }

  // ----- a record lands ---------------------------------------------------------------------------

  lemma SnapStays(g: Shared, g': Shared, j: Job)
    requires SnapOk(g, j) && g'.job.Some? && Precedes(g.job.value, g'.job.value)
    ensures SnapOk(g', j)
  {
    PrecedesTransitive(j, g.job.value, g'.job.value);
  }

  lemma LandKeepsPc(g: Shared, w: Write, pc: Pc)
    requires SharedOk(g) && WriteOk(g, w) && g.job == w.before && PcOk(g, pc)
    ensures PcOk(Land(g, w), pc)
  {
    var g' := Land(g, w);
    ChangeKeeps(w.before, w.change);
    if g.job.Some? {
      if pc.Observed? || pc.Driving? {
        if pc.seen.Some? { SnapStays(g, g', pc.seen.value); }
      } else if !pc.Admitted? {
        SnapStays(g, g', pc.snap);
      }
    }
  }

  lemma LandKeepsWrite(g: Shared, w: Write, v: Write)
    requires SharedOk(g) && WriteOk(g, w) && g.job == w.before && WriteOk(g, v)
    ensures WriteOk(Land(g, w), v)
  {
    ChangeKeeps(w.before, w.change);
    if v.before.Some? { SnapStays(g, Land(g, w), v.before.value); }
  }

  lemma LandKeepsWalletOp(g: Shared, w: Write, op: W.Op)
    requires SharedOk(g) && WriteOk(g, w) && g.job == w.before && WalletOpOk(g, op)
    ensures WalletOpOk(Land(g, w), op)
  {
    ChangeKeeps(w.before, w.change);
  }

  lemma LandKeepsClaims(g: Shared, w: Write)
    requires SharedOk(g) && WriteOk(g, w) && g.job == w.before
    ensures ClaimsOk(Land(g, w)) && CallsOk(Land(g, w))
  {
    ChangeKeeps(w.before, w.change);
  }

  lemma LandKeepsShared(g: Shared, w: Write)
    requires SharedOk(g) && WriteOk(g, w) && g.job == w.before
    ensures SharedOk(Land(g, w))
  {
    ChangeKeeps(w.before, w.change);
    LandKeepsClaims(g, w);
    var g' := Land(g, w);
    assert w.change.ClaimRun? ==> g'.history.runs[|g'.history.runs| - 1] == w.change.owner;
  }

  lemma LandKeeps(s: State, w: Write)
    requires Inv(s) && WriteOk(s.shared, w) && s.shared.job == w.before
    ensures Inv(With(s, Land(s.shared, w)))
  {
    var g, g' := s.shared, Land(s.shared, w);
    LandKeepsShared(g, w);
    forall t | t in s.activities ensures PcOk(g', s.activities[t]) { LandKeepsPc(g, w, s.activities[t]); }
    forall v | v in s.issued ensures WriteOk(g', v) { LandKeepsWrite(g, w, v); }
    forall op | op in s.walletIssued ensures WalletOpOk(g', op) { LandKeepsWalletOp(g, w, op); }
  }

  // ----- a wallet write lands -----------------------------------------------------------------------

  /** Wallet writes that other jobs, or this job's own requests, may land. */
  predicate WalletAllowed(g: Shared, op: W.Op) {
    W.Enabled(g.wallet, op) && (op.id != ME || op.Prune? || WalletOpOk(g, op))
  }

  lemma WalletKeepsReserved(g: Shared, op: W.Op, at: int)
    requires SharedOk(g) && WalletAllowed(g, op) && HoldsReserved(g, at)
    requires !((op.Commit? || op.Release?) && op.id == ME && op.at == at)
    ensures HoldsReserved(LandWallet(g, op), at)
  {
    if Unexpired(LandWallet(g, op), at) {
      W.WrittenReserved(g.wallet, op, ME, at);
    }
  }

  lemma WalletKeepsCommitted(g: Shared, op: W.Op, at: int)
    requires SharedOk(g) && WalletAllowed(g, op) && HoldsCommitted(g, at)
    requires !(op.Release? && op.id == ME && op.at == at)
    ensures HoldsCommitted(LandWallet(g, op), at)
  {
    W.WrittenCommitted(g.wallet, op, ME, at);
  }

  lemma WalletKeepsPc(g: Shared, op: W.Op, pc: Pc)
    requires SharedOk(g) && WalletAllowed(g, op) && PcOk(g, pc)
    ensures PcOk(LandWallet(g, op), pc)
  {
    match pc
    case Admitted(_, at) =>
      if g.job.None? { WalletKeepsReserved(g, op, at); }
    case Finalizing(snap) => WalletKeepsCommitted(g, op, snap.slot.value.at);
    case _ =>
  }

  lemma WalletKeepsWrite(g: Shared, op: W.Op, w: Write)
    requires SharedOk(g) && WalletAllowed(g, op) && WriteOk(g, w)
    ensures WriteOk(LandWallet(g, op), w)
  {
    match w.change
    case Create(_, _, slotAt) =>
      if slotAt.Some? && g.job.None? { WalletKeepsReserved(g, op, slotAt.value); }
    case FinalizeCommit(_) => WalletKeepsCommitted(g, op, w.before.value.slot.value.at);
    case _ =>
  }

  lemma WalletKeepsAgreement(g: Shared, op: W.Op)
    requires SharedOk(g) && WalletAllowed(g, op)
    ensures Agreement(LandWallet(g, op))
  {
    if g.job.Some? && g.job.value.slot.Some? {
      var j := g.job.value;
      var at := j.slot.value.at;
      W.WrittenSlot(g.wallet, op, ME, at);
      if j.payment == PaymentSettling { WalletKeepsReserved(g, op, at); }
      if j.slot.value.state == SlotCommitted { WalletKeepsCommitted(g, op, at); }
    }
  }

  lemma WalletKeeps(s: State, op: W.Op)
    requires Inv(s) && WalletAllowed(s.shared, op)
    ensures Inv(With(s, LandWallet(s.shared, op)))
  {
    var g, g' := s.shared, LandWallet(s.shared, op);
    W.WrittenWellFormed(g.wallet, op);
    WalletKeepsAgreement(g, op);
    forall t | t in s.activities ensures PcOk(g', s.activities[t]) { WalletKeepsPc(g, op, s.activities[t]); }
    forall w | w in s.issued ensures WriteOk(g', w) { WalletKeepsWrite(g, op, w); }
    forall o | o in s.walletIssued ensures WalletOpOk(g', o) { assert WalletOpOk(g, o); }
  }

  // ----- bookkeeping, and the acting activity itself ---------------------------------------------------

  /** A change of the shared objects that no activity but `t` notices. */
  ghost predicate Unnoticed(s: State, t: Tid, g': Shared) {
    && SharedOk(g')
    && (forall u :: u in s.activities && u != t ==> PcOk(g', s.activities[u]))
    && IssuedOk(g', s.issued)
    && WalletIssuedOk(g', s.walletIssued)
  }

  lemma MoveKeeps(s: State, t: Tid, g': Shared, pc: Pc)
    requires Inv(s) && Unnoticed(s, t, g') && PcOk(g', pc)
    requires forall u :: u in s.activities && u != t ==> Apart(pc, s.activities[u]) && Apart(s.activities[u], pc)
    ensures Inv(SetPc(With(s, g'), t, pc))
  {
  }

  /** The activity moves on without touching the shared objects, keeping its owner. */
  lemma MoveOnKeeps(s: State, t: Tid, next: Option<Pc>)
    requires Inv(s)
    requires next.Some? ==>
      && PcOk(s.shared, next.value) && !next.value.Claimed?
      && (OwnerOf(next.value).Some? ==> t in s.activities && OwnerOf(next.value) == OwnerOf(s.activities[t]))
    ensures Inv(Move(s, t, next))
  {
  }

  lemma IssueKeeps(s: State, w: Write)
    requires Inv(s) && WriteOk(s.shared, w)
    ensures Inv(Issue(s, w))
  {
  }

  lemma SendKeeps(s: State, op: W.Op)
    requires Inv(s) && WalletOpOk(s.shared, op)
    ensures Inv(Send(s, op))
  {
  }

  /** An attempted write, acknowledged or lost, keeps the invariant. */
  lemma PutKeeps(s: State, before: Option<Job>, c: Change, acked: bool)
    requires Inv(s) && CanWrite(s, before, c, acked) && WriteOk(s.shared, Write(before, c))
    ensures Inv(Put(s, before, c, acked))
    ensures acked ==> SnapOk(Put(s, before, c, acked).shared, Changed(before, c))
    ensures Put(s, before, c, acked).activities == s.activities
  {
    if acked {
      LandKeeps(s, Write(before, c));
    } else {
      IssueKeeps(s, Write(before, c));
    }
  }

  /** An activity writes, then moves to `next` or ends. */
  lemma WriteThenKeeps(s: State, t: Tid, before: Option<Job>, c: Change, acked: bool, next: Option<Pc>)
    requires Inv(s) && At(s, t) && CanWrite(s, before, c, acked) && WriteOk(s.shared, Write(before, c))
    requires next.Some? ==>
      && PcOk(Put(s, before, c, acked).shared, next.value) && !next.value.Claimed?
      && (OwnerOf(next.value).Some? ==> OwnerOf(next.value) == OwnerOf(s.activities[t]))
    ensures Inv(Move(Put(s, before, c, acked), t, next))
  {
    PutKeeps(s, before, c, acked);
    MoveOnKeeps(Put(s, before, c, acked), t, next);
  }
}
