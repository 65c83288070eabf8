/**
 The buyer's paid request over crashes and restarts. A run is any sequence of the steps
 below: file operations are atomic and durable, the process may die between any two of
 them, and the server may answer anything. An exclusive lock keeps it to one process.

 What a step does on an error that is not retried is to end the process, which is what a
 crash does too; so a step that the code refuses is one that is not enabled.
 */
module BuyerPayment {
  import opened Wrappers

  /** A signed payment authorization; every signature is a new one. */
  type Proof = nat

  /** A job as its receipt names it; the token proves that a binding is the server's own. */
  datatype Job = Job(id: nat, token: nat)

  /** A pending request with its proof, bound to a job once the server has named one. */
  datatype Record = Record(proof: Proof, bound: Option<Job>)

  /** What can stand at the pending path. */
  datatype File = Pending(record: Record) | CoolingDown(notBefore: int)

  datatype Disk = Disk(pending: Option<File>, receipt: Option<Job>, quarantine: map<nat, File>)

  datatype Answer = Created(job: Job) | RateLimited | Retryable | Fatal

  /** A status read: still settling, past it, or gone (410). */
  datatype Reading = StillSettling | Moved(succeeded: bool) | Gone

  /** What follows once the pending file is cleaned up. */
  datatype After = KeepPolling | Finish | GiveUp

  datatype Pc =
    | Idle
    | CooldownFound(notBefore: int)
    | Fresh
    | Signed(proof: Proof)
    // a POST with `record`; `expected` is the receipt's job when a poll recovers it
    | Ready(record: Record, expected: Option<Job>, checked: bool, attempts: nat)
    | Awaiting(record: Record, expected: Option<Job>, attempts: nat)
    | Binding(record: Record, expected: Option<Job>)
    | Receipting(record: Record, expected: Option<Job>)
    | Limited(record: Record, expected: Option<Job>)
    | Polling(job: Job, own: Option<Record>, settling: bool)
    | Cleaning(job: Job, record: Record, after: After)
    | Quarantined(job: Job, record: Record, name: nat, after: After)
    | Downloaded(job: Job)
    | Saved(job: Job)

  /** What has happened so far, for the statements only. */
  datatype History = History(
    signed: set<Proof>,
    posted: set<Proof>,
    limited: set<Proof>,           // answered 429
    receipted: set<(Proof, Job)>,  // a bound receipt was durable
    past: set<Job>,                // reported past settling, or gone
    reported: set<Job>             // report saved
  )

  datatype State = State(disk: Disk, pc: Pc, h: History)

  const INITIAL: State :=
    State(Disk(None, None, map[]), Idle, History({}, {}, {}, {}, {}, {}))

  datatype Step =
    | Start(attempts: nat)
    | ClearCooldown(now: int)
    | Sign(proof: Proof)
    | PersistPending(attempts: nat)
    | Post
    | Reply(answer: Answer)
    | PersistBound
    | PersistReceipt
    | PersistCooldown(notBefore: int)
    | Read(reading: Reading)
    | Recover
    | Quarantine(name: nat)
    | Judge(restored: bool)
    | SaveReport
    | RemoveReceipt
    | Crash

  // ----- steps ------------------------------------------------------------------------------------

  /** Startup: what is on disk decides how to go on. */
  function Started(d: Disk, attempts: nat): Pc {
    match d.pending
    case Some(CoolingDown(notBefore)) => if d.receipt.Some? then Idle else CooldownFound(notBefore)
    case Some(Pending(r)) =>
      if d.receipt == None then Ready(r, None, false, attempts)
      else if r.bound == d.receipt then Polling(d.receipt.value, Some(r), false)
      else Idle
    case None =>
      if d.receipt == None then Fresh else Polling(d.receipt.value, None, false)
  }

  function Done(job: Job, after: After): Pc {
    match after
    case KeepPolling => Polling(job, None, false)
    case Finish => Downloaded(job)
    case GiveUp => Idle
  }

  predicate Enabled(s: State, step: Step) {
    match step
    case Start(attempts) => s.pc == Idle && attempts >= 1
    case ClearCooldown(now) => s.pc.CooldownFound? && now >= s.pc.notBefore
    case Sign(proof) => s.pc == Fresh && proof !in s.h.signed
    case PersistPending(attempts) => s.pc.Signed? && attempts >= 1
    case Post => s.pc.Ready? && (s.pc.checked || s.disk.pending == Some(Pending(s.pc.record)))
    case Reply(_) => s.pc.Awaiting?
    case PersistBound => s.pc.Binding?
    case PersistReceipt => s.pc.Receipting? && s.pc.record.bound.Some?
    case PersistCooldown(_) => s.pc.Limited?
    case Read(_) => s.pc.Polling?
    case Recover => s.pc.Polling? && s.pc.settling && s.pc.own.Some?
    case Quarantine(name) => s.pc.Cleaning? && name !in s.disk.quarantine
    case Judge(_) => s.pc.Quarantined? && s.pc.name in s.disk.quarantine
    case SaveReport => s.pc.Downloaded?
    case RemoveReceipt => s.pc.Saved?
    case Crash => true
  }

  /** The server's answer to a create request. */
  function Replied(s: State, answer: Answer): State
    requires s.pc.Awaiting?
  {
    var r, expected := s.pc.record, s.pc.expected;
    match answer
    case Created(job) =>
      if (expected.Some? && expected.value.id != job.id) || (r.bound.Some? && r.bound.value != job)
      then s.(pc := Idle)
      else s.(pc := Binding(Record(r.proof, Some(job)), expected))
    case RateLimited => s.(pc := Limited(r, expected), h := s.h.(limited := s.h.limited + {r.proof}))
    case Retryable =>
      if s.pc.attempts > 1 then s.(pc := Ready(r, expected, true, s.pc.attempts - 1))
      else if expected.Some? then s.(pc := Polling(expected.value, Some(r), false))
      else s.(pc := Idle)
    case Fatal => s.(pc := Idle)
  }

  function StatusRead(s: State, reading: Reading): State
    requires s.pc.Polling?
  {
    var job, own := s.pc.job, s.pc.own;
    match reading
    case StillSettling => s.(pc := Polling(job, own, true))
    case Gone => PastSettling(s, GiveUp)
    case Moved(succeeded) => PastSettling(s, if succeeded then Finish else KeepPolling)
  }

  function PastSettling(s: State, after: After): State
    requires s.pc.Polling?
  {
    var job, own := s.pc.job, s.pc.own;
    s.(pc := if own.Some? then Cleaning(job, own.value, after) else Done(job, after),
       h := s.h.(past := s.h.past + {job}))
  }

  /** Cleanup moves whatever stands at the pending path out of the way, if anything does. */
  function SetAside(s: State, name: nat): State
    requires s.pc.Cleaning?
  {
    if s.disk.pending == None then s.(pc := Done(s.pc.job, s.pc.after))
    else
      s.(disk := s.disk.(pending := None, quarantine := s.disk.quarantine[name := s.disk.pending.value]),
         pc := Quarantined(s.pc.job, s.pc.record, name, s.pc.after))
  }

  /** It is destroyed only if it is the poll's own record; otherwise it is linked back. */
  function Judged(s: State, restored: bool): State
    requires s.pc.Quarantined? && s.pc.name in s.disk.quarantine
  {
    var file := s.disk.quarantine[s.pc.name];
    if file == Pending(s.pc.record) then
      s.(disk := s.disk.(quarantine := s.disk.quarantine - {s.pc.name}), pc := Done(s.pc.job, s.pc.after))
    else if restored && s.disk.pending == None then
      s.(disk := s.disk.(pending := Some(file)), pc := Idle)
    else s.(pc := Idle)
  }

  function Next(s: State, step: Step): State
    requires Enabled(s, step)
  {
    match step
    case Start(attempts) => s.(pc := Started(s.disk, attempts))
    case ClearCooldown(_) => s.(disk := s.disk.(pending := None), pc := Fresh)
    case Sign(proof) => s.(pc := Signed(proof), h := s.h.(signed := s.h.signed + {proof}))
    case PersistPending(attempts) =>
      var r := Record(s.pc.proof, None);
      s.(disk := s.disk.(pending := Some(Pending(r))), pc := Ready(r, None, false, attempts))
    case Post =>
      s.(pc := Awaiting(s.pc.record, s.pc.expected, s.pc.attempts),
         h := s.h.(posted := s.h.posted + {s.pc.record.proof}))
    case Reply(answer) => Replied(s, answer)
    case PersistBound =>
      s.(disk := s.disk.(pending := Some(Pending(s.pc.record))), pc := Receipting(s.pc.record, s.pc.expected))
    case PersistReceipt =>
      var job := s.pc.record.bound.value;
      s.(disk := s.disk.(receipt := Some(job)),
         h := s.h.(receipted := s.h.receipted + {(s.pc.record.proof, job)}),
         pc := Polling(job, Some(s.pc.record), false))
    case PersistCooldown(notBefore) =>
      s.(disk := s.disk.(pending := Some(CoolingDown(notBefore))),
         pc := if s.pc.expected.Some? then Polling(s.pc.expected.value, Some(s.pc.record), false) else Idle)
    case Read(reading) => StatusRead(s, reading)
    case Recover => s.(pc := Ready(s.pc.own.value, Some(s.pc.job), false, 1))
    case Quarantine(name) => SetAside(s, name)
    case Judge(restored) => Judged(s, restored)
    case SaveReport => s.(pc := Saved(s.pc.job), h := s.h.(reported := s.h.reported + {s.pc.job}))
    case RemoveReceipt => s.(disk := s.disk.(receipt := None), pc := Idle)
    case Crash => s.(pc := Idle)
  }

  predicate Executes(s: State, steps: seq<Step>)
    decreases |steps|
  {
    steps == [] || (Enabled(s, steps[0]) && Executes(Next(s, steps[0]), steps[1..]))
  }

  function Exec(s: State, steps: seq<Step>): State
    requires Executes(s, steps)
    decreases |steps|
  {
    if steps == [] then s else Exec(Next(s, steps[0]), steps[1..])
  }

  /** The state after the first `k` steps. */
  function StateAt(s: State, steps: seq<Step>, k: nat): State
    requires Executes(s, steps) && k <= |steps|
    decreases |steps|
  {
    if k == 0 then s else StateAt(Next(s, steps[0]), steps[1..], k - 1)
  }

  // ----- the invariant ------------------------------------------------------------------------------

  /** The proof can be sent again from what is on disk. */
  predicate OnDisk(d: Disk, p: Proof) {
    d.pending.Some? && d.pending.value.Pending? && d.pending.value.record.proof == p
  }

  /** The server has a durable claim on the proof's job, or has turned the proof away. */
  ghost predicate Answered(h: History, p: Proof) {
    p in h.limited || exists job :: (p, job) in h.receipted && job in h.past
  }

  ghost predicate DiskOk(d: Disk, h: History) {
    && (forall p :: p in h.posted ==> p in h.signed && (OnDisk(d, p) || Answered(h, p)))
    && (forall p, job :: (p, job) in h.receipted ==> p in h.posted && (d.receipt == Some(job) || job in h.reported))
    && (d.pending.Some? && d.pending.value.Pending? ==>
          var r := d.pending.value.record;
          && r.proof in h.signed
          && (d.receipt.Some? ==> r.bound == d.receipt && (r.proof, d.receipt.value) in h.receipted))
    && h.reported <= h.past
  }

  /** A record that a poll for `job` holds. */
  predicate OwnOk(record: Record, job: Job, h: History) {
    record.bound == Some(job) && (record.proof, job) in h.receipted
  }

  predicate ExpectedOk(s: State, record: Record, expected: Option<Job>) {
    && s.disk.receipt == expected
    && (expected.Some? ==> OwnOk(record, expected.value, s.h))
  }

  predicate PcOk(s: State) {
    match s.pc
    case Idle => true
    case CooldownFound(notBefore) => s.disk.pending == Some(CoolingDown(notBefore)) && s.disk.receipt == None
    case Fresh => s.disk.pending == None && s.disk.receipt == None
    case Signed(proof) =>
      s.disk.pending == None && s.disk.receipt == None && proof in s.h.signed && proof !in s.h.posted
    case Ready(r, expected, checked, _) =>
      && ExpectedOk(s, r, expected) && r.proof in s.h.signed
      && (checked || expected == None ==> s.disk.pending == Some(Pending(r)))
    case Awaiting(r, expected, _) =>
      ExpectedOk(s, r, expected) && s.disk.pending == Some(Pending(r)) && r.proof in s.h.posted
    case Binding(r, expected) =>
      && s.disk.receipt == expected && r.bound.Some? && OnDisk(s.disk, r.proof) && r.proof in s.h.posted
      && (expected.Some? ==> OwnOk(r, expected.value, s.h))
    case Receipting(r, expected) =>
      && s.disk.receipt == expected && r.bound.Some? && s.disk.pending == Some(Pending(r)) && r.proof in s.h.posted
      && (expected.Some? ==> OwnOk(r, expected.value, s.h))
    case Limited(r, expected) =>
      ExpectedOk(s, r, expected) && s.disk.pending == Some(Pending(r)) && r.proof in s.h.limited
    case Polling(job, own, _) => s.disk.receipt == Some(job) && (own.Some? ==> OwnOk(own.value, job, s.h))
    case Cleaning(job, r, after) =>
      s.disk.receipt == Some(job) && OwnOk(r, job, s.h) && job in s.h.past
    case Quarantined(job, r, name, after) =>
      && s.disk.receipt == Some(job) && OwnOk(r, job, s.h) && job in s.h.past
      && name in s.disk.quarantine && s.disk.pending == None
      && (var file := s.disk.quarantine[name];
          file.Pending? ==> file.record.proof in s.h.signed && OwnOk(file.record, job, s.h))
    case Downloaded(job) => s.disk.receipt == Some(job) && job in s.h.past
    case Saved(job) => s.disk.receipt == Some(job) && job in s.h.reported
  }

  ghost predicate Inv(s: State) {
    DiskOk(s.disk, s.h) && PcOk(s)
  }

  /** The steps of a create request, from its POST to what it leaves on disk. */
  predicate OfRequest(step: Step) {
    step.Post? || step.Reply? || step.PersistBound? || step.PersistReceipt? || step.PersistCooldown?
  }

  lemma RequestKeeps(s: State, step: Step)
    requires Inv(s) && Enabled(s, step) && OfRequest(step)
    ensures Inv(Next(s, step))
  {
  }

  lemma OtherKeeps(s: State, step: Step)
    requires Inv(s) && Enabled(s, step) && !OfRequest(step)
    ensures Inv(Next(s, step))
  {
  }

  lemma StepKeeps(s: State, step: Step)
    requires Inv(s) && Enabled(s, step)
    ensures Inv(Next(s, step))
  {
    if OfRequest(step) { RequestKeeps(s, step); } else { OtherKeeps(s, step); }
  }

  lemma {:induction false} RunKeeps(s: State, steps: seq<Step>)
    requires Inv(s) && Executes(s, steps)
    ensures Inv(Exec(s, steps))
    decreases |steps|
  {
    if steps != [] {
      StepKeeps(s, steps[0]);
      RunKeeps(Next(s, steps[0]), steps[1..]);
    }
  }

  lemma InitialInv()
    ensures Inv(INITIAL)
  {
  }

  // ----- what the history stands for ------------------------------------------------------------------
  // The statements below speak of steps that were taken; the history is their bookkeeping.

  datatype Mark =
    | Sending(proof: Proof)              // a POST with the proof
    | TurnedAway(proof: Proof)           // a 429 to it
    | Naming(proof: Proof, job: Job)     // the server answers it with the job
    | Receipted(proof: Proof, job: Job)  // a receipt of that job is written, the proof being bound to it
    | LeftSettling(job: Job)             // a poll of the job reads it past settling, or gone
    | Succeeding(job: Job)               // a poll of the job reads it succeeded
    | Saving(job: Job)                   // its report is saved

  /** The step, taken in `s`, is of the marked kind. */
  predicate Makes(s: State, step: Step, mark: Mark) {
    match mark
    case Sending(p) => step == Post && s.pc.Ready? && s.pc.record.proof == p
    case TurnedAway(p) => step == Reply(RateLimited) && s.pc.Awaiting? && s.pc.record.proof == p
    case Naming(p, job) => step == Reply(Created(job)) && s.pc.Awaiting? && s.pc.record.proof == p
    case Receipted(p, job) => step == PersistReceipt && s.pc.Receipting? && s.pc.record == Record(p, Some(job))
    case LeftSettling(job) => step.Read? && step.reading != StillSettling && s.pc.Polling? && s.pc.job == job
    case Succeeding(job) => step == Read(Moved(true)) && s.pc.Polling? && s.pc.job == job
    case Saving(job) => step == SaveReport && s.pc == Downloaded(job)
  }

  /** A step of the marked kind has been taken in the run. */
  ghost predicate Marked(steps: seq<Step>, mark: Mark)
    requires Executes(INITIAL, steps)
  {
    MarkedFrom(INITIAL, steps, mark)
  }

  ghost predicate MarkedFrom(s: State, steps: seq<Step>, mark: Mark)
    requires Executes(s, steps)
  {
    exists k: nat :: k < |steps| && Makes(StateAt(s, steps, k), steps[k], mark)
  }

  /** What the state shows of a mark. */
  predicate Noted(s: State, mark: Mark) {
    match mark
    case Sending(p) => p in s.h.posted
    case TurnedAway(p) => p in s.h.limited
    case Naming(p, job) => NamedBy(s.pc, p, job)
    case Receipted(p, job) => (p, job) in s.h.receipted
    case LeftSettling(job) => job in s.h.past
    case Succeeding(job) => Finishes(s.pc, job)
    case Saving(job) => job in s.h.reported
  }

  /** The server's answer to the proof is about to be made durable. */
  predicate NamedBy(pc: Pc, p: Proof, job: Job) {
    (pc.Binding? || pc.Receipting?) && pc.record == Record(p, Some(job))
  }

  /** The poll of the job is over, or ends as soon as the pending file is cleaned up. */
  predicate Finishes(pc: Pc, job: Job) {
    match pc
    case Cleaning(j, _, after) => j == job && after == Finish
    case Quarantined(j, _, _, after) => j == job && after == Finish
    case Downloaded(j) => j == job
    case Saved(j) => j == job
    case _ => false
  }

  /** The marks that the history keeps; the others show only while the process goes on. */
  predicate Kept(mark: Mark) {
    !mark.Naming? && !mark.Succeeding?
  }

  lemma StepNotes(s: State, step: Step, mark: Mark)
    requires Enabled(s, step)
    ensures Noted(Next(s, step), mark) ==> Noted(s, mark) || Makes(s, step, mark)
    ensures Kept(mark) ==> (Noted(Next(s, step), mark) <==> Noted(s, mark) || Makes(s, step, mark))
  {
  }

  lemma {:induction false} NotedWasMade(s: State, steps: seq<Step>, mark: Mark)
    requires Executes(s, steps) && Noted(Exec(s, steps), mark) && !Noted(s, mark)
    ensures MarkedFrom(s, steps, mark)
    decreases |steps|
  {
    var s1, rest := Next(s, steps[0]), steps[1..];
    StepNotes(s, steps[0], mark);
    if Noted(s1, mark) {
      assert Makes(StateAt(s, steps, 0), steps[0], mark);
    } else {
      NotedWasMade(s1, rest, mark);
      var k: nat :| k < |rest| && Makes(StateAt(s1, rest, k), rest[k], mark);
      assert StateAt(s, steps, k + 1) == StateAt(s1, rest, k) && steps[k + 1] == rest[k];
    }
  }

  lemma {:induction false} NotedStays(s: State, steps: seq<Step>, mark: Mark)
    requires Executes(s, steps) && Noted(s, mark) && Kept(mark)
    ensures Noted(Exec(s, steps), mark)
    decreases |steps|
  {
    if steps != [] {
      StepNotes(s, steps[0], mark);
      NotedStays(Next(s, steps[0]), steps[1..], mark);
    }
  }

  /** What the run did is in the history. */
  lemma {:induction false} MadeIsNoted(s: State, steps: seq<Step>, mark: Mark)
    requires Executes(s, steps) && MarkedFrom(s, steps, mark) && Kept(mark)
    ensures Noted(Exec(s, steps), mark)
    decreases |steps|
  {
    var k: nat :| k < |steps| && Makes(StateAt(s, steps, k), steps[k], mark);
    var s1, rest := Next(s, steps[0]), steps[1..];
    StepNotes(s, steps[0], mark);
    if k == 0 {
      NotedStays(s1, rest, mark);
    } else {
      assert StateAt(s, steps, k) == StateAt(s1, rest, k - 1) && steps[k] == rest[k - 1];
      MadeIsNoted(s1, rest, mark);
    }
  }

  /** A report is saved only for a job that was read succeeded. */
  lemma {:induction false} ReportedSucceeded(s: State, steps: seq<Step>, job: Job)
    requires Executes(s, steps) && job in Exec(s, steps).h.reported && job !in s.h.reported && !Finishes(s.pc, job)
    ensures MarkedFrom(s, steps, Succeeding(job))
    decreases |steps|
  {
    var s1, rest := Next(s, steps[0]), steps[1..];
    StepNotes(s, steps[0], Succeeding(job));
    StepNotes(s, steps[0], Saving(job));
    if Finishes(s1.pc, job) {
      assert Makes(StateAt(s, steps, 0), steps[0], Succeeding(job));
    } else {
      ReportedSucceeded(s1, rest, job);
      var k: nat :| k < |rest| && Makes(StateAt(s1, rest, k), rest[k], Succeeding(job));
      assert StateAt(s, steps, k + 1) == StateAt(s1, rest, k) && steps[k + 1] == rest[k];
    }
  }

  /** A receipt is written only for a job that the server named in answer to the proof. */
  lemma {:induction false} ReceiptedWasNamed(s: State, steps: seq<Step>, p: Proof, job: Job)
    requires Executes(s, steps) && (p, job) in Exec(s, steps).h.receipted
    requires (p, job) !in s.h.receipted && !NamedBy(s.pc, p, job)
    ensures MarkedFrom(s, steps, Naming(p, job))
    decreases |steps|
  {
    var s1, rest := Next(s, steps[0]), steps[1..];
    StepNotes(s, steps[0], Naming(p, job));
    StepNotes(s, steps[0], Receipted(p, job));
    if NamedBy(s1.pc, p, job) {
      assert Makes(StateAt(s, steps, 0), steps[0], Naming(p, job));
    } else {
      ReceiptedWasNamed(s1, rest, p, job);
      var k: nat :| k < |rest| && Makes(StateAt(s1, rest, k), rest[k], Naming(p, job));
      assert StateAt(s, steps, k + 1) == StateAt(s1, rest, k) && steps[k + 1] == rest[k];
    }
  }

  // ----- what every run keeps -----------------------------------------------------------------------

  /** The job of the proof is done: named by the server, receipted, read succeeded, and its report saved. */
  ghost predicate Delivered(steps: seq<Step>, p: Proof, job: Job)
    requires Executes(INITIAL, steps)
  {
    && Marked(steps, Naming(p, job)) && Marked(steps, Receipted(p, job))
    && Marked(steps, Succeeding(job)) && Marked(steps, Saving(job))
  }

  /**
   A proof is signed only when nothing is on disk, and only when every proof sent before it
   was either turned away with 429 or belongs to a job that succeeded and whose report was saved.
   */
  lemma NewProofOnlyWhenDone(steps: seq<Step>, p: Proof, q: Proof)
    requires Executes(INITIAL, steps) && Enabled(Exec(INITIAL, steps), Sign(p))
    ensures Exec(INITIAL, steps).disk.pending == None && Exec(INITIAL, steps).disk.receipt == None
    ensures Marked(steps, Sending(q)) ==>
      Marked(steps, TurnedAway(q)) || exists job :: Delivered(steps, q, job)
  {
    InitialInv();
    RunKeeps(INITIAL, steps);
    var s := Exec(INITIAL, steps);
    if Marked(steps, Sending(q)) {
      MadeIsNoted(INITIAL, steps, Sending(q));
      if q in s.h.limited {
        NotedWasMade(INITIAL, steps, TurnedAway(q));
      } else {
        var job :| (q, job) in s.h.receipted && job in s.h.reported;
        DeliveredBy(steps, q, job);
      }
    }
  }

  lemma DeliveredBy(steps: seq<Step>, p: Proof, job: Job)
    requires Executes(INITIAL, steps)
    requires (p, job) in Exec(INITIAL, steps).h.receipted && job in Exec(INITIAL, steps).h.reported
    ensures Delivered(steps, p, job)
  {
    NotedWasMade(INITIAL, steps, Receipted(p, job));
    NotedWasMade(INITIAL, steps, Saving(job));
    ReceiptedWasNamed(INITIAL, steps, p, job);
    ReportedSucceeded(INITIAL, steps, job);
  }

  /** Every proof is durable before it is sent, each time it is sent. */
  lemma DurableBeforePost(steps: seq<Step>)
    requires Executes(INITIAL, steps) && Enabled(Exec(INITIAL, steps), Post)
    ensures var s := Exec(INITIAL, steps); s.disk.pending == Some(Pending(s.pc.record))
  {
    InitialInv();
    RunKeeps(INITIAL, steps);
  }

  /**
   A proof that was sent stays on disk until the server has answered 429, or a receipt of its
   job was durable and that job was read past settling.
   */
  lemma ProofIsRetained(steps: seq<Step>, p: Proof)
    requires Executes(INITIAL, steps) && Marked(steps, Sending(p))
    ensures
      || OnDisk(Exec(INITIAL, steps).disk, p) || Marked(steps, TurnedAway(p))
      || exists job :: Marked(steps, Receipted(p, job)) && Marked(steps, LeftSettling(job))
  {
    InitialInv();
    RunKeeps(INITIAL, steps);
    MadeIsNoted(INITIAL, steps, Sending(p));
    var s := Exec(INITIAL, steps);
    if !OnDisk(s.disk, p) {
      if p in s.h.limited {
        NotedWasMade(INITIAL, steps, TurnedAway(p));
      } else {
        var job :| (p, job) in s.h.receipted && job in s.h.past;
        NotedWasMade(INITIAL, steps, Receipted(p, job));
        NotedWasMade(INITIAL, steps, LeftSettling(job));
      }
    }
  }

  /** A pending record beside a receipt is bound to the receipt's job. */
  lemma PendingIsBoundToReceipt(steps: seq<Step>, r: Record)
    requires Executes(INITIAL, steps)
    ensures var d := Exec(INITIAL, steps).disk;
      d.pending == Some(Pending(r)) && d.receipt.Some? ==> r.bound == d.receipt
  {
    InitialInv();
    RunKeeps(INITIAL, steps);
  }

  /** A report is saved, and a receipt removed, only for a job that some poll of it read succeeded. */
  lemma SavedOnlyIfSucceeded(steps: seq<Step>, job: Job)
    requires Executes(INITIAL, steps)
    requires Exec(INITIAL, steps).pc == Downloaded(job) || Exec(INITIAL, steps).pc == Saved(job)
    ensures Marked(steps, Succeeding(job))
  {
    NotedWasMade(INITIAL, steps, Succeeding(job));
  }

  /** A receipt goes only once its job has succeeded and the report is saved. */
  lemma ReceiptOutlivesPolling(steps: seq<Step>, p: Proof, job: Job)
    requires Executes(INITIAL, steps) && Marked(steps, Receipted(p, job))
    ensures Exec(INITIAL, steps).disk.receipt == Some(job) || Delivered(steps, p, job)
  {
    MadeIsNoted(INITIAL, steps, Receipted(p, job));
    InitialInv();
    RunKeeps(INITIAL, steps);
    if Exec(INITIAL, steps).disk.receipt != Some(job) {
      DeliveredBy(steps, p, job);
    }
  }

  // ----- what the process does next --------------------------------------------------------------------

  /** The pending path is as the poll left it, or empty. */
  predicate Undisturbed(s: State) {
    s.pc.Polling? && (s.pc.own.Some? ==> s.disk.pending == None || s.disk.pending == Some(Pending(s.pc.own.value)))
  }

  lemma {:induction false} FreeName(used: map<nat, File>) returns (name: nat)
    ensures name !in used
  {
    var keys := used.Keys;
    name := 0;
    while keys != {}
      invariant forall k :: k in used ==> k in keys || k < name
      decreases |keys|
    {
      var k :| k in keys;
      keys := keys - {k};
      name := if k < name then name else k + 1;
    }
  }

  /** A reading past settling removes the poll's own pending record, if it still stands, and the process goes on. */
  lemma ReadingIsActedOn(s: State, reading: Reading) returns (steps: seq<Step>, s': State)
    requires Undisturbed(s) && reading != StillSettling
    ensures Executes(s, steps) && Exec(s, steps) == s'
    ensures steps != [] && steps[0] == Read(reading) && Crash !in steps
    ensures s'.pc == if reading == Gone then Idle
                     else if reading.succeeded then Downloaded(s.pc.job)
                     else Polling(s.pc.job, None, false)
    ensures s'.disk == s.disk.(pending := if s.pc.own.Some? then None else s.disk.pending)
    ensures s'.h.reported == s.h.reported
  {
    var name := FreeName(s.disk.quarantine);
    if s.pc.own.None? {
      steps := [Read(reading)];
      s' := Walk(s, steps, 0);
    } else if s.disk.pending == None {
      steps := [Read(reading), Quarantine(name)];
      var s1 := Walk(s, steps, 0);
      s' := Walk(s1, steps, 1);
    } else {
      steps := [Read(reading), Quarantine(name), Judge(true)];
      var s1 := Walk(s, steps, 0);
      var s2 := Walk(s1, steps, 1);
      s' := Walk(s2, steps, 2);
      assert s'.disk.quarantine == s.disk.quarantine;
    }
    assert steps[|steps|..] == [] && steps[0..] == steps;
  }

  /** Whatever else stands at the pending path by then is put back as it was, and the process ends. */
  lemma ForeignIsPutBack(s: State, reading: Reading) returns (steps: seq<Step>)
    requires s.pc.Polling? && !Undisturbed(s) && reading != StillSettling
    ensures Executes(s, steps) && steps != [] && steps[0] == Read(reading)
    ensures Exec(s, steps).pc == Idle
    ensures Exec(s, steps).disk.pending == s.disk.pending && Exec(s, steps).disk.receipt == s.disk.receipt
  {
    var name := FreeName(s.disk.quarantine);
    steps := [Read(reading), Quarantine(name), Judge(true)];
    var s1 := Walk(s, steps, 0);
    var s2 := Walk(s1, steps, 1);
    var s3 := Walk(s2, steps, 2);
    assert steps[3..] == [] && steps[0..] == steps;
  }

  /** A job read succeeded is reported, and its receipt removed, by the process's own steps. */
  lemma SucceededIsDelivered(s: State) returns (steps: seq<Step>)
    requires Undisturbed(s)
    ensures Executes(s, steps) && steps != [] && steps[0] == Read(Moved(true)) && Crash !in steps
    ensures
      var last := Exec(s, steps);
      last.pc == Idle && s.pc.job in last.h.reported && last.disk.receipt == None
  {
    var first, s1 := ReadingIsActedOn(s, Moved(true));
    var rest := [SaveReport, RemoveReceipt];
    var s2 := Walk(s1, rest, 0);
    var s3 := Walk(s2, rest, 1);
    assert rest[2..] == [] && rest[0..] == rest;
    ExecAppend(s, first, rest);
    steps := first + rest;
    NoCrash(first, rest);
  }

  lemma NoCrash(first: seq<Step>, rest: seq<Step>)
    ensures Crash !in first && Crash !in rest ==> Crash !in first + rest
  {
  }

  /** A job read queued, running or failed keeps its receipt, and the polling goes on. */
  lemma UnfinishedIsPolledOn(s: State) returns (steps: seq<Step>)
    requires Undisturbed(s)
    ensures Executes(s, steps) && steps != [] && steps[0] == Read(Moved(false))
    ensures
      var last := Exec(s, steps);
      last.pc == Polling(s.pc.job, None, false) && last.disk.receipt == s.disk.receipt
      && last.h.reported == s.h.reported
  {
    var s';
    steps, s' := ReadingIsActedOn(s, Moved(false));
  }

  /** A job that is gone keeps its receipt too, and the process ends. */
  lemma GoneIsGivenUp(s: State) returns (steps: seq<Step>)
    requires Undisturbed(s)
    ensures Executes(s, steps) && steps != [] && steps[0] == Read(Gone)
    ensures Exec(s, steps).pc == Idle && Exec(s, steps).disk.receipt == s.disk.receipt
  {
    var s';
    steps, s' := ReadingIsActedOn(s, Gone);
  }

  /** A proof found on disk without a receipt is sent again, and a job the server names for it gets its receipt. */
  lemma PendingIsResumed(s: State, r: Record, job: Job, attempts: nat) returns (steps: seq<Step>)
    requires s.pc == Idle && s.disk.pending == Some(Pending(r)) && s.disk.receipt == None
    requires attempts >= 1 && (r.bound == None || r.bound == Some(job))
    ensures Executes(s, steps) && steps == [Start(attempts), Post, Reply(Created(job)), PersistBound, PersistReceipt]
    ensures
      var last := Exec(s, steps);
      last.pc == Polling(job, Some(Record(r.proof, Some(job))), false)
      && last.disk.receipt == Some(job) && last.disk.pending == Some(Pending(Record(r.proof, Some(job))))
  {
    steps := [Start(attempts), Post, Reply(Created(job)), PersistBound, PersistReceipt];
    var s1 := Walk(s, steps, 0);
    var s2 := Walk(s1, steps, 1);
    var s3 := Walk(s2, steps, 2);
    var s4 := Walk(s3, steps, 3);
    var s5 := Walk(s4, steps, 4);
    assert steps[5..] == [] && steps[0..] == steps;
  }

  /** With nothing on disk, or a cooldown that is over, a fresh proof is signed and put on disk. */
  lemma FreshIsSigned(s: State, p: Proof, attempts: nat) returns (steps: seq<Step>)
    requires s.pc == Idle && s.disk.receipt == None && p !in s.h.signed && attempts >= 1
    requires s.disk.pending == None || s.disk.pending.value.CoolingDown?
    ensures Executes(s, steps) && Exec(s, steps).pc == Ready(Record(p, None), None, false, attempts)
    ensures Exec(s, steps).disk.pending == Some(Pending(Record(p, None)))
  {
    if s.disk.pending == None {
      steps := [Start(attempts), Sign(p), PersistPending(attempts)];
      var s1 := Walk(s, steps, 0);
      var s2 := Walk(s1, steps, 1);
      var s3 := Walk(s2, steps, 2);
    } else {
      steps := [Start(attempts), ClearCooldown(s.disk.pending.value.notBefore), Sign(p), PersistPending(attempts)];
      var s1 := Walk(s, steps, 0);
      var s2 := Walk(s1, steps, 1);
      var s3 := Walk(s2, steps, 2);
      var s4 := Walk(s3, steps, 3);
    }
    assert steps[|steps|..] == [] && steps[0..] == steps;
  }

  /** A retryable answer leads to another POST of the same record, as long as attempts are left, and to nothing else. */
  lemma RetryableIsSentAgain(s: State)
    requires s.pc.Awaiting?
    ensures var next := Next(s, Reply(Retryable));
      if s.pc.attempts > 1
      then Enabled(next, Post) && next.pc.record == s.pc.record && next.pc.attempts == s.pc.attempts - 1
      else !next.pc.Ready?
  {
  }

  /** The record already names another job than `job`, or the poll that recovers it waits for another. */
  predicate Contradicts(s: State, job: Job)
    requires s.pc.Awaiting?
  {
    || (s.pc.record.bound.Some? && s.pc.record.bound.value != job)
    || (s.pc.expected.Some? && s.pc.expected.value.id != job.id)
  }

  /** An answer ends the process exactly if it is final, names another job, or is the last of a request outside a poll. */
  lemma AnswersThatEnd(s: State, answer: Answer)
    requires s.pc.Awaiting?
    ensures Next(s, Reply(answer)).disk == s.disk
    ensures Next(s, Reply(answer)).pc == Idle <==>
      || answer == Fatal
      || (answer.Created? && Contradicts(s, answer.job))
      || (answer == Retryable && s.pc.attempts <= 1 && s.pc.expected == None)
  {
  }

  /** Nothing is signed, and nothing sent, from a cooldown on disk before it is over. */
  lemma {:induction false} CooldownIsWaitedOut(s: State, steps: seq<Step>, notBefore: int)
    requires s.pc == Idle || s.pc == CooldownFound(notBefore)
    requires s.disk.pending == Some(CoolingDown(notBefore)) && s.disk.receipt == None && Executes(s, steps)
    ensures
      || (Exec(s, steps).disk == s.disk && Exec(s, steps).h == s.h)
      || exists k: nat, now: int :: k < |steps| && steps[k] == ClearCooldown(now) && now >= notBefore
    decreases |steps|
  {
    if steps != [] {
      var s1, rest := Next(s, steps[0]), steps[1..];
      if steps[0].ClearCooldown? {
        assert steps[0] == ClearCooldown(steps[0].now);
      } else {
        CooldownIsWaitedOut(s1, rest, notBefore);
        if k: nat, now: int :| k < |rest| && rest[k] == ClearCooldown(now) && now >= notBefore {
          assert steps[k + 1] == ClearCooldown(now);
        }
      }
    }
  }

  /** A poll that still sees its job settling sends its pending record again, once. */
  lemma SettlingIsRecovered(s: State) returns (steps: seq<Step>)
    requires Undisturbed(s) && s.pc.own.Some? && s.disk.pending == Some(Pending(s.pc.own.value))
    ensures Executes(s, steps) && steps == [Read(StillSettling), Recover, Post]
    ensures Exec(s, steps).pc == Awaiting(s.pc.own.value, Some(s.pc.job), 1)
    ensures Exec(s, steps).disk == s.disk
  {
    steps := [Read(StillSettling), Recover, Post];
    var s1 := Walk(s, steps, 0);
    var s2 := Walk(s1, steps, 1);
    var s3 := Walk(s2, steps, 2);
    assert steps[3..] == [] && steps[0..] == steps;
  }

  // ----- the state nothing leads out of -----------------------------------------------------------

  /** A cooldown beside a receipt. */
  predicate Stuck(d: Disk) {
    d.pending.Some? && d.pending.value.CoolingDown? && d.receipt.Some?
  }

  /** Once the process has ended in it, no restart changes the disk or sends anything. */
  lemma {:induction false} StuckForever(s: State, steps: seq<Step>)
    requires s.pc == Idle && Stuck(s.disk) && Executes(s, steps)
    ensures Exec(s, steps) == s
    decreases |steps|
  {
    if steps != [] {
      assert Next(s, steps[0]) == s;
      StuckForever(s, steps[1..]);
    }
  }

  /** Any other disk lets the process start: a poll, a POST of the same proof, or a fresh request. */
  lemma StartsUnlessStuck(steps: seq<Step>, attempts: nat)
    requires Executes(INITIAL, steps) && Exec(INITIAL, steps).pc == Idle && attempts >= 1
    ensures var s := Exec(INITIAL, steps);
      Next(s, Start(attempts)).pc == Idle <==> Stuck(s.disk)
  {
    InitialInv();
    RunKeeps(INITIAL, steps);
  }

  /** A receipt on disk is polled for, with the pending record beside it, if there is one, as the poll's own. */
  lemma ReceiptIsPolledFor(steps: seq<Step>, attempts: nat)
    requires Executes(INITIAL, steps) && Exec(INITIAL, steps).pc == Idle && attempts >= 1
    requires Exec(INITIAL, steps).disk.receipt.Some? && !Stuck(Exec(INITIAL, steps).disk)
    ensures var s := Exec(INITIAL, steps); var next := Next(s, Start(attempts));
      next.pc.Polling? && Some(next.pc.job) == s.disk.receipt && Undisturbed(next)
      && (next.pc.own.Some? <==> s.disk.pending.Some?)
  {
    InitialInv();
    RunKeeps(INITIAL, steps);
  }

  lemma RequestIsReachable() returns (steps: seq<Step>, s: State)
    ensures Executes(INITIAL, steps) && Exec(INITIAL, steps) == s
    ensures s.pc == Awaiting(Record(0, None), None, 3)
    ensures s.disk.pending == Some(Pending(Record(0, None))) && s.disk.receipt == None
  {
    steps := [Start(3), Sign(0), PersistPending(3), Post];
    var s1 := Walk(INITIAL, steps, 0);
    var s2 := Walk(s1, steps, 1);
    var s3 := Walk(s2, steps, 2);
    s := Walk(s3, steps, 3);
    assert steps[4..] == [] && steps[0..] == steps;
  }

  lemma ReceiptFollows(s: State, job: Job) returns (steps: seq<Step>, s': State)
    requires s.pc == Awaiting(Record(0, None), None, 3)
    ensures Executes(s, steps) && Exec(s, steps) == s'
    ensures s'.pc == Polling(job, Some(Record(0, Some(job))), false)
    ensures s'.disk.pending == Some(Pending(Record(0, Some(job)))) && s'.disk.receipt == Some(job)
  {
    steps := [Reply(Created(job)), PersistBound, PersistReceipt];
    var s1 := Walk(s, steps, 0);
    var s2 := Walk(s1, steps, 1);
    s' := Walk(s2, steps, 2);
    assert steps[3..] == [] && steps[0..] == steps;
  }

  /** A 429 answered to a settling recovery leads from a poll with its pending record to a stuck disk. */
  lemma LimitedRecoverySticks(s: State, job: Job, r: Record, notBefore: int) returns (steps: seq<Step>)
    requires s.pc == Polling(job, Some(r), false)
    requires s.disk.pending == Some(Pending(r)) && s.disk.receipt == Some(job)
    ensures Executes(s, steps) && Exec(s, steps).pc == Idle && Stuck(Exec(s, steps).disk)
  {
    steps := [Read(StillSettling), Recover, Post, Reply(RateLimited), PersistCooldown(notBefore), Crash];
    var s1 := Walk(s, steps, 0);
    var s2 := Walk(s1, steps, 1);
    var s3 := Walk(s2, steps, 2);
    var s4 := Walk(s3, steps, 3);
    var s5 := Walk(s4, steps, 4);
    var s6 := Walk(s5, steps, 5);
    assert steps[6..] == [] && steps[0..] == steps;
  }

  /** So a stuck disk is reachable. */
  lemma StuckIsReachable(notBefore: int)
    ensures exists steps ::
      Executes(INITIAL, steps) && Exec(INITIAL, steps).pc == Idle && Stuck(Exec(INITIAL, steps).disk)
  {
    var job := Job(1, 1);
    var send, sent := RequestIsReachable();
    var accept, polling := ReceiptFollows(sent, job);
    ExecAppend(INITIAL, send, accept);
    var recover := LimitedRecoverySticks(polling, job, Record(0, Some(job)), notBefore);
    ExecAppend(INITIAL, send + accept, recover);
  }

  /** The server answers 429 to a POST that recovers a job still settling; only Recover names an expected job. */
  predicate LimitsRecovery(s: State, step: Step) {
    step == Reply(RateLimited) && s.pc.Awaiting? && s.pc.expected.Some?
  }

  /** A stuck disk, or what is about to become one. */
  predicate StuckAhead(s: State) {
    || Stuck(s.disk)
    || (s.pc.Limited? && s.pc.expected.Some?)
    || (s.pc.Quarantined? && s.pc.name in s.disk.quarantine && s.disk.quarantine[s.pc.name].CoolingDown?)
  }

  lemma {:induction false} StuckFrom(s: State, steps: seq<Step>)
    requires Inv(s) && Executes(s, steps) && StuckAhead(Exec(s, steps)) && !StuckAhead(s)
    ensures exists k: nat :: k < |steps| && LimitsRecovery(StateAt(s, steps, k), steps[k])
    decreases |steps|
  {
    var s1, rest := Next(s, steps[0]), steps[1..];
    StepKeeps(s, steps[0]);
    if StuckAhead(s1) {
      assert LimitsRecovery(StateAt(s, steps, 0), steps[0]);
    } else {
      StuckFrom(s1, rest);
      var k: nat :| k < |rest| && LimitsRecovery(StateAt(s1, rest, k), rest[k]);
      assert StateAt(s, steps, k + 1) == StateAt(s1, rest, k) && steps[k + 1] == rest[k];
    }
  }

  /** And only so: in every run that ends with a stuck disk a settling recovery was answered 429. */
  lemma StuckOnlyByLimitedRecovery(steps: seq<Step>)
    requires Executes(INITIAL, steps) && Stuck(Exec(INITIAL, steps).disk)
    ensures exists k: nat :: k < |steps| && LimitsRecovery(StateAt(INITIAL, steps, k), steps[k])
  {
    InitialInv();
    StuckFrom(INITIAL, steps);
  }

  lemma {:induction false} ExecAppend(s: State, a: seq<Step>, b: seq<Step>)
    requires Executes(s, a) && Executes(Exec(s, a), b)
    ensures Executes(s, a + b) && Exec(s, a + b) == Exec(Exec(s, a), b)
    decreases |a|
  {
    if a == [] {
      assert a + b == b;
    } else {
      assert (a + b)[0] == a[0] && (a + b)[1..] == a[1..] + b;
      ExecAppend(Next(s, a[0]), a[1..], b);
    }
  }

  /** One step of a given run; reading the calls backwards shows that the run is one. */
  lemma Walk(s: State, steps: seq<Step>, i: nat) returns (next: State)
    requires i < |steps| && Enabled(s, steps[i])
    ensures next == Next(s, steps[i])
    ensures Executes(next, steps[i + 1..]) ==>
      Executes(s, steps[i..]) && Exec(s, steps[i..]) == Exec(next, steps[i + 1..])
  {
    next := Next(s, steps[i]);
    assert steps[i..][0] == steps[i] && steps[i..][1..] == steps[i + 1..];
  }
}
