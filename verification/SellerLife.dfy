/**
 One job's life in the seller's process. Its coroutines run on one thread, so what they do
 between two awaits is one step; a run is any sequence of steps of notifications, sweeps,
 the job's workers, their submit threads, timeouts, and pruning on behalf of other jobs.
 */
module SellerLife {
  import opened Wrappers

  /** Identifies the authorization-bound context of a notification. */
  type Digest = nat

  /** An uncancellable submit thread. */
  datatype Thread = Running | Succeeded | Failed(permanent: bool)

  datatype Stage =
    | Scheduled
    | Checking
    | AwaitingContext
    | Working(context: Option<Digest>)
    | Submitting(context: Option<Digest>, thread: Thread)
    | Draining(context: Option<Digest>, thread: Thread)  // cancelled, but not before the thread exits
    | Ending(terminal: bool)

  /** A background task that delivers the job; verified if a notification vouches for it. */
  datatype Worker = Worker(verified: bool, stage: Stage)

  /**
   What the seller keeps about a job. `mode` is the mode of the worker that owns the inflight
   slot, `reporting` counts notifications between their installation and their spawn. The last
   two fields only record what has happened: submits that returned success, and whether
   pruning has taken a context away.
   */
  datatype Life = Life(
    inflight: bool,
    mode: Option<bool>,
    handoff: bool,
    late: bool,
    handled: bool,
    contextless: bool,
    context: Option<Digest>,
    worker: Option<Worker>,
    reporting: nat,
    successes: nat,
    evicted: bool
  )

  const UNKNOWN: Life := Life(false, None, false, false, false, false, None, None, 0, 0, false)

  datatype Answer = Installed | DeliveryStarted | ContextConflict

  datatype Event =
    | Notified(digest: Digest)     // a verified notification tries to install its context
    | Accepted                     // an installed notification spawns its delivery
    | Dropped                      // or ends before it does
    | Swept                        // the sweep finds the job funded
    | Pruned                       // another job's bookkeeping takes this one's away
    | Of(step: WorkerStep)

  datatype WorkerStep =
    | Begun                        // a scheduled worker takes its first step
    | Refused(permanent: bool)     // the sweep's check of the signed deal fails
    | Checked(waits: bool)         // or passes; the worker waits for a context if it may
    | WaitOver
    | WorkFailed
    | SubmitStarted
    | ThreadExited(result: Thread)
    | Resumed                      // the worker sees its thread's result
    | Cancelled                    // a timeout, or a second one
    | Drained                      // a cancelled worker sees that its thread has exited
    | Finalized

  // ----- steps ----------------------------------------------------------------------------------

  function Answered(l: Life, digest: Digest): Answer {
    if l.handled || l.late || l.contextless then DeliveryStarted
    else if l.context.Some? && l.context.value != digest then ContextConflict
    else Installed
  }

  /** Work is started only for a job that is neither under way nor over. */
  function Spawned(l: Life, verified: bool): Life {
    if l.handled || l.late then l
    else if l.inflight then
      if verified && l.mode == Some(false) then l.(handoff := true) else l
    else l.(inflight := true, mode := Some(verified), worker := Some(Worker(verified, Scheduled)))
  }

  /** Nothing has happened to the job's context and its notifications. */
  predicate ContextKept(l: Life, next: Life) {
    next.context == l.context && next.evicted == l.evicted && next.handled == l.handled && next.reporting == l.reporting
  }

  function At(l: Life, stage: Stage): (next: Life)
    requires l.worker.Some?
    ensures ContextKept(l, next) && next.successes == l.successes
  {
    l.(worker := Some(l.worker.value.(stage := stage)))
  }

  /** The worker reads the job's context, and from then on its absence is a fact. */
  function Works(l: Life): (next: Life)
    requires l.worker.Some?
    ensures ContextKept(l, next) && next.successes == l.successes
  {
    At(l.(contextless := l.contextless || l.context == None), Working(l.context))
  }

  /** What a waiting worker does when its wait is over. */
  function Waited(l: Life, needsContext: bool): (next: Life)
    requires l.worker.Some?
    ensures ContextKept(l, next) && next.successes == l.successes
  {
    if l.context == None && needsContext then At(l, Ending(false)) else Works(l)
  }

  function Ended(l: Life): Life
    requires l.worker.Some? && l.worker.value.stage.Ending?
  {
    var w := l.worker.value;
    if w.stage.terminal || l.late then
      l.(inflight := false, mode := None, handoff := false, late := false, handled := true,
         contextless := false, context := None, worker := None)
    else
      var freed := l.(inflight := false, mode := None, handoff := false, contextless := false, worker := None);
      if !w.verified && l.handoff && l.context.Some? then Spawned(freed, true) else freed
  }

  predicate HasThread(stage: Stage) {
    stage.Submitting? || stage.Draining?
  }

  predicate WorkerEnabled(stage: Stage, step: WorkerStep) {
    match step
    case Begun => stage == Scheduled
    case Refused(_) => stage == Checking
    case Checked(_) => stage == Checking
    case WaitOver => stage == AwaitingContext
    case WorkFailed => stage.Working?
    case SubmitStarted => stage.Working?
    case ThreadExited(result) => HasThread(stage) && stage.thread == Running && result != Running
    case Resumed => stage.Submitting? && stage.thread != Running
    case Cancelled => !stage.Ending?
    case Drained => stage.Draining? && stage.thread != Running
    case Finalized => stage.Ending?
  }

  predicate Enabled(l: Life, e: Event) {
    match e
    case Notified(_) => true
    case Swept => true
    case Accepted => l.reporting > 0
    case Dropped => l.reporting > 0
    case Pruned => !l.inflight && !l.handoff
    case Of(step) => l.worker.Some? && WorkerEnabled(l.worker.value.stage, step)
  }

  function Stopped(l: Life): (next: Life)
    requires l.worker.Some?
    ensures ContextKept(l, next) && next.successes == l.successes
  {
    var stage := l.worker.value.stage;
    match stage
    case Submitting(context, thread) => At(l, Draining(context, thread))
    case Draining(_, _) => l
    case _ => At(l, Ending(false))
  }

  function ThreadOver(l: Life, result: Thread): (next: Life)
    requires l.worker.Some? && HasThread(l.worker.value.stage)
    ensures ContextKept(l, next)
  {
    var stage := l.worker.value.stage;
    var next := if stage.Submitting? then Submitting(stage.context, result) else Draining(stage.context, result);
    At(l.(successes := l.successes + (if result == Succeeded then 1 else 0)), next)
  }

  function WorkerNext(l: Life, step: WorkerStep, needsContext: bool): (next: Life)
    requires l.worker.Some? && WorkerEnabled(l.worker.value.stage, step)
    ensures step != Finalized ==> ContextKept(l, next)
  {
    var w := l.worker.value;
    match step
    case Begun => if w.verified then Works(l) else At(l, Checking)
    case Refused(permanent) => At(l, Ending(permanent))
    case Checked(waits) =>
      if l.context.Some? then Works(l) else if waits then At(l, AwaitingContext) else Waited(l, needsContext)
    case WaitOver => Waited(l, needsContext)
    case WorkFailed => At(l, Ending(false))
    case SubmitStarted => At(l, Submitting(w.stage.context, Running))
    case ThreadExited(result) => ThreadOver(l, result)
    case Resumed => At(l, Ending(w.stage.thread == Succeeded || w.stage.thread == Failed(true)))
    case Cancelled => Stopped(l)
    case Drained => At(l.(late := l.late || w.stage.thread == Succeeded), Ending(false))
    case Finalized => Ended(l)
  }

  function Next(l: Life, e: Event, needsContext: bool): Life
    requires Enabled(l, e)
  {
    match e
    case Notified(digest) =>
      if Answered(l, digest) == Installed then l.(context := Some(digest), reporting := l.reporting + 1) else l
    case Accepted => Spawned(l.(reporting := l.reporting - 1), true)
    case Dropped => l.(reporting := l.reporting - 1)
    case Swept => Spawned(l, false)
    case Pruned => l.(context := None, evicted := l.evicted || l.context.Some?)
    case Of(step) => WorkerNext(l, step, needsContext)
  }

  predicate Executes(l: Life, events: seq<Event>, needsContext: bool)
    decreases |events|
  {
    events == [] || (Enabled(l, events[0]) && Executes(Next(l, events[0], needsContext), events[1..], needsContext))
  }

  function Exec(l: Life, events: seq<Event>, needsContext: bool): Life
    requires Executes(l, events, needsContext)
    decreases |events|
  {
    if events == [] then l else Exec(Next(l, events[0], needsContext), events[1..], needsContext)
  }

  // ----- the invariant ----------------------------------------------------------------------------

  /** The worker has read its job's context. */
  predicate HasRead(stage: Stage) {
    stage.Working? || stage.Submitting? || stage.Draining?
  }

  /** The worker that owns the job's slot. */
  predicate WorkerOk(l: Life, w: Worker, needsContext: bool) {
    && (w.verified ==> !w.stage.Checking? && !w.stage.AwaitingContext?)
    && (w.verified && w.stage == Scheduled ==> l.context.Some? || l.evicted)
    && (HasRead(w.stage) ==>
          && (w.stage.context.Some? ==> l.context == w.stage.context)
          && (w.stage.context == None ==> l.contextless && (if w.verified then l.evicted else !needsContext)))
    && (HasThread(w.stage) ==> (w.stage.thread == Succeeded <==> l.successes > 0))
    && (!HasThread(w.stage) && !w.stage.Ending? ==> l.successes == 0)
    && (w.stage == Ending(false) ==> (l.late <==> l.successes > 0))
  }

  predicate LifeOk(l: Life, needsContext: bool) {
    && l.inflight == l.worker.Some? && l.mode == (if l.worker.Some? then Some(l.worker.value.verified) else None)
    && (l.worker.Some? ==> !l.handled && WorkerOk(l, l.worker.value, needsContext))
    && l.successes <= 1 && (l.worker == None && l.successes > 0 ==> l.handled)
    && (l.late ==> l.successes > 0 && l.worker.Some? && l.worker.value.stage == Ending(false))
    && (l.contextless ==> l.context == None && l.worker.Some? && (HasRead(l.worker.value.stage) || l.worker.value.stage.Ending?))
    && (l.handled ==> l.context == None)
    && (l.handoff ==> l.mode == Some(false) && (l.context.Some? || l.evicted))
    && (l.reporting > 0 ==> l.context.Some? || l.handled || l.evicted)
  }

  lemma WorksKeeps(l: Life, needsContext: bool)
    requires LifeOk(l, needsContext) && l.worker.Some? && l.successes == 0 && !l.worker.value.stage.Ending?
    requires l.context.Some? || (if l.worker.value.verified then l.evicted else !needsContext)
    ensures LifeOk(Works(l), needsContext)
  {
  }

  lemma EndingKeeps(l: Life, terminal: bool, needsContext: bool)
    requires LifeOk(l, needsContext) && l.worker.Some? && !l.worker.value.stage.Ending?
    requires !terminal ==> l.successes == 0
    ensures LifeOk(At(l, Ending(terminal)), needsContext)
  {
  }

  lemma ThreadKeeps(l: Life, result: Thread, needsContext: bool)
    requires LifeOk(l, needsContext) && Enabled(l, Of(ThreadExited(result)))
    ensures LifeOk(ThreadOver(l, result), needsContext)
  {
  }

  lemma DrainedKeeps(l: Life, needsContext: bool)
    requires LifeOk(l, needsContext) && Enabled(l, Of(Drained))
    ensures LifeOk(WorkerNext(l, Drained, needsContext), needsContext)
  {
  }

  lemma StoppedKeeps(l: Life, needsContext: bool)
    requires LifeOk(l, needsContext) && Enabled(l, Of(Cancelled))
    ensures LifeOk(Stopped(l), needsContext)
  {
    if !HasThread(l.worker.value.stage) {
      EndingKeeps(l, false, needsContext);
    }
  }

  lemma EndedKeeps(l: Life, needsContext: bool)
    requires LifeOk(l, needsContext) && Enabled(l, Of(Finalized))
    ensures LifeOk(Ended(l), needsContext)
  {
  }

  lemma WaitedKeeps(l: Life, needsContext: bool)
    requires LifeOk(l, needsContext) && l.worker.Some? && l.successes == 0
    requires !l.worker.value.verified && !l.worker.value.stage.Ending?
    ensures LifeOk(Waited(l, needsContext), needsContext)
  {
    if l.context == None && needsContext {
      EndingKeeps(l, false, needsContext);
    } else {
      WorksKeeps(l, needsContext);
    }
  }

  lemma WorkerStepKeeps(l: Life, step: WorkerStep, needsContext: bool)
    requires LifeOk(l, needsContext) && Enabled(l, Of(step))
    ensures LifeOk(WorkerNext(l, step, needsContext), needsContext)
  {
    match step
    case Begun => if l.worker.value.verified { WorksKeeps(l, needsContext); }
    case Refused(permanent) => EndingKeeps(l, permanent, needsContext);
    case Checked(_) => if l.context.Some? { WorksKeeps(l, needsContext); } else { WaitedKeeps(l, needsContext); }
    case WaitOver => WaitedKeeps(l, needsContext);
    case WorkFailed => EndingKeeps(l, false, needsContext);
    case SubmitStarted =>
    case ThreadExited(result) => ThreadKeeps(l, result, needsContext);
    case Resumed =>
      var thread := l.worker.value.stage.thread;
      EndingKeeps(l, thread == Succeeded || thread == Failed(true), needsContext);
    case Cancelled => StoppedKeeps(l, needsContext);
    case Drained => DrainedKeeps(l, needsContext);
    case Finalized => EndedKeeps(l, needsContext);
  }

  lemma StepKeeps(l: Life, e: Event, needsContext: bool)
    requires LifeOk(l, needsContext) && Enabled(l, e)
    ensures LifeOk(Next(l, e, needsContext), needsContext)
  {
    if e.Of? {
      WorkerStepKeeps(l, e.step, needsContext);
    }
  }

  lemma {:induction false} RunKeeps(l: Life, events: seq<Event>, needsContext: bool)
    requires LifeOk(l, needsContext) && Executes(l, events, needsContext)
    ensures LifeOk(Exec(l, events, needsContext), needsContext)
    decreases |events|
  {
    if events != [] {
      StepKeeps(l, events[0], needsContext);
      RunKeeps(Next(l, events[0], needsContext), events[1..], needsContext);
    }
  }

  // ----- what every run keeps ---------------------------------------------------------------------

  lemma ReachableOk(events: seq<Event>, needsContext: bool)
    requires Executes(UNKNOWN, events, needsContext)
    ensures LifeOk(Exec(UNKNOWN, events, needsContext), needsContext)
  {
    RunKeeps(UNKNOWN, events, needsContext);
  }

  /**
   At most one submit of a job ever returns success, and once one has, no event starts a
   further submit or a further worker, be it a notification, a sweep or a hand-off.
   */
  lemma DeliversOnce(events: seq<Event>, e: Event, needsContext: bool)
    requires Executes(UNKNOWN, events, needsContext)
    ensures var l := Exec(UNKNOWN, events, needsContext);
      && SubmitsSucceeded(events) <= 1
      && (SubmitsSucceeded(events) == 1 && Enabled(l, e) ==>
            && e != Of(SubmitStarted)
            && (l.worker == None ==> Next(l, e, needsContext).worker == None)
            && !IsScheduled(Next(l, e, needsContext).worker))
  {
    CountsAreKept(UNKNOWN, events, needsContext);
    ReachableOk(events, needsContext);
  }

  predicate SubmitSucceeds(e: Event) {
    e == Of(ThreadExited(Succeeded))
  }

  /** How many events of the run are submits that return success. */
  function SubmitsSucceeded(events: seq<Event>): nat {
    if events == [] then 0 else (if SubmitSucceeds(events[0]) then 1 else 0) + SubmitsSucceeded(events[1..])
  }

  /** How many installed notifications of the run have neither spawned their delivery nor ended. */
  function Unsettled(l: Life, events: seq<Event>, needsContext: bool): int
    requires Executes(l, events, needsContext)
    decreases |events|
  {
    if events == [] then 0
    else
      var e := events[0];
      (if e.Notified? && Answered(l, e.digest) == Installed then 1
       else if e.Accepted? || e.Dropped? then -1 else 0)
      + Unsettled(Next(l, e, needsContext), events[1..], needsContext)
  }

  lemma WorkerStepCounts(l: Life, step: WorkerStep, needsContext: bool)
    requires Enabled(l, Of(step))
    ensures var next := WorkerNext(l, step, needsContext);
      && next.successes == l.successes + (if SubmitSucceeds(Of(step)) then 1 else 0)
      && next.reporting == l.reporting
  {
    if step == Finalized {
      EndedContext(l);
    }
  }

  lemma StepCounts(l: Life, e: Event, needsContext: bool)
    requires Enabled(l, e)
    ensures Next(l, e, needsContext).successes == l.successes + (if SubmitSucceeds(e) then 1 else 0)
    ensures Next(l, e, needsContext).reporting == l.reporting +
      (if e.Notified? && Answered(l, e.digest) == Installed then 1 else if e.Accepted? || e.Dropped? then -1 else 0)
  {
    if e.Of? {
      WorkerStepCounts(l, e.step, needsContext);
    }
  }

  /** The two counts are those of the run. */
  lemma {:induction false} CountsAreKept(l: Life, events: seq<Event>, needsContext: bool)
    requires Executes(l, events, needsContext)
    ensures Exec(l, events, needsContext).successes == l.successes + SubmitsSucceeded(events)
    ensures Exec(l, events, needsContext).reporting == l.reporting + Unsettled(l, events, needsContext)
    decreases |events|
  {
    if events != [] {
      StepCounts(l, events[0], needsContext);
      CountsAreKept(Next(l, events[0], needsContext), events[1..], needsContext);
    }
  }

  predicate IsScheduled(worker: Option<Worker>) {
    worker.Some? && worker.value.stage == Scheduled
  }

  /** The slot stays with the submit thread until that has exited, cancelled or not. */
  lemma SlotOutlivesThread(events: seq<Event>, e: Event, needsContext: bool)
    requires Executes(UNKNOWN, events, needsContext)
    requires Enabled(Exec(UNKNOWN, events, needsContext), e)
    ensures var l := Exec(UNKNOWN, events, needsContext);
      var next := Next(l, e, needsContext);
      l.worker.Some? && HasThread(l.worker.value.stage) && l.worker.value.stage.thread == Running && !ThreadExit(e) ==>
        && next.inflight && next.worker.Some? && HasThread(next.worker.value.stage)
        && next.worker.value.stage.thread == Running
        && next.worker.value.stage.context == l.worker.value.stage.context
  {
    ReachableOk(events, needsContext);
  }

  predicate ThreadExit(e: Event) {
    e.Of? && e.step.ThreadExited?
  }

  /** A job that has been worked on without a context never has one at the same time. */
  lemma ContextlessExcludesContext(events: seq<Event>, needsContext: bool)
    requires Executes(UNKNOWN, events, needsContext)
    ensures var l := Exec(UNKNOWN, events, needsContext);
      && !(l.contextless && l.context.Some?)
      && (l.worker.Some? && HasRead(l.worker.value.stage) && l.worker.value.stage.context == None ==> l.contextless)
  {
    ReachableOk(events, needsContext);
  }

  predicate Unpruned(events: seq<Event>) {
    forall i :: 0 <= i < |events| ==> events[i] != Pruned
  }

  lemma EndedContext(l: Life)
    requires l.worker.Some? && l.worker.value.stage.Ending?
    ensures Ended(l).evicted == l.evicted && (l.handled ==> Ended(l).handled)
    ensures Ended(l).handled || Ended(l).context == l.context
    ensures Ended(l).successes == l.successes && Ended(l).reporting == l.reporting
  {
  }

  lemma StepContext(l: Life, e: Event, needsContext: bool)
    requires Enabled(l, e) && e != Pruned
    ensures var next := Next(l, e, needsContext);
      && next.evicted == l.evicted && (l.handled ==> next.handled)
      && (l.context.Some? ==> next.handled || next.context == l.context)
  {
    if e == Of(Finalized) {
      EndedContext(l);
    }
  }

  lemma {:induction false} UnprunedKeepsEvicted(l: Life, events: seq<Event>, needsContext: bool)
    requires Executes(l, events, needsContext) && Unpruned(events)
    ensures Exec(l, events, needsContext).evicted == l.evicted
    decreases |events|
  {
    if events != [] {
      assert events[0] != Pruned;
      StepContext(l, events[0], needsContext);
      UnprunedKeepsEvicted(Next(l, events[0], needsContext), events[1..], needsContext);
    }
  }

  /** A context stays as it was installed until the job is over; after that none is installed. */
  lemma {:induction false} ContextIsNeverReplaced(l: Life, events: seq<Event>, needsContext: bool)
    requires LifeOk(l, needsContext) && (l.context.Some? || l.handled)
    requires Executes(l, events, needsContext) && Unpruned(events)
    ensures var last := Exec(l, events, needsContext);
      && (if last.handled then last.context == None else last.context == l.context)
      && (l.handled ==> last.handled)
    decreases |events|
  {
    if events != [] {
      assert events[0] != Pruned;
      StepKeeps(l, events[0], needsContext);
      StepContext(l, events[0], needsContext);
      ContextIsNeverReplaced(Next(l, events[0], needsContext), events[1..], needsContext);
    }
  }

  /** Unless pruning interferes, no job is worked on without the context that it or its notification calls for. */
  lemma NeededContextIsUsed(events: seq<Event>, needsContext: bool)
    requires Executes(UNKNOWN, events, needsContext) && Unpruned(events)
    ensures var l := Exec(UNKNOWN, events, needsContext);
      l.worker.Some? && HasRead(l.worker.value.stage) && (needsContext || l.worker.value.verified) ==>
        l.worker.value.stage.context.Some?
  {
    ReachableOk(events, needsContext);
    UnprunedKeepsEvicted(UNKNOWN, events, needsContext);
  }

  /** A sweep's worker never works without a needed context, pruning or not. */
  lemma SweepNeverSkipsContext(events: seq<Event>)
    requires Executes(UNKNOWN, events, true)
    ensures var l := Exec(UNKNOWN, events, true);
      l.worker.Some? && HasRead(l.worker.value.stage) && !l.worker.value.verified ==>
        l.worker.value.stage.context.Some?
  {
    ReachableOk(events, true);
  }

  /** An accepted notification finds the job over or leaves it under way, with a verified worker or a hand-off. */
  lemma AcceptedIsUnderWay(events: seq<Event>, needsContext: bool)
    requires Executes(UNKNOWN, events, needsContext)
    requires Enabled(Exec(UNKNOWN, events, needsContext), Accepted)
    ensures var next := Next(Exec(UNKNOWN, events, needsContext), Accepted, needsContext);
      next.handled || next.late || (next.inflight && (next.mode == Some(true) || next.handoff))
  {
    ReachableOk(events, needsContext);
  }

  /**
   A hand-off leads to a verified worker as soon as the sweep's worker ends without an
   outcome, exactly if the context is still there, and without pruning it always is.
   */
  lemma HandoffIsKept(events: seq<Event>, needsContext: bool)
    requires Executes(UNKNOWN, events, needsContext)
    requires Enabled(Exec(UNKNOWN, events, needsContext), Of(Finalized))
    ensures var l := Exec(UNKNOWN, events, needsContext);
      var next := Next(l, Of(Finalized), needsContext);
      l.handoff && l.worker.value.stage == Ending(false) && !l.late ==>
        && (next.worker == Some(Worker(true, Scheduled)) <==> l.context.Some?)
        && (Unpruned(events) ==> l.context.Some?)
  {
    ReachableOk(events, needsContext);
    if Unpruned(events) {
      UnprunedKeepsEvicted(UNKNOWN, events, needsContext);
    }
  }

  // ----- what a job comes to ------------------------------------------------------------------------

  /** A funded job that is neither over nor under way gets a worker from the sweep; any other stays as it is. */
  lemma SweepStartsIdleJob(events: seq<Event>, needsContext: bool)
    requires Executes(UNKNOWN, events, needsContext)
    ensures var l := Exec(UNKNOWN, events, needsContext);
      var next := Next(l, Swept, needsContext);
      if l.handled || l.late || l.inflight then next == l
      else next.worker == Some(Worker(false, Scheduled)) && next == l.(inflight := true, mode := Some(false), worker := next.worker)
  {
    ReachableOk(events, needsContext);
  }

  /** An accepted notification starts a worker for an idle job, and marks a hand-off exactly beside a sweep's worker. */
  lemma AcceptedStartsIdleJob(events: seq<Event>, needsContext: bool)
    requires Executes(UNKNOWN, events, needsContext)
    requires Enabled(Exec(UNKNOWN, events, needsContext), Accepted)
    ensures var l := Exec(UNKNOWN, events, needsContext);
      var next := Next(l, Accepted, needsContext);
      && next.worker == (if l.handled || l.worker.Some? then l.worker else Some(Worker(true, Scheduled)))
      && (next.handoff <==> l.handoff || (l.worker.Some? && !l.worker.value.verified && !l.late))
  {
    ReachableOk(events, needsContext);
  }

  /**
   An installed notification is one that the job's worker, if it has read its context, agrees
   with, and that comes before the job is over; one that is not installed changes nothing.
   */
  lemma NotificationIsAnswered(events: seq<Event>, digest: Digest, needsContext: bool)
    requires Executes(UNKNOWN, events, needsContext)
    ensures var l := Exec(UNKNOWN, events, needsContext);
      var next := Next(l, Notified(digest), needsContext);
      match Answered(l, digest)
      case Installed =>
        && next.context == Some(digest) && next.worker == l.worker && !l.handled
        && (l.worker.Some? && HasRead(l.worker.value.stage) ==> l.worker.value.stage.context == Some(digest))
        && (l.worker.Some? && l.worker.value.stage == Ending(false) ==> l.successes == 0)
      case ContextConflict => next == l && !l.handled && l.context.Some? && l.context.value != digest
      case DeliveryStarted =>
        next == l && (l.handled || l.successes == 1 || (l.worker.Some? && l.context == None && !IsScheduled(l.worker)))
  {
    ReachableOk(events, needsContext);
  }

  /** A sweep's worker that waits for a context works with the one that is installed meanwhile. */
  lemma WaitSeesContext(l: Life, digest: Digest, needsContext: bool)
    requires LifeOk(l, needsContext) && l.worker == Some(Worker(false, Checking)) && l.context == None
    ensures Executes(l, [Of(Checked(true)), Notified(digest), Of(WaitOver)], needsContext)
    ensures Exec(l, [Of(Checked(true)), Notified(digest), Of(WaitOver)], needsContext).worker
         == Some(Worker(false, Working(Some(digest))))
  {
    var events := [Of(Checked(true)), Notified(digest), Of(WaitOver)];
    var l1 := Forward(l, events, 0, needsContext);
    var l2 := Forward(l1, events, 1, needsContext);
    var l3 := Forward(l2, events, 2, needsContext);
    assert events[3..] == [] && events[0..] == events;
  }

  /** One event of a given run; reading the calls backwards shows that the run is one. */
  lemma Forward(l: Life, events: seq<Event>, i: nat, needsContext: bool) returns (next: Life)
    requires i < |events| && Enabled(l, events[i])
    ensures next == Next(l, events[i], needsContext)
    ensures Executes(next, events[i + 1..], needsContext) ==>
      && Executes(l, events[i..], needsContext)
      && Exec(l, events[i..], needsContext) == Exec(next, events[i + 1..], needsContext)
  {
    next := Next(l, events[i], needsContext);
    assert events[i..][0] == events[i] && events[i..][1..] == events[i + 1..];
  }

  /** The step that ends a worker's delivery, with the outcome it had. */
  datatype Outcome = Over | Again

  /** What the source makes of the step: a success or a permanent failure ends the job, all else leaves it to a later worker. */
  function OutcomeOf(stage: Stage, step: WorkerStep): Option<Outcome> {
    match step
    case Refused(permanent) => Some(if permanent then Over else Again)
    case WorkFailed => Some(Again)
    case Resumed =>
      if stage.Submitting? then Some(if stage.thread == Failed(false) then Again else Over) else None
    case Drained =>
      if stage.Draining? then Some(if stage.thread == Succeeded then Over else Again) else None
    case Cancelled => if HasThread(stage) then None else Some(Again)
    case _ => None
  }

  lemma OutcomeIsNoted(l: Life, step: WorkerStep, needsContext: bool)
    requires LifeOk(l, needsContext) && Enabled(l, Of(step)) && OutcomeOf(l.worker.value.stage, step).Some?
    ensures var next := Next(l, Of(step), needsContext);
      && next.worker.Some? && next.worker.value.stage.Ending? && next.context == l.context && !next.handled
      && (next.worker.value.stage.terminal || next.late <==> OutcomeOf(l.worker.value.stage, step).value == Over)
  {
  }

  /**
   A worker whose delivery has had an outcome ends the job exactly if that was a success or a
   permanent failure. After any other the job keeps its context, and the next sweep finds it
   with a verified worker or starts one itself.
   */
  lemma OutcomeDecides(l: Life, step: WorkerStep, needsContext: bool)
    requires LifeOk(l, needsContext) && Enabled(l, Of(step)) && OutcomeOf(l.worker.value.stage, step).Some?
    ensures Executes(l, [Of(step), Of(Finalized)], needsContext)
    ensures var last := Exec(l, [Of(step), Of(Finalized)], needsContext);
      if OutcomeOf(l.worker.value.stage, step).value == Over then last.handled && last.worker == None
      else
        && !last.handled && last.context == l.context
        && (last.worker == Some(Worker(true, Scheduled)) ||
              (last.worker == None && Next(last, Swept, needsContext).worker == Some(Worker(false, Scheduled))))
  {
    var events := [Of(step), Of(Finalized)];
    OutcomeIsNoted(l, step, needsContext);
    var l1 := Forward(l, events, 0, needsContext);
    var l2 := Forward(l1, events, 1, needsContext);
    assert events[2..] == [] && events[0..] == events;
  }

  /** A permanent failure has been found, so the job ends without a success. */
  predicate WrittenOff(l: Life) {
    l.worker.Some? && l.successes == 0 &&
    (l.worker.value.stage == Ending(true) || (l.worker.value.stage.Submitting? && l.worker.value.stage.thread == Failed(true)))
  }

  predicate LacksContext(l: Life, needsContext: bool) {
    l.context == None && needsContext
  }

  /** The event that brings the job nearer to its delivery. */
  function Onward(l: Life, needsContext: bool): Event {
    if l.worker == None then
      if LacksContext(l, needsContext) then Notified(0) else Swept
    else
      var w := l.worker.value;
      match w.stage
      case Scheduled => if !w.verified && LacksContext(l, needsContext) then Notified(0) else Of(Begun)
      case Checking => if LacksContext(l, needsContext) then Notified(0) else Of(Checked(false))
      case AwaitingContext => if LacksContext(l, needsContext) then Notified(0) else Of(WaitOver)
      case Working(_) => Of(SubmitStarted)
      case Submitting(_, thread) => if thread == Running then Of(ThreadExited(Succeeded)) else Of(Resumed)
      case Draining(_, thread) => if thread == Running then Of(ThreadExited(Succeeded)) else Of(Drained)
      case Ending(_) => Of(Finalized)
  }

  /** A bound on the number of such events that are still to come. */
  function Distance(l: Life, needsContext: bool): nat {
    (if LacksContext(l, needsContext) then 1 else 0) +
    if l.worker == None then 20
    else
      match l.worker.value.stage
      case Scheduled => 18
      case Checking => 16
      case AwaitingContext => 14
      case Working(_) => 12
      case Submitting(_, thread) => if thread == Running then 10 else if thread == Succeeded then 8 else 26
      case Draining(_, thread) => if thread == Running then 10 else if thread == Succeeded then 8 else 26
      case Ending(terminal) => if terminal || l.late then 2 else 24
  }

  /** The event is possible, and the job is delivered by it or its delivery is nearer. */
  predicate Nearer(l: Life, e: Event, needsContext: bool) {
    Enabled(l, e) &&
    var next := Next(l, e, needsContext);
    if next.handled then next.successes == 1
    else !WrittenOff(next) && Distance(next, needsContext) < Distance(l, needsContext)
  }

  lemma WorkIsNearer(l: Life, needsContext: bool)
    requires LifeOk(l, needsContext) && l.worker.Some? && !WrittenOff(l)
    requires !l.worker.value.stage.Ending? && !HasThread(l.worker.value.stage)
    requires Onward(l, needsContext).Of?
    ensures Nearer(l, Onward(l, needsContext), needsContext)
  {
  }

  lemma ThreadIsNearer(l: Life, needsContext: bool)
    requires LifeOk(l, needsContext) && l.worker.Some? && !WrittenOff(l)
    requires HasThread(l.worker.value.stage)
    ensures Nearer(l, Onward(l, needsContext), needsContext)
  {
  }

  lemma EndIsNearer(l: Life, needsContext: bool)
    requires LifeOk(l, needsContext) && l.worker.Some? && l.worker.value.stage.Ending? && !WrittenOff(l)
    ensures Nearer(l, Of(Finalized), needsContext)
  {
  }

  lemma OnwardIsNearer(l: Life, needsContext: bool)
    requires LifeOk(l, needsContext) && !l.handled && !WrittenOff(l)
    ensures Nearer(l, Onward(l, needsContext), needsContext)
  {
    if l.worker.Some? && l.worker.value.stage.Ending? {
      EndIsNearer(l, needsContext);
    } else if l.worker.Some? && HasThread(l.worker.value.stage) {
      ThreadIsNearer(l, needsContext);
    } else if Onward(l, needsContext).Of? {
      WorkIsNearer(l, needsContext);
    }
  }

  /** What a delivery goes through when nothing fails; a notification is part of it only if the job lacks its context. */
  predicate Smooth(e: Event, notified: bool) {
    match e
    case Notified(_) => notified
    case Swept => true
    case Of(ThreadExited(result)) => result == Succeeded
    case Of(step) => !step.Refused? && !step.WorkFailed? && !step.Cancelled?
    case _ => false
  }

  lemma OnwardKeepsContext(l: Life, needsContext: bool)
    requires LifeOk(l, needsContext) && !l.handled && !WrittenOff(l)
    ensures Smooth(Onward(l, needsContext), LacksContext(l, needsContext))
    ensures var next := Next(l, Onward(l, needsContext), needsContext);
      !LacksContext(l, needsContext) && !next.handled ==> !LacksContext(next, needsContext)
  {
    var e := Onward(l, needsContext);
    OnwardIsNearer(l, needsContext);
    if e == Of(Finalized) {
      EndedContext(l);
    }
  }

  /**
   Any job that is not over and not written off can still be delivered: its sweep's and its
   workers' own steps, a submit that succeeds among them, lead to its end; a notification is
   called for only if the job needs a context and has none.
   */
  lemma {:induction false} CanStillBeDelivered(l: Life, needsContext: bool) returns (events: seq<Event>)
    requires LifeOk(l, needsContext) && !l.handled && !WrittenOff(l)
    ensures Executes(l, events, needsContext)
    ensures Exec(l, events, needsContext).handled && Exec(l, events, needsContext).successes == 1
    ensures forall i :: 0 <= i < |events| ==> Smooth(events[i], LacksContext(l, needsContext))
    decreases Distance(l, needsContext)
  {
    var e := Onward(l, needsContext);
    OnwardIsNearer(l, needsContext);
    OnwardKeepsContext(l, needsContext);
    StepKeeps(l, e, needsContext);
    var next := Next(l, e, needsContext);
    if next.handled {
      events := [e];
      assert Executes(next, events[1..], needsContext);
    } else {
      var rest := CanStillBeDelivered(next, needsContext);
      events := [e] + rest;
      assert events[1..] == rest;
      SmoothStays(rest, LacksContext(next, needsContext), LacksContext(l, needsContext));
    }
  }

  lemma SmoothStays(events: seq<Event>, notified: bool, before: bool)
    requires forall i :: 0 <= i < |events| ==> Smooth(events[i], notified)
    requires notified ==> before
    ensures forall i :: 0 <= i < |events| ==> Smooth(events[i], before)
  {
  }

  // ----- what pruning can do ----------------------------------------------------------------------

  /**
   Between the installation of a notification's context and the start of its worker the job is
   not protected: pruning can take the context, and the accepted job is worked on without it.
   */
  lemma PruningCanStripContext(digest: Digest)
    ensures var events := [Notified(digest), Pruned, Accepted, Of(Begun)];
      && Executes(UNKNOWN, events, true)
      && Exec(UNKNOWN, events, true).worker == Some(Worker(true, Working(None)))
  {
    var events := [Notified(digest), Pruned, Accepted, Of(Begun)];
    var l1 := Next(UNKNOWN, events[0], true);
    assert l1 == UNKNOWN.(context := Some(digest), reporting := 1);
    var l2 := Next(l1, events[1], true);
    assert l2 == UNKNOWN.(reporting := 1, evicted := true);
    var l3 := Next(l2, events[2], true);
    var l4 := Next(l3, events[3], true);
    assert events[1..][1..][1..][1..] == [];
    assert Executes(l3, events[3..], true) && Exec(l3, events[3..], true) == l4;
    assert events[2..][1..] == events[3..];
    assert Executes(l2, events[2..], true) && Exec(l2, events[2..], true) == l4;
    assert events[1..][1..] == events[2..];
    assert Executes(l1, events[1..], true) && Exec(l1, events[1..], true) == l4;
  }
}
