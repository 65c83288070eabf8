/**
 The seller's bookkeeping for all its jobs: the fields that the await-free sections of its
 coroutines change. Each section is a method; what it does to its job is a step of SellerLife,
 and what it does to any other job is nothing, or a step of pruning.
 */
module SellerCore {
  import opened Basics
  import opened Wrappers
  import opened SellerLife

  type JobId = nat

  const MAX_TRACKED_JOBS: nat := 1024
  const GRACE: int := 60_000

  class SellerCore {
    const needsContext: JobId -> bool   // the job's signed terms require a notification's context

    var inflight: set<JobId>
    var inflightVerified: map<JobId, bool>
    var pendingVerifiedHandoffs: set<JobId>
    var lateSubmitSuccesses: set<JobId>
    var handled: set<JobId>
    var contextlessStarted: set<JobId>
    var jobContexts: map<JobId, Digest>
    var jobSpecs: set<JobId>
    var contextDeadlines: map<JobId, int>
    var contextEvents: map<JobId, bool>

    var workers: map<JobId, Worker>        // where each live task stands
    var reporting: map<JobId, nat>         // installed notifications that have not spawned yet
    ghost var successes: map<JobId, nat>
    ghost var evicted: set<JobId>

    ghost function LifeOf(j: JobId): Life
      reads this
    {
      Life(j in inflight,
           if j in inflightVerified then Some(inflightVerified[j]) else None,
           j in pendingVerifiedHandoffs,
           j in lateSubmitSuccesses,
           j in handled,
           j in contextlessStarted,
           if j in jobContexts then Some(jobContexts[j]) else None,
           if j in workers then Some(workers[j]) else None,
           if j in reporting then reporting[j] else 0,
           if j in successes then successes[j] else 0,
           j in evicted)
    }

    ghost predicate Valid()
      reads this
    {
      forall j :: LifeOk(LifeOf(j), needsContext(j))
    }

    constructor (needsContext: JobId -> bool)
      ensures Valid() && Tracked() == {} && evicted == {} && this.needsContext == needsContext
      ensures forall j :: LifeOf(j) == UNKNOWN
    {
      this.needsContext := needsContext;
      inflight, inflightVerified, pendingVerifiedHandoffs, lateSubmitSuccesses := {}, map[], {}, {};
      handled, contextlessStarted, jobContexts, jobSpecs := {}, {}, map[], {};
      contextDeadlines, contextEvents, workers, reporting := map[], map[], map[], map[];
      successes, evicted := map[], {};
    }

    /** Only `job` has changed. */
    twostate predicate OthersStay(job: JobId)
      reads this
    {
      forall j :: j != job ==> LifeOf(j) == old(LifeOf(j))
    }

    /** What one step of `job` keeps for all jobs. */
    twostate lemma StepIsValid(new job: JobId, new e: Event)
      requires OthersStay(job) && Enabled(old(LifeOf(job)), e)
      requires LifeOf(job) == Next(old(LifeOf(job)), e, needsContext(job))
      ensures old(Valid()) ==> Valid()
    {
      if old(Valid()) {
        StepKeeps(old(LifeOf(job)), e, needsContext(job));
        assert forall j :: j != job ==> LifeOk(old(LifeOf(j)), needsContext(j));
        assert forall j :: j != job ==> LifeOk(LifeOf(j), needsContext(j));
      }
    }

    // ----- pruning ----------------------------------------------------------------------------------

    ghost function Tracked(): set<JobId>
      reads this
    {
      jobContexts.Keys + jobSpecs + contextDeadlines.Keys + contextEvents.Keys
    }

    predicate Tracks(job: JobId)
      reads this
    {
      job in jobContexts || job in jobSpecs || job in contextDeadlines || job in contextEvents
    }

    /** Of other jobs than `jobs` nothing is tracked that was not before. */
    twostate predicate TracksAlso(jobs: set<JobId>)
      reads this
    {
      forall j {:trigger Tracks(j)} :: Tracks(j) ==> j in jobs || old(Tracks(j))
    }

    method ForgetContext(job: JobId)
      modifies this`jobContexts, this`jobSpecs, this`contextDeadlines, this`contextEvents
      ensures jobContexts == old(jobContexts) - {job} && jobSpecs == old(jobSpecs) - {job}
      ensures contextDeadlines == old(contextDeadlines) - {job} && contextEvents == old(contextEvents) - {job}
    {
      jobContexts := jobContexts - {job};
      jobSpecs := jobSpecs - {job};
      contextDeadlines := contextDeadlines - {job};
      contextEvents := contextEvents - {job};
    }

    /** Every job outside `gone` is as it was, and every job in it has been pruned. */
    twostate predicate OnlyPrunes(gone: set<JobId>)
      reads this
    {
      forall j :: PrunedIf(j in gone, old(LifeOf(j)), LifeOf(j), needsContext(j))
    }

    /** The same for all jobs but `job`. */
    twostate predicate OthersOnlyPruned(job: JobId, gone: set<JobId>)
      reads this
    {
      forall j :: j != job ==> PrunedIf(j in gone, old(LifeOf(j)), LifeOf(j), needsContext(j))
    }

    /** What is kept about `job` besides its context is as it was. */
    twostate predicate SameTracking(job: JobId)
      reads this
    {
      (job in jobSpecs <==> job in old(jobSpecs)) && SameGrace(job)
    }

    twostate predicate SameGrace(job: JobId)
      reads this
    {
      && (job in contextDeadlines <==> job in old(contextDeadlines))
      && (job in contextDeadlines ==> contextDeadlines[job] == old(contextDeadlines)[job])
      && (job in contextEvents <==> job in old(contextEvents))
      && (job in contextEvents ==> contextEvents[job] == old(contextEvents)[job])
    }

    /** Tracked jobs without live work, apart from the one being looked at. */
    ghost function Candidates(protect: JobId): set<JobId>
      reads this
    {
      Tracked() - (inflight + pendingVerifiedHandoffs + {protect})
    }

    /** Beyond the cap, jobs without live work are dropped, those with the earliest deadlines first. */
    method PruneTrackedState(protect: JobId) returns (ghost gone: set<JobId>)
      modifies this`jobContexts, this`jobSpecs, this`contextDeadlines, this`contextEvents, this`evicted
      ensures OnlyPrunes(gone) && Tracked() == old(Tracked()) - gone && SameTracking(protect) && TracksAlso({})
      ensures Evictable(|old(Tracked())|, old(Candidates(protect)), old(contextDeadlines), gone)
    {
      var tracked := jobContexts.Keys + jobSpecs + contextDeadlines.Keys + contextEvents.Keys;
      if |tracked| <= MAX_TRACKED_JOBS {
        gone := {};
        return;
      }
      var candidates := tracked - (inflight + pendingVerifiedHandoffs + {protect});
      var chosen := PickStalest(contextDeadlines, candidates, |tracked| - MAX_TRACKED_JOBS);
      EvictAll(chosen, protect);
      gone := chosen;
      assert OnlyPrunes(gone) by { PrunedFields(gone); }
    }

    method EvictAll(gone: set<JobId>, protect: JobId)
      modifies this`jobContexts, this`jobSpecs, this`contextDeadlines, this`contextEvents, this`evicted
      ensures jobContexts == old(jobContexts) - gone && evicted == old(evicted) + old(jobContexts.Keys) * gone
      ensures Tracked() == old(Tracked()) - gone && TracksAlso({})
      ensures protect !in gone ==> SameTracking(protect)
    {
      var left := gone;
      while left != {}
        invariant left <= gone && jobContexts == old(jobContexts) - (gone - left)
        invariant evicted == old(evicted) + old(jobContexts.Keys) * (gone - left)
        invariant jobSpecs == old(jobSpecs) - (gone - left)
        invariant contextDeadlines == old(contextDeadlines) - (gone - left)
        invariant contextEvents == old(contextEvents) - (gone - left)
      {
        var job :| job in left;
        evicted := evicted + jobContexts.Keys * {job};
        ForgetContext(job);
        left := left - {job};
      }
    }

    twostate lemma PrunedFields(gone: set<JobId>)
      requires gone !! inflight && gone !! pendingVerifiedHandoffs
      requires jobContexts == old(jobContexts) - gone && evicted == old(evicted) + old(jobContexts.Keys) * gone
      requires unchanged(this`inflight, this`inflightVerified, this`pendingVerifiedHandoffs, this`lateSubmitSuccesses,
                         this`handled, this`contextlessStarted, this`workers, this`reporting, this`successes)
      ensures OnlyPrunes(gone)
    {
    }

    twostate lemma PrunesAreValid(gone: set<JobId>)
      requires OnlyPrunes(gone)
      ensures old(Valid()) ==> Valid()
    {
      if old(Valid()) {
        PruningKeeps();
        assert forall j :: LifeOk(old(LifeOf(j)), needsContext(j));
        assert forall j :: LifeOk(LifeOf(j), needsContext(j));
      }
    }

    /** Pruning keeps the bookkeeping of all jobs valid. */
    method KeepCap(protect: JobId) returns (ghost gone: set<JobId>)
      modifies this`jobContexts, this`jobSpecs, this`contextDeadlines, this`contextEvents, this`evicted
      ensures OnlyPrunes(gone) && TracksAlso({}) && SameTracking(protect) && (old(Valid()) ==> Valid())
      ensures Evictable(|old(Tracked())|, old(Candidates(protect)), old(contextDeadlines), gone)
    {
      gone := PruneTrackedState(protect);
      PrunesAreValid(gone);
    }

    // ----- starting work ----------------------------------------------------------------------------

    /** Work on a job is started unless it is under way or over. */
    method SpawnJob(job: JobId, verified: bool)
      requires LifeOf(job).inflight == LifeOf(job).worker.Some?
      modifies this`inflight, this`inflightVerified, this`pendingVerifiedHandoffs, this`workers
      ensures LifeOf(job) == Spawned(old(LifeOf(job)), verified) && OthersStay(job)
    {
      if job in handled || job in lateSubmitSuccesses {
        return;
      }
      if job in inflight {
        if verified && job in inflightVerified && !inflightVerified[job] {
          pendingVerifiedHandoffs := pendingVerifiedHandoffs + {job};
        }
        return;
      }
      assert job !in workers;
      inflight := inflight + {job};
      inflightVerified := inflightVerified[job := verified];
      workers := workers[job := Worker(verified, Scheduled)];
    }

    /** The sweep finds the job funded. */
    method Sweep(job: JobId)
      requires LifeOf(job).inflight == LifeOf(job).worker.Some?
      modifies this`inflight, this`inflightVerified, this`pendingVerifiedHandoffs, this`workers
      ensures LifeOf(job) == Next(old(LifeOf(job)), Swept, needsContext(job)) && OthersStay(job)
      ensures old(Valid()) ==> Valid()
    {
      SpawnJob(job, false);
      assert old(Valid()) ==> Valid() by { StepIsValid(job, Swept); }
    }

    method CountReport(job: JobId)
      requires job in reporting && reporting[job] > 0
      modifies this`reporting
      ensures LifeOf(job) == old(LifeOf(job)).(reporting := old(LifeOf(job)).reporting - 1) && OthersStay(job)
    {
      reporting := reporting[job := reporting[job] - 1];
    }

    /** An installed notification ends before it spawns anything. */
    method Drop(job: JobId)
      requires job in reporting && reporting[job] > 0
      modifies this`reporting
      ensures LifeOf(job) == Next(old(LifeOf(job)), Dropped, needsContext(job)) && OthersStay(job)
      ensures old(Valid()) ==> Valid()
    {
      CountReport(job);
      assert old(Valid()) ==> Valid() by { StepIsValid(job, Dropped); }
    }

    /** An installed notification goes on to its spawn. */
    method Accept(job: JobId)
      requires LifeOf(job).inflight == LifeOf(job).worker.Some? && job in reporting && reporting[job] > 0
      modifies this`inflight, this`inflightVerified, this`pendingVerifiedHandoffs, this`workers, this`reporting
      ensures LifeOf(job) == Next(old(LifeOf(job)), Accepted, needsContext(job)) && OthersStay(job)
      ensures old(Valid()) ==> Valid()
    {
      CountReport(job);
      SpawnJob(job, true);
      assert old(Valid()) ==> Valid() by { StepIsValid(job, Accepted); }
    }

    // ----- a worker's steps -------------------------------------------------------------------------

    method SetStage(job: JobId, stage: Stage)
      requires job in workers
      modifies this`workers
      ensures LifeOf(job) == At(old(LifeOf(job)), stage) && OthersStay(job)
    {
      workers := workers[job := workers[job].(stage := stage)];
    }

    method Move(job: JobId, step: WorkerStep)
      requires job in workers && WorkerEnabled(workers[job].stage, step) && MovesWorker(step)
      modifies this`workers
      ensures LifeOf(job) == Next(old(LifeOf(job)), Of(step), needsContext(job)) && OthersStay(job)
      ensures old(Valid()) ==> Valid()
    {
      MovedIs(LifeOf(job), step, needsContext(job));
      SetStage(job, MovedStage(workers[job].stage, step));
      assert old(Valid()) ==> Valid() by { StepIsValid(job, Of(step)); }
    }

    ghost method CountSuccess(job: JobId, n: nat)
      modifies this`successes
      ensures LifeOf(job) == old(LifeOf(job)).(successes := old(LifeOf(job)).successes + n) && OthersStay(job)
    {
      successes := successes[job := LifeOf(job).successes + n];
    }

    method EndThread(job: JobId, result: Thread)
      requires job in workers && HasThread(workers[job].stage)
      modifies this`workers, this`successes
      ensures LifeOf(job) == ThreadOver(old(LifeOf(job)), result) && OthersStay(job)
    {
      CountSuccess(job, if result == Succeeded then 1 else 0);
      SetStage(job, ExitStage(workers[job].stage, result));
    }

    /** The submit thread of the job's worker comes to its end. */
    method ExitThread(job: JobId, result: Thread)
      requires job in workers && HasThread(workers[job].stage) && workers[job].stage.thread == Running && result != Running
      modifies this`workers, this`successes
      ensures LifeOf(job) == Next(old(LifeOf(job)), Of(ThreadExited(result)), needsContext(job)) && OthersStay(job)
      ensures old(Valid()) ==> Valid()
    {
      EndThread(job, result);
      assert old(Valid()) ==> Valid() by { StepIsValid(job, Of(ThreadExited(result))); }
    }

    function ExitStage(stage: Stage, result: Thread): Stage
      requires HasThread(stage)
    {
      if stage.Submitting? then Submitting(stage.context, result) else Draining(stage.context, result)
    }

    /** The worker reads the job's context, and records its absence. */
    method ReadContext(job: JobId)
      requires job in workers
      modifies this`contextlessStarted, this`workers
      ensures LifeOf(job) == Works(old(LifeOf(job))) && OthersStay(job)
    {
      var context := if job in jobContexts then Some(jobContexts[job]) else None;
      if context == None {
        contextlessStarted := contextlessStarted + {job};
      }
      workers := workers[job := workers[job].(stage := Working(context))];
    }

    /** A scheduled worker begins: with the work if it is verified, with the sweep's check if not. */
    method Begin(job: JobId)
      requires job in workers && workers[job].stage == Scheduled
      modifies this`contextlessStarted, this`workers
      ensures LifeOf(job) == Next(old(LifeOf(job)), Of(Begun), needsContext(job)) && OthersStay(job)
      ensures old(Valid()) ==> Valid()
    {
      if workers[job].verified {
        ReadContext(job);
      } else {
        SetStage(job, Checking);
      }
      assert old(Valid()) ==> Valid() by { StepIsValid(job, Of(Begun)); }
    }

    /** What the sweep's worker does when it need not or may not wait any longer. */
    method StopWaiting(job: JobId)
      requires job in workers
      modifies this`contextlessStarted, this`workers
      ensures LifeOf(job) == Waited(old(LifeOf(job)), needsContext(job)) && OthersStay(job)
    {
      if job !in jobContexts && needsContext(job) {
        SetStage(job, Ending(false));
      } else {
        ReadContext(job);
      }
    }

    method EndWait(job: JobId)
      requires job in workers && workers[job].stage == AwaitingContext
      modifies this`contextlessStarted, this`workers
      ensures LifeOf(job) == Next(old(LifeOf(job)), Of(WaitOver), needsContext(job)) && OthersStay(job)
      ensures old(Valid()) ==> Valid()
    {
      StopWaiting(job);
      assert old(Valid()) ==> Valid() by { StepIsValid(job, Of(WaitOver)); }
    }

    /** A cancelled worker remembers a submit that succeeded after all. */
    method Drain(job: JobId)
      requires job in workers && workers[job].stage.Draining? && workers[job].stage.thread != Running
      modifies this`lateSubmitSuccesses, this`workers
      ensures LifeOf(job) == Next(old(LifeOf(job)), Of(Drained), needsContext(job)) && OthersStay(job)
      ensures old(Valid()) ==> Valid()
    {
      var succeeded := workers[job].stage.thread == Succeeded;
      RememberSuccess(job, succeeded);
      SetStage(job, Ending(false));
      assert old(Valid()) ==> Valid() by { StepIsValid(job, Of(Drained)); }
    }

    method RememberSuccess(job: JobId, succeeded: bool)
      modifies this`lateSubmitSuccesses
      ensures LifeOf(job) == old(LifeOf(job)).(late := old(LifeOf(job)).late || succeeded) && OthersStay(job)
    {
      if succeeded {
        lateSubmitSuccesses := lateSubmitSuccesses + {job};
      }
    }

    // ----- the end of a worker ------------------------------------------------------------------------

    method ForgetWork(job: JobId)
      modifies this`contextlessStarted, this`inflightVerified, this`inflight, this`workers
      ensures LifeOf(job) == old(LifeOf(job)).(inflight := false, mode := None, contextless := false, worker := None)
      ensures OthersStay(job)
    {
      contextlessStarted := contextlessStarted - {job};
      inflightVerified := inflightVerified - {job};
      inflight := inflight - {job};
      workers := workers - {job};
    }

    method MarkHandled(job: JobId)
      modifies this`handled, this`lateSubmitSuccesses, this`pendingVerifiedHandoffs
      ensures LifeOf(job) == old(LifeOf(job)).(handled := true, late := false, handoff := false) && OthersStay(job)
    {
      handled := handled + {job};
      lateSubmitSuccesses := lateSubmitSuccesses - {job};
      pendingVerifiedHandoffs := pendingVerifiedHandoffs - {job};
    }

    /** The job is over: only that is remembered. */
    method Forget(job: JobId)
      modifies this`handled, this`lateSubmitSuccesses, this`pendingVerifiedHandoffs, this`jobContexts
      modifies this`jobSpecs, this`contextDeadlines, this`contextEvents, this`contextlessStarted
      modifies this`inflightVerified, this`inflight, this`workers
      ensures LifeOf(job) == old(LifeOf(job)).(inflight := false, mode := None, handoff := false, late := false,
                                               handled := true, contextless := false, context := None, worker := None)
      ensures OthersStay(job) && TracksAlso({})
    {
      MarkHandled(job);
      ForgetContext(job);
      assert OthersStay(job);
      ForgetWork(job);
    }

    /** The slot is free for another try. */
    method FreeSlot(job: JobId) returns (handoff: bool)
      modifies this`inflight, this`inflightVerified, this`contextlessStarted, this`pendingVerifiedHandoffs, this`workers
      ensures LifeOf(job) == old(LifeOf(job)).(inflight := false, mode := None, handoff := false,
                                               contextless := false, worker := None)
      ensures OthersStay(job) && handoff == (old(LifeOf(job)).handoff && LifeOf(job).context.Some?)
    {
      handoff := job in pendingVerifiedHandoffs && job in jobContexts;
      pendingVerifiedHandoffs := pendingVerifiedHandoffs - {job};
      assert OthersStay(job);
      ForgetWork(job);
    }

    method Finalize(job: JobId)
      requires job in workers && workers[job].stage.Ending?
      modifies this`handled, this`lateSubmitSuccesses, this`pendingVerifiedHandoffs, this`jobContexts
      modifies this`jobSpecs, this`contextDeadlines, this`contextEvents, this`contextlessStarted
      modifies this`inflightVerified, this`inflight, this`workers
      ensures LifeOf(job) == Next(old(LifeOf(job)), Of(Finalized), needsContext(job)) && OthersStay(job)
      ensures TracksAlso({})
      ensures old(Valid()) ==> Valid()
    {
      EndWorker(job);
      assert old(Valid()) ==> Valid() by { StepIsValid(job, Of(Finalized)); }
    }

    method EndWorker(job: JobId)
      requires job in workers && workers[job].stage.Ending?
      modifies this`handled, this`lateSubmitSuccesses, this`pendingVerifiedHandoffs, this`jobContexts
      modifies this`jobSpecs, this`contextDeadlines, this`contextEvents, this`contextlessStarted
      modifies this`inflightVerified, this`inflight, this`workers
      ensures LifeOf(job) == Ended(old(LifeOf(job))) && OthersStay(job)
      ensures TracksAlso({})
    {
      var w := workers[job];
      if w.stage.terminal || job in lateSubmitSuccesses {
        Forget(job);
      } else {
        var handoff := FreeSlot(job);
        if !w.verified && handoff {
          SpawnJob(job, true);
        }
      }
    }

    // ----- notifications and the sweep's check --------------------------------------------------------

    /** The notification's context is installed, unless delivery has started or has another one. */
    method InstallContext(job: JobId, digest: Digest)
      requires Answered(LifeOf(job), digest) == Installed
      modifies this`jobContexts, this`jobSpecs, this`contextEvents, this`reporting
      ensures LifeOf(job) == Next(old(LifeOf(job)), Notified(digest), needsContext(job)) && OthersStay(job)
      ensures TracksAlso({job}) && (old(Valid()) ==> Valid())
    {
      Install(job, digest);
      assert old(Valid()) ==> Valid() by { StepIsValid(job, Notified(digest)); }
    }

    method Install(job: JobId, digest: Digest)
      modifies this`jobContexts, this`jobSpecs, this`contextEvents, this`reporting
      ensures LifeOf(job) ==
        old(LifeOf(job)).(context := Some(digest), reporting := old(LifeOf(job)).reporting + 1)
      ensures OthersStay(job) && TracksAlso({job})
    {
      PutContext(job, digest);
      Announce(job);
      AddReport(job);
    }

    method AddReport(job: JobId)
      modifies this`reporting
      ensures LifeOf(job) == old(LifeOf(job)).(reporting := old(LifeOf(job)).reporting + 1) && OthersStay(job)
      ensures TracksAlso({})
    {
      reporting := reporting[job := (if job in reporting then reporting[job] else 0) + 1];
    }

    method PutContext(job: JobId, digest: Digest)
      modifies this`jobContexts
      ensures LifeOf(job) == old(LifeOf(job)).(context := Some(digest)) && OthersStay(job)
      ensures TracksAlso({job})
    {
      jobContexts := jobContexts[job := digest];
    }

    /** The job's spec is noted, and a sweep's worker that waits for the context is woken. */
    method Announce(job: JobId)
      modifies this`jobSpecs, this`contextEvents
      ensures forall j :: LifeOf(j) == old(LifeOf(j))
      ensures TracksAlso({job})
      ensures job in contextEvents ==> contextEvents[job]
    {
      jobSpecs := jobSpecs + {job};
      if job in contextEvents {
        contextEvents := contextEvents[job := true];
      }
    }

    /** A verified notification for `job`; for other jobs it can only mean pruning. */
    method Notify(job: JobId, digest: Digest) returns (answer: Answer, ghost gone: set<JobId>)
      modifies this`jobContexts, this`jobSpecs, this`contextDeadlines, this`contextEvents, this`evicted
      modifies this`reporting
      ensures answer == Answered(old(LifeOf(job)), digest)
      ensures LifeOf(job) == Next(old(LifeOf(job)), Notified(digest), needsContext(job))
      ensures job !in gone && TracksAlso({job})
      ensures
        if answer == DeliveryStarted then gone == {}
        else Evictable(|old(Tracked())|, old(Candidates(job)), old(contextDeadlines), gone)
      ensures OthersOnlyPruned(job, gone)
      ensures old(Valid()) ==> Valid()
    {
      gone := {};
      if job in handled || job in lateSubmitSuccesses || job in contextlessStarted {
        return DeliveryStarted, {};
      }
      gone := KeepCap(job);
      if job in jobContexts && jobContexts[job] != digest {
        return ContextConflict, gone;
      }
      InstallContext(job, digest);
      answer := Installed;
    }

    /** Whether the sweep's worker has to wait for a context; its grace period starts with its first check. */
    method StartGrace(job: JobId, now: int) returns (waits: bool)
      modifies this`contextDeadlines, this`contextEvents
      ensures LifeOf(job) == old(LifeOf(job)) && OthersStay(job)
      ensures job in contextDeadlines && job in contextEvents
      ensures contextDeadlines == old(contextDeadlines)[job := GraceEnd(old(contextDeadlines), job, now)]
      ensures contextEvents.Keys == old(contextEvents.Keys) + {job}
      ensures waits == StillWaits(old(contextDeadlines), old(contextEvents), job, now)
    {
      if job !in contextDeadlines {
        contextDeadlines := contextDeadlines[job := now + GRACE];
      }
      if job !in contextEvents {
        contextEvents := contextEvents[job := false];
      }
      waits := now < contextDeadlines[job] && !contextEvents[job];
    }

    /** Without a context the job's grace period is running from now on, or from its first check. */
    twostate predicate GraceStarted(job: JobId, now: int, waits: bool)
      reads this
    {
      if job in jobContexts then !waits
      else
        && job in contextDeadlines && contextDeadlines[job] == GraceEnd(old(contextDeadlines), job, now)
        && waits == StillWaits(old(contextDeadlines), old(contextEvents), job, now)
    }

    /** The context is looked up after the sweep's check; without one the worker waits or decides. */
    method LookForContext(job: JobId, now: int) returns (waits: bool)
      requires job in workers && workers[job].stage == Checking
      modifies this`contextDeadlines, this`contextEvents, this`contextlessStarted, this`workers
      ensures LifeOf(job) == Next(old(LifeOf(job)), Of(Checked(waits)), needsContext(job)) && OthersStay(job)
      ensures GraceStarted(job, now, waits) && TracksAlso({job})
      ensures old(Valid()) ==> Valid()
    {
      waits := Look(job, now);
      assert old(Valid()) ==> Valid() by { StepIsValid(job, Of(Checked(waits))); }
    }

    method Look(job: JobId, now: int) returns (waits: bool)
      requires job in workers && workers[job].stage == Checking
      modifies this`contextDeadlines, this`contextEvents, this`contextlessStarted, this`workers
      ensures LifeOf(job) == Next(old(LifeOf(job)), Of(Checked(waits)), needsContext(job)) && OthersStay(job)
      ensures GraceStarted(job, now, waits) && TracksAlso({job})
    {
      if job in jobContexts {
        ReadContext(job);
        return false;
      }
      waits := StartGrace(job, now);
      if waits {
        SetStage(job, AwaitingContext);
      } else {
        StopWaiting(job);
      }
    }

    /** The sweep's check of the signed deal passes; for other jobs it can only mean pruning. */
    method PassCheck(job: JobId, now: int) returns (waits: bool, ghost gone: set<JobId>)
      requires job in workers && workers[job].stage == Checking && job in inflight
      modifies this`jobContexts, this`jobSpecs, this`contextDeadlines, this`contextEvents, this`evicted
      modifies this`contextlessStarted, this`workers
      ensures LifeOf(job) == Next(old(LifeOf(job)), Of(Checked(waits)), needsContext(job)) && job !in gone
      ensures Evictable(|old(Tracked()) + {job}|, old(Candidates(job)), old(contextDeadlines), gone)
      ensures job in jobSpecs && GraceStarted(job, now, waits) && TracksAlso({job})
      ensures OthersOnlyPruned(job, gone)
      ensures old(Valid()) ==> Valid()
    {
      gone := MakeRoom(job);
      waits := LookForContext(job, now);
    }

    /** The job's spec is noted, and then the cap is kept. */
    method MakeRoom(job: JobId) returns (ghost gone: set<JobId>)
      modifies this`jobContexts, this`jobSpecs, this`contextDeadlines, this`contextEvents, this`evicted
      ensures OnlyPrunes(gone) && job !in gone && (old(Valid()) ==> Valid())
      ensures job in jobSpecs && SameGrace(job) && TracksAlso({job})
      ensures Evictable(|old(Tracked()) + {job}|, old(Candidates(job)), old(contextDeadlines), gone)
    {
      NoteSpec(job);
      gone := KeepCap(job);
    }

    /** Where nobody is pruned nothing is evicted. */
    twostate lemma NothingEvicted(job: JobId)
      requires OthersOnlyPruned(job, {}) && LifeOf(job).evicted == old(LifeOf(job)).evicted
      ensures evicted == old(evicted)
    {
      forall j ensures j in evicted <==> j in old(evicted) {
        if j != job {
          assert PrunedIf(false, old(LifeOf(j)), LifeOf(j), needsContext(j));
        }
        assert LifeOf(j).evicted == old(LifeOf(j)).evicted;
      }
    }

    /** Nor are more jobs tracked than the section names. */
    twostate lemma TrackedGrows(jobs: set<JobId>)
      requires TracksAlso(jobs)
      ensures Tracked() <= old(Tracked()) + jobs
    {
      forall j | j in Tracked() ensures j in old(Tracked()) + jobs {
        assert Tracks(j);
      }
    }

    method NoteSpec(job: JobId)
      modifies this`jobSpecs
      ensures forall j :: LifeOf(j) == old(LifeOf(j))
      ensures Tracked() == old(Tracked()) + {job} && TracksAlso({job}) && Candidates(job) == old(Candidates(job)) && job in jobSpecs
    {
      jobSpecs := jobSpecs + {job};
    }
  }

  /** Steps that move nothing but the worker. */
  predicate MovesWorker(step: WorkerStep) {
    step.Refused? || step.WorkFailed? || step.SubmitStarted? || step.Resumed? || step.Cancelled?
  }

  function MovedStage(stage: Stage, step: WorkerStep): Stage
    requires WorkerEnabled(stage, step) && MovesWorker(step)
  {
    match step
    case Refused(permanent) => Ending(permanent)
    case WorkFailed => Ending(false)
    case SubmitStarted => Submitting(stage.context, Running)
    case Resumed => Ending(stage.thread == Succeeded || stage.thread == Failed(true))
    case Cancelled =>
      if stage.Submitting? then Draining(stage.context, stage.thread)
      else if stage.Draining? then stage
      else Ending(false)
  }

  lemma MovedIs(l: Life, step: WorkerStep, needs: bool)
    requires Enabled(l, Of(step)) && MovesWorker(step)
    ensures WorkerNext(l, step, needs) == At(l, MovedStage(l.worker.value.stage, step))
  {
  }

  /** A life that has been pruned, or is as it was. */
  predicate PrunedIf(gone: bool, before: Life, after: Life, needs: bool) {
    if gone then Enabled(before, Pruned) && after == Next(before, Pruned, needs) else after == before
  }

  /** When the grace period of a job that is checked at `now` ends; it does not start again. */
  function GraceEnd(deadlines: map<JobId, int>, job: JobId, now: int): int {
    if job in deadlines then deadlines[job] else now + GRACE
  }

  /** A context may still come, and none has been announced. */
  predicate StillWaits(deadlines: map<JobId, int>, events: map<JobId, bool>, job: JobId, now: int) {
    now < GraceEnd(deadlines, job, now) && !(job in events && events[job])
  }

  /** `a` goes before `b` when jobs are dropped; a job without a deadline goes last. */
  predicate Staler(deadlines: map<JobId, int>, a: JobId, b: JobId) {
    b !in deadlines || (a in deadlines && deadlines[a] <= deadlines[b])
  }

  lemma {:induction false} StalestExists(deadlines: map<JobId, int>, jobs: set<JobId>) returns (a: JobId)
    requires jobs != {}
    ensures a in jobs && forall b :: b in jobs ==> Staler(deadlines, a, b)
    decreases |jobs|
  {
    var first :| first in jobs;
    if jobs == {first} {
      a := first;
    } else {
      a := StalestExists(deadlines, jobs - {first});
      if !Staler(deadlines, a, first) {
        forall b | b in jobs ensures Staler(deadlines, first, b) {
          assert b != first ==> Staler(deadlines, a, b);
        }
        a := first;
      }
    }
  }

  /** How many jobs of `tracked` are too many. */
  function Overflow(tracked: nat): nat {
    if tracked <= MAX_TRACKED_JOBS then 0 else tracked - MAX_TRACKED_JOBS
  }

  /** What pruning drops: the stalest candidates, as many as are too many, or all of them if that is not enough. */
  predicate Evictable(tracked: nat, candidates: set<JobId>, deadlines: map<JobId, int>, gone: set<JobId>) {
    && gone <= candidates
    && |gone| <= Overflow(tracked) && (|gone| == Overflow(tracked) || candidates <= gone)
    && forall a, b {:trigger Staler(deadlines, a, b)} :: a in gone && b in candidates - gone ==> Staler(deadlines, a, b)
  }

  /** Up to the cap nothing goes; beyond it something goes unless every tracked job has live work. */
  lemma EvictsBeyondCap(tracked: nat, candidates: set<JobId>, deadlines: map<JobId, int>, gone: set<JobId>)
    requires Evictable(tracked, candidates, deadlines, gone)
    ensures gone == {} <==> tracked <= MAX_TRACKED_JOBS || candidates == {}
  {
  }

  method PickStalest(deadlines: map<JobId, int>, candidates: set<JobId>, count: nat) returns (gone: set<JobId>)
    ensures gone <= candidates && |gone| <= count && (|gone| == count || gone == candidates)
    ensures forall a, b :: a in gone && b in candidates - gone ==> Staler(deadlines, a, b)
  {
    gone := {};
    var evictable, overflow := candidates, count;
    while overflow > 0 && evictable != {}
      invariant evictable == candidates - gone && gone <= candidates
      invariant overflow >= 0 && |gone| + overflow == count
      invariant forall a, b :: a in gone && b in evictable ==> Staler(deadlines, a, b)
    {
      var job := Stalest(deadlines, evictable);
      gone := gone + {job};
      evictable := evictable - {job};
      overflow := overflow - 1;
    }
  }

  method Stalest(deadlines: map<JobId, int>, jobs: set<JobId>) returns (job: JobId)
    requires jobs != {}
    ensures job in jobs && forall b :: b in jobs ==> Staler(deadlines, job, b)
  {
    var a := StalestExists(deadlines, jobs);
    job :| job in jobs && forall b :: b in jobs ==> Staler(deadlines, job, b);
  }

  lemma PruningKeeps()
    ensures forall l, needs :: LifeOk(l, needs) && Enabled(l, Pruned) ==> LifeOk(Next(l, Pruned, needs), needs)
  {
    forall l, needs | LifeOk(l, needs) && Enabled(l, Pruned) ensures LifeOk(Next(l, Pruned, needs), needs) {
      StepKeeps(l, Pruned, needs);
    }
  }
}
