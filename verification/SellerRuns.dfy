/**
 The seller's process as a whole: its sections in any order, for any jobs. Up to the cap of
 tracked jobs no context is evicted; beyond it one can be, and an accepted job loses it.
 */
module SellerRuns {
  import opened Basics
  import opened Wrappers
  import opened SellerLife
  import S = SellerCore

  /** The await-free sections of the seller's coroutines. */
  datatype Section =
    | OnNotify(job: S.JobId, digest: Digest)
    | OnAccept(job: S.JobId)
    | OnDrop(job: S.JobId)
    | OnSweep(job: S.JobId)
    | OnBegin(job: S.JobId)
    | OnMove(job: S.JobId, step: WorkerStep)
    | OnCheck(job: S.JobId, now: int)
    | OnWaitOver(job: S.JobId)
    | OnThreadExit(job: S.JobId, result: Thread)
    | OnDrain(job: S.JobId)
    | OnFinalize(job: S.JobId)

  /** The stage that the section continues, for those of a worker. */
  predicate Continues(s: Section, stage: Stage) {
    match s
    case OnBegin(_) => stage == Scheduled
    case OnMove(_, step) => WorkerEnabled(stage, step) && S.MovesWorker(step)
    case OnCheck(_, _) => stage == Checking
    case OnWaitOver(_) => stage == AwaitingContext
    case OnThreadExit(_, result) => HasThread(stage) && stage.thread == Running && result != Running
    case OnDrain(_) => stage.Draining? && stage.thread != Running
    case OnFinalize(_) => stage.Ending?
    case _ => false
  }

  predicate OfNotification(s: Section) {
    s.OnNotify? || s.OnAccept? || s.OnDrop? || s.OnSweep?
  }

  /** Whether the section can be the next to run. */
  predicate Ready(seller: S.SellerCore, s: Section)
    reads seller
  {
    if OfNotification(s)
    then s.OnNotify? || s.OnSweep? || (s.job in seller.reporting && seller.reporting[s.job] > 0)
    else s.job in seller.workers && Continues(s, seller.workers[s.job].stage)
  }

  /** One section of one coroutine. It evicts nothing while the tracked jobs, its own included, are within the cap. */
  method Handle(seller: S.SellerCore, s: Section)
    requires seller.Valid() && Ready(seller, s)
    modifies seller
    ensures seller.Valid() && seller.TracksAlso({s.job})
    ensures |old(seller.Tracked()) + {s.job}| <= S.MAX_TRACKED_JOBS ==> seller.evicted == old(seller.evicted)
  {
    assert LifeOk(seller.LifeOf(s.job), seller.needsContext(s.job));
    if s.OnNotify? {
      HandleNotify(seller, s.job, s.digest);
    } else if s.OnCheck? {
      HandleCheck(seller, s.job, s.now);
    } else if OfNotification(s) {
      HandleSpawn(seller, s);
    } else if OfThread(s) {
      HandleThread(seller, s);
    } else {
      HandleStage(seller, s);
    }
  }

  method HandleNotify(seller: S.SellerCore, job: S.JobId, digest: Digest)
    requires seller.Valid()
    modifies seller
    ensures seller.Valid() && seller.TracksAlso({job})
    ensures |old(seller.Tracked()) + {job}| <= S.MAX_TRACKED_JOBS ==> seller.evicted == old(seller.evicted)
  {
    SubsetSize(seller.Tracked(), seller.Tracked() + {job});
    var _, gone := seller.Notify(job, digest);
    if |old(seller.Tracked()) + {job}| <= S.MAX_TRACKED_JOBS {
      assert gone == {};
      seller.NothingEvicted(job);
    }
  }

  method HandleCheck(seller: S.SellerCore, job: S.JobId, now: int)
    requires seller.Valid() && job in seller.workers && seller.workers[job].stage == Checking && job in seller.inflight
    modifies seller
    ensures seller.Valid() && seller.TracksAlso({job})
    ensures |old(seller.Tracked()) + {job}| <= S.MAX_TRACKED_JOBS ==> seller.evicted == old(seller.evicted)
  {
    CheckKeepsEvicted(seller.LifeOf(job), seller.needsContext(job));
    var _, gone := seller.PassCheck(job, now);
    assert |old(seller.Tracked()) + {job}| <= S.MAX_TRACKED_JOBS ==> seller.evicted == old(seller.evicted) by {
      if gone == {} {
        seller.NothingEvicted(job);
      }
    }
  }

  lemma CheckKeepsEvicted(l: Life, needs: bool)
    requires l.worker.Some? && l.worker.value.stage == Checking
    ensures forall waits :: Next(l, Of(Checked(waits)), needs).evicted == l.evicted
  {
    forall waits: bool ensures Next(l, Of(Checked(waits)), needs).evicted == l.evicted {
      assert Enabled(l, Of(Checked(waits)));
    }
  }

  method HandleSpawn(seller: S.SellerCore, s: Section)
    requires seller.Valid() && Ready(seller, s) && (s.OnAccept? || s.OnDrop? || s.OnSweep?)
    requires seller.LifeOf(s.job).inflight == seller.LifeOf(s.job).worker.Some?
    modifies seller
    ensures seller.Valid() && seller.TracksAlso({}) && seller.evicted == old(seller.evicted)
  {
    match s
    case OnAccept(job) => seller.Accept(job);
    case OnDrop(job) => seller.Drop(job);
    case OnSweep(job) => seller.Sweep(job);
  }

  predicate OfThread(s: Section) {
    s.OnThreadExit? || s.OnDrain? || s.OnFinalize?
  }

  method HandleThread(seller: S.SellerCore, s: Section)
    requires seller.Valid() && OfThread(s)
    requires s.job in seller.workers && Continues(s, seller.workers[s.job].stage)
    modifies seller
    ensures seller.Valid() && seller.TracksAlso({}) && seller.evicted == old(seller.evicted)
  {
    match s
    case OnThreadExit(job, result) => seller.ExitThread(job, result);
    case OnDrain(job) => seller.Drain(job);
    case OnFinalize(job) => seller.Finalize(job);
  }

  method HandleStage(seller: S.SellerCore, s: Section)
    requires seller.Valid() && (s.OnBegin? || s.OnMove? || s.OnWaitOver?)
    requires s.job in seller.workers && Continues(s, seller.workers[s.job].stage)
    modifies seller
    ensures seller.Valid() && seller.TracksAlso({}) && seller.evicted == old(seller.evicted)
  {
    match s
    case OnBegin(job) => seller.Begin(job);
    case OnMove(job, step) => seller.Move(job, step);
    case OnWaitOver(job) => seller.EndWait(job);
  }

  /** A worker that has read its job's context has one if the job or its notification calls for it. */
  predicate ContextUsed(l: Life, needsContext: bool) {
    l.worker.Some? && HasRead(l.worker.value.stage) && (needsContext || l.worker.value.verified) ==>
      l.worker.value.stage.context.Some?
  }

  /** With `views[i]` tracked before section `i`, no section exceeds the cap. */
  ghost predicate WithinCap(views: seq<set<S.JobId>>, sections: seq<Section>)
    requires |views| >= |sections|
  {
    forall i :: 0 <= i < |sections| ==> |views[i] + {sections[i].job}| <= S.MAX_TRACKED_JOBS
  }

  /** What is tracked before each section and at the end; a section adds at most its own job. */
  ghost predicate Follows(views: seq<set<S.JobId>>, sections: seq<Section>) {
    |views| == |sections| + 1 && forall i :: 0 <= i < |sections| ==> views[i + 1] <= views[i] + {sections[i].job}
  }

  /**
   Any sections, in any order, of any jobs. If at every section no more than 1024 jobs are
   tracked, its own counted, no context is ever evicted, and every worker that needs a context
   works with it.
   */
  method Run(seller: S.SellerCore, sections: seq<Section>) returns (ghost views: seq<set<S.JobId>>)
    requires seller.Valid()
    modifies seller
    ensures seller.Valid() && Follows(views, sections)
    ensures views[0] == old(seller.Tracked()) && views[|sections|] == seller.Tracked()
    ensures WithinCap(views, sections) ==> seller.evicted == old(seller.evicted)
    ensures WithinCap(views, sections) && old(seller.evicted) == {} ==>
      forall j :: ContextUsed(seller.LifeOf(j), seller.needsContext(j))
  {
    views := [seller.Tracked()];
    for i := 0 to |sections|
      invariant seller.Valid() && Follows(views, sections[..i])
      invariant views[0] == old(seller.Tracked()) && views[i] == seller.Tracked()
      invariant WithinCap(views, sections[..i]) ==> seller.evicted == old(seller.evicted)
    {
      ghost var before := views;
      HandleIfReady(seller, sections[i]);
      views := views + [seller.Tracked()];
      OneMoreView(before, sections, i, seller.Tracked());
    }
    assert sections[..|sections|] == sections;
    UsedUnlessEvicted(seller);
  }

  method HandleIfReady(seller: S.SellerCore, s: Section)
    requires seller.Valid()
    modifies seller
    ensures seller.Valid() && seller.Tracked() <= old(seller.Tracked()) + {s.job}
    ensures |old(seller.Tracked()) + {s.job}| <= S.MAX_TRACKED_JOBS ==> seller.evicted == old(seller.evicted)
  {
    if Ready(seller, s) {
      Handle(seller, s);
      seller.TrackedGrows({s.job});
    }
  }

  lemma OneMoreView(views: seq<set<S.JobId>>, sections: seq<Section>, i: nat, now: set<S.JobId>)
    requires i < |sections| && Follows(views, sections[..i]) && now <= views[i] + {sections[i].job}
    ensures Follows(views + [now], sections[..i + 1])
    ensures WithinCap(views + [now], sections[..i + 1]) <==>
      WithinCap(views, sections[..i]) && |views[i] + {sections[i].job}| <= S.MAX_TRACKED_JOBS
  {
    var more := views + [now];
    assert forall k :: 0 <= k < i ==> sections[..i + 1][k] == sections[..i][k] && more[k] == views[k];
    assert sections[..i + 1][i] == sections[i] && more[i] == views[i];
  }

  function Named(sections: seq<Section>): set<S.JobId> {
    set i | 0 <= i < |sections| :: sections[i].job
  }

  /** No section exceeds the cap where no more than 1024 jobs are tracked before or named at all. */
  lemma FewJobsFit(views: seq<set<S.JobId>>, sections: seq<Section>)
    requires Follows(views, sections) && |views[0] + Named(sections)| <= S.MAX_TRACKED_JOBS
    ensures WithinCap(views, sections)
  {
    var all := views[0] + Named(sections);
    forall i | 0 <= i < |sections| ensures |views[i] + {sections[i].job}| <= S.MAX_TRACKED_JOBS {
      ViewsAmong(views, sections, i);
      assert sections[i].job in Named(sections);
      SubsetSize(views[i] + {sections[i].job}, all);
    }
  }

  lemma {:induction false} ViewsAmong(views: seq<set<S.JobId>>, sections: seq<Section>, i: nat)
    requires Follows(views, sections) && i <= |sections|
    ensures views[i] <= views[0] + Named(sections)
    decreases i
  {
    if i > 0 {
      ViewsAmong(views, sections, i - 1);
      assert sections[i - 1].job in Named(sections);
    }
  }

  lemma UsedUnlessEvicted(seller: S.SellerCore)
    requires seller.Valid()
    ensures forall j :: j in seller.evicted || ContextUsed(seller.LifeOf(j), seller.needsContext(j))
  {
    forall j | j !in seller.evicted ensures ContextUsed(seller.LifeOf(j), seller.needsContext(j)) {
      assert LifeOk(seller.LifeOf(j), seller.needsContext(j));
    }
  }

  // ----- beyond the cap ---------------------------------------------------------------------------------

  /** An installed notification that waits for its spawn. */
  const NOTIFIED: Life := UNKNOWN.(context := Some(0), reporting := 1)

  ghost function FirstJobs(n: nat): (r: set<S.JobId>)
    ensures |r| == n && forall j: S.JobId :: j in r <==> j < n
  {
    if n == 0 then {} else FirstJobs(n - 1) + {n - 1}
  }

  /** The first `n` jobs have an installed notification, and nothing is known of the others. */
  ghost predicate Crowded(seller: S.SellerCore, n: nat)
    reads seller
  {
    && seller.Valid() && seller.Tracked() == FirstJobs(n)
    && forall j: S.JobId :: seller.LifeOf(j) == if j < n then NOTIFIED else UNKNOWN
  }

  /** Up to the cap one more notification drops nobody. */
  method NotifyNext(seller: S.SellerCore, n: nat)
    requires Crowded(seller, n) && n <= S.MAX_TRACKED_JOBS
    modifies seller
    ensures Crowded(seller, n + 1)
  {
    NotifyWithin(seller, n);
    seller.TrackedGrows({n});
    forall j | j in FirstJobs(n + 1) ensures j in seller.Tracked() {
      assert seller.LifeOf(j).context.Some?;
    }
  }

  method NotifyWithin(seller: S.SellerCore, job: S.JobId)
    requires seller.Valid() && seller.LifeOf(job) == UNKNOWN && |seller.Tracked()| <= S.MAX_TRACKED_JOBS
    modifies seller
    ensures seller.Valid() && seller.LifeOf(job) == NOTIFIED && seller.TracksAlso({job})
    ensures forall j :: j != job ==> seller.LifeOf(j) == old(seller.LifeOf(j))
  {
    var _, gone := seller.Notify(job, 0);
    S.EvictsBeyondCap(|old(seller.Tracked())|, old(seller.Candidates(job)), old(seller.contextDeadlines), gone);
  }

  /** Notifications for 1025 jobs, all installed and none spawned yet. */
  method Crowd() returns (seller: S.SellerCore)
    ensures fresh(seller) && Crowded(seller, S.MAX_TRACKED_JOBS + 1) && forall j :: seller.needsContext(j)
  {
    seller := new S.SellerCore(job => true);
    for i := 0 to S.MAX_TRACKED_JOBS + 1
      invariant fresh(seller) && Crowded(seller, i) && forall j :: seller.needsContext(j)
    {
      NotifyNext(seller, i);
    }
  }

  /** What is left of an installed notification whose context has been evicted. */
  const STRIPPED: Life := UNKNOWN.(reporting := 1, evicted := true)

  lemma PrunedIsStripped()
    ensures Enabled(NOTIFIED, Pruned) && forall needs :: Next(NOTIFIED, Pruned, needs) == STRIPPED
  {
    forall needs: bool | true ensures Next(NOTIFIED, Pruned, needs) == STRIPPED {
    }
  }

  lemma CrowdIsEvictable(seller: S.SellerCore, last: S.JobId)
    requires Crowded(seller, last) && last > 0
    ensures seller.Candidates(last) != {} && seller.Candidates(last) <= FirstJobs(last)
  {
    assert seller.LifeOf(0) == NOTIFIED;
    assert 0 in seller.Candidates(last);
  }

  /** One more strips some of the others. */
  method NotifyOnceMore(seller: S.SellerCore) returns (ghost gone: set<S.JobId>)
    requires Crowded(seller, S.MAX_TRACKED_JOBS + 1)
    modifies seller
    ensures seller.Valid() && gone != {} && gone <= FirstJobs(S.MAX_TRACKED_JOBS + 1)
    ensures forall j :: j in gone ==> seller.LifeOf(j) == STRIPPED
    ensures forall j: S.JobId :: j <= S.MAX_TRACKED_JOBS && j !in gone ==> seller.LifeOf(j) == NOTIFIED
  {
    var last := S.MAX_TRACKED_JOBS + 1;
    CrowdIsEvictable(seller, last);
    PrunedIsStripped();
    gone := StripSome(seller, last);
    forall j | j in gone ensures seller.LifeOf(j) == STRIPPED {
      assert old(seller.LifeOf(j)) == NOTIFIED;
    }
  }

  method StripSome(seller: S.SellerCore, last: S.JobId) returns (ghost gone: set<S.JobId>)
    requires seller.Valid() && seller.LifeOf(last) == UNKNOWN
    requires |seller.Tracked()| > S.MAX_TRACKED_JOBS && seller.Candidates(last) != {}
    modifies seller
    ensures seller.Valid() && gone != {} && gone <= old(seller.Candidates(last)) && last !in gone
    ensures forall j :: j != last && j !in gone ==> seller.LifeOf(j) == old(seller.LifeOf(j))
    ensures forall j :: j in gone ==>
      Enabled(old(seller.LifeOf(j)), Pruned)
      && seller.LifeOf(j) == Next(old(seller.LifeOf(j)), Pruned, seller.needsContext(j))
  {
    var answer;
    answer, gone := seller.Notify(last, 0);
    S.EvictsBeyondCap(|old(seller.Tracked())|, old(seller.Candidates(last)), old(seller.contextDeadlines), gone);
  }

  method FindStripped(seller: S.SellerCore, ghost gone: set<S.JobId>) returns (victim: S.JobId)
    requires gone != {} && gone <= FirstJobs(S.MAX_TRACKED_JOBS + 1)
    requires forall j :: j in gone ==> seller.LifeOf(j) == STRIPPED
    requires forall j: S.JobId :: j <= S.MAX_TRACKED_JOBS && j !in gone ==> seller.LifeOf(j) == NOTIFIED
    ensures seller.LifeOf(victim) == STRIPPED
  {
    ghost var some :| some in gone;
    assert seller.LifeOf(some) == STRIPPED;
    victim :| 0 <= victim <= S.MAX_TRACKED_JOBS && victim !in seller.jobContexts;
    assert victim in gone || seller.LifeOf(victim) == NOTIFIED;
  }

  lemma StrippedWorks(needs: bool)
    ensures
      var l := Next(STRIPPED, Accepted, needs);
      l.worker == Some(Worker(true, Scheduled)) && l.context == None
      && Next(l, Of(Begun), needs).worker == Some(Worker(true, Working(None)))
  {
  }

  method WorkStripped(seller: S.SellerCore, victim: S.JobId)
    requires seller.Valid() && seller.LifeOf(victim) == STRIPPED
    modifies seller
    ensures seller.Valid() && seller.LifeOf(victim).worker == Some(Worker(true, Working(None)))
  {
    StrippedWorks(seller.needsContext(victim));
    seller.Accept(victim);
    assert seller.LifeOf(victim).worker == Some(Worker(true, Scheduled));
    seller.Begin(victim);
  }

  /** A stripped job is accepted all the same, and worked on without the context it needs. */
  method Overcrowd() returns (seller: S.SellerCore, victim: S.JobId)
    ensures seller.Valid() && seller.needsContext(victim)
    ensures seller.LifeOf(victim).worker == Some(Worker(true, Working(None)))
  {
    seller := Crowd();
    ghost var gone := NotifyOnceMore(seller);
    victim := FindStripped(seller, gone);
    WorkStripped(seller, victim);
  }
}
