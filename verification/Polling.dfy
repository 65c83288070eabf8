/**
 The buyer's polling loop. Several of its branches go round without waiting, yet it makes
 at most two status reads per second of its timeout, and two more, and it resumes a failed
 job at most once. The clock may pass at any pace, but not backwards, and a sleep lasts at
 least as long as was asked for.
 */
module Polling {
  import opened Basics
  import opened Wrappers

  const MIN_POLL: int := 1000

  datatype JobStatus = Settling | Queued | Running | Succeeded | Failed(retryable: bool)

  /** An error of the client's own kind, or any other one. */
  datatype Failure = Client(httpStatus: int, code: Code, again: bool) | Foreign

  datatype Code =
    | PollTimeout
    | JobConflict
    | InvalidResponse
    | InvalidTimeout
    | CleanupFailed
    | Other(text: string)

  datatype StatusReply = Status(status: JobStatus, retryAfter: int) | NoStatus(failure: Failure)

  datatype ResumeReply = Resumed(running: bool, retryAfter: int) | NotResumed(failure: Failure)

  datatype RecoverReply = Recovered(sameJob: bool, settling: bool) | NotRecovered(failure: Failure)

  /** How a round ends. */
  datatype Verdict = Again | Completed | JobFailed | Thrown(failure: Failure)

  const TIMED_OUT: Failure := Client(0, PollTimeout, false)

  predicate IsConflict(f: Failure) {
    f.Client? && f.httpStatus == 409 && f.code == JobConflict
  }

  predicate IsGone(f: Failure) {
    f.Client? && f.httpStatus == 410
  }

  predicate MayRetry(f: Failure) {
    f.Foreign? || f.again
  }

  /** What the loop learns with certainty that a job is no longer settling. */
  predicate ShowsNonSettling(r: StatusReply) {
    if r.Status? then r.status != Settling else IsGone(r.failure)
  }

  // ----- clock, network and callbacks -------------------------------------------------------------
  // Each call takes the time it starts at and gives the time it ends at.

  method Now(clock: int) returns (now: int)
    ensures now >= clock
  {
    var sample: int := *;
    now := Max(clock, sample);
  }

  method Sleep(clock: int, milliseconds: int) returns (now: int)
    ensures now >= clock + milliseconds && now >= clock
  {
    now := Now(clock + Max(0, milliseconds));
  }

  method GetStatus(clock: int) returns (reply: StatusReply, now: int)
    ensures now >= clock
  {
    reply := *;
    now := Now(clock);
  }

  method Resume(clock: int) returns (reply: ResumeReply, now: int)
    ensures now >= clock
  {
    reply := *;
    now := Now(clock);
  }

  method RecoverSettling(clock: int) returns (reply: RecoverReply, now: int)
    ensures now >= clock
  {
    reply := *;
    now := Now(clock);
  }

  method CleanUp(clock: int) returns (ok: bool, now: int)
    ensures now >= clock
  {
    ok := *;
    now := Now(clock);
  }

  // ----- the loop's state -------------------------------------------------------------------------

  datatype Options = Options(
    timeout: int,
    defaultPoll: int,
    settlingRecovery: int,
    runningRecovery: int,
    hasRecovery: bool,
    hasCleanup: bool
  )

  predicate Usable(o: Options) {
    o.timeout > 0 && o.settlingRecovery >= MIN_POLL && o.runningRecovery >= MIN_POLL
  }

  datatype Loop = Loop(
    clock: int,
    resumeAttempted: bool,
    settlingObservedAt: Option<int>,
    runningObservedAt: Option<int>,
    recoveryEnabled: bool,
    cleanupAttempted: bool
  )

  /** What the loop has done so far and which errors it met; waits are those that came back before the deadline. */
  datatype Tally = Tally(
    waits: nat,
    recoveries: nat,
    conflicts: nat,
    failedResumes: nat,
    staleResumes: nat,
    errors: seq<Error>
  )

  datatype Error =
    | StatusError(failure: Failure)
    | ResumeError(failure: Failure)
    | RecoveryError(failure: Failure)
    | OtherJob                        // a recovery that came back with another job
    | CleanupError

  /** The errors that end the loop; a conflict and what may be tried again do not. */
  predicate IsFinal(e: Error) {
    match e
    case StatusError(f) => IsGone(f) || !MayRetry(f)
    case ResumeError(f) => !IsConflict(f) && !MayRetry(f)
    case RecoveryError(f) => f.Foreign? || !f.again
    case OtherJob => true
    case CleanupError => true
  }

  function FailureOf(e: Error): Failure {
    match e
    case OtherJob => Client(0, InvalidResponse, false)
    case CleanupError => Client(0, CleanupFailed, false)
    case _ => e.failure
  }

  predicate NoneFinal(errors: seq<Error>) {
    forall e :: e in errors ==> !IsFinal(e)
  }

  /** The loop throws only at its deadline or on its last error, which is final; as long as it goes on, no error was. */
  predicate Explained(o: Options, start: int, verdict: Verdict, now: int, errors: seq<Error>) {
    match verdict
    case Thrown(f) =>
      || (f == TIMED_OUT && now >= start + o.timeout && NoneFinal(errors))
      || (errors != [] && IsFinal(errors[|errors| - 1]) && f == FailureOf(errors[|errors| - 1])
          && NoneFinal(errors[..|errors| - 1]))
    case _ => NoneFinal(errors)
  }

  function Met(k: Tally, e: Error): Tally {
    k.(errors := k.errors + [e])
  }

  lemma MetExplained(o: Options, start: int, now: int, errors: seq<Error>, e: Error)
    requires NoneFinal(errors)
    ensures IsFinal(e) ==> Explained(o, start, Thrown(FailureOf(e)), now, errors + [e])
    ensures !IsFinal(e) ==> NoneFinal(errors + [e])
  {
    assert (errors + [e])[..|errors|] == errors;
  }

  /** Waits and recoveries each take their second, and both end before the deadline. */
  predicate Paced(o: Options, start: int, s: Loop, k: Tally) {
    && Usable(o) && start <= s.clock
    && 1000 * k.waits <= s.clock - start && 1000 * k.waits < o.timeout
    && 1000 * k.recoveries <= s.clock - start && 1000 * k.recoveries < o.timeout
    && (s.settlingObservedAt.Some? ==>
          s.settlingObservedAt.value <= s.clock && 1000 * k.recoveries <= s.settlingObservedAt.value - start)
    && k.conflicts <= k.failedResumes <= (if s.resumeAttempted then 1 else 0)
    && (s.recoveryEnabled || k.recoveries > 0 ==> o.hasRecovery)
  }

  /** Going round again takes a wait, a recovery, or the one conflict. */
  function Rounds(k: Tally): nat {
    k.waits + k.recoveries + k.conflicts
  }

  /** Status reads a timeout allows. */
  function ReadLimit(timeout: int): int {
    2 * ((timeout - 1) / 1000) + 2
  }

  lemma RoundsAreFew(o: Options, start: int, s: Loop, k: Tally)
    requires Paced(o, start, s, k)
    ensures Rounds(k) < ReadLimit(o.timeout)
  {
  }

  predicate SeenPastSettling(replies: seq<StatusReply>) {
    exists i :: 0 <= i < |replies| && ShowsNonSettling(replies[i])
  }

  lemma SeenMore(replies: seq<StatusReply>, reply: StatusReply)
    ensures SeenPastSettling(replies + [reply]) <==> SeenPastSettling(replies) || ShowsNonSettling(reply)
    ensures (replies + [reply])[|replies|] == reply
  {
    var more := replies + [reply];
    assert more[|replies|] == reply;
    if i :| 0 <= i < |replies| && ShowsNonSettling(replies[i]) {
      assert more[i] == replies[i];
    }
  }

  predicate EndsWith(replies: seq<StatusReply>, status: JobStatus) {
    replies != [] && replies[|replies| - 1].Status? && replies[|replies| - 1].status == status
  }

  /** The loop returns a job as done or failed only if the last reply said so, and after the cleanup if it is done. */
  predicate Answered(o: Options, verdict: Verdict, replies: seq<StatusReply>, cleanedUp: bool) {
    && (verdict == Completed ==> EndsWith(replies, Succeeded) && (o.hasCleanup ==> cleanedUp))
    && (verdict == JobFailed ==> EndsWith(replies, Failed(false)) || EndsWith(replies, Failed(true)))
  }

  // ----- the branches -----------------------------------------------------------------------------

  method Wait(o: Options, start: int, s: Loop, requested: int, ghost k: Tally)
    returns (timedOut: bool, s': Loop, ghost k': Tally)
    requires Paced(o, start, s, k)
    ensures Paced(o, start, s', k') && s'.clock >= s.clock && s' == s.(clock := s'.clock)
    ensures k' == if timedOut then k else k.(waits := k.waits + 1)
    ensures
      if timedOut then s'.clock >= start + o.timeout
      else s.clock + Max(MIN_POLL, requested) <= s'.clock < start + o.timeout
  {
    var deadline := start + o.timeout;
    var now := Now(s.clock);
    var remaining := deadline - now;
    if remaining <= 0 {
      return true, s.(clock := now), k;
    }
    now := Sleep(now, Min(remaining, Max(MIN_POLL, requested)));
    now := Now(now);
    s' := s.(clock := now);
    timedOut := now >= deadline;
    k' := if timedOut then k else k.(waits := k.waits + 1);
  }

  /** A wait, and then round again. */
  method WaitThenAgain(o: Options, start: int, s: Loop, requested: int, ghost k: Tally)
    returns (verdict: Verdict, s': Loop, ghost k': Tally)
    requires Paced(o, start, s, k) && NoneFinal(k.errors)
    ensures Paced(o, start, s', k') && s'.clock >= s.clock && s' == s.(clock := s'.clock)
    ensures verdict == Again || verdict == Thrown(TIMED_OUT)
    ensures k' == k.(waits := k.waits + (if verdict == Again then 1 else 0))
    ensures Explained(o, start, verdict, s'.clock, k'.errors)
    ensures verdict == Again ==> s'.clock >= s.clock + Max(MIN_POLL, requested)
  {
    var timedOut;
    timedOut, s', k' := Wait(o, start, s, requested, k);
    verdict := if timedOut then Thrown(TIMED_OUT) else Again;
  }

  /** A failed job is resumed, the first time, if it may be. */
  method OnFailed(o: Options, start: int, s: Loop, retryable: bool, ghost k: Tally)
    returns (verdict: Verdict, s': Loop, ghost k': Tally)
    requires Paced(o, start, s, k) && NoneFinal(k.errors)
    ensures Paced(o, start, s', k') && s'.cleanupAttempted == s.cleanupAttempted
    ensures Rounds(k') >= Rounds(k) + (if verdict == Again then 1 else 0)
    ensures verdict == JobFailed <==> !retryable || s.resumeAttempted
    ensures verdict == JobFailed || verdict == Thrown(TIMED_OUT) || k'.failedResumes == k.failedResumes + 1
    ensures verdict == Again ==> k'.conflicts == k.conflicts + 1 || s'.clock >= s.clock + MIN_POLL
    ensures verdict != Completed && Explained(o, start, verdict, s'.clock, k'.errors)
  {
    if !retryable || s.resumeAttempted {
      return JobFailed, s, k;
    }
    s' := s.(resumeAttempted := true);
    var now := Now(s.clock);
    s' := s'.(clock := now);
    if start + o.timeout - now <= 0 {
      return Thrown(TIMED_OUT), s', k;
    }
    var reply;
    reply, now := Resume(now);
    s', k' := s'.(clock := now), k.(failedResumes := k.failedResumes + 1);
    if reply.NotResumed? {
      MetExplained(o, start, s'.clock, k'.errors, ResumeError(reply.failure));
      k' := Met(k', ResumeError(reply.failure));
    }
    if reply.NotResumed? && IsConflict(reply.failure) {
      return Again, s', k'.(conflicts := k'.conflicts + 1);
    }
    if reply.NotResumed? && !MayRetry(reply.failure) {
      return Thrown(reply.failure), s', k';
    }
    verdict, s', k' := WaitThenAgain(o, start, s', if reply.Resumed? then reply.retryAfter else o.defaultPoll, k');
  }

  /**
   A job that stays in settling for the recovery period is recovered with its pending proof;
   `handled` is false while the period is not over.
   */
  method OnSettling(o: Options, start: int, s: Loop, ghost k: Tally)
    returns (handled: bool, verdict: Verdict, s': Loop, ghost k': Tally)
    requires Paced(o, start, s, k) && s.recoveryEnabled && NoneFinal(k.errors)
    ensures Paced(o, start, s', k') && s'.cleanupAttempted == s.cleanupAttempted
    ensures s'.resumeAttempted == s.resumeAttempted && s'.clock >= s.clock
    ensures !handled ==>
      && verdict == Again && k' == k && s'.settlingObservedAt.Some?
      && (s.settlingObservedAt.Some? ==> s'.settlingObservedAt == s.settlingObservedAt)
      && s'.clock - s'.settlingObservedAt.value < o.settlingRecovery
    ensures handled ==> k'.recoveries == k.recoveries + 1 || verdict == Thrown(TIMED_OUT)
    ensures handled ==> Rounds(k') >= Rounds(k) + (if verdict == Again then 1 else 0)
    ensures k'.recoveries > k.recoveries ==>
      s'.clock - (if s.settlingObservedAt.Some? then s.settlingObservedAt.value else s.clock) >= o.settlingRecovery
    ensures (verdict == Again || verdict.Thrown?) && Explained(o, start, verdict, s'.clock, k'.errors)
  {
    k' := k;
    var now := Now(s.clock);
    var observed := if s.settlingObservedAt.Some? then s.settlingObservedAt.value else now;
    now := Now(now);
    s' := s.(clock := now, settlingObservedAt := Some(observed));
    if now - observed < o.settlingRecovery {
      return false, Again, s', k;
    }
    now := Now(now);
    s' := s'.(clock := now);
    if start + o.timeout - now <= 0 {
      return true, Thrown(TIMED_OUT), s', k;
    }
    var reply;
    reply, now := RecoverSettling(now);
    k' := k.(recoveries := k.recoveries + 1);
    if reply.Recovered? {
      now := Now(now);
      s' := s'.(clock := now, recoveryEnabled := reply.settling,
                settlingObservedAt := if reply.settling then Some(now) else None);
      if !reply.sameJob {
        MetExplained(o, start, s'.clock, k'.errors, OtherJob);
        return true, Thrown(Client(0, InvalidResponse, false)), s', Met(k', OtherJob);
      }
      return true, Again, s', k';
    }
    now := Now(now);
    s' := s'.(clock := now, settlingObservedAt := Some(now));
    MetExplained(o, start, s'.clock, k'.errors, RecoveryError(reply.failure));
    k' := Met(k', RecoveryError(reply.failure));
    if reply.failure.Foreign? || !reply.failure.again {
      return true, Thrown(reply.failure), s', k';
    }
    handled := true;
    verdict, s', k' := WaitThenAgain(o, start, s', o.defaultPoll, k');
  }

  /** A job that stays running for the recovery period is resumed; every such round waits. */
  method OnRunning(o: Options, start: int, s: Loop, retryAfter: int, ghost k: Tally)
    returns (verdict: Verdict, s': Loop, ghost k': Tally)
    requires Paced(o, start, s, k) && NoneFinal(k.errors)
    ensures Paced(o, start, s', k') && s'.cleanupAttempted == s.cleanupAttempted
    ensures s'.resumeAttempted == s.resumeAttempted
    ensures Rounds(k') >= Rounds(k) + (if verdict == Again then 1 else 0)
    ensures (verdict == Again || verdict.Thrown?) && Explained(o, start, verdict, s'.clock, k'.errors)
    ensures verdict == Again ==> s'.clock >= s.clock + MIN_POLL
    ensures verdict == Again && RunsFor(s, s.clock) >= o.runningRecovery ==> k'.staleResumes == k.staleResumes + 1
    ensures k'.staleResumes > k.staleResumes ==> RunsFor(s, s'.clock) >= o.runningRecovery
    ensures verdict == Again && k'.staleResumes == k.staleResumes ==> s'.clock >= s.clock + Max(MIN_POLL, retryAfter)
  {
    var now := Now(s.clock);
    var observed := if s.runningObservedAt.Some? then s.runningObservedAt.value else now;
    now := Now(now);
    s' := s.(clock := now, runningObservedAt := Some(observed));
    var pause;
    verdict, s', pause, k' := ResumeStale(o, start, s', now - observed, retryAfter, k);
    if verdict == Again {
      verdict, s', k' := WaitThenAgain(o, start, s', pause, k');
    }
  }

  /** How long the job has been seen running by the time `now`. */
  function RunsFor(s: Loop, now: int): int {
    if s.runningObservedAt.Some? then now - s.runningObservedAt.value else now - s.clock
  }

  /** The resume of a job that has been running for `age`, if that is the recovery period; then how long to wait. */
  method ResumeStale(o: Options, start: int, s: Loop, age: int, retryAfter: int, ghost k: Tally)
    returns (verdict: Verdict, s': Loop, pause: int, ghost k': Tally)
    requires Paced(o, start, s, k) && NoneFinal(k.errors)
    ensures Paced(o, start, s', k') && s'.clock >= s.clock
    ensures s' == s.(clock := s'.clock, runningObservedAt := s'.runningObservedAt)
    ensures (verdict == Again || verdict.Thrown?) && Explained(o, start, verdict, s'.clock, k'.errors)
    ensures Rounds(k') == Rounds(k)
    ensures verdict == Again && age >= o.runningRecovery ==> k'.staleResumes == k.staleResumes + 1
    ensures age < o.runningRecovery ==> verdict == Again && pause == retryAfter && s' == s && k' == k
  {
    verdict, s', pause, k' := Again, s, retryAfter, k;
    if age >= o.runningRecovery {
      var now := Now(s.clock);
      s' := s.(clock := now);
      if start + o.timeout - now <= 0 {
        return Thrown(TIMED_OUT), s', pause, k';
      }
      var reply;
      reply, now := Resume(now);
      k' := k'.(staleResumes := k'.staleResumes + 1);
      if reply.NotResumed? {
        MetExplained(o, start, s'.clock, k'.errors, ResumeError(reply.failure));
        k' := Met(k', ResumeError(reply.failure));
      }
      if reply.NotResumed? && !IsConflict(reply.failure) && !MayRetry(reply.failure) {
        return Thrown(reply.failure), s', pause, k';
      }
      now := Now(now);
      s' := s.(clock := now, runningObservedAt := if reply.NotResumed? || reply.running then Some(now) else None);
      pause := if reply.Resumed? then reply.retryAfter else retryAfter;
    }
  }

  /** What is done about a status. */
  method Act(o: Options, start: int, s: Loop, status: JobStatus, retryAfter: int, ghost k: Tally)
    returns (verdict: Verdict, s': Loop, ghost k': Tally)
    requires Paced(o, start, s, k) && NoneFinal(k.errors)
    ensures Paced(o, start, s', k') && s'.cleanupAttempted == s.cleanupAttempted
    ensures Rounds(k') >= Rounds(k) + (if verdict == Again then 1 else 0)
    ensures Explained(o, start, verdict, s'.clock, k'.errors)
    ensures verdict == Again && (status == Queued || (status == Settling && k'.recoveries == k.recoveries)) ==>
      s'.clock >= s.clock + Max(MIN_POLL, retryAfter)
    ensures verdict == Completed <==> status == Succeeded
    ensures verdict == JobFailed <==> status.Failed? && (!status.retryable || s.resumeAttempted)
  {
    s', k' := s, k;
    if status == Succeeded {
      return Completed, s, k;
    }
    if status.Failed? {
      verdict, s', k' := OnFailed(o, start, s, status.retryable, k);
      return;
    }
    if status == Settling && s.recoveryEnabled {
      var handled;
      handled, verdict, s', k' := OnSettling(o, start, s, k);
      if handled {
        return;
      }
    } else if status != Settling {
      s' := s.(recoveryEnabled := false, settlingObservedAt := None);
    }
    if status == Running {
      verdict, s', k' := OnRunning(o, start, s', retryAfter, k');
      return;
    }
    s' := s'.(runningObservedAt := None);
    verdict, s', k' := WaitThenAgain(o, start, s', retryAfter, k');
  }

  /** What follows from a reply: the cleanup, once, and then what the status or the error calls for. */
  method Heed(o: Options, start: int, s: Loop, reply: StatusReply, ghost k: Tally)
    returns (verdict: Verdict, s': Loop, ghost k': Tally)
    requires Paced(o, start, s, k) && NoneFinal(k.errors)
    ensures Paced(o, start, s', k') && Explained(o, start, verdict, s'.clock, k'.errors)
    ensures s'.cleanupAttempted <==> s.cleanupAttempted || (o.hasCleanup && ShowsNonSettling(reply))
    ensures Rounds(k') >= Rounds(k) + (if verdict == Again then 1 else 0)
    ensures verdict == Completed ==> reply.Status? && reply.status == Succeeded
    ensures verdict == JobFailed ==>
      reply.Status? && reply.status.Failed? && (!reply.status.retryable || s.resumeAttempted)
  {
    s', k' := s, k;
    if ShowsNonSettling(reply) && o.hasCleanup && !s.cleanupAttempted {
      var ok, now := CleanUp(s.clock);
      s' := s.(clock := now, cleanupAttempted := true);
      if !ok {
        MetExplained(o, start, s'.clock, k.errors, CleanupError);
        return Thrown(Client(0, CleanupFailed, false)), s', Met(k, CleanupError);
      }
    }
    if reply.NoStatus? {
      MetExplained(o, start, s'.clock, k.errors, StatusError(reply.failure));
      k' := Met(k, StatusError(reply.failure));
      if IsGone(reply.failure) || !MayRetry(reply.failure) {
        return Thrown(reply.failure), s', k';
      }
      verdict, s', k' := WaitThenAgain(o, start, s', o.defaultPoll, k');
      return;
    }
    verdict, s', k' := Act(o, start, s', reply.status, reply.retryAfter, k);
  }

  /** One round: at most one status read, and what follows from it. */
  method Round(o: Options, start: int, s: Loop, replies: seq<StatusReply>, ghost k: Tally)
    returns (verdict: Verdict, s': Loop, replies': seq<StatusReply>, ghost k': Tally)
    requires Paced(o, start, s, k) && (s.cleanupAttempted ==> SeenPastSettling(replies)) && NoneFinal(k.errors)
    ensures Paced(o, start, s', k') && (s'.cleanupAttempted ==> SeenPastSettling(replies'))
    ensures |replies'| <= |replies| + 1 && Explained(o, start, verdict, s'.clock, k'.errors)
    ensures Rounds(k') >= Rounds(k) + (if verdict == Again then 1 else 0)
    ensures Answered(o, verdict, replies', s'.cleanupAttempted)
    ensures verdict == JobFailed ==> EndsWith(replies', Failed(false)) || s.resumeAttempted
  {
    s', replies', k' := s, replies, k;
    var now := Now(s.clock);
    s' := s.(clock := now);
    if now >= start + o.timeout {
      return Thrown(TIMED_OUT), s', replies, k;
    }
    now := Now(now);
    s' := s.(clock := now);
    if start + o.timeout - now <= 0 {
      return Thrown(TIMED_OUT), s', replies, k;
    }
    var reply;
    reply, now := GetStatus(now);
    replies' := replies + [reply];
    SeenMore(replies, reply);
    s' := s.(clock := now);
    verdict, s', k' := Heed(o, start, s', reply, k);
  }

  /** Round after round, until one ends the loop. */
  method PollFrom(o: Options, start: int)
    returns (verdict: Verdict, s: Loop, replies: seq<StatusReply>, ghost k: Tally)
    requires Usable(o)
    ensures verdict != Again && Paced(o, start, s, k) && |replies| <= Rounds(k) + 1
    ensures s.cleanupAttempted ==> SeenPastSettling(replies)
    ensures Answered(o, verdict, replies, s.cleanupAttempted) && Explained(o, start, verdict, s.clock, k.errors)
  {
    k, replies := Tally(0, 0, 0, 0, 0, []), [];
    s := Loop(start, false, None, None, o.hasRecovery, false);
    verdict := Again;
    while verdict == Again
      invariant Paced(o, start, s, k) && (s.cleanupAttempted ==> SeenPastSettling(replies))
      invariant Explained(o, start, verdict, s.clock, k.errors)
      invariant |replies| <= Rounds(k) + (if verdict == Again then 0 else 1)
      invariant Answered(o, verdict, replies, s.cleanupAttempted)
      decreases if verdict == Again then 1 else 0, 2 * o.timeout + 2 - (k.waits + k.recoveries + k.conflicts)
    {
      verdict, s, replies, k := Round(o, start, s, replies, k);
    }
  }

  /** The whole loop: it ends, and how often it asks is bounded by its timeout. */
  method Poll(o: Options, clock: int)
    returns (verdict: Verdict, replies: seq<StatusReply>, cleanedUp: bool, ghost k: Tally, ghost start: int, ghost end: int)
    ensures verdict != Again
    ensures |replies| <= (if Usable(o) then ReadLimit(o.timeout) else 0)
    ensures k.failedResumes <= 1
    ensures k.recoveries == 0 || (o.hasRecovery && 1000 * k.recoveries < o.timeout)
    ensures cleanedUp ==> SeenPastSettling(replies)
    ensures Answered(o, verdict, replies, cleanedUp)
    ensures !Usable(o) ==> verdict == Thrown(Client(0, InvalidTimeout, false))
    ensures Usable(o) ==> clock <= start <= end && Explained(o, start, verdict, end, k.errors)
  {
    if !Usable(o) {
      return Thrown(Client(0, InvalidTimeout, false)), [], false, Tally(0, 0, 0, 0, 0, []), clock, clock;
    }
    var begin := Now(clock);
    var s;
    verdict, s, replies, k := PollFrom(o, begin);
    RoundsAreFew(o, begin, s, k);
    cleanedUp, start, end := s.cleanupAttempted, begin, s.clock;
  }
}
