/**
 The wallet rate limiter's loops, against a stored object that other replicas rewrite
 between any two of its operations. Every write a call lands is appended to the log of
 WalletWindow, so the window theorem applies to whatever these methods do.
 */
module WalletLimiter {
  import opened Wrappers
  import opened WalletWindow

  const MAX_TRIES: nat := 64

  /** What a caller learns from a conditional put; `Raised` says nothing about landing. */
  datatype Reply = Done | Conflict | Raised

  datatype Reading = ReadFailed | ReadOk(record: Option<seq<Entry>>)

  datatype ReserveResult =
    | Admitted(at: int)
    | Existing(at: int, state: EntryState)
    | Exceeded(retryAfter: int)
    | ReserveUnavailable

  datatype MutateResult = Mutated | SlotExpired | MutateUnavailable

  datatype SlotReading = SlotIs(state: EntryState) | SlotHourOver | SlotUnreadable

  datatype ConfirmResult = ConfirmActive | ConfirmExpired | ConfirmUnavailable

  /** The entries of a record that may not exist yet. */
  function Stored(record: Option<seq<Entry>>): seq<Entry> {
    if record.Some? then record.value else []
  }

  method Happens() returns (b: bool) {
    b := *;
  }

  /** The wallet record as one object of the store. */
  class WalletObject {
    var record: Option<seq<Entry>>
    ghost var log: Log
    ghost var own: seq<Op>   // this caller's writes that have landed or may still land
    ghost var faults: nat    // its clock samples out of range and its operations that failed
    ghost var races: nat     // its puts that lost to another write, or found the store busy twice
    ghost var busies: nat    // the answers that the store is busy

    ghost predicate Valid()
      reads this
    {
      Legal(log) && record == (if log == [] then None else Some(After(log)))
    }

    constructor ()
      ensures Valid() && log == [] && own == [] && faults == races == busies == 0
    {
      record := None;
      log, own := [], [];
      faults, races, busies := 0, 0, 0;
    }

    /** The limiter's clock; None when the sample is outside the accepted range. */
    method Now() returns (r: Option<int>, ghost sample: int)
      modifies this`faults
      ensures r == if 1 <= sample <= MAX_TIMESTAMP then Some(sample) else None
      ensures faults == old(faults) + (if r.None? then 1 else 0)
    {
      var reading: int := *;
      sample := reading;
      r := if 1 <= reading <= MAX_TIMESTAMP then Some(reading) else None;
      if r.None? {
        faults := faults + 1;
      }
    }

    /** Something outside the record that may fail: the network, or the wait before another try. */
    method Fails() returns (fails: bool)
      modifies this`faults
      ensures faults == old(faults) + (if fails then 1 else 0)
    {
      fails := Happens();
      if fails {
        faults := faults + 1;
      }
    }

    /** Any number of writes land: other callers', and this one's that raised before. */
    method OthersWrite()
      requires Valid()
      modifies this
      ensures Valid() && old(log) <= log && own == old(own)
      ensures faults == old(faults) && races == old(races) && busies == old(busies)
    {
    }

    method Read() returns (r: Reading)
      requires Valid()
      modifies this
      ensures Valid() && old(log) <= log && own == old(own) && races == old(races)
      ensures faults == old(faults) + (if r.ReadFailed? then 1 else 0)
      ensures r.ReadOk? ==> r.record == record
    {
      OthersWrite();
      var fails := Fails();
      r := if fails then ReadFailed else ReadOk(record);
    }

    /** The write itself, over what the store holds. */
    method Land(stored: seq<Entry>, op: Op)
      requires Valid() && Enabled(stored, op) && stored == Stored(record)
      modifies this
      ensures Valid() && log == old(log) + [op] && own == old(own) + [op]
      ensures faults == old(faults) && races == old(races) && busies == old(busies)
      ensures After(old(log)) == stored && After(log) == Written(stored, op)
    {
      ghost var before := log;
      log, own := log + [op], own + [op];
      record := Some(Written(stored, op));
      Extend(before, op);
    }

    /**
     A put under If-None-Match (`expected` is None) or If-Match. A 409 answer is retried
     once; a second one, like a failed precondition, is a conflict.
     */
    method ConditionalPut(expected: Option<seq<Entry>>, op: Op) returns (reply: Reply, ghost landed: bool, ghost before: Log)
      requires Valid() && Enabled(Stored(expected), op)
      modifies this
      ensures Valid() && old(log) <= log && own == (if reply == Conflict then old(own) else old(own) + [op])
      ensures reply == Done ==> landed
      ensures reply == Conflict ==> !landed && (record != expected || busies == old(busies) + 2)
      ensures faults == old(faults) + (if reply == Raised then 1 else 0)
      ensures races == old(races) + (if reply == Conflict then 1 else 0)
      ensures landed ==>
        && old(log) <= before && log == before + [op]
        && After(before) == Stored(expected) && After(log) == Written(Stored(expected), op)
    {
      for attempt := 0 to 2
        invariant Valid() && old(log) <= log && own == old(own)
        invariant faults == old(faults) && races == old(races) && busies == old(busies) + attempt
      {
        var busy;
        reply, busy, landed, before := PutOnce(expected, op);
        if !busy {
          races := races + (if reply == Conflict then 1 else 0);
          return;
        }
      }
      races := races + 1;
      return Conflict, false, log;
    }

    /** One put; a `busy` answer (409) tells that nothing has been written. */
    method PutOnce(expected: Option<seq<Entry>>, op: Op) returns (reply: Reply, busy: bool, ghost landed: bool, ghost before: Log)
      requires Valid() && Enabled(Stored(expected), op)
      modifies this
      ensures Valid() && old(log) <= log && own == (if reply == Conflict then old(own) else old(own) + [op])
      ensures busy ==> reply == Conflict
      ensures reply == Done ==> landed
      ensures reply == Conflict ==> !landed && (busy || record != expected)
      ensures faults == old(faults) + (if reply == Raised then 1 else 0)
      ensures races == old(races) && busies == old(busies) + (if busy then 1 else 0)
      ensures landed ==>
        && old(log) <= before && log == before + [op]
        && After(before) == Stored(expected) && After(log) == Written(Stored(expected), op)
    {
      OthersWrite();
      before := log;
      var broken := Fails();
      if broken {
        own := own + [op];
        return Raised, false, false, before;
      }
      busy := Happens();
      if busy || record != expected {
        busies := busies + (if busy then 1 else 0);
        return Conflict, busy, false, before;
      }
      Land(Stored(expected), op);
      var unanswered := Fails();
      return if unanswered then Raised else Done, false, true, before;
    }

    /** One pass of the admission loop; None asks for another pass. */
    method TryReserve(id: Id) returns (r: Option<ReserveResult>, ghost wrote: Option<nat>)
      requires Valid()
      modifies this
      ensures Valid() && old(log) <= log
      ensures LeavesAtMostOne(old(own), own, id, r, log, wrote)
      ensures ReserveExplained(log, |old(log)|, id, r, wrote)
      ensures r == Some(ReserveUnavailable) <==> faults > old(faults)
      ensures faults > old(faults) || (faults == old(faults) && races == old(races) + (if r == None then 1 else 0))
    {
      wrote := None;
      var now, _ := Now();
      if now.None? {
        return Some(ReserveUnavailable), wrote;
      }
      var reading := Read();
      if reading.ReadFailed? {
        return Some(ReserveUnavailable), wrote;
      }
      ghost var seen := log;
      r, wrote := TryRecord(id, now.value, reading.record);
      assert ReserveExplained(log, |old(log)|, id, r, wrote) by {
        ExplainedEarlier(log, |old(log)|, |seen|, id, r, wrote);
      }
    }

    /** The pass from the record it has read: an answer at once, or a write. */
    method TryRecord(id: Id, now: int, found: Option<seq<Entry>>) returns (r: Option<ReserveResult>, ghost wrote: Option<nat>)
      requires Valid() && found == record && 1 <= now <= MAX_TIMESTAMP
      modifies this
      ensures Valid() && old(log) <= log
      ensures LeavesAtMostOne(old(own), own, id, r, log, wrote)
      ensures ReserveExplained(log, |old(log)|, id, r, wrote)
      ensures r == Some(ReserveUnavailable) <==> faults > old(faults)
      ensures faults > old(faults) || (faults == old(faults) && races == old(races) + (if r == None then 1 else 0))
    {
      var plan := PlanReserve(Stored(found), id, now);
      if plan.Answer? {
        wrote := None;
        AnswerExplained(log, |old(log)|, id, now);
        return Some(plan.result), wrote;
      }
      FoundIsHeld(log, id, now);
      r, wrote := TryWrite(id, now, found, plan);
    }

    /** A planned write, and what its reply leaves of the plan's result. */
    method TryWrite(id: Id, now: int, expected: Option<seq<Entry>>, plan: Plan)
      returns (r: Option<ReserveResult>, ghost wrote: Option<nat>)
      requires Valid() && plan.Attempt? && plan.op.id == id
      requires Enabled(Stored(expected), plan.op)
      requires
        if plan.result.Existing?
        then plan.op.Prune? && Held(log, |log|, Entry(id, plan.result.at, plan.result.state))
        else plan.result == Admitted(now) && plan.op == Op.Reserve(id, now)
      modifies this
      ensures Valid() && old(log) <= log
      ensures LeavesAtMostOne(old(own), own, id, r, log, wrote)
      ensures ReserveExplained(log, |old(log)|, id, r, wrote)
      ensures r == Some(ReserveUnavailable) <==> faults > old(faults)
      ensures faults > old(faults) || (faults == old(faults) && races == old(races) + (if r == None then 1 else 0))
    {
      wrote := None;
      var reply, landed, before := ConditionalPut(expected, plan.op);
      if landed {
        wrote := Some(|log| - 1);
      }
      AttemptExplained(old(log), log, |old(log)|, id, now, plan, wrote);
      match reply
      case Done => r := Some(plan.result);
      case Raised => r := Some(ReserveUnavailable);
      case Conflict =>
        var backoffFails := Fails();
        r := if backoffFails then Some(ReserveUnavailable) else None;
    }

    /**
     Admission. A granted admission is exactly one landed reserve of this call; an
     existing reservation, a refusal and an error come with no admission of this call
     that it was told about. At most one write of the call lands, during it or later. It is
     unavailable exactly if something failed or every try lost its race.
     */
    method Reserve(id: Id, tries: nat) returns (r: ReserveResult, ghost wrote: Option<nat>)
      requires Valid() && 1 <= tries <= MAX_TRIES
      modifies this
      ensures Valid() && old(log) <= log
      ensures LeavesAtMostOne(old(own), own, id, Some(r), log, wrote)
      ensures ReserveExplained(log, |old(log)|, id, Some(r), wrote)
      ensures r.ReserveUnavailable? <==> faults > old(faults) || races == old(races) + tries
    {
      for attempt := 0 to tries
        invariant Valid() && old(log) <= log && own == old(own)
        invariant faults == old(faults) && races == old(races) + attempt
      {
        ghost var from := |log|;
        var answer: Option<ReserveResult>;
        answer, wrote := TryReserve(id);
        if answer.Some? {
          ExplainedEarlier(log, |old(log)|, from, id, answer, wrote);
          return answer.value, wrote;
        }
      }
      return ReserveUnavailable, None;
    }

    /** The state of one reservation, as the recovery of a lost commit reads it. */
    method ReadSlot(id: Id, at: int) returns (r: SlotReading, ghost sample: int)
      requires Valid()
      modifies this
      ensures Valid() && old(log) <= log && own == old(own)
      ensures r.SlotIs? ==> Entry(id, at, r.state) in After(log)
      ensures r.SlotHourOver? ==> !IsActive(at, sample)
      ensures r.SlotUnreadable? ==> faults > old(faults) || !HasSlot(After(log), id, at)
      ensures faults >= old(faults) && races == old(races)
    {
      var now;
      now, sample := Now();
      if now.None? {
        return SlotUnreadable, sample;
      }
      if !IsActive(at, now.value) {
        return SlotHourOver, sample;
      }
      var reading := Read();
      if reading.ReadFailed? || reading.record.None? {
        return SlotUnreadable, sample;
      }
      var matching := FindSlot(Active(reading.record.value, now.value), id, at);
      if matching.None? {
        return SlotUnreadable, sample;
      }
      return SlotIs(matching.value.state), sample;
    }

    /** One pass of the commit loop; None asks for another pass. */
    method TryCommit(id: Id, at: int) returns (r: Option<MutateResult>, ghost sample: int)
      requires Valid()
      modifies this
      ensures Valid() && old(log) <= log
      ensures own == old(own) || exists op :: CommitsSlot(op, id, at) && own == old(own) + [op]
      ensures CommitExplained(log, |old(log)|, id, at, r, sample)
      ensures r == Some(MutateUnavailable) ==> faults > old(faults) || FreeSince(log, |old(log)|, id, at)
      ensures r == None ==> faults > old(faults) || races == old(races) + 1
      ensures faults >= old(faults)
    {
      var now;
      now, sample := Now();
      if now.None? {
        return Some(MutateUnavailable), sample;
      }
      var reading := Read();
      if reading.ReadFailed? {
        return Some(MutateUnavailable), sample;
      }
      var stored := Stored(reading.record);
      var planned := PlanCommit(stored, id, at, now.value);
      CommitPlanExplained(log, id, at, now.value);
      if planned.Some? {
        MissingIsFree(log, id, at);
        return planned, sample;
      }
      r, sample := TryMark(id, at, now.value, reading.record);
    }

    /** The write of a commit, and what its reply tells. */
    method TryMark(id: Id, at: int, now: int, expected: Option<seq<Entry>>) returns (r: Option<MutateResult>, ghost sample: int)
      requires Valid() && Enabled(Stored(expected), Op.Commit(id, at, now))
      requires Entry(id, at, Committed) in Written(Stored(expected), Op.Commit(id, at, now))
      modifies this
      ensures Valid() && old(log) <= log
      ensures own == old(own) || exists op :: CommitsSlot(op, id, at) && own == old(own) + [op]
      ensures CommitExplained(log, |old(log)|, id, at, r, sample)
      ensures r == Some(MutateUnavailable) ==> faults > old(faults)
      ensures r == None ==> faults > old(faults) || races == old(races) + 1
      ensures faults >= old(faults)
    {
      sample := now;
      var op := Op.Commit(id, at, now);
      var reply, landed, before := ConditionalPut(expected, op);
      if landed {
        HeldNow(log, Entry(id, at, Committed));
      }
      match reply
      case Done => r := Some(Mutated);
      case Raised => r, sample := ConfirmCommit(id, at);
      case Conflict =>
        var backoffFails := Fails();
        r := if backoffFails then Some(MutateUnavailable) else None;
    }

    /** After a commit whose reply was an error: look whether it landed. */
    method ConfirmCommit(id: Id, at: int) returns (r: Option<MutateResult>, ghost sample: int)
      requires Valid()
      modifies this
      ensures Valid() && old(log) <= log && own == old(own)
      ensures CommitExplained(log, |old(log)|, id, at, r, sample)
      ensures faults >= old(faults) && races == old(races)
    {
      var slot;
      slot, sample := ReadSlot(id, at);
      HeldIfIn(log, Entry(id, at, Committed));
      r := match slot
           case SlotUnreadable => Some(MutateUnavailable)
           case SlotHourOver => Some(SlotExpired)
           case SlotIs(state) => if state == Committed then Some(Mutated) else None;
    }

    /**
     Commit. `Mutated` is returned only if at some moment of the call the record held
     the committed reservation; `SlotExpired` only if the caller's own clock found the hour
     over; `MutateUnavailable` only if something failed, every try lost its race, or the
     record was seen without the reservation within its hour. No write but commits of this reservation lands, during the call or later.
     */
    method Commit(id: Id, at: int, tries: nat) returns (r: MutateResult, ghost sample: int)
      requires Valid() && 1 <= tries <= MAX_TRIES
      modifies this
      ensures Valid() && old(log) <= log && old(own) <= own
      ensures forall i :: |old(own)| <= i < |own| ==> CommitsSlot(own[i], id, at)
      ensures CommitExplained(log, |old(log)|, id, at, Some(r), sample)
      ensures r.MutateUnavailable? ==>
        faults > old(faults) || races == old(races) + tries || FreeSince(log, |old(log)|, id, at)
    {
      sample := 0;
      for attempt := 0 to tries
        invariant Valid() && old(log) <= log && old(own) <= own
        invariant faults > old(faults) || (faults == old(faults) && races == old(races) + attempt)
        invariant forall i :: |old(own)| <= i < |own| ==> CommitsSlot(own[i], id, at)
      {
        var answer: Option<MutateResult>;
        answer, sample := TryCommit(id, at);
        if answer.Some? {
          return answer.value, sample;
        }
      }
      return MutateUnavailable, sample;
    }

    /** One pass of the release loop; None asks for another pass. */
    method TryRelease(id: Id, at: int) returns (r: Option<MutateResult>)
      requires Valid()
      modifies this
      ensures Valid() && old(log) <= log
      ensures own == old(own) || (r != None && exists op :: ReleasesSlot(op, id, at) && own == old(own) + [op])
      ensures r == Some(Mutated) ==> FreeSince(log, |old(log)|, id, at)
      ensures r != Some(SlotExpired)
      ensures r == Some(MutateUnavailable) <==> faults > old(faults)
      ensures faults > old(faults) || (faults == old(faults) && races == old(races) + (if r == None then 1 else 0))
    {
      var now, _ := Now();
      if now.None? {
        return Some(MutateUnavailable);
      }
      var reading := Read();
      if reading.ReadFailed? {
        return Some(MutateUnavailable);
      }
      var stored := Stored(reading.record);
      assert !HasSlot(Written(stored, Op.Release(id, at, now.value)), id, at) by {
        AfterWellFormed(log);
        ReleaseHolds(stored, id, at, now.value);
      }
      if reading.record.None? || RemoveEntry(Active(stored, now.value), id, at) == stored {
        FreeNow(log, id, at);
        return Some(Mutated);
      }
      r := TryRemove(id, at, now.value, reading.record);
    }

    /** The write of a release, and what its reply tells. */
    method TryRemove(id: Id, at: int, now: int, expected: Option<seq<Entry>>) returns (r: Option<MutateResult>)
      requires Valid() && Enabled(Stored(expected), Op.Release(id, at, now))
      requires !HasSlot(Written(Stored(expected), Op.Release(id, at, now)), id, at)
      modifies this
      ensures Valid() && old(log) <= log
      ensures own == old(own) || (r != None && exists op :: ReleasesSlot(op, id, at) && own == old(own) + [op])
      ensures r == Some(Mutated) ==> FreeSince(log, |old(log)|, id, at)
      ensures r != Some(SlotExpired)
      ensures r == Some(MutateUnavailable) <==> faults > old(faults)
      ensures faults > old(faults) || (faults == old(faults) && races == old(races) + (if r == None then 1 else 0))
    {
      var op := Op.Release(id, at, now);
      var reply, landed, before := ConditionalPut(expected, op);
      if landed {
        FreeNow(log, id, at);
        assert ReleasesSlot(op, id, at) && own == old(own) + [op];
      }
      match reply
      case Done => r := Some(Mutated);
      case Raised => r := Some(MutateUnavailable);
      case Conflict =>
        var backoffFails := Fails();
        r := if backoffFails then Some(MutateUnavailable) else None;
    }

    /**
     Release. `Mutated` is returned only if at some moment of the call the record did not
     hold the reservation. At most one release of exactly this reservation lands, during the
     call or later, and no other write. It is unavailable exactly if something failed or every
     try lost its race.
     */
    method Release(id: Id, at: int, tries: nat) returns (r: MutateResult)
      requires Valid() && 1 <= tries <= MAX_TRIES
      modifies this
      ensures Valid() && old(log) <= log
      ensures own == old(own) || exists op :: ReleasesSlot(op, id, at) && own == old(own) + [op]
      ensures r.Mutated? ==> FreeSince(log, |old(log)|, id, at)
      ensures !r.SlotExpired?
      ensures r.MutateUnavailable? <==> faults > old(faults) || races == old(races) + tries
    {
      for attempt := 0 to tries
        invariant Valid() && old(log) <= log && own == old(own)
        invariant faults == old(faults) && races == old(races) + attempt
      {
        var answer := TryRelease(id, at);
        if answer.Some? {
          return answer.value;
        }
      }
      return MutateUnavailable;
    }

    /**
     Before settling: the reservation is still reserved, or its hour is over. It is unavailable
     only if something failed, the hour ended between the two samples, or the record does not
     hold the reservation as reserved.
     */
    method Confirm(id: Id, at: int) returns (r: ConfirmResult, ghost sample: int)
      requires Valid()
      modifies this
      ensures Valid() && old(log) <= log && own == old(own)
      ensures r.ConfirmActive? ==> Entry(id, at, Reserved) in After(log)
      ensures r.ConfirmExpired? ==> !IsActive(at, sample)
      ensures r.ConfirmUnavailable? ==>
        faults > old(faults) || !IsActive(at, sample) || Entry(id, at, Reserved) !in After(log)
    {
      var now;
      now, sample := Now();
      if now.None? {
        return ConfirmUnavailable, sample;
      }
      if !IsActive(at, now.value) {
        return ConfirmExpired, sample;
      }
      var slot;
      slot, sample := ReadSlot(id, at);
      SlotIsReserved(log, id, at, slot);
      return if slot == SlotIs(Reserved) then ConfirmActive else ConfirmUnavailable, sample;
    }
  }

  // ----- what a call may say about the log -------------------------------------------------------

  /** After `k` landed writes the record held `e`. */
  ghost predicate Held(log: Log, k: nat, e: Entry) {
    k <= |log| && e in After(log[..k])
  }

  ghost predicate HeldSince(log: Log, from: nat, e: Entry) {
    exists k: nat :: from <= k && Held(log, k, e)
  }

  ghost predicate Free(log: Log, k: nat, id: Id, at: int) {
    k <= |log| && !HasSlot(After(log[..k]), id, at)
  }

  ghost predicate FreeSince(log: Log, from: nat, id: Id, at: int) {
    exists k: nat :: from <= k && Free(log, k, id, at)
  }

  /** After `k` landed writes a caller sampling `now` found no slot, and this Retry-After. */
  ghost predicate Full(log: Log, k: nat, id: Id, now: int, retryAfter: int) {
    k <= |log|
    && var active := Active(After(log[..k]), now);
       !HasId(active, id) && |active| >= CAPACITY && retryAfter == RetryAfter(active, now)
  }

  ghost predicate FullSince(log: Log, from: nat, id: Id, retryAfter: int) {
    exists k: nat, now :: from <= k && Full(log, k, id, now, retryAfter)
  }

  /** The call leaves at most one write that has landed or may still land, and none if it goes on or is refused. */
  ghost predicate LeavesAtMostOne(before: seq<Op>, after: seq<Op>, id: Id, r: Option<ReserveResult>, log: Log, wrote: Option<nat>) {
    && (after == before || exists op :: AsksFor(op, id) && after == before + [op])
    && (wrote.Some? ==> wrote.value < |log| && after == before + [log[wrote.value]])
    && (r.None? || r.value.Exceeded? ==> after == before)
  }

  /** A write an admission may send. */
  predicate AsksFor(op: Op, id: Id) {
    op.id == id && (op.Reserve? || op.Prune?)
  }

  predicate CommitsSlot(op: Op, id: Id, at: int) {
    op.Commit? && op.id == id && op.at == at
  }

  predicate ReleasesSlot(op: Op, id: Id, at: int) {
    op.Release? && op.id == id && op.at == at
  }

  /** What each answer of the admission says about the writes landed since `from`. */
  ghost predicate ReserveExplained(log: Log, from: nat, id: Id, r: Option<ReserveResult>, wrote: Option<nat>) {
    && (wrote.Some? ==> from <= wrote.value < |log| && log[wrote.value].id == id)
    && match r
       case None => wrote.None?
       case Some(Admitted(at)) => wrote.Some? && log[wrote.value] == Op.Reserve(id, at)
       case Some(Existing(at, state)) =>
         (wrote.Some? ==> log[wrote.value].Prune?) && HeldSince(log, from, Entry(id, at, state))
       case Some(Exceeded(retryAfter)) => wrote.None? && FullSince(log, from, id, retryAfter)
       case Some(ReserveUnavailable) => true
  }

  ghost predicate CommitExplained(log: Log, from: nat, id: Id, at: int, r: Option<MutateResult>, sample: int) {
    && (r == Some(Mutated) ==> HeldSince(log, from, Entry(id, at, Committed)))
    && (r == Some(SlotExpired) ==> !IsActive(at, sample))
  }

  lemma ExplainedEarlier(log: Log, from: nat, later: nat, id: Id, r: Option<ReserveResult>, wrote: Option<nat>)
    requires from <= later && ReserveExplained(log, later, id, r, wrote)
    ensures ReserveExplained(log, from, id, r, wrote)
  {
  }

  lemma FoundIsHeld(log: Log, id: Id, now: int)
    ensures
      var r := PlanReserve(After(log), id, now).result;
      r.Existing? ==> Held(log, |log|, Entry(id, r.at, r.state))
  {
    var matching := FindId(Active(After(log), now), id);
    if matching.Some? {
      HeldNow(log, matching.value);
    }
  }

  lemma RefusalIsFull(log: Log, id: Id, now: int)
    ensures
      var r := PlanReserve(After(log), id, now).result;
      r.Exceeded? ==> Full(log, |log|, id, now, r.retryAfter)
  {
    assert log[..|log|] == log;
  }

  lemma AnswerExplained(log: Log, from: nat, id: Id, now: int)
    requires from <= |log| && PlanReserve(After(log), id, now).Answer?
    ensures ReserveExplained(log, from, id, Some(PlanReserve(After(log), id, now).result), None)
  {
    FoundIsHeld(log, id, now);
    RefusalIsFull(log, id, now);
  }

  /** A plan made from a record the log has left behind is still explained by it. */
  lemma AttemptExplained(seen: Log, log: Log, from: nat, id: Id, now: int, plan: Plan, wrote: Option<nat>)
    requires from <= |seen| && seen <= log
    requires plan.Attempt? && plan.op.id == id
    requires
      if plan.result.Existing?
      then plan.op.Prune? && Held(seen, |seen|, Entry(id, plan.result.at, plan.result.state))
      else plan.result == Admitted(now) && plan.op == Op.Reserve(id, now)
    requires wrote.Some? ==> |seen| <= wrote.value < |log| && log[wrote.value] == plan.op
    ensures ReserveExplained(log, from, id, Some(ReserveUnavailable), wrote)
    ensures wrote.None? ==> ReserveExplained(log, from, id, None, wrote)
    ensures wrote.Some? ==> ReserveExplained(log, from, id, Some(plan.result), wrote)
  {
    assert log[..|seen|] == seen == seen[..|seen|];
    assert plan.result.Existing? ==> Held(log, |seen|, Entry(id, plan.result.at, plan.result.state));
  }

  lemma CommitPlanExplained(log: Log, id: Id, at: int, now: int)
    requires Legal(log) && 1 <= now <= MAX_TIMESTAMP
    ensures CommitExplained(log, |log|, id, at, PlanCommit(After(log), id, at, now), now)
    ensures HasSlot(Active(After(log), now), id, at) ==>
      Entry(id, at, Committed) in Written(After(log), Op.Commit(id, at, now))
  {
    AfterWellFormed(log);
    if HasSlot(Active(After(log), now), id, at) {
      CommitHolds(After(log), id, at, now);
      HeldIfIn(log, Entry(id, at, Committed));
    }
  }

  lemma MissingIsFree(log: Log, id: Id, at: int)
    ensures !HasSlot(After(log), id, at) ==> Free(log, |log|, id, at)
  {
    assert log[..|log|] == log;
  }

  /** What was read of a reservation tells whether it is reserved. */
  lemma SlotIsReserved(log: Log, id: Id, at: int, slot: SlotReading)
    requires Legal(log) && (slot.SlotIs? ==> Entry(id, at, slot.state) in After(log))
    ensures slot.SlotIs? && slot.state != Reserved ==> Entry(id, at, Reserved) !in After(log)
    ensures !HasSlot(After(log), id, at) ==> Entry(id, at, Reserved) !in After(log)
  {
    AfterWellFormed(log);
  }

  lemma HeldNow(log: Log, e: Entry)
    requires e in After(log)
    ensures Held(log, |log|, e)
  {
    assert log[..|log|] == log;
  }

  lemma HeldIfIn(log: Log, e: Entry)
    ensures e in After(log) ==> Held(log, |log|, e)
  {
    assert log[..|log|] == log;
  }

  lemma FreeNow(log: Log, id: Id, at: int)
    requires !HasSlot(After(log), id, at)
    ensures Free(log, |log|, id, at)
  {
    assert log[..|log|] == log;
  }

  // ----- plans made from one record -------------------------------------------------------------

  /** Answer at once, or attempt `op` and answer `result` once it is acknowledged. */
  datatype Plan = Answer(result: ReserveResult) | Attempt(op: Op, result: ReserveResult)

  function PlanReserve(stored: seq<Entry>, id: Id, now: int): (plan: Plan)
    ensures plan.Attempt? && 1 <= now <= MAX_TIMESTAMP ==> Enabled(stored, plan.op) && plan.op.id == id
    ensures plan.Attempt? ==>
      if plan.result.Existing? then plan.op.Prune? else plan.result == Admitted(now) && plan.op == Op.Reserve(id, now)
  {
    var entries := Active(stored, now);
    var matching := FindId(entries, id);
    if matching.Some? then
      var found := Existing(matching.value.at, matching.value.state);
      if |entries| == |stored| then Answer(found) else Attempt(Prune(id, now), found)
    else if |entries| >= CAPACITY then Answer(Exceeded(RetryAfter(entries, now)))
    else Attempt(Op.Reserve(id, now), Admitted(now))
  }

  /** What a commit can answer without writing. */
  function PlanCommit(stored: seq<Entry>, id: Id, at: int, now: int): Option<MutateResult> {
    var entries := Active(stored, now);
    if FindSlot(entries, id, at).None? then
      Some(if IsActive(at, now) then MutateUnavailable else SlotExpired)
    else if CommitEntry(entries, id, at) == stored then Some(Mutated)
    else None
  }

  // ----- searches in one record ---------------------------------------------------------------

  function FindId(entries: seq<Entry>, id: Id): (r: Option<Entry>)
    ensures r.Some? ==> r.value in entries && r.value.id == id
    ensures r.None? <==> !HasId(entries, id)
  {
    if entries == [] then None
    else if entries[0].id == id then Some(entries[0])
    else FindId(entries[1..], id)
  }

  function FindSlot(entries: seq<Entry>, id: Id, at: int): (r: Option<Entry>)
    ensures r.Some? ==> r.value in entries && r.value.id == id && r.value.at == at
    ensures r.None? <==> !HasSlot(entries, id, at)
  {
    if entries == [] then None
    else if entries[0].id == id && entries[0].at == at then Some(entries[0])
    else FindSlot(entries[1..], id, at)
  }

  lemma CommitHolds(stored: seq<Entry>, id: Id, at: int, now: int)
    requires WellFormed(stored) && 1 <= now <= MAX_TIMESTAMP && HasSlot(Active(stored, now), id, at)
    ensures Entry(id, at, Committed) in CommitEntry(Active(stored, now), id, at)
  {
    WrittenCommitted(stored, Op.Commit(id, at, now), id, at);
  }

  lemma ReleaseHolds(stored: seq<Entry>, id: Id, at: int, now: int)
    requires WellFormed(stored) && 1 <= now <= MAX_TIMESTAMP
    ensures !HasSlot(RemoveEntry(Active(stored, now), id, at), id, at)
  {
    WrittenSlot(stored, Op.Release(id, at, now), id, at);
  }
}
