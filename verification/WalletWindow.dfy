/**
 The rolling-window admission record of one wallet, and what every interleaving of
 its conditional writes keeps.

 A wallet record is one stored object, replaced only by compare-and-swap. A landed
 write is therefore a function of the record it replaced, the writer's operation and
 the writer's own clock sample. `Log` is the order in which writes landed; samples
 need not be increasing in that order, because every writer samples its clock before
 it reads the record.
 */
module WalletWindow {
  import opened Basics

  const CAPACITY: nat := 30
  const WINDOW: int := 3_600_000
  const MAX_TIMESTAMP: int := 9_999_999_999_999

  /** A reservation id: the job id that asks for admission. */
  type Id = nat

  datatype EntryState = Reserved | Committed

  datatype Entry = Entry(id: Id, at: int, state: EntryState)

  /** A landed write, with the clock sample `now` taken by its writer. */
  datatype Op =
    | Reserve(id: Id, now: int)
    | Commit(id: Id, at: int, now: int)
    | Release(id: Id, at: int, now: int)
    | Prune(id: Id, now: int)

  type Log = seq<Op>

  // ----- the record ---------------------------------------------------------------

  predicate IsActive(at: int, now: int) {
    at > now - WINDOW
  }

  /** The entries a writer with clock sample `now` keeps. */
  function Active(entries: seq<Entry>, now: int): (r: seq<Entry>)
    ensures forall e :: e in r <==> e in entries && IsActive(e.at, now)
    ensures |r| <= |entries|
  {
    if entries == [] then []
    else
      var rest := Active(entries[1..], now);
      if IsActive(entries[0].at, now) then [entries[0]] + rest else rest
  }

  predicate HasId(entries: seq<Entry>, id: Id) {
    exists e :: e in entries && e.id == id
  }

  predicate HasSlot(entries: seq<Entry>, id: Id, at: int) {
    exists e :: e in entries && e.id == id && e.at == at
  }

  /** The first entry of the reservation (id, at), marked committed. */
  function CommitEntry(entries: seq<Entry>, id: Id, at: int): seq<Entry> {
    if entries == [] then []
    else if entries[0].id == id && entries[0].at == at then
      [entries[0].(state := Committed)] + entries[1..]
    else
      [entries[0]] + CommitEntry(entries[1..], id, at)
  }

  /** The entries without the first entry of the reservation (id, at). */
  function RemoveEntry(entries: seq<Entry>, id: Id, at: int): seq<Entry> {
    if entries == [] then []
    else if entries[0].id == id && entries[0].at == at then entries[1..]
    else [entries[0]] + RemoveEntry(entries[1..], id, at)
  }

  /** When the limiter attempts the write at all. */
  predicate Enabled(entries: seq<Entry>, op: Op) {
    && 1 <= op.now <= MAX_TIMESTAMP
    && match op
       case Reserve(id, now) =>
         !HasId(Active(entries, now), id) && |Active(entries, now)| < CAPACITY
       case Commit(id, at, now) => HasSlot(Active(entries, now), id, at)
       case Release(_, _, _) => true
       case Prune(id, now) => HasId(Active(entries, now), id)
  }

  /** The record that replaces `entries`. */
  function Written(entries: seq<Entry>, op: Op): seq<Entry> {
    match op
    case Reserve(id, now) => Active(entries, now) + [Entry(id, now, Reserved)]
    case Commit(id, at, now) => CommitEntry(Active(entries, now), id, at)
    case Release(id, at, now) => RemoveEntry(Active(entries, now), id, at)
    case Prune(_, now) => Active(entries, now)
  }

  /** What the object store accepts as a wallet record. */
  ghost predicate WellFormed(entries: seq<Entry>) {
    && |entries| <= CAPACITY
    && (forall i, j :: 0 <= i < j < |entries| ==> entries[i].id != entries[j].id)
    && (forall e :: e in entries ==> 1 <= e.at <= MAX_TIMESTAMP)
  }

  // ----- logs of landed writes ------------------------------------------------------

  function After(log: Log): seq<Entry> {
    if log == [] then [] else Written(After(log[..|log| - 1]), log[|log| - 1])
  }

  ghost predicate Legal(log: Log) {
    log == [] || (Legal(log[..|log| - 1]) && Enabled(After(log[..|log| - 1]), log[|log| - 1]))
  }

  /** Samples run backwards by at most `d` in write order. */
  ghost predicate BackwardBounded(log: Log, d: int) {
    forall i, j :: 0 <= i < j < |log| ==> log[i].now - log[j].now <= d
  }

  ghost predicate ReleasedAfter(log: Log, i: nat)
    requires i < |log|
  {
    exists j :: i < j < |log| && log[j].Release? && log[j].id == log[i].id && log[j].at == log[i].now
  }

  /** The admissions sampled in (from, to] that nothing released afterwards. */
  ghost function Admitted(log: Log, from: int, to: int): set<nat> {
    set i: nat | i < |log| && log[i].Reserve? && from < log[i].now <= to && !ReleasedAfter(log, i)
  }

  // ----- single writes --------------------------------------------------------------

  ghost predicate DistinctIds(entries: seq<Entry>) {
    forall i, j :: 0 <= i < j < |entries| ==> entries[i].id != entries[j].id
  }

  lemma {:induction false} ActiveDistinct(entries: seq<Entry>, now: int)
    requires DistinctIds(entries)
    ensures DistinctIds(Active(entries, now))
  {
    if entries != [] {
      ActiveDistinct(entries[1..], now);
      assert forall e :: e in entries[1..] ==> e.id != entries[0].id;
    }
  }

  lemma {:induction false} CommitEntryMembers(entries: seq<Entry>, id: Id, at: int)
    requires DistinctIds(entries)
    ensures |CommitEntry(entries, id, at)| == |entries|
    ensures forall k :: 0 <= k < |entries| ==>
      CommitEntry(entries, id, at)[k] ==
      if entries[k].id == id && entries[k].at == at then entries[k].(state := Committed) else entries[k]
  {
    if entries != [] {
      if entries[0].id == id && entries[0].at == at {
      } else {
        CommitEntryMembers(entries[1..], id, at);
      }
    }
  }

  lemma {:induction false} RemoveEntryMembers(entries: seq<Entry>, id: Id, at: int)
    requires DistinctIds(entries)
    ensures DistinctIds(RemoveEntry(entries, id, at))
    ensures |RemoveEntry(entries, id, at)| <= |entries|
    ensures forall e :: e in RemoveEntry(entries, id, at) <==> e in entries && !(e.id == id && e.at == at)
  {
    if entries != [] {
      if entries[0].id == id && entries[0].at == at {
        assert forall e :: e in entries[1..] ==> e.id != entries[0].id;
      } else {
        RemoveEntryMembers(entries[1..], id, at);
        assert forall e :: e in entries[1..] ==> e.id != entries[0].id;
        var r := RemoveEntry(entries[1..], id, at);
        assert forall e :: e in r ==> e.id != entries[0].id;
      }
    }
  }

  /** Every write the limiter attempts passes the store's validation of wallet records. */
  lemma WrittenWellFormed(entries: seq<Entry>, op: Op)
    requires WellFormed(entries) && Enabled(entries, op)
    ensures WellFormed(Written(entries, op))
  {
    var active := Active(entries, op.now);
    ActiveDistinct(entries, op.now);
    match op
    case Reserve(id, now) =>
      assert forall e :: e in active ==> e.id != id;
    case Commit(id, at, _) =>
      CommitEntryMembers(active, id, at);
      var next := CommitEntry(active, id, at);
      forall e | e in next ensures 1 <= e.at <= MAX_TIMESTAMP {
        var k :| 0 <= k < |next| && next[k] == e;
        assert active[k] in entries;
      }
    case Release(id, at, _) => RemoveEntryMembers(active, id, at);
    case Prune(_, _) =>
  }

  lemma {:induction false} AfterWellFormed(log: Log)
    requires Legal(log)
    ensures WellFormed(After(log))
  {
    if log != [] {
      AfterWellFormed(log[..|log| - 1]);
      WrittenWellFormed(After(log[..|log| - 1]), log[|log| - 1]);
    }
  }

  /**
   What one write does to one reservation (id, at): only a release of exactly that
   reservation, or a sample that finds its hour over, takes it out; only its own
   reserve puts it in.
   */
  lemma WrittenSlot(entries: seq<Entry>, op: Op, id: Id, at: int)
    requires WellFormed(entries) && Enabled(entries, op)
    ensures HasSlot(Written(entries, op), id, at) <==>
      || (op.Reserve? && op.id == id && op.now == at)
      || (HasSlot(entries, id, at) && IsActive(at, op.now)
          && !(op.Release? && op.id == id && op.at == at))
  {
    var active := Active(entries, op.now);
    var next := Written(entries, op);
    ActiveDistinct(entries, op.now);
    match op
    case Reserve(i, now) =>
      assert next[|next| - 1] == Entry(i, now, Reserved);
      assert forall e :: e in next <==> e in active || e == Entry(i, now, Reserved);
    case Commit(i, a, _) =>
      CommitEntryMembers(active, i, a);
      if HasSlot(next, id, at) {
        var k :| 0 <= k < |next| && next[k].id == id && next[k].at == at;
        assert active[k] in entries && active[k].id == id && active[k].at == at;
      }
      if HasSlot(entries, id, at) && IsActive(at, op.now) {
        var e :| e in entries && e.id == id && e.at == at;
        var k :| 0 <= k < |active| && active[k] == e;
        assert next[k] in next && next[k].id == id && next[k].at == at;
      }
    case Release(i, a, _) => RemoveEntryMembers(active, i, a);
    case Prune(_, _) =>
  }

  lemma CommitsCommitted(active: seq<Entry>, i: Id, a: int, id: Id, at: int)
    requires DistinctIds(active) && HasSlot(active, i, a)
    ensures Entry(id, at, Committed) in CommitEntry(active, i, a) <==>
      (i == id && a == at) || Entry(id, at, Committed) in active
  {
    var next, e := CommitEntry(active, i, a), Entry(id, at, Committed);
    CommitEntryMembers(active, i, a);
    if e in next {
      var k :| 0 <= k < |next| && next[k] == e;
      assert active[k] in active;
    }
    if e in active {
      var k :| 0 <= k < |active| && active[k] == e;
      assert next[k] == e;
    }
    if i == id && a == at {
      var f :| f in active && f.id == i && f.at == a;
      var k :| 0 <= k < |active| && active[k] == f;
      assert next[k] == e;
    }
  }

  /** What one write does to a committed entry: only its own commit makes one. */
  lemma WrittenCommitted(entries: seq<Entry>, op: Op, id: Id, at: int)
    requires WellFormed(entries) && Enabled(entries, op)
    ensures Entry(id, at, Committed) in Written(entries, op) <==>
      || (op.Commit? && op.id == id && op.at == at)
      || (Entry(id, at, Committed) in entries && IsActive(at, op.now)
          && !(op.Release? && op.id == id && op.at == at))
  {
    var active := Active(entries, op.now);
    var next := Written(entries, op);
    var e := Entry(id, at, Committed);
    ActiveDistinct(entries, op.now);
    match op
    case Reserve(i, now) =>
      assert forall f :: f in next <==> f in active || f == Entry(i, now, Reserved);
    case Commit(i, a, _) => CommitsCommitted(active, i, a, id, at);
    case Release(i, a, _) => RemoveEntryMembers(active, i, a);
    case Prune(_, _) =>
  }

  /** What one write does to an entry that is only reserved. */
  lemma WrittenReserved(entries: seq<Entry>, op: Op, id: Id, at: int)
    requires WellFormed(entries) && Enabled(entries, op)
    requires Entry(id, at, Reserved) in entries && IsActive(at, op.now)
    requires !((op.Release? || op.Commit?) && op.id == id && op.at == at)
    ensures Entry(id, at, Reserved) in Written(entries, op)
  {
    var active := Active(entries, op.now);
    var next := Written(entries, op);
    var e := Entry(id, at, Reserved);
    ActiveDistinct(entries, op.now);
    assert e in active;
    match op
    case Reserve(i, now) => assert next == active + [Entry(i, now, Reserved)];
    case Commit(i, a, _) =>
      CommitEntryMembers(active, i, a);
      var k :| 0 <= k < |active| && active[k] == e;
      assert next[k] == e;
    case Release(i, a, _) => RemoveEntryMembers(active, i, a);
    case Prune(_, _) =>
  }

  // ----- the window theorem -----------------------------------------------------------

  lemma {:induction false} LegalPrefix(log: Log, k: nat)
    requires Legal(log) && k <= |log|
    ensures Legal(log[..k])
    ensures k < |log| ==> Enabled(After(log[..k]), log[k])
  {
    if k == |log| {
      assert log[..k] == log;
    } else {
      var front := log[..|log| - 1];
      if k < |front| {
        LegalPrefix(front, k);
        assert front[..k] == log[..k];
      } else {
        assert log[..k] == front;
      }
    }
  }

  /** An admission stays in the record until it is released or a writer finds its hour over. */
  lemma {:induction false} AdmissionSurvives(log: Log, i: nat, k: nat)
    requires Legal(log) && i < k <= |log| && log[i].Reserve?
    requires forall m :: i < m < k ==> IsActive(log[i].now, log[m].now)
    requires !ReleasedAfter(log, i)
    ensures HasSlot(After(log[..k]), log[i].id, log[i].now)
    decreases k
  {
    var before := log[..k - 1];
    LegalPrefix(log, k - 1);
    AfterWellFormed(before);
    assert log[..k][..k - 1] == before && log[..k][k - 1] == log[k - 1];
    WrittenSlot(After(before), log[k - 1], log[i].id, log[i].now);
    if i < k - 1 {
      AdmissionSurvives(log, i, k - 1);
    }
  }

  /** At the moment `k` is admitted, an earlier admission of the same window still holds its slot. */
  lemma EarlierHoldsSlot(log: Log, d: int, from: int, i: nat, k: nat)
    requires Legal(log) && d >= 0 && BackwardBounded(log, d)
    requires i in Admitted(log, from, from + WINDOW - d)
    requires k in Admitted(log, from, from + WINDOW - d)
    requires i < k
    ensures HasSlot(Active(After(log[..k]), log[k].now), log[i].id, log[i].now)
    ensures log[i].id != log[k].id
  {
    forall m | i < m < k ensures IsActive(log[i].now, log[m].now) {
      assert log[m].now - log[k].now <= d;
    }
    AdmissionSurvives(log, i, k);
    var e :| e in After(log[..k]) && e.id == log[i].id && e.at == log[i].now;
    assert e in Active(After(log[..k]), log[k].now);
    LegalPrefix(log, k);
  }

  lemma {:induction false} LargestIndex(s: set<nat>) returns (k: nat)
    requires s != {}
    ensures k in s && forall i :: i in s ==> i <= k
    decreases |s|
  {
    var x :| x in s;
    if s == {x} {
      k := x;
    } else {
      var y := LargestIndex(s - {x});
      k := if x > y then x else y;
      assert forall i :: i in s ==> i == x || i in s - {x};
    }
  }

  /** Indices whose ids are pairwise different and all among the ids of `entries` are no more than the entries. */
  lemma {:induction false} CountById(log: Log, s: set<nat>, entries: seq<Entry>)
    requires forall i :: i in s ==> i < |log| && HasId(entries, log[i].id)
    requires forall i, j :: i in s && j in s && i != j ==> log[i].id != log[j].id
    ensures |s| <= |entries|
    decreases |s|
  {
    if s != {} {
      var i :| i in s;
      var e :| e in entries && e.id == log[i].id;
      var p :| 0 <= p < |entries| && entries[p] == e;
      var fewer := entries[..p] + entries[p + 1..];
      forall j | j in s - {i} ensures HasId(fewer, log[j].id) {
        var f :| f in entries && f.id == log[j].id;
        var q :| 0 <= q < |entries| && entries[q] == f;
        assert q != p;
        assert f == if q < p then fewer[q] else fewer[q - 1];
      }
      CountById(log, s - {i}, fewer);
      assert |s| == |s - {i}| + 1;
    }
  }

  /**
   The advertised limit. If samples run backwards by at most `d` in write order, then
   no window of length WINDOW - d holds more than CAPACITY admissions that were not
   released, over every interleaving of any number of writers.
   */
  lemma WindowLimit(log: Log, d: int, from: int)
    requires Legal(log) && d >= 0 && BackwardBounded(log, d)
    ensures |Admitted(log, from, from + WINDOW - d)| <= CAPACITY
  {
    var admitted := Admitted(log, from, from + WINDOW - d);
    if admitted != {} {
      var k := LargestIndex(admitted);
      LegalPrefix(log, k);
      var active := Active(After(log[..k]), log[k].now);
      forall i | i in admitted - {k} ensures HasId(active, log[i].id) {
        EarlierHoldsSlot(log, d, from, i, k);
      }
      forall i, j | i in admitted - {k} && j in admitted - {k} && i != j ensures log[i].id != log[j].id {
        EarlierHoldsSlot(log, d, from, if i < j then i else j, if i < j then j else i);
      }
      CountById(log, admitted - {k}, active);
    }
  }

  // ----- the bound is sharp --------------------------------------------------------------

  /** CAPACITY admissions at sample 1, built one by one. */
  function Burst(n: nat): Log {
    if n == 0 then [] else Burst(n - 1) + [Reserve(n, 1)]
  }

  lemma {:induction false} BurstShape(n: nat)
    ensures |Burst(n)| == n && forall i :: 0 <= i < n ==> Burst(n)[i] == Reserve(i + 1, 1)
  {
    if n > 0 {
      BurstShape(n - 1);
    }
  }

  lemma {:induction false} BurstLegal(n: nat)
    requires n <= CAPACITY
    ensures Legal(Burst(n)) && |After(Burst(n))| == n
    ensures forall e :: e in After(Burst(n)) ==> e.at == 1 && 1 <= e.id <= n
  {
    if n > 0 {
      BurstLegal(n - 1);
      OneMoreAtOne(Burst(n - 1), n);
    }
  }

  /** One more admission at sample 1. */
  lemma OneMoreAtOne(log: Log, n: nat)
    requires 1 <= n <= CAPACITY && Legal(log) && |After(log)| == n - 1
    requires forall e :: e in After(log) ==> e.at == 1 && 1 <= e.id < n
    ensures
      var more := log + [Reserve(n, 1)];
      && Legal(more) && |After(more)| == n
      && forall e :: e in After(more) ==> e.at == 1 && 1 <= e.id <= n
  {
    ActiveAll(After(log), 1);
    Extend(log, Reserve(n, 1));
  }

  lemma {:induction false} ActiveAll(entries: seq<Entry>, now: int)
    requires forall e :: e in entries ==> IsActive(e.at, now)
    ensures Active(entries, now) == entries
  {
    if entries != [] {
      ActiveAll(entries[1..], now);
    }
  }

  lemma {:induction false} ActiveNone(entries: seq<Entry>, now: int)
    requires forall e :: e in entries ==> !IsActive(e.at, now)
    ensures Active(entries, now) == []
  {
    if entries != [] {
      ActiveNone(entries[1..], now);
    }
  }

  /** A burst at sample 1, one writer an hour later, then one writer `d` behind it. */
  function Overrun(n: nat, d: int): Log {
    Burst(n) + [Reserve(n + 1, WINDOW + 1), Reserve(n + 2, WINDOW + 1 - d)]
  }

  lemma Extend(log: Log, op: Op)
    requires Legal(log) && Enabled(After(log), op)
    ensures Legal(log + [op]) && After(log + [op]) == Written(After(log), op)
  {
    assert (log + [op])[..|log|] == log;
  }

  lemma OverrunLegal(n: nat, d: int)
    requires n <= CAPACITY && 0 <= d <= WINDOW
    ensures Legal(Overrun(n, d))
  {
    BurstLegal(n);
    var full := Burst(n);
    var first, second := Reserve(n + 1, WINDOW + 1), Reserve(n + 2, WINDOW + 1 - d);
    ActiveNone(After(full), WINDOW + 1);
    Extend(full, first);
    var one := full + [first];
    ActiveAll(After(one), WINDOW + 1 - d);
    assert Enabled(After(one), second);
    Extend(one, second);
    assert Overrun(n, d) == one + [second];
  }

  lemma OverrunSamples(n: nat, d: int)
    requires n <= CAPACITY && 0 <= d <= WINDOW
    ensures |Overrun(n, d)| == n + 2
    ensures forall i :: 0 <= i < n + 2 ==> Overrun(n, d)[i].Reserve?
    ensures forall i :: 0 <= i < n ==> Overrun(n, d)[i].now == 1
    ensures Overrun(n, d)[n].now == WINDOW + 1 && Overrun(n, d)[n + 1].now == WINDOW + 1 - d
  {
    BurstShape(n);
  }

  /**
   WindowLimit cannot be lengthened by one millisecond: for every backward bound up to
   the window itself some legal log admits CAPACITY + 1 in a window of length
   WINDOW - d + 1.
   */
  lemma WindowLimitIsSharp(d: int)
    requires 0 <= d <= WINDOW
    ensures exists log ::
      Legal(log) && BackwardBounded(log, d) && |Admitted(log, 0, WINDOW - d + 1)| > CAPACITY
  {
    var n := CAPACITY;
    OverrunLegal(n, d);
    OverrunSamples(n, d);
    var log := Overrun(n, d);
    OverrunAdmits(log, n, WINDOW - d + 1);
  }

  /** In a log of admissions alone, all but the last-but-one sampled by `to` are counted. */
  lemma OverrunAdmits(log: Log, n: nat, to: int)
    requires |log| == n + 2 && forall i :: 0 <= i < n + 2 ==> log[i].Reserve?
    requires forall i :: 0 <= i < n ==> 0 < log[i].now <= to
    requires 0 < log[n + 1].now <= to
    ensures |Admitted(log, 0, to)| > n
  {
    var admitted := Admitted(log, 0, to);
    forall i: nat | i in Below(n) + {n + 1} ensures i in admitted {
      assert log[i].Reserve? && !ReleasedAfter(log, i);
    }
    SubsetSize(Below(n) + {n + 1}, admitted);
  }

  ghost function Below(n: nat): (r: set<nat>)
    ensures |r| == n
    ensures forall i: nat :: i in r <==> i < n
  {
    if n == 0 then {} else Below(n - 1) + {n - 1}
  }

  // ----- Retry-After -----------------------------------------------------------------------

  function Oldest(entries: seq<Entry>): (r: int)
    requires entries != []
    ensures exists e :: e in entries && e.at == r
    ensures forall e :: e in entries ==> r <= e.at
  {
    if |entries| == 1 then entries[0].at
    else
      var rest := Oldest(entries[1..]);
      if entries[0].at < rest then entries[0].at else rest
  }

  /** Seconds told to a refused caller; `entries` are the active ones. */
  function RetryAfter(entries: seq<Entry>, now: int): int
    requires entries != []
  {
    var seconds := (Oldest(entries) + WINDOW - now + 999) / 1000;
    if seconds < 1 then 1 else seconds
  }

  lemma {:induction false} ActiveFewer(entries: seq<Entry>, now: int, e: Entry)
    requires e in entries && !IsActive(e.at, now)
    ensures |Active(entries, now)| < |entries|
  {
    if entries[0] != e {
      ActiveFewer(entries[1..], now, e);
    }
  }

  lemma ReachesTheEnd(entries: seq<Entry>, now: int, seconds: nat)
    requires entries != [] && IsActive(Oldest(entries), now)
    ensures seconds >= RetryAfter(entries, now) <==> !IsActive(Oldest(entries), now + 1000 * seconds)
  {
  }

  /** A later writer keeps all of them exactly until the oldest one's hour is over. */
  lemma ActiveAfter(entries: seq<Entry>, later: int)
    requires entries != []
    ensures
      if IsActive(Oldest(entries), later)
      then |Active(entries, later)| == |entries|
      else |Active(entries, later)| < |entries|
  {
    if IsActive(Oldest(entries), later) {
      ActiveAll(entries, later);
    } else {
      var e :| e in entries && e.at == Oldest(entries);
      ActiveFewer(entries, later, e);
    }
  }

  lemma OldestIsActive(entries: seq<Entry>, now: int)
    requires entries != [] && forall e :: e in entries ==> IsActive(e.at, now)
    ensures IsActive(Oldest(entries), now)
  {
  }

  lemma FreesExactly(entries: seq<Entry>, now: int, seconds: nat, later: int)
    requires entries != [] && IsActive(Oldest(entries), now) && later == now + 1000 * seconds
    ensures |Active(entries, later)| == |entries| <==> seconds < RetryAfter(entries, now)
    ensures |Active(entries, later)| <= |entries|
  {
    ReachesTheEnd(entries, now, seconds);
    ActiveAfter(entries, later);
  }

  /**
   The refusal of a full record is exact: after RetryAfter seconds a slot is free if
   nobody else writes, and after any shorter whole number of seconds none is.
   */
  lemma RetryAfterIsExact(entries: seq<Entry>, now: int, seconds: nat)
    requires |entries| == CAPACITY
    requires forall e :: e in entries ==> IsActive(e.at, now)
    ensures seconds >= RetryAfter(entries, now) ==> |Active(entries, now + 1000 * seconds)| < CAPACITY
    ensures seconds < RetryAfter(entries, now) ==> |Active(entries, now + 1000 * seconds)| == CAPACITY
  {
    OldestIsActive(entries, now);
    FreesExactly(entries, now, seconds, now + 1000 * seconds);
  }

  /** It lies in the hour exactly when the oldest reservation is not in the caller's future. */
  lemma RetryAfterRange(entries: seq<Entry>, now: int)
    requires entries != []
    requires forall e :: e in entries ==> IsActive(e.at, now)
    ensures 1 <= RetryAfter(entries, now)
    ensures RetryAfter(entries, now) <= 3600 <==> Oldest(entries) <= now
  {
  }
}
