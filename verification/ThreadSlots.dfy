/**
 The seller's bounded worker threads. A thread cannot be cancelled: a caller that is cancelled
 leaves its semaphore slot to a callback that runs once the thread has exited. Callers and
 callbacks are steps on one event loop; threads exit at any time.
 */
module ThreadSlots {
  import opened Basics

  type Caller = nat

  /** A held slot: whether its caller still waits, and whether its thread still runs. */
  datatype Slot = Slot(attached: bool, running: bool)

  /** `released` counts, for the statements only, how often a caller's slot was given back. */
  datatype Pool = Pool(permits: nat, held: map<Caller, Slot>, released: map<Caller, nat>)

  datatype Step =
    | Acquire(caller: Caller)    // a permit is taken and the thread starts, without an await between
    | Exit(caller: Caller)       // the thread ends
    | Return(caller: Caller)     // the waiting caller sees it and releases in its finally clause
    | Cancel(caller: Caller)     // the caller is cancelled before it has seen it
    | CallBack(caller: Caller)   // the callback of a cancelled caller releases

  predicate Enabled(p: Pool, step: Step) {
    match step
    case Acquire(c) => p.permits > 0 && c !in p.held && c !in p.released
    case Exit(c) => c in p.held && p.held[c].running
    case Return(c) => c in p.held && p.held[c] == Slot(true, false)
    case Cancel(c) => c in p.held && p.held[c].attached
    case CallBack(c) => c in p.held && p.held[c] == Slot(false, false)
  }

  function GiveBack(p: Pool, c: Caller): Pool {
    Pool(p.permits + 1, p.held - {c}, p.released[c := if c in p.released then p.released[c] + 1 else 1])
  }

  function Next(p: Pool, step: Step): Pool
    requires Enabled(p, step)
  {
    match step
    case Acquire(c) => p.(permits := p.permits - 1, held := p.held[c := Slot(true, true)])
    case Exit(c) => p.(held := p.held[c := p.held[c].(running := false)])
    case Return(c) => GiveBack(p, c)
    case Cancel(c) => p.(held := p.held[c := p.held[c].(attached := false)])
    case CallBack(c) => GiveBack(p, c)
  }

  predicate Executes(p: Pool, steps: seq<Step>)
    decreases |steps|
  {
    steps == [] || (Enabled(p, steps[0]) && Executes(Next(p, steps[0]), steps[1..]))
  }

  function Exec(p: Pool, steps: seq<Step>): Pool
    requires Executes(p, steps)
    decreases |steps|
  {
    if steps == [] then p else Exec(Next(p, steps[0]), steps[1..])
  }

  function Fresh(capacity: nat): Pool {
    Pool(capacity, map[], map[])
  }

  /** Free permits and held slots make up the capacity, and no slot is given back twice. */
  predicate Conserved(p: Pool, capacity: nat) {
    && p.permits + |p.held| == capacity
    && p.held.Keys !! p.released.Keys
    && forall c :: c in p.released ==> p.released[c] == 1
  }

  lemma GiveBackConserves(p: Pool, c: Caller, capacity: nat)
    requires Conserved(p, capacity) && c in p.held
    ensures Conserved(GiveBack(p, c), capacity)
  {
    assert GiveBack(p, c).held.Keys == p.held.Keys - {c};
  }

  lemma StepConserves(p: Pool, step: Step, capacity: nat)
    requires Conserved(p, capacity) && Enabled(p, step)
    ensures Conserved(Next(p, step), capacity)
  {
    var c, next := step.caller, Next(p, step);
    match step
    case Acquire(_) => assert next.held.Keys == p.held.Keys + {c};
    case Return(_) => GiveBackConserves(p, c, capacity);
    case CallBack(_) => GiveBackConserves(p, c, capacity);
    case _ => assert next.held.Keys == p.held.Keys;
  }

  lemma {:induction false} RunConserves(p: Pool, steps: seq<Step>, capacity: nat)
    requires Conserved(p, capacity) && Executes(p, steps)
    ensures Conserved(Exec(p, steps), capacity)
    decreases |steps|
  {
    if steps != [] {
      StepConserves(p, steps[0], capacity);
      RunConserves(Next(p, steps[0]), steps[1..], capacity);
    }
  }

  ghost function RunningThreads(p: Pool): set<Caller> {
    set c | c in p.held && p.held[c].running
  }

  /**
   In every run permits are conserved, no more threads run than the pool has slots, and a slot
   is given back at most once, and only when its thread has exited.
   */
  lemma SlotsAreConserved(capacity: nat, steps: seq<Step>, step: Step)
    requires Executes(Fresh(capacity), steps) && Enabled(Exec(Fresh(capacity), steps), step)
    ensures var p := Exec(Fresh(capacity), steps);
      && p.permits + |p.held| == capacity && |RunningThreads(p)| <= capacity
      && (forall c :: c in p.released ==> p.released[c] == 1 && c !in p.held)
      && (forall c :: c in RunningThreads(p) && step != Exit(c) ==> c in RunningThreads(Next(p, step)))
  {
    RunConserves(Fresh(capacity), steps, capacity);
    var p := Exec(Fresh(capacity), steps);
    SubsetSize(RunningThreads(p), p.held.Keys);
  }

  predicate Known(p: Pool, c: Caller) {
    c in p.held || c in p.released
  }

  lemma {:induction false} AcquiresOnce(p: Pool, steps: seq<Step>, c: Caller)
    requires Known(p, c) && Executes(p, steps)
    ensures Acquire(c) !in steps
    decreases |steps|
  {
    if steps != [] {
      AcquiresOnce(Next(p, steps[0]), steps[1..], c);
      assert steps == [steps[0]] + steps[1..];
    }
  }

  lemma StepRuns(p: Pool, step: Step, c: Caller)
    requires Enabled(p, step)
    ensures c in RunningThreads(Next(p, step)) <==> (c in RunningThreads(p) || step == Acquire(c)) && step != Exit(c)
    ensures step == Exit(c) ==> Known(Next(p, step), c)
  {
  }

  lemma {:induction false} RunningFrom(p: Pool, steps: seq<Step>, c: Caller)
    requires Executes(p, steps)
    ensures c in RunningThreads(Exec(p, steps)) <==>
      (c in RunningThreads(p) || Acquire(c) in steps) && Exit(c) !in steps
    decreases |steps|
  {
    if steps != [] {
      var p1, rest := Next(p, steps[0]), steps[1..];
      assert steps == [steps[0]] + rest;
      StepRuns(p, steps[0], c);
      RunningFrom(p1, rest, c);
      if steps[0] == Exit(c) {
        AcquiresOnce(p1, rest, c);
      }
    }
  }

  /** A thread runs from the moment its caller takes a slot until it exits, cancelled or not. */
  lemma RunsUntilItExits(capacity: nat, steps: seq<Step>, c: Caller)
    requires Executes(Fresh(capacity), steps)
    ensures c in RunningThreads(Exec(Fresh(capacity), steps)) <==> Acquire(c) in steps && Exit(c) !in steps
  {
    RunningFrom(Fresh(capacity), steps, c);
  }

  /** How many steps give a held slot back on its own: the thread's exit, and one more. */
  function StepsToRelease(slot: Slot): nat {
    if slot.running then 2 else 1
  }

  /** The step that brings a held slot nearer to its release; no other caller is needed for it. */
  function Onward(c: Caller, slot: Slot): Step {
    if slot.running then Exit(c) else if slot.attached then Return(c) else CallBack(c)
  }

  /** No slot leaks: from any state, cancelled or not, its own next steps give it back. */
  lemma HeldSlotIsReleased(p: Pool, c: Caller)
    requires c in p.held
    ensures Enabled(p, Onward(c, p.held[c]))
    ensures var next := Next(p, Onward(c, p.held[c]));
      if c in next.held then StepsToRelease(next.held[c]) < StepsToRelease(p.held[c])
      else next.permits == p.permits + 1
  {
  }
}
