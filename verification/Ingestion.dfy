// LogWriter: a queue, a mutex and a condition variable shared by any number
// of callers and one worker thread, as a step system.
module Ingestion {
  import opened Sequences
  import opened StorageSpec
  import opened Accounting

  // Where a calling thread is inside add or stop.
  datatype Caller =
    | AddEntering(request: Request)   // before lock_guard
    | AddLocked(request: Request)     // mutex held, stopping_ not looked at yet
    | AddPushed                       // mutex held, request queued
    | AddRefused                      // mutex held, returning false
    | AddNotifying                    // mutex released, notify_one still to come
    | StopEntering
    | StopLocked
    | StopSet                         // mutex held, stopping_ set
    | StopNotifying
    | StopJoining
    | Returned(ok: bool)

  datatype Worker =
    | Entering                        // before unique_lock, or woken and not yet locked again
    | Checking                        // mutex held, predicate to be evaluated
    | Waiting                         // blocked on the condition variable, mutex released
    | Writing(request: Request)       // in Storage::write, mutex released
    | Done

  datatype Owner = Free | ByWorker | ByCaller(id: nat)

  // accepted and written are histories: requests whose add succeeded, in the
  // order of admission, and requests handed to the storage.
  datatype State = State(
    queue: seq<Request>, stopping: bool, owner: Owner, callers: map<nat, Caller>, worker: Worker,
    accepted: seq<Request>, written: seq<Request>)

  datatype Step =
    | CallAdd(id: nat, request: Request)
    | CallStop(id: nat)
    | Advance(id: nat)                // the caller's next step
    | Work                            // the worker's next step
    | SpuriousWakeup

  ghost predicate Init(s: State) {
    s.queue == [] && !s.stopping && s.owner == Free && s.callers == map[] && s.worker == Entering &&
    s.accepted == [] && s.written == []
  }

  predicate Idle(s: State, id: nat) {
    id in s.callers ==> s.callers[id].Returned?
  }

  predicate Enabled(s: State, step: Step) {
    match step
    case CallAdd(id, _) => Idle(s, id)
    case CallStop(id) => Idle(s, id)
    case Advance(id) =>
      id in s.callers &&
      (match s.callers[id]
       case AddEntering(_) => s.owner == Free
       case StopEntering => s.owner == Free
       case StopJoining => s.worker == Done
       case Returned(_) => false
       case _ => true)
    case Work =>
      (match s.worker
       case Entering => s.owner == Free
       case Waiting => false
       case Done => false
       case _ => true)
    case SpuriousWakeup => s.worker == Waiting
  }

  // notify_one, with the worker as the only possible waiter
  function Notified(w: Worker): Worker {
    if w == Waiting then Entering else w
  }

  function Moved(s: State, id: nat, c: Caller): State {
    s.(callers := s.callers[id := c])
  }

  function Advanced(s: State, id: nat): State
    requires Enabled(s, Advance(id))
  {
    match s.callers[id]
    case AddEntering(r) => Moved(s, id, AddLocked(r)).(owner := ByCaller(id))
    case AddLocked(r) =>
      if s.stopping then Moved(s, id, AddRefused)
      else Moved(s, id, AddPushed).(queue := s.queue + [r], accepted := s.accepted + [r])
    case AddPushed => Moved(s, id, AddNotifying).(owner := Free)
    case AddRefused => Moved(s, id, Returned(false)).(owner := Free)
    case AddNotifying => Moved(s, id, Returned(true)).(worker := Notified(s.worker))
    case StopEntering => Moved(s, id, StopLocked).(owner := ByCaller(id))
    case StopLocked => Moved(s, id, StopSet).(stopping := true)
    case StopSet => Moved(s, id, StopNotifying).(owner := Free)
    case StopNotifying => Moved(s, id, StopJoining).(worker := Notified(s.worker))
    case StopJoining => Moved(s, id, Returned(true))
    case Returned(_) => s
  }

  function Worked(s: State): State
    requires Enabled(s, Work)
  {
    match s.worker
    case Entering => s.(worker := Checking, owner := ByWorker)
    case Checking =>
      if !s.stopping && s.queue == [] then s.(worker := Waiting, owner := Free)
      else if s.queue == [] then s.(worker := Done, owner := Free)
      else s.(worker := Writing(s.queue[0]), queue := s.queue[1..], owner := Free)
    case Writing(r) => s.(worker := Entering, written := s.written + [r])
    case Waiting => s
    case Done => s
  }

  function After(s: State, step: Step): State
    requires Enabled(s, step)
  {
    match step
    case CallAdd(id, r) => Moved(s, id, AddEntering(r))
    case CallStop(id) => Moved(s, id, StopEntering)
    case Advance(id) => Advanced(s, id)
    case Work => Worked(s)
    case SpuriousWakeup => s.(worker := Entering)
  }

  function InFlight(w: Worker): seq<Request> {
    if w.Writing? then [w.request] else []
  }

  // Exactly once, in order: nothing accepted is lost, doubled or overtaken.
  ghost predicate Fifo(s: State) {
    s.accepted == s.written + InFlight(s.worker) + s.queue
  }

  predicate Holds(c: Caller) {
    c.AddLocked? || c.AddPushed? || c.AddRefused? || c.StopLocked? || c.StopSet?
  }

  ghost predicate Exclusive(s: State) {
    && (s.owner == ByWorker <==> s.worker == Checking)
    && (forall id <- s.callers :: Holds(s.callers[id]) ==> s.owner == ByCaller(id))
    && (s.owner.ByCaller? ==> s.owner.id in s.callers && Holds(s.callers[s.owner.id]))
  }

  // A thread that will still call notify_one.
  predicate Owes(c: Caller) {
    c.AddPushed? || c.AddNotifying? || c.StopSet? || c.StopNotifying?
  }

  ghost predicate Owed(s: State) {
    exists id <- s.callers :: Owes(s.callers[id])
  }

  // A worker that sleeps although there is something to do will be notified.
  ghost predicate NoLostWakeup(s: State) {
    s.worker == Waiting && (s.stopping || s.queue != []) ==> Owed(s)
  }

  // The worker only leaves with an empty queue after stopping_ is set, and
  // nothing gets past stop before it has left.
  ghost predicate OrderlyStop(s: State) {
    && (s.worker == Done ==> s.stopping && s.queue == [])
    && (forall id <- s.callers ::
          s.callers[id].StopSet? || s.callers[id].StopNotifying? || s.callers[id].StopJoining? ==> s.stopping)
    && (forall id <- s.callers :: s.callers[id].AddRefused? || s.callers[id] == Returned(false) ==> s.stopping)
  }

  ghost predicate Inv(s: State) {
    Fifo(s) && Exclusive(s) && NoLostWakeup(s) && OrderlyStop(s)
  }

  lemma InitInv(s: State)
    requires Init(s)
    ensures Inv(s)
  {
  }

  lemma FifoKept(s: State, step: Step)
    requires Fifo(s) && Enabled(s, step)
    ensures Fifo(After(s, step))
  {
    var s' := After(s, step);
    if step == Work && s.worker == Checking && s.queue != [] {
      assert s.written + [] + s.queue == s.written + [s.queue[0]] + s.queue[1..];
    } else if step == Work && s.worker.Writing? {
      assert s.written + [s.worker.request] + s.queue == s.written + [s.worker.request] + [] + s.queue;
    } else if s'.queue != s.queue {
      Reassociate(s.written + InFlight(s.worker), s.queue, [s'.queue[|s.queue|]]);
    } else {
      assert InFlight(s'.worker) == InFlight(s.worker);
    }
  }

  lemma ExclusiveKept(s: State, step: Step)
    requires Exclusive(s) && Enabled(s, step)
    ensures Exclusive(After(s, step))
  {
  }

  lemma WakeupKept(s: State, step: Step)
    requires NoLostWakeup(s) && Enabled(s, step)
    ensures NoLostWakeup(After(s, step))
  {
    var s' := After(s, step);
    if s'.worker == Waiting && (s'.stopping || s'.queue != []) {
      if Owed(s) {
        var id :| id in s.callers && Owes(s.callers[id]);
        assert Owes(s'.callers[id]);
      } else {
        assert step.Advance? && Owes(s'.callers[step.id]);
      }
    }
  }

  lemma OrderlyKept(s: State, step: Step)
    requires OrderlyStop(s) && Enabled(s, step)
    ensures OrderlyStop(After(s, step))
  {
  }

  // MAIN: every step of every thread keeps the protocol.
  lemma StepKeeps(s: State, step: Step)
    requires Inv(s) && Enabled(s, step)
    ensures Inv(After(s, step))
  {
    FifoKept(s, step);
    ExclusiveKept(s, step);
    WakeupKept(s, step);
    OrderlyKept(s, step);
  }

  // No admission after stopping_ is set, and it stays set.
  lemma ClosedForGood(s: State, step: Step)
    requires Enabled(s, step) && s.stopping
    ensures After(s, step).stopping && After(s, step).accepted == s.accepted
  {
  }

  ghost predicate IsRun(s: State, steps: seq<Step>)
    decreases |steps|
  {
    steps == [] || (Enabled(s, steps[0]) && IsRun(After(s, steps[0]), steps[1..]))
  }

  function End(s: State, steps: seq<Step>): State
    requires IsRun(s, steps)
    decreases |steps|
  {
    if steps == [] then s else End(After(s, steps[0]), steps[1..])
  }

  lemma {:induction false} AnyInterleaving(s: State, steps: seq<Step>)
    requires Inv(s) && IsRun(s, steps)
    ensures Inv(End(s, steps))
    ensures s.stopping ==> End(s, steps).stopping && End(s, steps).accepted == s.accepted
    decreases |steps|
  {
    hide Inv;
    if steps != [] {
      StepKeeps(s, steps[0]);
      AnyInterleaving(After(s, steps[0]), steps[1..]);
      if s.stopping { ClosedForGood(s, steps[0]); }
    }
  }

  // MAIN: in every interleaving, when a call of stop returns, everything ever
  // accepted has been written, each request once, in the order of admission;
  // and so it stays.
  lemma StopReturnsDrained(init: State, before: seq<Step>, id: nat, later: seq<Step>)
    requires Init(init) && IsRun(init, before)
    requires id in End(init, before).callers && End(init, before).callers[id] == StopJoining
    requires Enabled(End(init, before), Advance(id))
    requires IsRun(After(End(init, before), Advance(id)), later)
    ensures var end := End(After(End(init, before), Advance(id)), later);
      end.written == end.accepted == End(init, before).accepted && end.worker == Done && end.queue == []
  {
    hide Inv;
    InitInv(init);
    var s := End(init, before);
    var s' := After(s, Advance(id));
    AnyInterleaving(init, before);
    StepKeeps(s, Advance(id));
    AnyInterleaving(s', later);
    var end := End(s', later);
    DoneStays(s', later);
    DoneIsDrained(s);
    DoneIsDrained(end);
  }

  lemma DoneIsDrained(s: State)
    requires Inv(s) && s.worker == Done
    ensures s.stopping && s.written == s.accepted && s.queue == []
  {
  }

  lemma {:induction false} DoneStays(s: State, steps: seq<Step>)
    requires s.worker == Done && IsRun(s, steps)
    ensures End(s, steps).worker == Done
    decreases |steps|
  {
    if steps != [] { DoneStays(After(s, steps[0]), steps[1..]); }
  }

  // How many more steps a caller takes ...
  function CallerRank(c: Caller): nat {
    match c
    case AddEntering(_) => 4
    case AddLocked(_) => 3
    case AddPushed => 2
    case AddRefused => 1
    case AddNotifying => 1
    case StopEntering => 5
    case StopLocked => 4
    case StopSet => 3
    case StopNotifying => 2
    case StopJoining => 1
    case Returned(_) => 0
  }

  // ... and the worker at most, with n requests in the queue and stopping_ set.
  function WorkerRank(w: Worker, n: nat): nat {
    match w
    case Entering => 3 * n + 2
    case Checking => 3 * n + 1
    case Waiting => 3 * n + 3
    case Writing(_) => 3 * n + 3
    case Done => 0
  }

  function Ranks(callers: map<nat, Caller>): map<nat, nat> {
    map id | id in callers :: CallerRank(callers[id])
  }

  ghost function StepsLeft(s: State): nat {
    WorkerRank(s.worker, |s.queue|) + Sum(Ranks(s.callers))
  }

  predicate IsCall(step: Step) {
    step.CallAdd? || step.CallStop?
  }

  // Once stopping_ is set the worker's own steps use up its rank, whatever
  // the callers do in between.
  lemma DrainMeasure(s: State, step: Step)
    requires Inv(s) && s.stopping && Enabled(s, step)
    ensures WorkerRank(After(s, step).worker, |After(s, step).queue|) <= WorkerRank(s.worker, |s.queue|)
    ensures step == Work ==> WorkerRank(After(s, step).worker, |After(s, step).queue|) < WorkerRank(s.worker, |s.queue|)
  {
  }

  lemma RankReplaced(callers: map<nat, Caller>, id: nat, c: Caller)
    requires id in callers
    ensures Sum(Ranks(callers[id := c])) + CallerRank(callers[id]) == Sum(Ranks(callers)) + CallerRank(c)
  {
    assert Ranks(callers[id := c]) == Ranks(callers)[id := CallerRank(c)];
    SumUpdate(Ranks(callers), id, CallerRank(c));
  }

  // A caller's step changes that caller alone, and brings it nearer its return.
  lemma CallerAdvances(s: State, id: nat)
    requires Enabled(s, Advance(id))
    ensures var s' := After(s, Advance(id));
      && id in s'.callers && s'.callers == s.callers[id := s'.callers[id]]
      && CallerRank(s'.callers[id]) < CallerRank(s.callers[id])
  {
  }

  lemma EveryStepCounts(s: State, step: Step)
    requires Inv(s) && s.stopping && Enabled(s, step) && !IsCall(step)
    ensures StepsLeft(After(s, step)) < StepsLeft(s)
  {
    hide Inv, CallerRank, Ranks;
    DrainMeasure(s, step);
    if step.Advance? {
      CallerAdvances(s, step.id);
      hide After;
      RankReplaced(s.callers, step.id, After(s, step).callers[step.id]);
    }
  }

  ghost predicate Finished(s: State) {
    s.worker == Done && forall id <- s.callers :: s.callers[id].Returned?
  }

  // MAIN: a stop in progress never gets stuck, even without spurious wakeups:
  // until the worker has left and every call has returned some thread can move.
  lemma NeverStuck(s: State) returns (step: Step)
    requires Inv(s) && s.stopping && !Finished(s)
    ensures Enabled(s, step) && !IsCall(step) && step != SpuriousWakeup
  {
    if s.owner.ByCaller? {
      step := Advance(s.owner.id);
    } else if s.worker == Waiting {
      var id :| id in s.callers && Owes(s.callers[id]);
      step := Advance(id);
    } else if s.worker != Done {
      step := Work;
    } else {
      var id :| id in s.callers && !s.callers[id].Returned?;
      step := Advance(id);
    }
  }

  // MAIN: ... and it cannot go on for ever: without new calls every run ends
  // within StepsLeft steps.
  lemma {:induction false} StopTerminates(s: State, steps: seq<Step>)
    requires Inv(s) && s.stopping && IsRun(s, steps) && forall x <- steps :: !IsCall(x)
    ensures |steps| + StepsLeft(End(s, steps)) <= StepsLeft(s)
    ensures (forall x: Step :: Enabled(End(s, steps), x) ==> IsCall(x)) ==>
      Finished(End(s, steps)) && End(s, steps).written == s.accepted
    decreases |steps|
  {
    hide Inv;
    if steps == [] {
      if !Finished(s) {
        var step := NeverStuck(s);
      } else {
        DoneIsDrained(s);
      }
    } else {
      StepKeeps(s, steps[0]);
      ClosedForGood(s, steps[0]);
      EveryStepCounts(s, steps[0]);
      StopTerminates(After(s, steps[0]), steps[1..]);
    }
  }
}
