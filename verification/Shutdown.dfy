// TraceboxLogger: a server whose service thread adds requests to a log writer,
// and the destructor that stops the server before it stops the writer.
module Shutdown {
  import opened Bytes
  import opened Sequences
  import opened StorageSpec
  import opened Ingestion

  datatype Lifecycle = Running | Stopping | Stopped

  // The server's service thread (Server::run and handleLogRequest).
  datatype Service =
    | Polling                       // before epoll_wait
    | Woken                         // an event of some client, state_ not looked at yet
    | Reading                       // state_ seen running, request being read
    | Received(data: seq<byte>)     // before the check that follows the read
    | Admitted(data: seq<byte>)     // callback mutex to be taken, last check to come
    | Starting(data: seq<byte>)     // last check passed, callback not started
    | Adding                        // in the callback, inside LogWriter::add
    | Exited

  // The destroying thread: ~TraceboxLogger, then ~Server, then ~LogWriter.
  datatype Destruction =
    | Alive
    | StoredStopping                // kStopping stored, wake-up still to be sent
    | Joining                       // in thread_.join
    | Joined                        // descriptors closed, kStopped stored next
    | ServerGone                    // server_.stop() has returned, twice
    | StoppingWriter                // inside LogWriter::stop
    | Destroyed

  const SERVICE: nat := 0
  const DESTROYER: nat := 1

  // parsed and late are histories: requests the callback parsed,
  // and how many callbacks started after kStopping was stored.
  datatype System = System(
    server: Lifecycle, service: Service, main: Destruction, woken: bool, writer: State, parsed: seq<Request>, late: nat)

  datatype Event =
    | Next(data: seq<byte>, works: bool, dies: bool)   // the service thread's next step outside add
    | Destroy                              // the destroying thread's next step outside stop
    | InWriter(step: Step)                 // a step inside the log writer

  ghost predicate Init(y: System) {
    y.server == Running && y.service == Polling && y.main == Alive && !y.woken && Ingestion.Init(y.writer) &&
    y.parsed == [] && y.late == 0
  }

  predicate CanNext(y: System) {
    match y.service
    case Exited => false
    case Adding => SERVICE in y.writer.callers && y.writer.callers[SERVICE].Returned?
    case _ => true
  }

  predicate CanDestroy(y: System) {
    match y.main
    case Joining => y.service == Exited
    case StoppingWriter => DESTROYER in y.writer.callers && y.writer.callers[DESTROYER].Returned?
    case Destroyed => false
    case _ => true
  }

  predicate CanEvent(y: System, e: Event) {
    match e
    case Next(_, _, _) => CanNext(y)
    case Destroy => CanDestroy(y)
    case InWriter(step) => !IsCall(step) && Enabled(y.writer, step)
  }

  // works: whether another event comes before the wake-up, or a read delivers
  // data; dies: epoll_wait fails; parse: ParseFromArray.
  function Served(y: System, parse: seq<byte> -> Option<Request>, data: seq<byte>, works: bool, dies: bool): System
    requires CanNext(y) && (y.service.Starting? ==> Idle(y.writer, SERVICE))
  {
    match y.service
    case Polling => y.(service := if dies || (y.woken && !works) then Exited else Woken)
    case Woken => y.(service := if y.server == Running then Reading else Exited)
    case Reading => y.(service := if works && data != [] then Received(data) else Polling)
    case Received(d) => y.(service := if y.server == Running then Admitted(d) else Polling)
    case Admitted(d) => y.(service := if y.server == Running then Starting(d) else Polling)
    case Starting(d) =>
      var started := y.(late := y.late + if y.server == Running then 0 else 1);
      (match parse(d)
       case None => started.(service := Polling)
       case Some(r) =>
         started.(service := Adding, parsed := y.parsed + [r], writer := After(y.writer, CallAdd(SERVICE, r))))
    case Adding => y.(service := Polling)
    case Exited => y
  }

  function DestroyStep(y: System): System
    requires CanDestroy(y) && (y.main == ServerGone ==> Idle(y.writer, DESTROYER))
  {
    match y.main
    case Alive => y.(main := StoredStopping, server := Stopping)
    case StoredStopping => y.(main := Joining, woken := true)
    case Joining => y.(main := Joined)
    case Joined => y.(main := ServerGone, server := Stopped)
    case ServerGone => y.(main := StoppingWriter, writer := After(y.writer, CallStop(DESTROYER)))
    case StoppingWriter => y.(main := Destroyed)
    case Destroyed => y
  }

  predicate Callable(y: System) {
    (y.service.Starting? ==> Idle(y.writer, SERVICE)) && (y.main == ServerGone ==> Idle(y.writer, DESTROYER))
  }

  function Then(y: System, parse: seq<byte> -> Option<Request>, e: Event): System
    requires CanEvent(y, e) && Callable(y)
  {
    match e
    case Next(data, works, dies) => Served(y, parse, data, works, dies)
    case Destroy => DestroyStep(y)
    case InWriter(step) => y.(writer := After(y.writer, step))
  }

  // The request on its way into the queue, if any.
  function Pending(s: State): seq<Request> {
    if SERVICE !in s.callers then []
    else
      match s.callers[SERVICE]
      case AddEntering(r) => [r]
      case AddLocked(r) => [r]
      case _ => []
  }

  predicate InAdd(c: Caller) {
    c.AddEntering? || c.AddLocked? || c.AddPushed? || c.AddNotifying? || c == Returned(true)
  }

  predicate InStop(c: Caller) {
    c.StopEntering? || c.StopLocked? || c.StopSet? || c.StopNotifying? || c.StopJoining? || c == Returned(true)
  }

  predicate PastJoin(m: Destruction) {
    m == Joined || m == ServerGone || m == StoppingWriter || m == Destroyed
  }

  // The writer's callers: the service thread only ever adds, the destroying
  // thread only ever stops, and only behind the join.
  ghost predicate Roles(y: System) {
    && (forall id <- y.writer.callers :: id == SERVICE || id == DESTROYER)
    && (SERVICE in y.writer.callers ==> InAdd(y.writer.callers[SERVICE]))
    && (y.service != Adding && SERVICE in y.writer.callers ==> y.writer.callers[SERVICE] == Returned(true))
    && (y.service == Adding ==> SERVICE in y.writer.callers)
    && (DESTROYER in y.writer.callers <==> y.main == StoppingWriter || y.main == Destroyed)
    && (DESTROYER in y.writer.callers ==> InStop(y.writer.callers[DESTROYER]))
    && (y.main == Destroyed ==> y.writer.callers[DESTROYER] == Returned(true))
    && (y.writer.stopping ==> y.main == StoppingWriter || y.main == Destroyed)
    && (DESTROYER in y.writer.callers && y.writer.callers[DESTROYER].Returned? ==> y.writer.worker == Done)
    && (PastJoin(y.main) ==> y.service == Exited)
  }

  ghost predicate Phases(y: System) {
    && (y.main == Alive <==> y.server == Running)
    && (y.server == Running ==> y.late == 0)
    && y.late <= 1
    && (y.service.Starting? ==> y.late == 0)
    && (y.main != Alive && y.main != StoredStopping ==> y.woken)
  }

  // Everything parsed is accepted, or is just being added.
  ghost predicate AllAdmitted(y: System) {
    y.parsed == y.writer.accepted + Pending(y.writer)
  }

  ghost predicate SystemInv(y: System) {
    Ingestion.Inv(y.writer) && Roles(y) && Phases(y) && AllAdmitted(y) && Callable(y)
  }

  lemma InitSystem(y: System)
    requires Init(y)
    ensures SystemInv(y)
  {
    InitInv(y.writer);
  }

  lemma WriterStepKeeps(y: System, parse: seq<byte> -> Option<Request>, step: Step)
    requires SystemInv(y) && CanEvent(y, InWriter(step))
    ensures SystemInv(Then(y, parse, InWriter(step)))
  {
    hide Fifo, Exclusive, NoLostWakeup;
    StepKeeps(y.writer, step);
    var y' := Then(y, parse, InWriter(step));
    WriterRoles(y, step);
    WriterAdmits(y, step);
  }

  lemma WriterRoles(y: System, step: Step)
    requires SystemInv(y) && Enabled(y.writer, step) && !IsCall(step)
    ensures Roles(y.(writer := After(y.writer, step)))
  {
    if step.Advance? {
      AdvanceRoles(y, step.id);
    } else {
      hide Fifo, Exclusive, NoLostWakeup, AllAdmitted, Phases;
    }
  }

  lemma AdvanceRoles(y: System, id: nat)
    requires Roles(y) && OrderlyStop(y.writer) && Enabled(y.writer, Advance(id))
    ensures Roles(y.(writer := After(y.writer, Advance(id))))
  {
  }

  // Nothing is refused: whoever adds does so before the writer is stopped.
  lemma WriterAdmits(y: System, step: Step)
    requires SystemInv(y) && Enabled(y.writer, step) && !IsCall(step)
    ensures y.parsed == After(y.writer, step).accepted + Pending(After(y.writer, step))
  {
    hide Fifo, Exclusive, NoLostWakeup;
    if step == Advance(SERVICE) && y.writer.callers[SERVICE].AddLocked? {
      AppendNothing(After(y.writer, step).accepted);
    }
  }

  lemma ServiceKeeps(y: System, parse: seq<byte> -> Option<Request>, data: seq<byte>, works: bool, dies: bool)
    requires SystemInv(y) && CanNext(y)
    ensures SystemInv(Then(y, parse, Next(data, works, dies)))
  {
    hide Fifo, Exclusive, NoLostWakeup;
    if y.service.Starting? {
      match parse(y.service.data) {
        case None =>
        case Some(r) =>
          StepKeeps(y.writer, CallAdd(SERVICE, r));
          AppendNothing(y.writer.accepted);
      }
    }
  }

  lemma DestroyKeeps(y: System, parse: seq<byte> -> Option<Request>)
    requires SystemInv(y) && CanDestroy(y)
    ensures SystemInv(Then(y, parse, Destroy))
  {
    hide Fifo, Exclusive, NoLostWakeup;
    if y.main == ServerGone {
      StepKeeps(y.writer, CallStop(DESTROYER));
    }
  }

  ghost predicate IsRun(y: System, parse: seq<byte> -> Option<Request>, events: seq<Event>)
    decreases |events|
  {
    events == [] ||
    (CanEvent(y, events[0]) && Callable(y) && IsRun(Then(y, parse, events[0]), parse, events[1..]))
  }

  function End(y: System, parse: seq<byte> -> Option<Request>, events: seq<Event>): System
    requires IsRun(y, parse, events)
    decreases |events|
  {
    if events == [] then y else End(Then(y, parse, events[0]), parse, events[1..])
  }

  lemma EventKeeps(y: System, parse: seq<byte> -> Option<Request>, e: Event)
    requires SystemInv(y) && CanEvent(y, e)
    ensures SystemInv(Then(y, parse, e))
  {
    match e {
      case Next(data, works, dies) => ServiceKeeps(y, parse, data, works, dies);
      case Destroy => DestroyKeeps(y, parse);
      case InWriter(step) => WriterStepKeeps(y, parse, step);
    }
  }

  lemma {:induction false} AnyShutdown(y: System, parse: seq<byte> -> Option<Request>, events: seq<Event>)
    requires SystemInv(y) && IsRun(y, parse, events)
    ensures SystemInv(End(y, parse, events))
    decreases |events|
  {
    hide SystemInv;
    if events != [] {
      EventKeeps(y, parse, events[0]);
      AnyShutdown(Then(y, parse, events[0]), parse, events[1..]);
    }
  }

  // MAIN: in every interleaving of service thread, worker and destructor, no
  // add is refused, at most one callback starts after kStopping is stored,
  // and none is running or can start once server_.stop() has returned.
  lemma CleanShutdown(y: System, parse: seq<byte> -> Option<Request>, events: seq<Event>, end: System)
    requires Init(y) && IsRun(y, parse, events) && end == End(y, parse, events)
    ensures SERVICE in end.writer.callers ==>
      !end.writer.callers[SERVICE].AddRefused? && end.writer.callers[SERVICE] != Returned(false)
    ensures end.late <= 1
    ensures PastJoin(end.main) ==> end.service == Exited && !CanNext(end)
    ensures end.main == Destroyed ==> end.writer.worker == Done && end.writer.written == end.parsed
  {
    InitSystem(y);
    AnyShutdown(y, parse, events);
    if end.main == Destroyed {
      DestroyedWritten(end);
    }
  }

  // How many more events each party takes part in once kStopping is stored,
  // apart from spurious wake-ups: a caller inside the log writer, ...
  function CallerEffort(c: Caller): nat {
    match c
    case AddEntering(_) => 9
    case AddLocked(_) => 8
    case AddPushed => 4
    case AddRefused => 1
    case AddNotifying => 3
    case StopEntering => 7
    case StopLocked => 6
    case StopSet => 5
    case StopNotifying => 4
    case StopJoining => 1
    case Returned(_) => 0
  }

  function EffortOf(s: State, id: nat): nat {
    if id in s.callers then CallerEffort(s.callers[id]) else 0
  }

  // ... the worker, whom a notification or a spurious wake-up gives two more, ...
  function WorkerEffort(w: Worker, n: nat): nat {
    match w
    case Entering => 3 * n + 2
    case Checking => 3 * n + 1
    case Waiting => 3 * n
    case Writing(_) => 3 * n + 3
    case Done => 0
  }

  // ... the service thread, which may still start one callback, ...
  function ServiceEffort(v: Service): nat {
    match v
    case Polling => 2
    case Woken => 1
    case Reading => 4
    case Received(_) => 3
    case Admitted(_) => 3
    case Starting(_) => 13
    case Adding => 3
    case Exited => 0
  }

  // ... and the destroying thread.
  function MainEffort(m: Destruction): nat {
    match m
    case Alive => 13
    case StoredStopping => 12
    case Joining => 11
    case Joined => 10
    case ServerGone => 9
    case StoppingWriter => 1
    case Destroyed => 0
  }

  function Effort(y: System): nat {
    ServiceEffort(y.service) + MainEffort(y.main) + WorkerEffort(y.writer.worker, |y.writer.queue|) +
    EffortOf(y.writer, SERVICE) + EffortOf(y.writer, DESTROYER)
  }

  const SPURIOUS := InWriter(SpuriousWakeup)

  // A step of a caller: its own effort covers what it adds to the worker's.
  lemma AdvanceEffort(s: State, id: nat)
    requires Enabled(s, Advance(id))
    ensures var s' := After(s, Advance(id));
      && WorkerEffort(s'.worker, |s'.queue|) + EffortOf(s', id) < WorkerEffort(s.worker, |s.queue|) + EffortOf(s, id)
      && forall other: nat :: other != id ==> EffortOf(s', other) == EffortOf(s, other)
  {
  }

  lemma WorkEffort(s: State, step: Step)
    requires (step == Work || step == SpuriousWakeup) && Enabled(s, step)
    ensures var s' := After(s, step);
      && s'.callers == s.callers
      && WorkerEffort(s'.worker, |s'.queue|) <
           WorkerEffort(s.worker, |s.queue|) + if step == SpuriousWakeup then 3 else 0
  {
  }

  lemma WriterEffort(y: System, parse: seq<byte> -> Option<Request>, step: Step)
    requires SystemInv(y) && y.server != Running && CanEvent(y, InWriter(step))
    ensures Effort(Then(y, parse, InWriter(step))) < Effort(y) + if step == SpuriousWakeup then 3 else 0
  {
    hide Ingestion.Inv, AllAdmitted, Phases, After, WorkerEffort, Callable;
    if step.Advance? {
      AdvanceEffort(y.writer, step.id);
      assert step.id == SERVICE || step.id == DESTROYER by { assert step.id in y.writer.callers; }
      hide Roles, EffortOf;
    } else {
      WorkEffort(y.writer, step);
      hide Roles;
    }
  }

  lemma ServiceStepEffort(y: System, parse: seq<byte> -> Option<Request>, data: seq<byte>, works: bool, dies: bool)
    requires SystemInv(y) && y.server != Running && CanNext(y)
    ensures Effort(Then(y, parse, Next(data, works, dies))) < Effort(y)
  {
    hide Fifo, Exclusive, NoLostWakeup, OrderlyStop, AllAdmitted, Phases;
  }

  lemma DestroyStepEffort(y: System, parse: seq<byte> -> Option<Request>)
    requires SystemInv(y) && y.server != Running && CanDestroy(y)
    ensures Effort(Then(y, parse, Destroy)) < Effort(y)
  {
    hide Fifo, Exclusive, NoLostWakeup, OrderlyStop, AllAdmitted, Phases;
  }

  // Every event but a spurious wake-up uses up effort.
  lemma EventEffort(y: System, parse: seq<byte> -> Option<Request>, e: Event)
    requires SystemInv(y) && y.server != Running && CanEvent(y, e)
    ensures Effort(Then(y, parse, e)) < Effort(y) + if e == SPURIOUS then 3 else 0
    ensures Then(y, parse, e).server != Running
  {
    hide SystemInv, Effort, Served, Exclusive;
    match e {
      case Next(data, works, dies) => ServiceStepEffort(y, parse, data, works, dies);
      case Destroy => DestroyStepEffort(y, parse);
      case InWriter(step) => WriterEffort(y, parse, step);
    }
    StoppedStays(y, parse, e);
  }

  lemma StoppedStays(y: System, parse: seq<byte> -> Option<Request>, e: Event)
    requires SystemInv(y) && CanEvent(y, e) && y.server != Running
    ensures Then(y, parse, e).server != Running
  {
  }

  // A thread inside add can move, or whoever keeps it waiting can.
  lemma AddMoves(y: System) returns (step: Step)
    requires SystemInv(y) && y.service == Adding && !y.writer.callers[SERVICE].Returned?
    ensures Enabled(y.writer, step) && !IsCall(step) && step != SpuriousWakeup
  {
    hide Fifo, NoLostWakeup, OrderlyStop, AllAdmitted, Phases;
    step := if y.writer.owner.ByCaller? then Advance(y.writer.owner.id)
            else if y.writer.owner == ByWorker then Work
            else Advance(SERVICE);
  }

  // The same inside stop, once the service thread has left.
  lemma StopMoves(y: System) returns (step: Step)
    requires SystemInv(y) && y.main == StoppingWriter && !y.writer.callers[DESTROYER].Returned?
    ensures Enabled(y.writer, step) && !IsCall(step) && step != SpuriousWakeup
  {
    hide Fifo, AllAdmitted, Phases;
    var s := y.writer;
    if s.stopping && s.worker != Done {
      step := NeverStuck(s);
    } else {
      step := if s.owner.ByCaller? then Advance(s.owner.id) else if s.owner == ByWorker then Work
        else Advance(DESTROYER);
      assert s.callers[DESTROYER].StopNotifying? || s.callers[DESTROYER].StopJoining? ==> s.stopping;
    }
  }

  // MAIN: once kStopping is stored the shutdown never gets stuck: until the
  // logger is destroyed some thread can move, without spurious wake-ups.
  lemma ShutdownMoves(y: System) returns (e: Event)
    requires SystemInv(y) && y.server != Running && y.main != Destroyed
    ensures CanEvent(y, e) && e != SPURIOUS
  {
    hide Fifo, Exclusive, NoLostWakeup, OrderlyStop, AllAdmitted;
    if CanDestroy(y) {
      e := Destroy;
    } else if y.main == Joining {
      if CanNext(y) {
        e := Next([], false, false);
      } else {
        var step := AddMoves(y);
        e := InWriter(step);
      }
    } else {
      var step := StopMoves(y);
      e := InWriter(step);
    }
  }

  function Spurious(events: seq<Event>): nat {
    if events == [] then 0 else (if events[0] == SPURIOUS then 1 else 0) + Spurious(events[1..])
  }

  // MAIN: ... and it ends: the number of events, spurious wake-ups apart, is
  // bounded from the start, and when nothing can move any more the logger is
  // destroyed and everything parsed has been written.
  lemma {:induction false} ShutdownEnds(y: System, parse: seq<byte> -> Option<Request>, events: seq<Event>, end: System)
    requires SystemInv(y) && y.server != Running && IsRun(y, parse, events) && end == End(y, parse, events)
    ensures |events| + Effort(end) <= Effort(y) + 3 * Spurious(events)
    ensures (forall e: Event :: CanEvent(end, e) ==> e == SPURIOUS) ==>
      end.main == Destroyed && end.writer.written == end.parsed
    decreases |events|
  {
    hide SystemInv, Effort;
    if events == [] {
      if y.main != Destroyed {
        var e := ShutdownMoves(y);
      } else {
        DestroyedWritten(y);
      }
    } else {
      EventEffort(y, parse, events[0]);
      EventKeeps(y, parse, events[0]);
      ShutdownEnds(Then(y, parse, events[0]), parse, events[1..], end);
    }
  }

  lemma DestroyedWritten(y: System)
    requires SystemInv(y) && y.main == Destroyed
    ensures y.writer.worker == Done && y.writer.written == y.parsed
  {
    DoneIsDrained(y.writer);
    AppendNothing(y.writer.accepted);
  }
}
