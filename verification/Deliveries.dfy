// From the messages a server reads to the requests it has parsed.
module Deliveries {
  import opened Bytes
  import opened Sequences
  import opened StorageSpec
  import opened Ingestion
  import opened Shutdown

  // The message an event of the service thread reads, if any.
  function ReadBy(y: System, e: Event): seq<seq<byte>> {
    match e
    case Next(data, works, _) => if y.service.Reading? && works && data != [] then [data] else []
    case _ => []
  }

  // All that are read, in order.
  function Delivered(y: System, parse: seq<byte> -> Option<Request>, events: seq<Event>): seq<seq<byte>>
    requires Shutdown.IsRun(y, parse, events)
    decreases |events|
  {
    if events == [] then []
    else ReadBy(y, events[0]) + Delivered(Then(y, parse, events[0]), parse, events[1..])
  }

  // The requests in a list of messages.
  function Parsings(parse: seq<byte> -> Option<Request>, messages: seq<seq<byte>>): seq<Request> {
    if messages == [] then []
    else
      var n := |messages| - 1;
      Parsings(parse, messages[..n]) + match parse(messages[n]) case None => [] case Some(r) => [r]
  }

  lemma ParsingsMore(parse: seq<byte> -> Option<Request>, messages: seq<seq<byte>>, d: seq<byte>)
    ensures Parsings(parse, messages + [d]) ==
      Parsings(parse, messages) + match parse(d) case None => [] case Some(r) => [r]
  {
    AppendOne(messages, d);
  }

  // The message read and not handed to the callback yet.
  function InHand(v: Service): seq<seq<byte>> {
    match v
    case Received(d) => [d]
    case Admitted(d) => [d]
    case Starting(d) => [d]
    case _ => []
  }

  // Every message read so far has been parsed, or is in hand ...
  ghost predicate AllServed(
    y: System, parse: seq<byte> -> Option<Request>, messages: seq<seq<byte>>, served: seq<seq<byte>>)
  {
    messages == served + InHand(y.service) && y.parsed == Parsings(parse, served)
  }

  // ... or, behind kStopping, the last one has been dropped, and no other one
  // will be read.
  ghost predicate LastDropped(
    y: System, parse: seq<byte> -> Option<Request>, messages: seq<seq<byte>>, served: seq<seq<byte>>)
  {
    && y.server != Running && |messages| == |served| + 1 && messages[..|served|] == served
    && (y.service == Polling || y.service == Woken || y.service == Exited)
    && y.parsed == Parsings(parse, served)
  }

  ghost predicate Served(
    y: System, parse: seq<byte> -> Option<Request>, messages: seq<seq<byte>>, served: seq<seq<byte>>)
  {
    AllServed(y, parse, messages, served) || LastDropped(y, parse, messages, served)
  }

  lemma DeliveryStep(
    y: System, parse: seq<byte> -> Option<Request>, e: Event, messages: seq<seq<byte>>, served: seq<seq<byte>>)
    returns (served': seq<seq<byte>>)
    requires CanEvent(y, e) && Callable(y) && Served(y, parse, messages, served)
    ensures Served(Then(y, parse, e), parse, messages + ReadBy(y, e), served')
  {
    hide Parsings, After;
    served' := served;
    AppendNothing(messages);
    AppendNothing(served);
    if e.Next? {
      match y.service {
        case Starting(d) =>
          served' := served + [d];
          ParsingsMore(parse, served, d);
          AppendNothing(served');
          AppendNothing(y.parsed);
        case _ =>
      }
    }
  }

  lemma {:induction false} DeliveryRun(
    y: System, parse: seq<byte> -> Option<Request>, events: seq<Event>, messages: seq<seq<byte>>,
    served: seq<seq<byte>>)
    returns (served': seq<seq<byte>>)
    requires Shutdown.IsRun(y, parse, events) && Served(y, parse, messages, served)
    ensures Served(Shutdown.End(y, parse, events), parse, messages + Delivered(y, parse, events), served')
    decreases |events|
  {
    hide Served, Then, CanEvent, Callable, ReadBy;
    served' := served;
    if events == [] {
      AppendNothing(messages);
    } else {
      var e := events[0];
      var y' := Then(y, parse, e);
      served' := DeliveryStep(y, parse, e, messages, served);
      served' := DeliveryRun(y', parse, events[1..], messages + ReadBy(y, e), served');
      Reassociate(messages, ReadBy(y, e), Delivered(y', parse, events[1..]));
    }
  }

  lemma ServedRunning(
    y: System, parse: seq<byte> -> Option<Request>, messages: seq<seq<byte>>, served: seq<seq<byte>>)
    requires Served(y, parse, messages, served) && Phases(y) && y.main == Alive
    ensures var n := |messages| - |InHand(y.service)|;
      0 <= n && messages[n..] == InHand(y.service) && y.parsed == Parsings(parse, messages[..n])
  {
    hide Parsings;
    var n := |messages| - |InHand(y.service)|;
    assert messages[n..] == InHand(y.service) && messages[..n] == served;
  }

  lemma ServedDestroyed(
    y: System, parse: seq<byte> -> Option<Request>, messages: seq<seq<byte>>, served: seq<seq<byte>>)
    requires Served(y, parse, messages, served) && y.service == Exited
    ensures y.parsed == Parsings(parse, messages) || LastMissing(parse, messages, y.parsed)
  {
    hide Parsings;
    AppendNothing(served);
  }

  lemma DestroyedExited(y: System)
    requires SystemInv(y)
    ensures Phases(y) && (y.main == Destroyed ==> y.service == Exited)
  {
    hide Ingestion.Inv, AllAdmitted, Callable;
  }

  // MAIN: as long as kStopping is not stored, what has been parsed is exactly
  // what parse gives for the messages read, in their order, the one still in
  // hand excepted; after that at most the last message is missing for good.
  lemma DeliveredParsed(y: System, parse: seq<byte> -> Option<Request>, events: seq<Event>, end: System)
    requires Shutdown.Init(y) && Shutdown.IsRun(y, parse, events) && end == Shutdown.End(y, parse, events)
    ensures var messages := Delivered(y, parse, events);
      var n := |messages| - |InHand(end.service)|;
      && (end.main == Alive ==>
            0 <= n && messages[n..] == InHand(end.service) && end.parsed == Parsings(parse, messages[..n]))
      && (end.main == Destroyed ==> end.parsed == Parsings(parse, messages) || LastMissing(parse, messages, end.parsed))
  {
    InitSystem(y);
    assert Served(y, parse, [], []) && Parsings(parse, []) == [];
    hide Shutdown.IsRun, Shutdown.End, Delivered, SystemInv, Served, Parsings, Phases, LastMissing;
    var messages := Delivered(y, parse, events);
    AnyShutdown(y, parse, events);
    var served := DeliveryRun(y, parse, events, [], []);
    AppendNothing(messages);
    DestroyedExited(end);
    if end.main == Alive {
      ServedRunning(end, parse, messages, served);
    } else if end.main == Destroyed {
      ServedDestroyed(end, parse, messages, served);
    }
  }

  ghost predicate LastMissing(parse: seq<byte> -> Option<Request>, messages: seq<seq<byte>>, parsed: seq<Request>) {
    messages != [] && parsed == Parsings(parse, messages[..|messages| - 1])
  }

  // Events of the service thread: a client's message is announced, read, and
  // handed to the callback.
  function Announced(data: seq<byte>, n: nat): seq<Event> {
    seq(n, _ => Next(data, true, false))
  }

  lemma AnnouncedNext(y: System, parse: seq<byte> -> Option<Request>, data: seq<byte>, n: nat)
    requires CanNext(y) && Callable(y)
    requires Shutdown.IsRun(Then(y, parse, Next(data, true, false)), parse, Announced(data, n))
    ensures var e := Next(data, true, false);
      var y' := Then(y, parse, e);
      && Shutdown.IsRun(y, parse, Announced(data, n + 1))
      && Shutdown.End(y, parse, Announced(data, n + 1)) == Shutdown.End(y', parse, Announced(data, n))
      && Delivered(y, parse, Announced(data, n + 1)) == ReadBy(y, e) + Delivered(y', parse, Announced(data, n))
  {
    assert Announced(data, n + 1)[1..] == Announced(data, n);
  }

  // One step on the way of a message, while the server is running.
  lemma OnItsWay(y: System, parse: seq<byte> -> Option<Request>, data: seq<byte>)
    requires y.server == Running && Idle(y.writer, SERVICE) && Callable(y) && data != []
    ensures var e := Next(data, true, false);
      match y.service
      case Polling => Then(y, parse, e) == y.(service := Woken)
      case Woken => Then(y, parse, e) == y.(service := Reading)
      case Reading => Then(y, parse, e) == y.(service := Received(data))
      case Received(d) => Then(y, parse, e) == y.(service := Admitted(d))
      case Admitted(d) => Then(y, parse, e) == y.(service := Starting(d))
      case Starting(d) =>
        Then(y, parse, e).parsed == y.parsed + (match parse(d) case None => [] case Some(r) => [r]) &&
        Then(y, parse, e).service == if parse(d).Some? then Adding else Polling
      case _ => true
  {
    AppendNothing(y.parsed);
    hide After;
  }

  lemma MessageTaken(y: System, parse: seq<byte> -> Option<Request>, data: seq<byte>)
    requires y.server == Running && Idle(y.writer, SERVICE) && Callable(y)
    requires y.service == Received(data) && data != []
    ensures Shutdown.IsRun(y, parse, Announced(data, 3)) && Delivered(y, parse, Announced(data, 3)) == []
    ensures var end := Shutdown.End(y, parse, Announced(data, 3));
      && end.parsed == y.parsed + (match parse(data) case None => [] case Some(r) => [r])
      && end.service == (if parse(data).Some? then Adding else Polling)
  {
    hide Then, Idle;
    var y4, y5 := y.(service := Admitted(data)), y.(service := Starting(data));
    var y6 := Then(y5, parse, Next(data, true, false));
    OnItsWay(y, parse, data);
    OnItsWay(y4, parse, data);
    OnItsWay(y5, parse, data);
    assert Shutdown.IsRun(y6, parse, Announced(data, 0));
    assert Delivered(y6, parse, Announced(data, 0)) == [] && Shutdown.End(y6, parse, Announced(data, 0)) == y6;
    hide Shutdown.End, Delivered, Shutdown.IsRun;
    AnnouncedNext(y5, parse, data, 0);
    AnnouncedNext(y4, parse, data, 1);
    AnnouncedNext(y, parse, data, 2);
  }

  lemma PollingIdle(y: System)
    requires SystemInv(y) && y.service == Polling
    ensures Idle(y.writer, SERVICE) && Callable(y)
  {
    hide Ingestion.Inv, AllAdmitted, Phases;
  }

  // MAIN: ... and a message that a client sends to a running server can be
  // read whenever the service thread is polling, and then is parsed.
  lemma MessageServed(y: System, parse: seq<byte> -> Option<Request>, data: seq<byte>)
    requires SystemInv(y) && y.server == Running && y.service == Polling && data != []
    ensures Shutdown.IsRun(y, parse, Announced(data, 6))
    ensures Delivered(y, parse, Announced(data, 6)) == [data]
    ensures var end := Shutdown.End(y, parse, Announced(data, 6));
      && end.parsed == y.parsed + (match parse(data) case None => [] case Some(r) => [r])
      && end.service == (if parse(data).Some? then Adding else Polling)
  {
    PollingIdle(y);
    hide SystemInv, Then, Idle, Shutdown.End, Delivered, Shutdown.IsRun;
    var y1, y2 := y.(service := Woken), y.(service := Reading);
    OnItsWay(y, parse, data);
    OnItsWay(y1, parse, data);
    OnItsWay(y2, parse, data);
    MessageTaken(y.(service := Received(data)), parse, data);
    AnnouncedNext(y2, parse, data, 3);
    AnnouncedNext(y1, parse, data, 4);
    AnnouncedNext(y, parse, data, 5);
  }

  lemma ParsedGrows(y: System, parse: seq<byte> -> Option<Request>, e: Event)
    requires CanEvent(y, e) && Callable(y)
    ensures y.parsed <= Then(y, parse, e).parsed
  {
    hide After;
  }

  // MAIN: once kStopping is stored the threads can bring the shutdown to its
  // end from wherever they are.
  lemma {:induction false} CanEnd(y: System, parse: seq<byte> -> Option<Request>) returns (events: seq<Event>)
    requires SystemInv(y) && y.server != Running
    ensures Shutdown.IsRun(y, parse, events) && Shutdown.End(y, parse, events).main == Destroyed
    ensures y.parsed <= Shutdown.End(y, parse, events).parsed
    decreases Effort(y)
  {
    hide SystemInv, Effort, Then, CanEvent;
    if y.main == Destroyed {
      events := [];
    } else {
      var e := ShutdownMoves(y);
      InvCallable(y);
      EventEffort(y, parse, e);
      EventKeeps(y, parse, e);
      ParsedGrows(y, parse, e);
      var rest := CanEnd(Then(y, parse, e), parse);
      events := [e] + rest;
      assert events[1..] == rest;
    }
  }

  lemma InvCallable(y: System)
    ensures SystemInv(y) ==> Callable(y)
  {
  }

  // A logger just constructed.
  const FRESH := System(
    Running, Polling, Alive, false, State([], false, Free, map[], Ingestion.Entering, [], []), [], 0)

  lemma {:induction false} RunsConcat(
    y: System, parse: seq<byte> -> Option<Request>, first: seq<Event>, rest: seq<Event>)
    requires Shutdown.IsRun(y, parse, first) && Shutdown.IsRun(Shutdown.End(y, parse, first), parse, rest)
    ensures Shutdown.IsRun(y, parse, first + rest)
    ensures Shutdown.End(y, parse, first + rest) == Shutdown.End(Shutdown.End(y, parse, first), parse, rest)
    decreases |first|
  {
    hide Then, CanEvent, Callable;
    if first == [] {
      AppendNothing(rest);
    } else {
      assert (first + rest)[1..] == first[1..] + rest;
      RunsConcat(Then(y, parse, first[0]), parse, first[1..], rest);
    }
  }

  // ... and so they can when it has not been stored yet.
  lemma CanBeDestroyed(y: System, parse: seq<byte> -> Option<Request>) returns (events: seq<Event>)
    requires SystemInv(y)
    ensures Shutdown.IsRun(y, parse, events) && Shutdown.End(y, parse, events).main == Destroyed
    ensures y.parsed <= Shutdown.End(y, parse, events).parsed
  {
    hide SystemInv, Then, CanEvent, Effort, Callable;
    if y.server == Running {
      StartsEnding(y, parse);
      EventKeeps(y, parse, Destroy);
      ParsedGrows(y, parse, Destroy);
      var rest := CanEnd(Then(y, parse, Destroy), parse);
      events := [Destroy] + rest;
      assert events[1..] == rest;
    } else {
      events := CanEnd(y, parse);
    }
  }

  // MAIN: a logger can be started, read a message, and be destroyed, and the
  // request in it then has been parsed and written.
  lemma WholeLife(parse: seq<byte> -> Option<Request>, data: seq<byte>, r: Request) returns (events: seq<Event>)
    requires data != [] && parse(data) == Some(r)
    ensures Shutdown.Init(FRESH) && Shutdown.IsRun(FRESH, parse, events)
    ensures var end := Shutdown.End(FRESH, parse, events);
      end.main == Destroyed && [r] <= end.parsed && end.writer.written == end.parsed
  {
    InitSystem(FRESH);
    hide SystemInv, Then, CanEvent, Callable, Shutdown.IsRun, Shutdown.End, Delivered;
    MessageServed(FRESH, parse, data);
    var first := Announced(data, 6);
    var y := Shutdown.End(FRESH, parse, first);
    AnyShutdown(FRESH, parse, first);
    var rest := CanBeDestroyed(y, parse);
    RunsConcat(FRESH, parse, first, rest);
    events := first + rest;
    CleanShutdown(FRESH, parse, events, Shutdown.End(FRESH, parse, events));
  }

  lemma StartsEnding(y: System, parse: seq<byte> -> Option<Request>)
    requires SystemInv(y) && y.server == Running
    ensures CanEvent(y, Destroy) && Callable(y) && Then(y, parse, Destroy).server != Running
  {
  }
}
