// Server: three descriptors of its own, one per client, and a service thread,
// on a kernel where every call may fail.
module Servers {
  type Port = n: nat | n < 0x1_0000

  // What the next calls that can fail will do; past the end all of them fail.
  predicate Succeeds(script: seq<bool>) {
    script != [] && script[0]
  }

  function Rest(script: seq<bool>): seq<bool> {
    if script == [] then [] else script[1..]
  }

  // The first n of them succeed.
  predicate Passes(script: seq<bool>, n: nat) {
    n <= |script| && forall i :: 0 <= i < n ==> script[i]
  }

  lemma PassesMore(script: seq<bool>, n: nat, k: nat)
    requires Passes(script, n)
    ensures Passes(script, n + k) <==> Passes(script[n..], k)
    ensures Passes(script, n + k) ==> script[n + k..] == script[n..][k..]
  {
    if Passes(script[n..], k) {
      forall i | n <= i < n + k ensures script[i] {
        assert script[n..][i - n];
      }
    }
  }

  // One more call of a script has succeeded.
  lemma Another(script: seq<bool>, n: nat, left: seq<bool>)
    requires Passes(script, n) && Succeeds(script[n..]) && left == Rest(script[n..])
    ensures Passes(script, n + 1) && left == script[n + 1..]
  {
  }

  lemma PassesOne(script: seq<bool>)
    ensures Passes(script, 1) <==> Succeeds(script)
    ensures script != [] ==> Rest(script) == script[1..]
  {
  }

  // The ports that the next calls of getsockname will tell.
  function Told(ports: seq<Port>): Port {
    if ports == [] then 0 else ports[0]
  }

  function Untold(ports: seq<Port>): seq<Port> {
    if ports == [] then [] else ports[1..]
  }

  // The descriptors that are open in the process, and which of them epoll
  // watches.
  class Kernel {
    var ports: seq<Port>
    var open: set<int>
    var watched: set<int>
    var script: seq<bool>

    constructor (open: set<int>, ports: seq<Port>, script: seq<bool>)
      ensures this.open == open && watched == {} && this.ports == ports && this.script == script
    {
      this.open, this.ports, this.script, watched := open, ports, script, {};
    }

    // What a call of getsockname that has succeeded tells
    method Tell() returns (port: Port)
      modifies this`ports
      ensures port == Told(old(ports)) && ports == Untold(old(ports))
    {
      port, ports := Told(ports), Untold(ports);
    }

    // fcntl, setsockopt, bind, listen, getsockname, starting a thread
    method Try() returns (ok: bool)
      modifies this`script
      ensures ok == Succeeds(old(script)) && script == Rest(old(script))
    {
      ok := script != [] && script[0];
      script := Rest(script);
    }

    // epoll_create1, eventfd, socket, accept: a fresh descriptor or failure
    method Obtain() returns (fd: int)
      modifies this`open, this`script
      ensures (fd >= 0) == Succeeds(old(script)) && script == Rest(old(script))
      ensures fd < 0 ==> fd == -1 && open == old(open)
      ensures fd >= 0 ==> fd !in old(open) && open == old(open) + {fd}
    {
      var ok := Try();
      if !ok {
        return -1;
      }
      fd := FreeDescriptor(open);
      open := open + {fd};
    }

    // A descriptor can only be closed while it is open: closing twice, or
    // closing -1, is ruled out by this precondition.
    method Close(fd: int)
      requires fd in open
      modifies this`open, this`watched
      ensures open == old(open) - {fd} && watched == old(watched) - {fd}
    {
      open, watched := open - {fd}, watched - {fd};
    }

    method Watch(fd: int) returns (ok: bool)
      modifies this`watched, this`script
      ensures ok == Succeeds(old(script)) && script == Rest(old(script))
      ensures watched == if ok then old(watched) + {fd} else old(watched)
    {
      ok := Try();
      if ok {
        watched := watched + {fd};
      }
    }

    method Unwatch(fd: int)
      modifies this`watched
      ensures watched == old(watched) - {fd}
    {
      watched := watched - {fd};
    }

    // epoll_wait: any list of distinct watched descriptors
    method Wait() returns (events: seq<int>)
      ensures NoDuplicates(events) && forall j :: 0 <= j < |events| ==> events[j] in watched
    {
      events := [];
      var rest := watched;
      while rest != {}
        invariant rest <= watched && NoDuplicates(events)
        invariant forall j :: 0 <= j < |events| ==> events[j] in watched && events[j] !in rest
        decreases |rest|
      {
        var next := Pick(rest);
        rest := rest - {next};
        var reported: bool := *;
        if reported {
          events := events + [next];
        }
      }
    }
  }

  method AnySights(n: nat) returns (sights: seq<Sight>)
    ensures |sights| == n
  {
    sights := *;
    if |sights| != n {
      sights := seq(n, _ => Sight(true, true, Stays));
    }
  }

  method Pick<T>(s: set<T>) returns (x: T)
    requires s != {}
    ensures x in s
  {
    x :| x in s;
  }

  predicate IsFree(used: set<int>, fd: int) {
    fd >= 0 && fd !in used
  }

  method FreeDescriptor(used: set<int>) returns (fd: int)
    ensures IsFree(used, fd)
  {
    Bounded(used);
    fd :| IsFree(used, fd);
  }

  lemma Member<T>(s: set<T>) returns (x: T)
    requires s != {}
    ensures x in s
  {
    x :| x in s;
  }

  lemma {:induction false} Bounded(used: set<int>)
    ensures exists fd: nat :: IsFree(used, fd) && forall x <- used :: x < fd
    decreases |used|
  {
    if used == {} {
      assert IsFree(used, 0);
    } else {
      var x := Member(used);
      Bounded(used - {x});
      var n: nat :| IsFree(used - {x}, n) && forall y <- used - {x} :: y < n;
      var m := if n <= x then x + 1 else n;
      forall y <- used ensures y < m {
        assert y == x || y in used - {x};
      }
      assert IsFree(used, m);
    }
  }

  ghost predicate NoDuplicates(s: seq<int>) {
    forall i, j :: 0 <= i < j < |s| ==> s[i] != s[j]
  }

  ghost function Elements(s: seq<int>): set<int> {
    set fd | fd in s
  }

  // A descriptor field; -1 holds none.
  ghost function Descriptors(fd: int): set<int> {
    if fd >= 0 then {fd} else {}
  }

  // How many calls can fail: configuring the listening socket; up to the port
  // number; up to registering both descriptors; in a whole start.
  const SETTINGS: nat := 6
  const NAMED: nat := 10
  const OPENED: nat := 14
  const STARTED: nat := 15

  datatype Lifecycle = Stopped | Starting | Running | Stopping

  // What comes of an event of a client: it stays, it has hung up or its
  // request has failed, or an exception ends the loop.
  datatype Outcome = Stays | HungUp | Thrown

  // What the service thread sees at an event: whether state_ is kRunning, and
  // whether it still is behind accept.
  datatype Sight = Sight(running: bool, accepting: bool, outcome: Outcome)

  class Server {
    const kernel: Kernel
    ghost const others: set<int>      // descriptors that are none of this server's business
    var epollFd: int
    var wakeupFd: int
    var listeningFd: int
    var clientFd: seq<int>
    var boundPort: Port               // 0: not bound
    var state: Lifecycle
    var joinable: bool                // thread_.joinable()
    var looping: bool                 // the service thread is still in run

    ghost function Own(): set<int>
      reads this
    {
      Descriptors(epollFd) + Descriptors(wakeupFd) + Descriptors(listeningFd) + Elements(clientFd)
    }

    // The descriptors of the process are exactly the others, the server's
    // own - no two of them the same - and extra.
    ghost predicate Owns(extra: set<int>)
      reads this, kernel
    {
      && kernel.open == others + Own() + extra
      && others !! Own() && extra !! others + Own()
      && Descriptors(epollFd) !! Descriptors(wakeupFd) !! Descriptors(listeningFd) !! Elements(clientFd)
      && NoDuplicates(clientFd) && (forall fd <- clientFd :: fd >= 0)
      && epollFd >= -1 && wakeupFd >= -1 && listeningFd >= -1
    }

    // Only the server's own descriptors are watched.
    ghost predicate Watches()
      reads this, kernel
    {
      forall fd <- kernel.watched :: fd == wakeupFd >= 0 || fd == listeningFd >= 0 || fd in clientFd
    }

    // While it is listening all of them are, the epoll descriptor apart.
    ghost predicate Listens()
      reads this, kernel
    {
      && epollFd >= 0 && wakeupFd >= 0 && listeningFd >= 0
      && kernel.watched == {wakeupFd, listeningFd} + Elements(clientFd)
    }

    // Between calls of start and stop.
    ghost predicate Valid()
      reads this, kernel
    {
      && Owns({}) && Watches() && (looping ==> Listens())
      && (state == Stopped || state == Running)
      && (state == Stopped ==> Own() == {} && clientFd == [] && kernel.watched == {} && !joinable)
      && (looping ==> joinable) && (joinable ==> state == Running)
      && (state == Running && !looping ==> clientFd == [] && listeningFd < 0)
    }

    constructor (kernel: Kernel)
      requires kernel.watched == {}
      ensures Valid() && this.kernel == kernel && others == kernel.open && state == Stopped && boundPort == 0
    {
      this.kernel, others := kernel, kernel.open;
      epollFd, wakeupFd, listeningFd, clientFd := -1, -1, -1, [];
      state, joinable, looping, boundPort := Stopped, false, false, 0;
    }

    method IndexOf(fd: int) returns (i: nat)
      ensures i <= |clientFd| && fd !in clientFd[..i]
      ensures i < |clientFd| ==> clientFd[i] == fd
    {
      i := 0;
      while i < |clientFd| && clientFd[i] != fd
        invariant i <= |clientFd| && fd !in clientFd[..i]
      {
        i := i + 1;
      }
    }

    method UnregisterFd(fd: int)
      requires Owns({}) && Watches() && fd in clientFd
      modifies this`clientFd, kernel`open, kernel`watched
      ensures Owns({}) && Watches()
      ensures kernel.open == old(kernel.open) - {fd} && Elements(clientFd) == Elements(old(clientFd)) - {fd}
      ensures |clientFd| == |old(clientFd)| - 1
      ensures clientFd == Without(old(clientFd), {fd}) && kernel.watched == old(kernel.watched) - {fd}
    {
      if epollFd >= 0 {
        kernel.Unwatch(fd);
      }
      var i := IndexOf(fd);
      assert clientFd[..|clientFd|] == clientFd;
      if i < |clientFd| {
        ErasedAt(clientFd, i);
        WithoutOne(clientFd, i);
        clientFd := clientFd[..i] + clientFd[i + 1..];
      }
      kernel.Close(fd);
    }

    method CloseClientFds()
      requires Owns({}) && Watches()
      modifies this`clientFd, kernel`open, kernel`watched
      ensures Owns({}) && Watches() && clientFd == []
    {
      while clientFd != []
        invariant Owns({}) && Watches()
        decreases |clientFd|
      {
        UnregisterFd(clientFd[|clientFd| - 1]);
      }
    }

    method CloseListening()
      requires Owns({}) && Watches()
      modifies this`listeningFd, kernel`open, kernel`watched
      ensures Owns({}) && Watches() && listeningFd < 0
    {
      if listeningFd >= 0 {
        kernel.Close(listeningFd);
        listeningFd := -1;
      }
    }

    method CloseWakeup()
      requires Owns({}) && Watches()
      modifies this`wakeupFd, kernel`open, kernel`watched
      ensures Owns({}) && Watches() && wakeupFd < 0
    {
      if wakeupFd >= 0 {
        if epollFd >= 0 {
          kernel.Unwatch(wakeupFd);
        }
        kernel.Close(wakeupFd);
        wakeupFd := -1;
      }
    }

    method CloseEpoll()
      requires Owns({}) && Watches()
      modifies this`epollFd, kernel`open, kernel`watched
      ensures Owns({}) && Watches() && epollFd < 0
    {
      if epollFd >= 0 {
        kernel.Close(epollFd);
        epollFd := -1;
      }
    }

    method CloseStartupDescriptors()
      requires Owns({}) && Watches()
      modifies this`clientFd, this`listeningFd, this`wakeupFd, this`epollFd, kernel`open, kernel`watched
      ensures Owns({}) && Own() == {} && clientFd == [] && kernel.open == others && kernel.watched == {}
    {
      CloseClientFds();
      CloseListening();
      CloseWakeup();
      CloseEpoll();
      assert kernel.watched == {} by { assert forall fd <- kernel.watched :: fd in clientFd; }
    }

    // A client descriptor comes in as the one just accepted.
    method RegisterFd(fd: int, client: bool) returns (ok: bool)
      requires Owns(if client then {fd} else {}) && Watches() && fd >= 0
      requires !client ==> fd == wakeupFd || fd == listeningFd
      modifies this`clientFd, kernel`watched, kernel`script
      ensures Watches() && kernel.watched == old(kernel.watched) + if ok then {fd} else {}
      ensures Owns(if client && !ok then {fd} else {})
      ensures client ==> ok == Passes(old(kernel.script), 3)
      ensures clientFd == if client && ok then old(clientFd) + [fd] else old(clientFd)
      ensures !client ==> ok == Passes(old(kernel.script), 2)
      ensures !client && ok ==> kernel.script == old(kernel.script)[2..]
    {
      ok := kernel.Try();
      if !ok {
        return;
      }
      ok := kernel.Watch(fd);
      if !ok {
        return;
      }
      if client {
        ok := kernel.Try();
        if !ok {
          kernel.Unwatch(fd);
          return;
        }
        clientFd := clientFd + [fd];
      }
    }

    // Everything about the listening socket up to the question which port it
    // is bound to.
    method Configure() returns (ok: bool)
      modifies kernel`script
      ensures ok == Passes(old(kernel.script), SETTINGS)
      ensures ok ==> kernel.script == old(kernel.script)[SETTINGS..]
    {
      ghost var script := kernel.script;
      ok := kernel.Try();       // non-blocking
      if !ok { return; }
      Another(script, 0, kernel.script);
      ok := kernel.Try();       // address reuse
      if !ok { return; }
      Another(script, 1, kernel.script);
      ok := kernel.Try();       // timeouts
      if !ok { return; }
      Another(script, 2, kernel.script);
      ok := kernel.Try();       // bind
      if !ok { return; }
      Another(script, 3, kernel.script);
      ok := kernel.Try();       // listen
      if !ok { return; }
      Another(script, 4, kernel.script);
      ok := kernel.Try();       // getsockname
    }

    // The descriptors of a start, up to the point where the port is known.
    method Bind() returns (ok: bool)
      requires Owns({}) && Own() == {} && clientFd == [] && kernel.watched == {}
      modifies this`listeningFd, this`wakeupFd, this`epollFd, kernel`open, kernel`script
      ensures Owns({}) && Watches() && clientFd == [] && kernel.watched == {}
      ensures ok == Passes(old(kernel.script), NAMED)
      ensures ok ==> kernel.script == old(kernel.script)[NAMED..]
      ensures ok ==> epollFd >= 0 && wakeupFd >= 0 && listeningFd >= 0
    {
      ghost var script := kernel.script;
      epollFd := kernel.Obtain();
      if epollFd < 0 {
        return false;
      }
      Another(script, 0, kernel.script);
      wakeupFd := kernel.Obtain();
      if wakeupFd < 0 {
        return false;
      }
      Another(script, 1, kernel.script);
      ok := kernel.Try();
      if !ok {
        return;
      }
      Another(script, 2, kernel.script);
      listeningFd := kernel.Obtain();
      if listeningFd < 0 {
        return false;
      }
      Another(script, 3, kernel.script);
      PassesMore(script, 4, SETTINGS);
      ok := Configure();
    }

    // Everything up to starting the thread; whatever has been opened when
    // something fails is still the server's own.
    method Open() returns (ok: bool)
      requires Owns({}) && Own() == {} && clientFd == [] && kernel.watched == {}
      modifies this`clientFd, this`listeningFd, this`wakeupFd, this`epollFd, this`boundPort
      modifies kernel`open, kernel`watched, kernel`script, kernel`ports
      ensures Owns({}) && Watches() && clientFd == []
      ensures (boundPort, kernel.ports) ==
        if Passes(old(kernel.script), NAMED) then (Told(old(kernel.ports)), Untold(old(kernel.ports)))
        else (old(boundPort), old(kernel.ports))
      ensures ok == Passes(old(kernel.script), OPENED)
      ensures ok ==> kernel.script == old(kernel.script)[OPENED..]
      ensures ok ==> Listens()
    {
      ghost var script := kernel.script;
      ok := Bind();
      if !ok {
        return;
      }
      PassesMore(script, NAMED, 4);
      boundPort := kernel.Tell();
      ok := RegisterFd(wakeupFd, false);
      if !ok {
        return;
      }
      PassesMore(script[NAMED..], 2, 2);
      ok := RegisterFd(listeningFd, false);
    }

    // A start succeeds when all its steps do, and knows its port as soon as
    // those up to getsockname have.  When it fails behind them the port
    // number stays.
    method Start() returns (ok: bool)
      requires Valid()
      modifies this, kernel
      ensures Valid() && ok == (old(state) == Stopped && state == Running)
      ensures ok ==> looping && clientFd == []
      ensures old(state) != Stopped ==>
        kernel.open == old(kernel.open) && (boundPort, kernel.ports) == old((boundPort, kernel.ports))
      ensures old(state) == Stopped && !ok ==> kernel.open == others
      ensures old(state) == Stopped ==>
        ok == Passes(old(kernel.script), STARTED) &&
        (boundPort, kernel.ports) ==
          if Passes(old(kernel.script), NAMED) then (Told(old(kernel.ports)), Untold(old(kernel.ports)))
          else (old(boundPort), old(kernel.ports))
    {
      if state != Stopped {
        return false;
      }
      ghost var script := kernel.script;
      state := Starting;
      ok := Open();
      if ok {
        PassesMore(script, OPENED, 1);
        PassesOne(kernel.script);
        ok := kernel.Try();
      }
      if !ok {
        CloseStartupDescriptors();
        state := Stopped;
        return false;
      }
      state, joinable, looping := Running, true, true;
    }

    // A new client: its descriptor is registered, or closed again.  Running
    // is what state_ is seen to be behind accept.
    method Accept(running: bool) returns (client: int)
      requires Owns({}) && Watches()
      modifies this`clientFd, kernel`open, kernel`watched, kernel`script
      ensures Owns({}) && Watches()
      ensures var joins := running && Passes(old(kernel.script), 4);
        && (joins ==> client !in old(kernel.open))
        && clientFd == old(clientFd) + (if joins then [client] else [])
        && kernel.open == old(kernel.open) + (if joins then {client} else {})
        && kernel.watched == old(kernel.watched) + (if joins then {client} else {})
    {
      PassesOne(kernel.script);
      if Succeeds(kernel.script) { PassesMore(kernel.script, 1, 3); }
      client := kernel.Obtain();
      if client >= 0 {
        var registered := false;
        if running {
          registered := RegisterFd(client, true);
        }
        if !registered {
          kernel.Close(client);
        }
      }
    }

    // Whether the loop ends at an event.
    predicate Ends(fd: int, sight: Sight)
      reads this`wakeupFd, this`listeningFd
    {
      fd == wakeupFd || !sight.running || (fd != listeningFd && sight.outcome == Thrown)
    }

    // The clients closed by the first n events.
    ghost function Gone(events: seq<int>, sights: seq<Sight>, n: nat): set<int>
      requires n <= |events| == |sights|
      reads this`listeningFd
    {
      set i: nat | i < n && events[i] != listeningFd && sights[i].outcome == HungUp :: events[i]
    }

    lemma GoneFirst(events: seq<int>, sights: seq<Sight>)
      requires |events| == |sights|
      ensures Gone(events, sights, 0) == {}
    {
    }

    lemma GoneNext(events: seq<int>, sights: seq<Sight>, n: nat)
      requires n < |events| == |sights|
      ensures Gone(events, sights, n + 1) == Gone(events, sights, n) +
        if events[n] != listeningFd && sights[n].outcome == HungUp then {events[n]} else {}
    {
    }

    ghost predicate Admits(events: seq<int>, sights: seq<Sight>, n: nat, script: seq<bool>)
      requires n <= |events| == |sights|
      reads this`listeningFd
    {
      Passes(script, 4) && exists i: nat :: i < n && events[i] == listeningFd && sights[i].accepting
    }

    // One event; over means that it ends the loop.
    method HandleEvent(fd: int, sight: Sight) returns (over: bool, ghost joined: seq<int>)
      requires Owns({}) && Watches() && fd in kernel.watched
      modifies this`clientFd, kernel`open, kernel`watched, kernel`script
      ensures Owns({}) && Watches() && (old(Listens()) ==> Listens())
      ensures over == Ends(fd, sight)
      ensures over ==> joined == [] && clientFd == old(clientFd) && kernel.script == old(kernel.script)
      ensures !over && fd == listeningFd ==>
        |joined| == (if sight.accepting && Passes(old(kernel.script), 4) then 1 else 0) &&
        clientFd == old(clientFd) + joined
      ensures !over && fd != listeningFd ==>
        joined == [] && kernel.script == old(kernel.script) &&
        clientFd == if sight.outcome == HungUp then Without(old(clientFd), {fd}) else old(clientFd)
      ensures old(kernel.watched) - {fd} <= kernel.watched && forall x <- joined :: x !in old(kernel.watched)
    {
      joined := [];
      over := fd == wakeupFd || !sight.running;
      if over {
        return;
      }
      if fd == listeningFd {
        var client := Accept(sight.accepting);
        joined := clientFd[|old(clientFd)|..];
      } else if sight.outcome == Thrown {
        over := true;
      } else if sight.outcome == HungUp {
        UnregisterFd(fd);
      }
    }

    lemma GoneLater(
      before: seq<int>, events: seq<int>, sights: seq<Sight>, k: nat, now: seq<int>, joined: seq<int>)
      requires k < |events| == |sights| && events[k] !in joined
      requires now == Without(before, Gone(events, sights, k)) + joined
      ensures Without(before, Gone(events, sights, k + 1)) + joined ==
        if events[k] != listeningFd && sights[k].outcome == HungUp then Without(now, {events[k]}) else now
    {
      GoneNext(events, sights, k);
      if events[k] != listeningFd && sights[k].outcome == HungUp {
        WithoutTwice(before, Gone(events, sights, k), {events[k]});
        WithoutConcat(Without(before, Gone(events, sights, k)), joined, {events[k]});
        WithoutOthers(joined, {events[k]});
      } else {
        assert Gone(events, sights, k) + {} == Gone(events, sights, k);
      }
    }

    // One batch of events; over means the loop is to end, at event n.  Clients
    // that hung up or failed are gone, the others stay in their order, and at
    // most one has come in.
    method HandleEvents(events: seq<int>, sights: seq<Sight>)
      returns (over: bool, ghost n: nat, ghost joined: seq<int>)
      requires Owns({}) && Watches() && |events| == |sights|
      requires NoDuplicates(events) && forall j :: 0 <= j < |events| ==> events[j] in kernel.watched
      modifies this`clientFd, kernel`open, kernel`watched, kernel`script
      ensures Owns({}) && Watches() && (old(Listens()) ==> Listens())
      ensures n <= |events| && over == (n < |events|) && (over ==> Ends(events[n], sights[n]))
      ensures forall i :: 0 <= i < n ==> !Ends(events[i], sights[i])
      ensures clientFd == Without(old(clientFd), Gone(events, sights, n)) + joined
      ensures |joined| == if Admits(events, sights, n, old(kernel.script)) then 1 else 0
    {
      hide Without, Gone, Passes, Owns, Watches, Listens, Ahead, NoDuplicates;
      n, over, joined := 0, false, [];
      WithoutNone(clientFd);
      assert Gone(events, sights, 0) == {} by { GoneFirst(events, sights); }
      assert Ahead(events, 0, kernel.watched, []) by { AheadFirst(events, kernel.watched); }
      var k := 0;
      while k < |events|
        invariant 0 <= k == n <= |events| && Owns({}) && Watches() && (old(Listens()) ==> Listens())
        invariant Ahead(events, k, kernel.watched, joined)
        invariant forall j :: 0 <= j < k ==> !Ends(events[j], sights[j])
        invariant clientFd == Without(old(clientFd), Gone(events, sights, k)) + joined
        invariant |joined| == if Admits(events, sights, k, old(kernel.script)) then 1 else 0
        invariant (forall j :: 0 <= j < k ==> events[j] != listeningFd) ==> kernel.script == old(kernel.script)
      {
        ghost var watched, more := kernel.watched, [];
        AheadAt(events, k, watched, joined);
        GoneLater(old(clientFd), events, sights, k, clientFd, joined);
        over, more := HandleEvent(events[k], sights[k]);
        if over {
          return;
        }
        ghost var rest := Without(old(clientFd), Gone(events, sights, k + 1));
        assert rest + joined + more == rest + (joined + more);
        AheadNext(events, k, watched, kernel.watched, joined, more);
        joined := joined + more;
        k, n := k + 1, n + 1;
      }
    }

    // The service thread, through any finite number of batches.
    method Run()
      requires Owns({}) && Watches()
      modifies this`clientFd, this`listeningFd, kernel
      ensures Owns({}) && Watches() && clientFd == [] && listeningFd < 0
    {
      var batches: nat, over := *, false;
      while !over && batches > 0
        invariant Owns({}) && Watches()
        decreases batches
      {
        var events := kernel.Wait();
        var sights := AnySights(|events|);
        ghost var n, joined;
        over, n, joined := HandleEvents(events, sights);
        batches := batches - 1;
      }
      CloseClientFds();
      CloseListening();
    }

    // One turn of the service thread's loop, and what follows if it is the
    // last one.
    method OneBatch() returns (events: seq<int>, sights: seq<Sight>)
      requires Valid() && looping
      modifies this`clientFd, this`listeningFd, this`looping, kernel
      ensures Valid() && (looping || (clientFd == [] && listeningFd < 0))
      ensures |events| == |sights| && (forall fd <- events :: fd in old(kernel.watched))
      ensures looping <==> forall i :: 0 <= i < |events| ==> !old(Ends(events[i], sights[i]))
    {
      events := kernel.Wait();
      sights := AnySights(|events|);
      var over, n, joined := HandleEvents(events, sights);
      if over {
        CloseClientFds();
        CloseListening();
        looping := false;
      }
    }

    // The loop ends on its own, long before stop is called.
    method LoopEnds()
      requires Valid() && looping
      modifies this`clientFd, this`listeningFd, this`looping, kernel
      ensures Valid() && !looping && clientFd == [] && listeningFd < 0
    {
      Run();
      looping := false;
    }

    method Stop()
      requires Valid()
      modifies this, kernel
      ensures Valid() && state == Stopped && boundPort == 0
      ensures kernel.open == others
    {
      if state == Running {
        state := Stopping;
      }
      if joinable {
        if looping {
          Run();
        }
        looping, joinable := false, false;
      }
      CloseStartupDescriptors();
      boundPort, state := 0, Stopped;
    }
  }

  // The events from k on are still watched, and not those of new clients.
  ghost predicate Ahead(events: seq<int>, k: nat, watched: set<int>, joined: seq<int>) {
    forall j :: k <= j < |events| ==> events[j] in watched && events[j] !in joined
  }

  lemma AheadFirst(events: seq<int>, watched: set<int>)
    requires forall j :: 0 <= j < |events| ==> events[j] in watched
    ensures Ahead(events, 0, watched, [])
  {
  }

  lemma AheadAt(events: seq<int>, k: nat, watched: set<int>, joined: seq<int>)
    requires Ahead(events, k, watched, joined) && NoDuplicates(events) && k < |events|
    ensures events[k] in watched && events[k] !in joined && forall j :: 0 <= j < k ==> events[j] != events[k]
  {
  }

  lemma AheadNext(
    events: seq<int>, k: nat, watched: set<int>, watched': set<int>, joined: seq<int>, more: seq<int>)
    requires NoDuplicates(events) && Ahead(events, k, watched, joined) && k < |events|
    requires watched - {events[k]} <= watched' && forall x <- more :: x !in watched
    ensures Ahead(events, k + 1, watched', joined + more)
  {
  }

  // What of a list is not in gone.
  function Without(s: seq<int>, gone: set<int>): seq<int> {
    if s == [] then []
    else
      var n := |s| - 1;
      Without(s[..n], gone) + if s[n] in gone then [] else [s[n]]
  }

  lemma {:induction false} WithoutNone(s: seq<int>)
    ensures Without(s, {}) == s
  {
    if s != [] { WithoutNone(s[..|s| - 1]); }
  }

  lemma {:induction false} WithoutTwice(s: seq<int>, a: set<int>, b: set<int>)
    ensures Without(Without(s, a), b) == Without(s, a + b)
  {
    if s != [] {
      var n := |s| - 1;
      WithoutTwice(s[..n], a, b);
      WithoutConcat(Without(s[..n], a), if s[n] in a then [] else [s[n]], b);
    }
  }

  lemma WithoutLast(s: seq<int>, x: int, gone: set<int>)
    ensures Without(s + [x], gone) == Without(s, gone) + if x in gone then [] else [x]
  {
    assert (s + [x])[..|s|] == s;
  }

  lemma {:induction false} WithoutConcat(s: seq<int>, t: seq<int>, gone: set<int>)
    ensures Without(s + t, gone) == Without(s, gone) + Without(t, gone)
  {
    if t == [] {
      assert s + t == s;
    } else {
      var n := |t| - 1;
      WithoutConcat(s, t[..n], gone);
      WithoutLast(s + t[..n], t[n], gone);
      WithoutLast(t[..n], t[n], gone);
      hide Without;
      assert t == t[..n] + [t[n]] && s + t == s + t[..n] + [t[n]];
    }
  }

  lemma {:induction false} WithoutOne(s: seq<int>, i: nat)
    requires NoDuplicates(s) && i < |s|
    ensures Without(s, {s[i]}) == s[..i] + s[i + 1..]
  {
    var n := |s| - 1;
    if i < n {
      WithoutOne(s[..n], i);
      assert s[..n][..i] == s[..i] && s[..n][i + 1..] + [s[n]] == s[i + 1..];
    } else {
      WithoutOthers(s[..n], {s[n]});
    }
  }

  lemma {:induction false} WithoutOthers(s: seq<int>, gone: set<int>)
    requires forall i :: 0 <= i < |s| ==> s[i] !in gone
    ensures Without(s, gone) == s
  {
    if s != [] {
      var n := |s| - 1;
      WithoutOthers(s[..n], gone);
      assert s == s[..n] + [s[n]];
    }
  }

  lemma ErasedAt(s: seq<int>, i: nat)
    requires NoDuplicates(s) && i < |s|
    ensures var t := s[..i] + s[i + 1..];
      NoDuplicates(t) && Elements(t) == Elements(s) - {s[i]} && forall fd <- t :: fd in s
  {
    var t := s[..i] + s[i + 1..];
    forall fd <- s | fd != s[i] ensures fd in t {
      var k :| 0 <= k < |s| && s[k] == fd;
      assert t[if k < i then k else k - 1] == fd;
    }
  }

  datatype Operation = CallStart | CallStop | Batch | LoopExits

  // MAIN: over every history of start and stop calls, with failures, and with
  // connections coming and going and loop exits in between, the open
  // descriptors are the server's own and nobody else's, and after a stop none
  // of them is left.
  method AnyHistory(kernel: Kernel, ops: seq<Operation>) returns (server: Server)
    requires kernel.watched == {}
    modifies kernel
    ensures server.kernel == kernel && server.others == old(kernel.open) && server.Valid()
    ensures ops != [] && ops[|ops| - 1] == CallStop ==>
      kernel.open == old(kernel.open)
  {
    server := new Server(kernel);
    var i := 0;
    while i < |ops|
      invariant 0 <= i <= |ops| && fresh(server) && server.kernel == kernel && server.others == old(kernel.open)
      invariant server.Valid()
      invariant i > 0 && ops[i - 1] == CallStop ==> kernel.open == old(kernel.open)
    {
      match ops[i] {
        case CallStart =>
          var started := server.Start();
        case CallStop =>
          server.Stop();
        case Batch =>
          if server.looping {
            var events, sights := server.OneBatch();
          }
        case LoopExits =>
          if server.looping {
            server.LoopEnds();
          }
      }
      i := i + 1;
    }
  }

  // A start that fails where its descriptors are registered, and leaves a
  // stopped server that still tells the port it was given.
  method FailedStartLeavesPort(port: Port) returns (server: Server, started: bool)
    ensures !started && server.state == Stopped && server.boundPort == port
    ensures server.kernel.open == {}
  {
    var kernel := new Kernel({}, [port], seq(NAMED, _ => true));
    server := new Server(kernel);
    started := server.Start();
  }
}
