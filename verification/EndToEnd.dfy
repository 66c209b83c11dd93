// From the messages a server parses to the files it leaves behind: the threads
// of Shutdown.dfy with the storage behind the worker.
module EndToEnd {
  import opened Bytes
  import opened Layout
  import opened FileSystems
  import opened StorageSpec
  import opened ScannerSpec
  import opened Retention
  import opened Ingestion
  import opened WholeRun
  import opened Queries
  import opened Channels
  import opened Catalogs
  import opened Punctuality
  import opened WriterRuns
  import opened SmallSessions
  import opened Shadows
  import opened CutSessions
  import opened CutQueries
  import opened Shutdown
  import opened Deliveries

  // What an event does to the storage: the worker's write takes effect with
  // the step that ends it, and no other thread touches the storage.
  ghost function Touched(st: Store, cal: Calendar, y: System, e: Event): Store {
    if e == InWriter(Work) && y.writer.worker.Writing? then StoreWritten(st, cal, y.writer.worker.request).0 else st
  }

  ghost function StoreAfter(
    st: Store, cal: Calendar, parse: seq<byte> -> Option<Request>, y: System, events: seq<Event>): Store
    requires Shutdown.IsRun(y, parse, events)
    decreases |events|
  {
    if events == [] then st
    else StoreAfter(Touched(st, cal, y, events[0]), cal, parse, Then(y, parse, events[0]), events[1..])
  }

  lemma {:induction false} RunAppend(st: Store, cal: Calendar, reqs: seq<Request>, q: Request)
    ensures Run(st, cal, reqs + [q]) == StoreWritten(Run(st, cal, reqs), cal, q).0
    decreases |reqs|
  {
    hide StoreWritten;
    if reqs == [] {
      assert Run(st, cal, [q]) == Run(StoreWritten(st, cal, q).0, cal, []);
    } else {
      assert (reqs + [q])[1..] == reqs[1..] + [q];
      RunAppend(StoreWritten(st, cal, reqs[0]).0, cal, reqs[1..], q);
    }
  }

  lemma TouchedIsRun(
    st: Store, cal: Calendar, parse: seq<byte> -> Option<Request>, y: System, e: Event)
    requires CanEvent(y, e) && Callable(y)
    ensures Touched(Run(st, cal, y.writer.written), cal, y, e) == Run(st, cal, Then(y, parse, e).writer.written)
  {
    hide Run, StoreWritten;
    if e == InWriter(Work) && y.writer.worker.Writing? {
      RunAppend(st, cal, y.writer.written, y.writer.worker.request);
    }
  }

  // In every interleaving the storage has run exactly what was handed to it.
  lemma {:induction false} Lockstep(
    st: Store, cal: Calendar, parse: seq<byte> -> Option<Request>, y: System, events: seq<Event>)
    requires Shutdown.IsRun(y, parse, events)
    ensures StoreAfter(Run(st, cal, y.writer.written), cal, parse, y, events) ==
      Run(st, cal, Shutdown.End(y, parse, events).writer.written)
    decreases |events|
  {
    hide Run, Touched, Then, CanEvent, Callable;
    if events != [] {
      TouchedIsRun(st, cal, parse, y, events[0]);
      Lockstep(st, cal, parse, Then(y, parse, events[0]), events[1..]);
    }
  }

  // One process: the limit of its storage, and what its threads do from the
  // start to the end of the logger's destruction.
  datatype Life = Life(maxSize: nat, start: System, events: seq<Event>)

  ghost predicate Completed(parse: seq<byte> -> Option<Request>, life: Life) {
    && Shutdown.Init(life.start)
    && Shutdown.IsRun(life.start, parse, life.events)
    && Shutdown.End(life.start, parse, life.events).main == Destroyed
  }

  ghost function LeftBehind(fs: Fs, cal: Calendar, parse: seq<byte> -> Option<Request>, life: Life): Fs
    requires Completed(parse, life)
  {
    StoreAfter(Constructed(fs, life.maxSize), cal, parse, life.start, life.events).fs
  }

  // The requests it parsed, in the order it did.
  ghost function Parsed(parse: seq<byte> -> Option<Request>, life: Life): Session
    requires Completed(parse, life)
  {
    Session(life.maxSize, Shutdown.End(life.start, parse, life.events).parsed)
  }

  // The requests of a session are those of the messages a process has read,
  // in order; the last one may be missing, if it came with the shutdown.
  ghost predicate FromMessages(parse: seq<byte> -> Option<Request>, life: Life, s: Session)
    requires Completed(parse, life)
  {
    var messages := Delivered(life.start, parse, life.events);
    s.requests == Parsings(parse, messages) || LastMissing(parse, messages, s.requests)
  }

  lemma LifeDelivers(parse: seq<byte> -> Option<Request>, life: Life)
    requires Completed(parse, life)
    ensures FromMessages(parse, life, Parsed(parse, life))
  {
    DeliveredParsed(life.start, parse, life.events, Shutdown.End(life.start, parse, life.events));
  }

  lemma {:induction false} LivesDeliver(parse: seq<byte> -> Option<Request>, lives: seq<Life>)
    requires forall l <- lives :: Completed(parse, l)
    ensures forall i: nat :: i < |lives| ==> FromMessages(parse, lives[i], AllParsed(parse, lives)[i])
  {
    hide Completed, FromMessages, Parsed;
    if lives != [] {
      LifeDelivers(parse, lives[0]);
      LivesDeliver(parse, lives[1..]);
    }
  }

  // MAIN: however the threads of a process interleave, once it is shut down
  // its files are those of writing every parsed request, in order, alone.
  lemma LifeIsSession(fs: Fs, cal: Calendar, parse: seq<byte> -> Option<Request>, life: Life)
    requires Completed(parse, life)
    ensures LeftBehind(fs, cal, parse, life) == AfterSession(fs, cal, Parsed(parse, life))
  {
    hide StoreAfter, Shutdown.IsRun, Shutdown.End, Constructed, StoreWritten;
    CleanShutdown(life.start, parse, life.events, Shutdown.End(life.start, parse, life.events));
    Lockstep(Constructed(fs, life.maxSize), cal, parse, life.start, life.events);
  }

  ghost function LivesLeave(fs: Fs, cal: Calendar, parse: seq<byte> -> Option<Request>, lives: seq<Life>): Fs
    requires forall l <- lives :: Completed(parse, l)
    decreases |lives|
  {
    if lives == [] then fs else LivesLeave(LeftBehind(fs, cal, parse, lives[0]), cal, parse, lives[1..])
  }

  ghost function AllParsed(parse: seq<byte> -> Option<Request>, lives: seq<Life>): (s: seq<Session>)
    requires forall l <- lives :: Completed(parse, l)
    ensures |s| == |lives|
  {
    if lives == [] then [] else [Parsed(parse, lives[0])] + AllParsed(parse, lives[1..])
  }

  lemma {:induction false} LivesAreSessions(
    fs: Fs, cal: Calendar, parse: seq<byte> -> Option<Request>, lives: seq<Life>)
    requires forall l <- lives :: Completed(parse, l)
    ensures LivesLeave(fs, cal, parse, lives) == AfterSessions(fs, cal, AllParsed(parse, lives))
    decreases |lives|
  {
    hide Completed, LeftBehind, AfterSession, Parsed;
    if lives != [] {
      LifeIsSession(fs, cal, parse, lives[0]);
      LivesAreSessions(LeftBehind(fs, cal, parse, lives[0]), cal, parse, lives[1..]);
      assert AllParsed(parse, lives)[1..] == AllParsed(parse, lives[1..]);
    }
  }

  // Files within the reader's reach: they are short, or the limits and the
  // numbers of requests leave them no way to be long.
  ghost predicate Reachable(end: Fs, sessions: seq<Session>) {
    SmallFiles(end) || forall s <- sessions :: Modest(s)
  }

  // MAIN: from the wire to the query.  After any number of server processes,
  // each of them shut down, and any interleaving of their threads, a client
  // that asks for the streams of a channel gets exactly the records the
  // storage keeps of the requests those servers parsed - which are those of
  // the messages they read.
  lemma ParsedToQueried(
    fs: Fs, cal: Calendar, parse: seq<byte> -> Option<Request>, lives: seq<Life>, from: u64, to: u64, end: Fs,
    sessions: seq<Session>, streams: seq<StreamInfo>, channel: string)
    requires (forall l <- lives :: Completed(parse, l)) && sessions == AllParsed(parse, lives)
    requires fs.days == map[] && Wellbehaved(cal, Requests(sessions))
    requires end == LivesLeave(fs, cal, parse, lives)
    requires Reachable(end, sessions) && AllStreams(end, cal, from, to, streams)
    requires Named(channel) && forall q <- Requests(sessions) :: Named(q.channel)
    ensures multiset(Gathered(end, streams, NameBytes(channel), from, to)) ==
      multiset(Filter(OfChannel(SessionsLog([], fs, cal, sessions), channel), from, to))
    ensures forall r: Record ::
      multiset(Gathered(end, streams, NameBytes(channel), from, to))[r] ==
      if from <= r.time <= to then Times(SessionsLog([], fs, cal, sessions), channel, r) else 0
    ensures forall i: nat :: i < |lives| ==> FromMessages(parse, lives[i], sessions[i])
  {
    hide Completed, LivesLeave, AllParsed, AfterSessions, SessionsLog, SmallFiles, AllStreams, Named, NameBytes,
         Gathered, OfChannel, Filter, Wellbehaved, Modest, FromMessages, Times;
    var log := SessionsLog([], fs, cal, sessions);
    LivesAreSessions(fs, cal, parse, lives);
    LivesDeliver(parse, lives);
    if SmallFiles(end) {
      PerChannel(fs, cal, sessions, from, to, end, log, streams, channel);
    } else {
      PerChannelModest(fs, cal, sessions, from, to, end, log, streams, channel);
    }
  }

  // Processes one after the other, with every file cut somewhere behind each.
  ghost predicate CutLives(disks: seq<Fs>, cal: Calendar, parse: seq<byte> -> Option<Request>, lives: seq<Life>)
    requires forall l <- lives :: Completed(parse, l)
  {
    && |disks| == |lives| + 1
    && forall i: nat :: i < |lives| ==> Cut(LeftBehind(disks[i], cal, parse, lives[i]), disks[i + 1])
  }

  lemma {:induction false} ParsedAt(parse: seq<byte> -> Option<Request>, lives: seq<Life>)
    requires forall l <- lives :: Completed(parse, l)
    ensures forall i: nat :: i < |lives| ==> AllParsed(parse, lives)[i] == Parsed(parse, lives[i])
  {
    hide Completed, Parsed;
    if lives != [] {
      ParsedAt(parse, lives[1..]);
    }
  }

  lemma CutLivesAreSessions(disks: seq<Fs>, cal: Calendar, parse: seq<byte> -> Option<Request>, lives: seq<Life>)
    requires (forall l <- lives :: Completed(parse, l)) && CutLives(disks, cal, parse, lives)
    ensures CutBetween(disks, cal, AllParsed(parse, lives))
  {
    hide Completed, Parsed, LeftBehind, AfterSession, Cut, AllParsed;
    ParsedAt(parse, lives);
    forall i: nat | i < |lives|
      ensures Cut(AfterSession(disks[i], cal, AllParsed(parse, lives)[i]), disks[i + 1])
    {
      LifeIsSession(disks[i], cal, parse, lives[i]);
    }
  }

  lemma CutReachable(disks: seq<Fs>, cal: Calendar, sessions: seq<Session>, end: Fs)
    requires CutBetween(disks, cal, sessions) && disks[0].days == map[] && end == disks[|sessions|]
    requires Wellbehaved(cal, Requests(sessions)) && Reachable(end, sessions)
    ensures SmallFiles(end)
  {
    hide CutBetween, Modest, Fits, Orderly;
    if !SmallFiles(end) {
      SessionsFit(sessions);
      CutsSmall(disks, cal, sessions);
    }
  }

  // MAIN: ... and with every file cut anywhere between these processes, the
  // client gets exactly the part of those records its files still hold.
  lemma CutParsedToQueried(
    disks: seq<Fs>, cal: Calendar, parse: seq<byte> -> Option<Request>, lives: seq<Life>, from: u64, to: u64, end: Fs,
    sessions: seq<Session>, log: seq<Entry>, streams: seq<StreamInfo>, channel: string)
    requires (forall l <- lives :: Completed(parse, l)) && sessions == AllParsed(parse, lives)
    requires CutLives(disks, cal, parse, lives) && disks[0].days == map[] && end == disks[|lives|]
    requires Wellbehaved(cal, Requests(sessions)) && log == CutLog([], disks, cal, sessions)
    requires Reachable(end, sessions) && AllStreams(end, cal, from, to, streams)
    requires Named(channel) && forall q <- Requests(sessions) :: Named(q.channel)
    ensures multiset(Gathered(end, streams, NameBytes(channel), from, to)) ==
      multiset(Filter(OfChannel(Spared(log, end), channel), from, to))
    ensures forall r: Record ::
      multiset(Gathered(end, streams, NameBytes(channel), from, to))[r] ==
      if from <= r.time <= to then Times(Spared(log, end), channel, r) else 0
    ensures forall i: nat :: i < |lives| ==> FromMessages(parse, lives[i], sessions[i])
  {
    hide Completed, CutLives, AllParsed, CutBetween, CutLog, SmallFiles, AllStreams, Named, NameBytes, Gathered,
         OfChannel, Filter, Wellbehaved, Reachable, Spared, FromMessages, Times;
    CutLivesAreSessions(disks, cal, parse, lives);
    LivesDeliver(parse, lives);
    CutReachable(disks, cal, sessions, end);
    CutPerChannel(disks, cal, sessions, from, to, end, log, streams, channel);
  }
}
