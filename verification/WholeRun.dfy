// Whole runs of a storage on a device that never fails: after every request
// the files hold exactly the records the log says they keep.
module WholeRun {
  import opened Sequences
  import opened Layout
  import opened FileNames
  import opened FileSystems
  import opened WriterSpec
  import opened WriterRuns
  import opened StorageSpec
  import opened Accounting
  import opened Retention
  import opened Ledgers
  import opened Catalogs
  import opened Punctuality

  ghost predicate AllPunctual(cal: Calendar, cat: Catalog, rest: seq<Request>) {
    forall d <- cat :: ShelfPunctual(cal, d, cat[d], rest)
  }

  // What every request keeps, with the requests of rest still to come.
  ghost predicate Kept(st: Store, cal: Calendar, cat: Catalog, log: seq<Entry>, rest: seq<Request>) {
    Stocked(st.fs, cat) && Crewed(cat, st.folder) && Filed(log, cat) && AllPunctual(cal, cat, rest)
  }

  // The catalog after a request.
  ghost function Recatalogued(cat: Catalog, fs: Fs, folder: FolderState, cal: Calendar, req: Request): Catalog {
    if folder.day !in fs.days then cat
    else cat[folder.day := ShelfAfter(ShelfOf(cat, folder.day), fs, folder, cal, req)]
  }

  ghost function NextCatalog(cat: Catalog, st: Store, cal: Calendar, req: Request): Catalog {
    var (fs1, available) := Evicted(st.fs, st.available, MaxRecordSize(|req.data|));
    var left := Restricted(cat, fs1.days.Keys);
    if MaxRecordSize(|req.data|) > available then left
    else
      var (fs2, ready) := FolderReady(fs1, FolderFor(st, cal, req), cal, req.time);
      Recatalogued(left, fs2, ready, cal, req)
  }

  // The folder a request goes to: the current one, or a new one.
  function FolderFor(st: Store, cal: Calendar, req: Request): FolderState {
    if st.folder.day == cal.dayOf(req.time) then st.folder else NEW_FOLDER
  }

  ghost function Added(folder: FolderState, fs: Fs, req: Request, r: int): seq<Entry> {
    if r > 0 && folder.day in fs.days
    then [Entry(folder.day, Place(WriterOf(folder, req)), req.channel, Record(req.time, req.data))] else []
  }

  lemma LiveFiled(
    fs: Fs, folder: FolderState, cal: Calendar, req: Request, cat: Catalog, log: seq<Entry>, w: WriterState, r: int)
    requires folder.day in cat && Filed(log, cat) && r != 0 && w.channel == req.channel
    requires var ready := OpenedShelf(cat[folder.day], fs, folder, cal, req);
      r > 0 && Place(w) in ready ==> ready[Place(w)].channel == req.channel
    requires req.channel in folder.writers ||
      NextBase(fs, NewWriter(folder.day, req.channel, req.size), cal.clock, req.time) !in cat[folder.day]
    ensures var ready := OpenedShelf(cat[folder.day], fs, folder, cal, req);
      Filed(if r > 0 then log + [Entry(folder.day, Place(w), req.channel, Record(req.time, req.data))] else log,
            cat[folder.day := NextShelf(ready, w, req.time, req.data, r)])
  {
    hide Filed, NextShelf, NextBase, Started;
    var d := folder.day;
    var ready := OpenedShelf(cat[d], fs, folder, cal, req);
    if req.channel in folder.writers {
      FiledNext(log, cat, d, w, req.time, req.data, r);
    } else {
      FiledStarted(log, cat, d, NextBase(fs, NewWriter(d, req.channel, req.size), cal.clock, req.time), req.channel,
        req.size, req.time);
      FiledNext(log, cat[d := ready], d, w, req.time, req.data, r);
      Replaced(cat, d, ready, NextShelf(ready, w, req.time, req.data, r));
    }
  }

  lemma Replaced(cat: Catalog, d: nat, a: Shelf, b: Shelf)
    ensures cat[d := a][d := b] == cat[d := b]
  {
  }

  lemma OpenedPunctual(fs: Fs, folder: FolderState, cal: Calendar, req: Request, shelf: Shelf, rest: seq<Request>)
    requires ShelfPunctual(cal, folder.day, shelf, rest) && Storable(req) && PlainClock(cal.clock)
    ensures ShelfPunctual(cal, folder.day, OpenedShelf(shelf, fs, folder, cal, req), rest)
  {
    hide ShelfPunctual, NextBase, Started, Plain, PlainClock, Fits, NamedFor;
    if req.channel !in folder.writers {
      var w := NewWriter(folder.day, req.channel, req.size);
      NextBaseNamed(fs, w, cal.clock, req.time);
      StartedPunctual(cal, folder.day, shelf, NextBase(fs, w, cal.clock, req.time), req.channel, req.size,
        req.time, rest);
    }
  }

  lemma PunctualNext(cal: Calendar, cat: Catalog, d: nat, next: Shelf, req: Request, rest: seq<Request>)
    requires AllPunctual(cal, cat, [req] + rest) && ShelfPunctual(cal, d, next, rest)
    ensures AllPunctual(cal, cat[d := next], rest) && AllPunctual(cal, cat, rest)
  {
    hide ShelfPunctual;
    forall x <- cat ensures ShelfPunctual(cal, x, cat[x], rest) {
      ShelfPunctualRest(cal, x, cat[x], req, rest);
    }
  }

  // One request in a folder whose day exists.
  lemma LiveStep(fs: Fs, folder: FolderState, cal: Calendar, req: Request, rest: seq<Request>, cat: Catalog,
      log: seq<Entry>)
    requires Stocked(fs, cat) && Crewed(cat, folder) && Filed(log, cat) && AllPunctual(cal, cat, [req] + rest)
    requires folder.day in cat && folder.day == cal.dayOf(req.time)
    requires Orderly([req] + rest) && Storable(req) && PlainClock(cal.clock)
    ensures var (fs', folder', r, _) := ReadyWritten(fs, folder, cal, req);
      var cat' := cat[folder.day := ShelfAfter(cat[folder.day], fs, folder, cal, req)];
      Stocked(fs', cat') && Crewed(cat', folder') && folder'.day == folder.day &&
      Filed(log + Added(folder', fs', req, r), cat') && AllPunctual(cal, cat', rest)
  {
    hide Shelved, Manned, ReadyWritten, ShelfAfter, NextShelf, OpenedShelf, NextBase, AllPunctual, ShelfPunctual,
         Filed, Orderly, Plain, PlainClock, Fits, NamedFor, Exact;
    var shelf := cat[folder.day];
    var (fs', folder', r, _) := ReadyWritten(fs, folder, cal, req);
    var ready := OpenedShelf(shelf, fs, folder, cal, req);
    var next := ShelfAfter(shelf, fs, folder, cal, req);
    ReadyShelved(fs, folder, cal, req, shelf);
    StockedNext(fs, fs', cat, folder.day, next);
    LiveCrew(folder', next);
    LiveNonzero(fs, folder, cal, req, shelf);
    LiveFiled(fs, folder, cal, req, cat, log, WriterOf(folder', req), r);
    AppendNothing(log);
    assert ShelfPunctual(cal, folder.day, shelf, [req] + rest) by { PunctualAt(cal, cat, [req] + rest, folder.day); }
    OpenedPunctual(fs, folder, cal, req, shelf, [req] + rest);
    NextPunctual(cal, ready, WriterOf(folder', req), req, rest, r);
    PunctualNext(cal, cat, folder.day, next, req, rest);
  }

  lemma PunctualAt(cal: Calendar, cat: Catalog, rest: seq<Request>, d: nat)
    requires AllPunctual(cal, cat, rest) && d in cat
    ensures ShelfPunctual(cal, d, cat[d], rest)
  {
  }

  lemma LiveCrew(folder: FolderState, shelf: Shelf)
    requires Manned(folder, shelf)
    ensures OneDay(folder)
  {
  }

  lemma LiveNonzero(fs: Fs, folder: FolderState, cal: Calendar, req: Request, shelf: Shelf)
    requires Shelved(fs, folder.day, shelf) && Manned(folder, shelf) && Fits(req.data)
    ensures ReadyWritten(fs, folder, cal, req).2 != 0
    ensures req.channel in folder.writers ||
      NextBase(fs, NewWriter(folder.day, req.channel, req.size), cal.clock, req.time) !in shelf
  {
    hide Shelved, Manned, Reopened, NextBase, ReadyWritten, ChannelOpened;
    ReadyNonzero(fs, folder, cal, req);
    if req.channel !in folder.writers {
      OpenManned(fs, folder, cal, req, shelf);
    }
  }

  // The request after the eviction, from what is left.
  lemma StoredStep(fs: Fs, folder: FolderState, cal: Calendar, req: Request, rest: seq<Request>, cat: Catalog,
      log: seq<Entry>)
    requires Stocked(fs, cat) && Crewed(cat, folder) && Filed(log, cat) && AllPunctual(cal, cat, [req] + rest)
    requires folder.day == cal.dayOf(req.time) != 0 || folder == NEW_FOLDER
    requires Orderly([req] + rest) && Storable(req) && PlainClock(cal.clock)
    ensures var (fs2, ready) := FolderReady(fs, folder, cal, req.time);
      var (fs', folder', r, _) := ReadyWritten(fs2, ready, cal, req);
      var cat' := Recatalogued(cat, fs2, ready, cal, req);
      Stocked(fs', cat') && Crewed(cat', folder') && Filed(log + Added(folder', fs', req, r), cat') &&
        AllPunctual(cal, cat', rest)
  {
    hide Shelved, Manned, ReadyWritten, ShelfAfter, AllPunctual, Filed, Orderly, Storable, PlainClock;
    var (fs2, ready) := FolderReady(fs, folder, cal, req.time);
    var d := ready.day;
    if d in fs2.days {
      var cat2 := cat[d := ShelfOf(cat, d)];
      if folder == NEW_FOLDER {
        StockedReady(fs, cat, d);
        FiledNewDay(log, cat, d);
        PunctualNewDay(cal, cat, [req] + rest, d);
        assert Crewed(cat2, ready) by { NewCrew(d, cat2); }
      } else {
        assert cat2 == cat;
      }
      LiveStep(fs2, ready, cal, req, rest, cat2, log);
      Replaced(cat, d, ShelfOf(cat, d), ShelfAfter(ShelfOf(cat, d), fs2, ready, cal, req));
    } else {
      DeadFolder(fs2, ready, cal, req);
      StockedSame(fs2, ReadyWritten(fs2, ready, cal, req).0, cat);
      AppendNothing(log);
      AllPunctualRest(cal, cat, req, rest);
    }
  }

  lemma NewCrew(d: nat, cat: Catalog)
    ensures Crewed(cat, NEW_FOLDER.(day := d))
  {
  }

  lemma PunctualNewDay(cal: Calendar, cat: Catalog, rest: seq<Request>, d: nat)
    requires AllPunctual(cal, cat, rest)
    ensures AllPunctual(cal, cat[d := ShelfOf(cat, d)], rest)
  {
  }

  lemma AllPunctualRest(cal: Calendar, cat: Catalog, req: Request, rest: seq<Request>)
    requires AllPunctual(cal, cat, [req] + rest)
    ensures AllPunctual(cal, cat, rest)
  {
    hide ShelfPunctual;
    forall d <- cat ensures ShelfPunctual(cal, d, cat[d], rest) {
      ShelfPunctualRest(cal, d, cat[d], req, rest);
    }
  }

  lemma StockedSame(fs: Fs, fs': Fs, cat: Catalog)
    requires Stocked(fs, cat) && fs'.days == fs.days
    ensures Stocked(fs', cat)
  {
    hide Shelved;
    forall d <- cat ensures Shelved(fs', d, cat[d]) {
      ShelvedSame(fs, fs', d, cat[d]);
    }
  }

  lemma PunctualRestricted(cal: Calendar, cat: Catalog, rest: seq<Request>, days: set<nat>)
    requires AllPunctual(cal, cat, rest)
    ensures AllPunctual(cal, Restricted(cat, days), rest)
  {
  }

  lemma EvictedKept(st: Store, cal: Calendar, cat: Catalog, log: seq<Entry>, rest: seq<Request>, need: nat)
    requires Kept(st, cal, cat, log, rest)
    ensures var (fs1, available) := Evicted(st.fs, st.available, need);
      var days := fs1.days.Keys;
      Kept(st.(fs := fs1, available := available), cal, Restricted(cat, days), Survivors(log, days), rest)
  {
    hide Evicted, Stocked, Crewed, Filed, AllPunctual;
    var fs1 := Evicted(st.fs, st.available, need).0;
    EvictedRestricts(st.fs, st.available, need);
    StockedRestricted(st.fs, fs1, cat, st.folder);
    FiledRestricted(log, cat, fs1.days.Keys);
    PunctualRestricted(cal, cat, rest, fs1.days.Keys);
  }

  // MAIN: every request keeps files, catalog and log in step.
  lemma Step(st: Store, cal: Calendar, req: Request, rest: seq<Request>, cat: Catalog, log: seq<Entry>)
    requires Kept(st, cal, cat, log, [req] + rest) && ValidCalendar(cal)
    requires Orderly([req] + rest) && Storable(req) && PlainClock(cal.clock)
    ensures Kept(StoreWritten(st, cal, req).0, cal, NextCatalog(cat, st, cal, req), NextLog(log, st, cal, req), rest)
  {
    hide Evicted, Stocked, Crewed, Filed, AllPunctual, ReadyWritten, Recatalogued, Orderly, Storable, PlainClock;
    var need := MaxRecordSize(|req.data|);
    EvictedKept(st, cal, cat, log, [req] + rest, need);
    var (fs1, available) := Evicted(st.fs, st.available, need);
    var left, kept := Restricted(cat, fs1.days.Keys), Survivors(log, fs1.days.Keys);
    if need > available {
      AllPunctualRest(cal, left, req, rest);
    } else {
      NewFolderCrew(left, st, cal, req);
      StoredStep(fs1, FolderFor(st, cal, req), cal, req, rest, left, kept);
      AppendNothing(kept);
    }
  }

  lemma NewFolderCrew(cat: Catalog, st: Store, cal: Calendar, req: Request)
    requires Crewed(cat, st.folder)
    ensures Crewed(cat, FolderFor(st, cal, req))
  {
    NewCrew(0, cat);
  }

  ghost function RunCatalog(cat: Catalog, st: Store, cal: Calendar, reqs: seq<Request>): Catalog
    decreases |reqs|
  {
    if reqs == [] then cat
    else RunCatalog(NextCatalog(cat, st, cal, reqs[0]), StoreWritten(st, cal, reqs[0]).0, cal, reqs[1..])
  }

  ghost function RunLog(log: seq<Entry>, st: Store, cal: Calendar, reqs: seq<Request>): seq<Entry>
    decreases |reqs|
  {
    if reqs == [] then log
    else RunLog(NextLog(log, st, cal, reqs[0]), StoreWritten(st, cal, reqs[0]).0, cal, reqs[1..])
  }

  // MAIN: ... over any run, whatever requests come later.
  lemma {:induction false} AnyStorageRun(
    st: Store, cal: Calendar, reqs: seq<Request>, later: seq<Request>, cat: Catalog, log: seq<Entry>)
    requires Kept(st, cal, cat, log, reqs + later) && ValidCalendar(cal) && PlainClock(cal.clock)
    requires Orderly(reqs + later) && forall q <- reqs :: Storable(q)
    ensures Kept(Run(st, cal, reqs), cal, RunCatalog(cat, st, cal, reqs), RunLog(log, st, cal, reqs), later)
    decreases |reqs|
  {
    hide Kept, StoreWritten, Storable, NextCatalog, NextLog;
    if reqs == [] {
      AppendNothing(later);
    } else {
      var rest := reqs[1..];
      HeadAndTail(reqs);
      Reassociate([reqs[0]], rest, later);
      OrderlyRest(reqs[0], rest + later);
      var (st', _) := StoreWritten(st, cal, reqs[0]);
      var cat', log' := NextCatalog(cat, st, cal, reqs[0]), NextLog(log, st, cal, reqs[0]);
      Step(st, cal, reqs[0], rest + later, cat, log);
      AnyStorageRun(st', cal, rest, later, cat', log');
    }
  }

  lemma OrderlyRest(req: Request, rest: seq<Request>)
    requires Orderly([req] + rest)
    ensures Orderly(rest)
  {
    forall i, j | 0 <= i < j < |rest| && rest[i].channel == rest[j].channel ensures rest[i].time <= rest[j].time {
      assert ([req] + rest)[i + 1] == rest[i] && ([req] + rest)[j + 1] == rest[j];
    }
  }

  // A storage as one process leaves it behind: only the files stay.
  ghost function Closing(fs: Fs): Store {
    Store(0, fs, NEW_FOLDER, 0)
  }

  lemma ClosingKept(st: Store, cal: Calendar, cat: Catalog, log: seq<Entry>, rest: seq<Request>)
    requires Kept(st, cal, cat, log, rest)
    ensures Kept(Closing(st.fs), cal, cat, log, rest)
  {
    hide Stocked, Filed, AllPunctual;
    NewCrew(0, cat);
  }

  // A new process opens the storage; days may be evicted to fit its limit.
  lemma ConstructedKept(fs: Fs, cal: Calendar, cat: Catalog, log: seq<Entry>, rest: seq<Request>, maxSize: nat)
    requires Kept(Closing(fs), cal, cat, log, rest)
    ensures var st := Constructed(fs, maxSize);
      var days := st.fs.days.Keys;
      Kept(st, cal, Restricted(cat, days), Survivors(log, days), rest)
  {
    hide Stocked, Crewed, Filed, AllPunctual, Evicted;
    EvictedKept(Closing(fs).(available := maxSize), cal, cat, log, rest, LinkedBytes(fs.days));
  }

  // One process: the limit it opens the storage with, and its requests.
  datatype Session = Session(maxSize: nat, requests: seq<Request>)

  function Requests(sessions: seq<Session>): seq<Request> {
    if sessions == [] then [] else sessions[0].requests + Requests(sessions[1..])
  }

  ghost function AfterSession(fs: Fs, cal: Calendar, s: Session): Fs {
    Run(Constructed(fs, s.maxSize), cal, s.requests).fs
  }

  ghost function SessionLog(log: seq<Entry>, fs: Fs, cal: Calendar, s: Session): seq<Entry> {
    var st := Constructed(fs, s.maxSize);
    RunLog(Survivors(log, st.fs.days.Keys), st, cal, s.requests)
  }

  ghost function AfterSessions(fs: Fs, cal: Calendar, sessions: seq<Session>): Fs
    decreases |sessions|
  {
    if sessions == [] then fs else AfterSessions(AfterSession(fs, cal, sessions[0]), cal, sessions[1..])
  }

  ghost function SessionsLog(log: seq<Entry>, fs: Fs, cal: Calendar, sessions: seq<Session>): seq<Entry>
    decreases |sessions|
  {
    if sessions == [] then log
    else SessionsLog(SessionLog(log, fs, cal, sessions[0]), AfterSession(fs, cal, sessions[0]), cal, sessions[1..])
  }

  lemma OneSession(fs: Fs, cal: Calendar, s: Session, later: seq<Request>, cat: Catalog, log: seq<Entry>)
    returns (cat': Catalog)
    requires Kept(Closing(fs), cal, cat, log, s.requests + later) && ValidCalendar(cal) && PlainClock(cal.clock)
    requires Orderly(s.requests + later) && forall q <- s.requests :: Storable(q)
    ensures Kept(Closing(AfterSession(fs, cal, s)), cal, cat', SessionLog(log, fs, cal, s), later)
  {
    hide Kept, Constructed, Storable, Run, RunLog, RunCatalog, Closing;
    var st := Constructed(fs, s.maxSize);
    var left, kept := Restricted(cat, st.fs.days.Keys), Survivors(log, st.fs.days.Keys);
    ConstructedKept(fs, cal, cat, log, s.requests + later, s.maxSize);
    AnyStorageRun(st, cal, s.requests, later, left, kept);
    cat' := RunCatalog(left, st, cal, s.requests);
    ClosingKept(Run(st, cal, s.requests), cal, cat', RunLog(kept, st, cal, s.requests), later);
  }

  lemma {:induction false} OrderlyBehind(a: seq<Request>, b: seq<Request>)
    requires Orderly(a + b)
    ensures Orderly(b)
    decreases |a|
  {
    if a == [] {
      AppendNothing(b);
    } else {
      HeadAndTail(a);
      Reassociate([a[0]], a[1..], b);
      OrderlyRest(a[0], a[1..] + b);
      OrderlyBehind(a[1..], b);
    }
  }

  // MAIN: ... and over any number of restarts.
  lemma {:induction false} AnySessions(fs: Fs, cal: Calendar, sessions: seq<Session>, cat: Catalog, log: seq<Entry>)
    returns (cat': Catalog)
    requires Kept(Closing(fs), cal, cat, log, Requests(sessions)) && ValidCalendar(cal) && PlainClock(cal.clock)
    requires Orderly(Requests(sessions)) && forall q <- Requests(sessions) :: Storable(q)
    ensures Kept(Closing(AfterSessions(fs, cal, sessions)), cal, cat', SessionsLog(log, fs, cal, sessions), [])
    decreases |sessions|
  {
    hide Kept, Storable, AfterSession, SessionLog, Closing, Orderly;
    if sessions == [] {
      cat' := cat;
    } else {
      var s, later := sessions[0], Requests(sessions[1..]);
      OrderlyBehind(s.requests, later);
      var mid := OneSession(fs, cal, s, later, cat, log);
      cat' := AnySessions(AfterSession(fs, cal, s), cal, sessions[1..], mid, SessionLog(log, fs, cal, s));
    }
  }
}
