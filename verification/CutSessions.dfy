// Sessions on a storage whose files were cut short in between: after every
// one of them each file may lose any part of its end.
module CutSessions {
  import opened Sequences
  import opened Layout
  import opened FileSystems
  import opened Accounting
  import opened StorageSpec
  import opened Retention
  import opened Ledgers
  import opened Catalogs
  import opened Punctuality
  import opened WholeRun
  import opened Limits
  import opened Queries
  import opened SmallSessions
  import opened WriterRuns
  import opened Bytes
  import opened Shadows

  // The storage, and the files as they would be if nothing had been cut.
  ghost predicate Followed(
    st: Store, whole: Fs, live: set<string>, cal: Calendar, cat: Catalog, log: seq<Entry>, rest: seq<Request>)
  {
    && Shadow(st.fs, whole, st.folder.day, live) && Live(st.folder, live)
    && Kept(st.(fs := whole), cal, cat, log, rest)
  }

  function RestrictedFs(fs: Fs, days: set<nat>): Fs {
    fs.(days := map d | d in fs.days && d in days :: fs.days[d])
  }

  // Eviction takes the same days from both.
  lemma EvictedFollowed(
    st: Store, whole: Fs, live: set<string>, cal: Calendar, cat: Catalog, log: seq<Entry>, rest: seq<Request>,
    need: nat)
    requires Followed(st, whole, live, cal, cat, log, rest)
    ensures var (fs1, available) := Evicted(st.fs, st.available, need);
      var days := fs1.days.Keys;
      Followed(st.(fs := fs1, available := available), RestrictedFs(whole, days), live, cal, Restricted(cat, days),
        Survivors(log, days), rest)
  {
    hide Evicted, Stocked, Crewed, Filed, AllPunctual, Shadow, Live;
    var fs1 := Evicted(st.fs, st.available, need).0;
    var whole1 := RestrictedFs(whole, fs1.days.Keys);
    EvictedRestricts(st.fs, st.available, need);
    SameDays(st.fs, whole, st.folder.day, live);
    assert whole1.days.Keys == fs1.days.Keys;
    FewerDays(st.fs, whole, st.folder.day, live, fs1, whole1);
    StockedRestricted(whole, whole1, cat, st.folder);
    FiledRestricted(log, cat, fs1.days.Keys);
    PunctualRestricted(cal, cat, rest, fs1.days.Keys);
  }

  // Folder::create in both.
  lemma FolderShadow(st: Store, whole: Fs, live: set<string>, cal: Calendar, req: Request) returns (live': set<string>)
    requires Shadow(st.fs, whole, st.folder.day, live) && Live(st.folder, live) && ValidCalendar(cal)
    ensures var folder := FolderFor(st, cal, req);
      var (fs2, ready) := FolderReady(st.fs, folder, cal, req.time);
      var (whole2, ready') := FolderReady(whole, folder, cal, req.time);
      ready == ready' && Shadow(fs2, whole2, ready.day, live') && Live(ready, live')
  {
    hide Shadow, WithDay;
    var folder := FolderFor(st, cal, req);
    if folder.day != 0 {
      live' := live;
    } else {
      live' := {};
      var made := cal.dayOf(req.time);
      FewerLive(st.fs, whole, st.folder.day, live, made, {});
      DayShadow(st.fs, whole, made, {}, made);
    }
  }

  // What the request after the eviction does to both.
  lemma StoredFollowed(
    st: Store, whole: Fs, live: set<string>, cal: Calendar, cat: Catalog, log: seq<Entry>, req: Request,
    rest: seq<Request>)
    returns (whole': Fs, live': set<string>, cat': Catalog)
    requires Followed(st, whole, live, cal, cat, log, [req] + rest) && ValidCalendar(cal)
    requires Orderly([req] + rest) && Storable(req) && PlainClock(cal.clock)
    ensures var (st', r) := Stored(st, cal, req);
      Followed(st', whole', live', cal, cat', log + Added(st'.folder, st'.fs, req, r), rest)
  {
    hide Shadow, Live, Stocked, Crewed, Filed, AllPunctual, ReadyWritten, Recatalogued, Orderly, Storable, PlainClock,
         FolderReady, Added;
    var folder := FolderFor(st, cal, req);
    var (fs2, ready) := FolderReady(st.fs, folder, cal, req.time);
    var (whole2, _) := FolderReady(whole, folder, cal, req.time);
    var ready' := FolderShadow(st, whole, live, cal, req);
    live' := ReadyShadow(fs2, whole2, ready, ready', cal, req);
    NewFolderCrew(cat, st, cal, req);
    StoredStep(whole, folder, cal, req, rest, cat, log);
    whole' := ReadyWritten(whole2, ready, cal, req).0;
    cat' := Recatalogued(cat, whole2, ready, cal, req);
    var (st', r) := Stored(st, cal, req);
    SameAdded(st'.folder, st'.fs, whole', live', req, r);
  }

  lemma SameAdded(folder: FolderState, fs: Fs, whole: Fs, live: set<string>, req: Request, r: int)
    requires Shadow(fs, whole, folder.day, live)
    ensures Added(folder, fs, req, r) == Added(folder, whole, req, r)
  {
  }

  lemma FollowedStep(
    st: Store, whole: Fs, live: set<string>, cal: Calendar, cat: Catalog, log: seq<Entry>, req: Request,
    rest: seq<Request>)
    returns (whole': Fs, live': set<string>, cat': Catalog)
    requires Followed(st, whole, live, cal, cat, log, [req] + rest) && ValidCalendar(cal)
    requires Orderly([req] + rest) && Storable(req) && PlainClock(cal.clock)
    ensures Followed(StoreWritten(st, cal, req).0, whole', live', cal, cat', NextLog(log, st, cal, req), rest)
  {
    hide Evicted, Followed, Stored, Orderly, Storable, PlainClock;
    var need := MaxRecordSize(|req.data|);
    EvictedFollowed(st, whole, live, cal, cat, log, [req] + rest, need);
    var (fs1, available) := Evicted(st.fs, st.available, need);
    var days := fs1.days.Keys;
    var roomy := st.(fs := fs1, available := available);
    var left, kept := Restricted(cat, days), Survivors(log, days);
    whole', live', cat' := RestrictedFs(whole, days), live, left;
    if need > available {
      FollowedRest(roomy, whole', live, cal, left, kept, req, rest);
    } else {
      whole', live', cat' := StoredFollowed(roomy, whole', live, cal, left, kept, req, rest);
      AppendNothing(kept);
    }
  }

  lemma FollowedRest(
    st: Store, whole: Fs, live: set<string>, cal: Calendar, cat: Catalog, log: seq<Entry>, req: Request,
    rest: seq<Request>)
    requires Followed(st, whole, live, cal, cat, log, [req] + rest)
    ensures Followed(st, whole, live, cal, cat, log, rest)
  {
    hide Shadow, Live, Stocked, Crewed, Filed, AllPunctual;
    AllPunctualRest(cal, cat, req, rest);
  }

  lemma {:induction false} FollowedRun(
    st: Store, whole: Fs, live: set<string>, cal: Calendar, cat: Catalog, log: seq<Entry>, reqs: seq<Request>,
    later: seq<Request>)
    returns (whole': Fs, live': set<string>, cat': Catalog)
    requires Followed(st, whole, live, cal, cat, log, reqs + later) && ValidCalendar(cal) && PlainClock(cal.clock)
    requires Orderly(reqs + later) && forall q <- reqs :: Storable(q)
    ensures Followed(Run(st, cal, reqs), whole', live', cal, cat', RunLog(log, st, cal, reqs), later)
    decreases |reqs|
  {
    hide Followed, StoreWritten, Storable, NextLog;
    whole', live', cat' := whole, live, cat;
    if reqs == [] {
      AppendNothing(later);
    } else {
      var req, rest := reqs[0], reqs[1..];
      HeadAndTail(reqs);
      Reassociate([req], rest, later);
      OrderlyRest(req, rest + later);
      whole', live', cat' := FollowedStep(st, whole, live, cal, cat, log, req, rest + later);
      whole', live', cat' := FollowedRun(StoreWritten(st, cal, req).0, whole', live', cal, cat',
        NextLog(log, st, cal, req), rest, later);
    }
  }

  // Processes one after the other; what each finds is what the one before it
  // left, cut somewhere.
  ghost predicate CutBetween(disks: seq<Fs>, cal: Calendar, sessions: seq<Session>) {
    && |disks| == |sessions| + 1
    && forall i: nat :: i < |sessions| ==> Cut(AfterSession(disks[i], cal, sessions[i]), disks[i + 1])
  }

  ghost function CutLog(log: seq<Entry>, disks: seq<Fs>, cal: Calendar, sessions: seq<Session>): seq<Entry>
    requires |disks| == |sessions| + 1
    decreases |sessions|
  {
    if sessions == [] then log
    else CutLog(SessionLog(log, disks[0], cal, sessions[0]), disks[1..], cal, sessions[1..])
  }

  lemma CutSession(
    fs: Fs, whole: Fs, cal: Calendar, s: Session, fs': Fs, later: seq<Request>, cat: Catalog, log: seq<Entry>)
    returns (whole': Fs, cat': Catalog)
    requires Followed(Closing(fs), whole, {}, cal, cat, log, s.requests + later)
    requires ValidCalendar(cal) && PlainClock(cal.clock)
    requires Orderly(s.requests + later) && forall q <- s.requests :: Storable(q)
    requires Cut(AfterSession(fs, cal, s), fs')
    ensures Followed(Closing(fs'), whole', {}, cal, cat', SessionLog(log, fs, cal, s), later)
  {
    hide Evicted, Cut, Followed, Storable, Run, RunLog, Orderly, Restricted, Survivors;
    var st := Constructed(fs, s.maxSize);
    var days := st.fs.days.Keys;
    var live' := {};
    var found := Closing(fs).(available := s.maxSize);
    var (fs1, left) := Evicted(fs, s.maxSize, LinkedBytes(fs.days));
    Budgeted(Closing(fs), found, whole, cal, cat, log, s.requests + later);
    EvictedFollowed(found, whole, {}, cal, cat, log, s.requests + later, LinkedBytes(fs.days));
    Budgeted(found.(fs := fs1, available := left), st, RestrictedFs(whole, days), cal, Restricted(cat, days),
      Survivors(log, days), s.requests + later);
    whole', live', cat' := FollowedRun(st, RestrictedFs(whole, days), {}, cal, Restricted(cat, days),
      Survivors(log, days), s.requests, later);
    ClosedFollowed(Run(st, cal, s.requests), whole', live', cal, cat', SessionLog(log, fs, cal, s), later, fs');
  }

  // What is available does not matter.
  lemma Budgeted(a: Store, b: Store, whole: Fs, cal: Calendar, cat: Catalog, log: seq<Entry>, rest: seq<Request>)
    requires (a.fs, a.folder) == (b.fs, b.folder)
    ensures forall live: set<string> :: Followed(a, whole, live, cal, cat, log, rest) ==>
      Followed(b, whole, live, cal, cat, log, rest)
  {
    hide Shadow, Live, Stocked, Crewed, Filed, AllPunctual;
  }

  lemma ClosedFollowed(
    st: Store, whole: Fs, live: set<string>, cal: Calendar, cat: Catalog, log: seq<Entry>, rest: seq<Request>, fs': Fs)
    requires Followed(st, whole, live, cal, cat, log, rest) && Cut(st.fs, fs')
    ensures Followed(Closing(fs'), whole, {}, cal, cat, log, rest)
  {
    hide Shadow, Cut, Stocked, Filed, AllPunctual;
    FewerLive(st.fs, whole, st.folder.day, live, 0, {});
    CutShadow(st.fs, fs', whole);
    NewCrew(0, cat);
  }

  lemma {:induction false} AnyCutSessions(
    disks: seq<Fs>, whole: Fs, cal: Calendar, sessions: seq<Session>, cat: Catalog, log: seq<Entry>)
    returns (whole': Fs, cat': Catalog)
    requires CutBetween(disks, cal, sessions)
    requires Followed(Closing(disks[0]), whole, {}, cal, cat, log, Requests(sessions))
    requires ValidCalendar(cal) && PlainClock(cal.clock)
    requires Orderly(Requests(sessions)) && forall q <- Requests(sessions) :: Storable(q)
    ensures Followed(Closing(disks[|sessions|]), whole', {}, cal, cat', CutLog(log, disks, cal, sessions), [])
    decreases |sessions|
  {
    hide Followed, Storable, AfterSession, SessionLog, Closing, Orderly, Cut;
    whole', cat' := whole, cat;
    if sessions != [] {
      var s, later := sessions[0], Requests(sessions[1..]);
      OrderlyBehind(s.requests, later);
      whole', cat' := CutSession(disks[0], whole, cal, s, disks[1], later, cat, log);
      whole', cat' := AnyCutSessions(disks[1..], whole', cal, sessions[1..], cat', SessionLog(log, disks[0], cal, s));
    }
  }

  lemma CutSmall(fs: Fs, fs': Fs)
    requires Cut(fs, fs')
    ensures SmallFiles(fs) ==> SmallFiles(fs')
    ensures Canonical(fs.days) ==> Canonical(fs'.days)
  {
    if SmallFiles(fs) {
      forall d <- fs'.days, n <- fs'.days[d] ensures |fs'.days[d][n]| < TWO32 {
        assert ShadowDay(fs'.days[d], fs.days[d]);
      }
    }
  }

  // After modest sessions files are within the reader's reach, cut or not.
  lemma {:induction false} CutsSmall(disks: seq<Fs>, cal: Calendar, sessions: seq<Session>)
    requires CutBetween(disks, cal, sessions) && ValidCalendar(cal)
    requires Canonical(disks[0].days) && SmallFiles(disks[0])
    requires forall s <- sessions :: Modest(s) && forall q <- s.requests :: Fits(q.data)
    ensures SmallFiles(disks[|sessions|])
    decreases |sessions|
  {
    hide Modest, Canonical, SmallFiles, Constructed, Run, Cut;
    if sessions != [] {
      var s := sessions[0];
      SessionSmall(disks[0], cal, s);
      ConstructedWithin(disks[0], s.maxSize);
      RunCanonical(Constructed(disks[0], s.maxSize), cal, s.requests);
      CutSmall(AfterSession(disks[0], cal, s), disks[1]);
      CutsSmall(disks[1..], cal, sessions[1..]);
    }
  }
}
