// Limits that keep every file short enough for the reader.
module SmallSessions {
  import opened Bytes
  import opened Layout
  import opened Segments
  import opened FileSystems
  import opened WriterSpec
  import opened WriterRuns
  import opened Accounting
  import opened StorageSpec
  import opened ScannerSpec
  import opened Retention
  import opened Limits
  import opened Catalogs
  import opened Punctuality
  import opened WholeRun
  import opened Queries
  import opened Channels

  lemma ReopenedOrphans(fs: Fs, w: WriterState, clock: u64 -> string, time: u64)
    ensures Reopened(fs, w, clock, time).0.orphaned == fs.orphaned
  {
    hide NextBase, HeaderBytes;
  }

  lemma AppendedOrphans(fs: Fs, day: nat, name: string, b: seq<byte>)
    ensures Appended(fs, day, name, b).orphaned >= fs.orphaned
  {
  }

  lemma WrittenOrphans(fs: Fs, w: WriterState, clock: u64 -> string, time: u64, payload: seq<byte>)
    ensures Written(fs, w, clock, time, payload).0.orphaned >= fs.orphaned
  {
    hide NextBase, Reopened, Appended, IndexRecord, DataRecord, NeedsRollover;
    if IsOpen(w.index) && w.recordSize > 0 {
      AppendedOrphans(fs, w.day, w.index.value.name, IndexRecord(w.recordSize, Record(time, payload), 0));
    } else if IsOpen(w.index) && IsOpen(w.data) {
      var size := Truncate32(|payload|);
      var r := Record(time, payload[..size]);
      ReopenedOrphans(fs, Closed(w), clock, time);
      var rolled := NeedsRollover(w, size);
      var (fs1, w1, header) := if rolled then Reopened(fs, Closed(w), clock, time) else (fs, w, 0);
      if !rolled || header > 0 {
        assert w1.index.Some? && w1.data.Some? by { ReopenedSome(fs, Closed(w), clock, time); }
        var fs2 := Appended(fs1, w1.day, w1.data.value.name, DataRecord(r));
        AppendedOrphans(fs1, w1.day, w1.data.value.name, DataRecord(r));
        AppendedOrphans(fs2, w1.day, w1.index.value.name, IndexRecord(0, r, w1.offset));
      }
    }
  }

  lemma ReopenedSome(fs: Fs, w: WriterState, clock: u64 -> string, time: u64)
    ensures var (_, w1, header) := Reopened(fs, w, clock, time);
      header > 0 && w.recordSize == 0 ==> w1.index.Some? && w1.data.Some?
  {
    hide NextBase, HeaderBytes;
  }

  // Bytes that have gone astray stay where they are.
  lemma ReadyOrphans(fs: Fs, folder: FolderState, cal: Calendar, req: Request)
    ensures ReadyWritten(fs, folder, cal, req).0.orphaned >= fs.orphaned
  {
    hide Written, Reopened;
    if req.channel in folder.writers {
      WrittenOrphans(fs, folder.writers[req.channel], cal.clock, req.time, req.data);
    } else {
      var w0 := NewWriter(folder.day, req.channel, req.size);
      ReopenedOrphans(fs, w0, cal.clock, req.time);
      var (fs1, w1, _) := Reopened(fs, w0, cal.clock, req.time);
      WrittenOrphans(fs1, w1, cal.clock, req.time, req.data);
    }
  }

  // The balance of a storage opened when orphaned bytes had already gone
  // astray.
  ghost predicate BalancedSince(st: Store, maxSize: nat, orphaned: nat) {
    orphaned <= st.fs.orphaned && Balanced(st, maxSize + orphaned)
  }

  lemma BalancedStep(st: Store, cal: Calendar, req: Request, maxSize: nat, orphaned: nat)
    requires BalancedSince(st, maxSize, orphaned) && Fits(req.data) && maxSize + st.dropped < TWO64
    ensures BalancedSince(StoreWritten(st, cal, req).0, maxSize, orphaned)
    ensures st.dropped <= StoreWritten(st, cal, req).0.dropped <= st.dropped + 2 * HEADER_SIZE
  {
    hide LinkedBytes, Evicted, ReadyWritten;
    var need := MaxRecordSize(|req.data|);
    var (fs1, available) := Evicted(st.fs, st.available, need);
    EvictedBytes(st.fs, st.available, need);
    NoUnderflow(st, cal, req);
    var folder := FolderFor(st, cal, req);
    FolderBytes(fs1, folder, cal, req);
    var (fs2, ready) := FolderReady(fs1, folder, cal, req.time);
    ReadyOrphans(fs2, ready, cal, req);
    ReadyHeader(fs2, ready, cal, req);
  }

  lemma ReadyHeader(fs: Fs, folder: FolderState, cal: Calendar, req: Request)
    ensures ReadyWritten(fs, folder, cal, req).3 <= 2 * HEADER_SIZE
  {
    hide NextBase, HeaderBytes, Written;
  }

  lemma {:induction false} BalancedRun(st: Store, cal: Calendar, reqs: seq<Request>, maxSize: nat, orphaned: nat)
    requires BalancedSince(st, maxSize, orphaned) && forall q <- reqs :: Fits(q.data)
    requires maxSize + st.dropped + 2 * HEADER_SIZE * |reqs| < TWO64
    ensures BalancedSince(Run(st, cal, reqs), maxSize, orphaned)
    ensures Run(st, cal, reqs).dropped <= st.dropped + 2 * HEADER_SIZE * |reqs|
    decreases |reqs|
  {
    hide StoreWritten, BalancedSince;
    if reqs != [] {
      BalancedStep(st, cal, reqs[0], maxSize, orphaned);
      BalancedRun(StoreWritten(st, cal, reqs[0]).0, cal, reqs[1..], maxSize, orphaned);
    }
  }

  // A limit and a number of requests that together cannot reach 4 GiB.
  predicate Modest(s: Session) {
    s.maxSize + 2 * HEADER_SIZE * |s.requests| < TWO32
  }

  lemma SessionSmall(fs: Fs, cal: Calendar, s: Session)
    requires Canonical(fs.days) && Modest(s) && forall q <- s.requests :: Fits(q.data)
    ensures SmallFiles(AfterSession(fs, cal, s))
  {
    hide LinkedBytes, Evicted, Run, SmallFiles;
    var st := Constructed(fs, s.maxSize);
    ConstructedWithin(fs, s.maxSize);
    EvictedBytes(fs, s.maxSize, LinkedBytes(fs.days));
    EvictionMinimal(fs, s.maxSize, LinkedBytes(fs.days));
    EmptyDirectory();
    assert BalancedSince(st, s.maxSize, fs.orphaned);
    BalancedRun(st, cal, s.requests, s.maxSize, fs.orphaned);
    LinkedFilesSmall(AfterSession(fs, cal, s));
  }

  lemma {:induction false} RunCanonical(st: Store, cal: Calendar, reqs: seq<Request>)
    requires Afloat(st.fs, st.folder) && ValidCalendar(cal) && Canonical(st.fs.days) && forall q <- reqs :: Fits(q.data)
    ensures Canonical(Run(st, cal, reqs).fs.days)
    decreases |reqs|
  {
    hide StoreWritten, Afloat, Canonical, Evicted;
    if reqs != [] {
      var (left, available) := Evicted(st.fs, st.available, MaxRecordSize(|reqs[0].data|));
      LinkedAfter(st, cal, reqs[0], left, available);
      RunCanonical(StoreWritten(st, cal, reqs[0]).0, cal, reqs[1..]);
    }
  }

  // After modest sessions every file is within the reader's reach.
  lemma {:induction false} SessionsSmall(fs: Fs, cal: Calendar, sessions: seq<Session>)
    requires ValidCalendar(cal) && Canonical(fs.days) && SmallFiles(fs)
    requires forall s <- sessions :: Modest(s) && forall q <- s.requests :: Fits(q.data)
    ensures SmallFiles(AfterSessions(fs, cal, sessions))
    decreases |sessions|
  {
    hide Modest, Canonical, SmallFiles, Constructed, Run;
    if sessions != [] {
      var s := sessions[0];
      SessionSmall(fs, cal, s);
      ConstructedWithin(fs, s.maxSize);
      RunCanonical(Constructed(fs, s.maxSize), cal, s.requests);
      SessionsSmall(AfterSession(fs, cal, s), cal, sessions[1..]);
    }
  }

  lemma {:induction false} SessionsFit(sessions: seq<Session>)
    requires forall q <- Requests(sessions) :: Storable(q)
    ensures forall s <- sessions, q <- s.requests :: Fits(q.data)
  {
    if sessions != [] {
      var first, rest := sessions[0], sessions[1..];
      assert forall q <- Requests(rest) :: q in Requests(sessions);
      SessionsFit(rest);
      forall s <- sessions, q <- s.requests ensures Fits(q.data) {
        if s == first {
          assert q in Requests(sessions);
        } else {
          assert s in rest;
        }
      }
    }
  }

  // MAIN: the channel-by-channel result with no condition on what is left on
  // disk: only on the limits of the sessions and the number of their requests.
  lemma PerChannelModest(
    fs: Fs, cal: Calendar, sessions: seq<Session>, from: u64, to: u64, end: Fs, log: seq<Entry>,
    streams: seq<StreamInfo>, channel: string)
    requires fs.days == map[] && Wellbehaved(cal, Requests(sessions))
    requires end == AfterSessions(fs, cal, sessions) && log == SessionsLog([], fs, cal, sessions)
    requires (forall s <- sessions :: Modest(s)) && AllStreams(end, cal, from, to, streams)
    requires Named(channel) && forall q <- Requests(sessions) :: Named(q.channel)
    ensures multiset(Gathered(end, streams, NameBytes(channel), from, to)) ==
      multiset(Filter(OfChannel(log, channel), from, to))
    ensures forall r: Record ::
      multiset(Gathered(end, streams, NameBytes(channel), from, to))[r] ==
      if from <= r.time <= to then Times(log, channel, r) else 0
  {
    hide Modest, Fits, AfterSessions, SessionsLog, Gathered, OfChannel, Filter, AllStreams, Named, NameBytes, Orderly;
    SessionsFit(sessions);
    SessionsSmall(fs, cal, sessions);
    PerChannel(fs, cal, sessions, from, to, end, log, streams, channel);
  }
}
