// Queries over a storage after a whole run.
module Queries {
  import opened Bytes
  import opened Sequences
  import opened Layout
  import opened Segments
  import opened ReaderSpec
  import opened Recovery
  import opened FileNames
  import opened FileSystems
  import opened WriterRuns
  import opened Accounting
  import opened StorageSpec
  import opened Retention
  import opened ScannerSpec
  import opened Ledgers
  import opened Catalogs
  import opened Punctuality
  import opened WholeRun

  ghost predicate SmallFiles(fs: Fs) {
    forall d <- fs.days, n <- fs.days[d] :: |fs.days[d][n]| < TWO32
  }

  // A stream as the reader opens it.
  ghost predicate Opens(index: seq<byte>, data: seq<byte>, s: Segment) {
    && WellFormed(s) && index == IndexBytes(s) && |index| < TWO32 && |data| < TWO32
    && (s.recordSize == 0 ==> data == DataBytes(s))
    && forall r <- s.records :: r.time != 0
  }

  lemma OpensIndex(index: seq<byte>, data: seq<byte>, s: Segment, k: nat)
    requires Opens(index, data, s) && k < |s.records|
    ensures ReadAt(index, data, k) == Some(s.records[k]) && TimeAt(index, k) == s.records[k].time
  {
    hide IndexBytes, DataBytes, ReadAt, TimeAt, Count;
    CommittedRecordsStay(s, index, data, k);
    PrefixAgrees(index, IndexBytes(s));
    SegmentLengths(s);
    SpanMonotone(k + 1, |s.records|, Width(s.recordSize));
    IndexEntrySurvives(s, index, k);
  }

  lemma OpensWhole(index: seq<byte>, data: seq<byte>, s: Segment)
    requires Opens(index, data, s)
    ensures Count(index) == |s.records| && ReadFrom(index, data, 0) == s.records
    ensures forall k: nat :: k < Count(index) ==>
      ReadAt(index, data, k) == Some(s.records[k]) && TimeAt(index, k) == s.records[k].time
  {
    hide IndexBytes, DataBytes, ReadAt, TimeAt, Count;
    IntactCount(s);
    forall k: nat | k < |s.records|
      ensures ReadAt(index, data, k) == Some(s.records[k]) && TimeAt(index, k) == s.records[k].time
    {
      OpensIndex(index, data, s, k);
    }
    ReadFromIs(index, data, s.records, 0);
  }

  lemma OpensFrom(index: seq<byte>, data: seq<byte>, s: Segment, k: nat)
    requires Opens(index, data, s)
    ensures ReadFrom(index, data, k) == if k < |s.records| then s.records[k..] else []
  {
    hide Opens, ReadAt, Count;
    OpensWhole(index, data, s);
    if k < |s.records| {
      ReadFromIs(index, data, s.records, k);
    }
  }

  lemma OpensOrdered(index: seq<byte>, data: seq<byte>, s: Segment)
    requires Opens(index, data, s) && InOrder(s.records)
    ensures Ordered(index, data) && FullyReadable(index, data)
  {
    hide Opens, ReadAt, TimeAt, Count;
    OpensWhole(index, data, s);
  }

  lemma OpensHeaders(index: seq<byte>, data: seq<byte>, s: Segment)
    requires Opens(index, data, s)
    ensures HeaderOf(index) == Some(IndexHeader(s)) && ValidIndex(index)
    ensures s.recordSize == 0 ==> HeaderOf(data) == Some(DataHeader(s))
  {
    hide IndexBytes, DataBytes, EncodeHeader;
    SegmentLengths(s);
    PrefixAgrees(index, IndexBytes(s));
    IndexHeaderSurvives(s, index);
    if s.recordSize == 0 {
      PrefixAgrees(data, DataBytes(s));
      DataHeaderSurvives(s, data);
    }
  }

  // The gate is open exactly when the stream has a record up to the end of
  // the range and one from its beginning on.
  lemma OpensMatchIff(index: seq<byte>, data: seq<byte>, s: Segment, from: u64, to: u64)
    requires Opens(index, data, s) && InOrder(s.records)
    ensures MatchTime(index, data, from, to) <==>
      from <= to && (exists x <- s.records :: x.time <= to) && exists y <- s.records :: y.time >= from
  {
    hide Opens, ReadAt, TimeAt, Count, HeaderOf, InOrder;
    OpensWhole(index, data, s);
    OpensHeaders(index, data, s);
    var n := |s.records|;
    if n > 0 {
      assert TimeAt(index, 0) == s.records[0].time && TimeAt(index, n - 1) == s.records[n - 1].time;
      forall x <- s.records ensures s.records[0].time <= x.time <= s.records[n - 1].time {
        var k: nat :| k < n && s.records[k] == x;
        FirstAndLast(s.records, k);
      }
    }
  }

  // The gate opens for every record in range.
  lemma OpensMatches(index: seq<byte>, data: seq<byte>, s: Segment, k: nat, from: u64, to: u64)
    requires Opens(index, data, s) && InOrder(s.records)
    requires k < |s.records| && InRange(s.records[k], from, to)
    ensures MatchTime(index, data, from, to)
  {
    hide Opens, ReadAt, TimeAt, Count, HeaderOf, InOrder;
    OpensWhole(index, data, s);
    OpensHeaders(index, data, s);
    FirstAndLast(s.records, k);
    var last := |s.records| - 1;
    assert TimeAt(index, 0) == s.records[0].time && TimeAt(index, last) == s.records[last].time;
  }

  lemma FirstAndLast(rs: seq<Record>, k: nat)
    requires InOrder(rs) && k < |rs|
    ensures rs[0].time <= rs[k].time <= rs[|rs| - 1].time
  {
  }

  // On a fully readable stream no read fails.
  lemma {:induction false} NoFailure(index: seq<byte>, data: seq<byte>, k: nat, from: u64, to: u64, max: nat)
    requires FullyReadable(index, data) && |data| < TWO32
    ensures !Collect(index, data, false, k, from, to, max).1
    decreases Count(index) - k
  {
    hide ReadStep, ReadAt, Count;
    if max > 0 && k < Count(index) {
      NeverBroken(index, data, k);
      NoFailure(index, data, k + 1, from, to, max);
      NoFailure(index, data, k + 1, from, to, max - 1);
    }
  }

  // A catalogued segment as the scanner finds it.
  lemma Catalogued(fs: Fs, cal: Calendar, d: nat, b: string, s: Segment)
    requires Exact(fs, d, b, s) && Punctual(cal, d, b, s, []) && SmallFiles(fs)
    ensures Opens(FileOf(fs, d, IndexName(b)), PairedFile(fs, d, IndexName(b)), s)
    ensures Resolves(fs, d, IndexName(b))
  {
    hide IndexBytes, DataBytes, WellFormed, ValidIndex, FindFrom;
    PairedNameIff(b);
    var index, data := FileOf(fs, d, IndexName(b)), PairedFile(fs, d, IndexName(b));
    assert Opens(index, data, s);
    OpensHeaders(index, data, s);
  }

  function From(rs: seq<Record>, start: nat): seq<Record> {
    if start < |rs| then rs[start..] else []
  }

  lemma CatalogedQuery(
    fs: Fs, cal: Calendar, d: nat, b: string, s: Segment, from: u64, to: u64, start: u32, max: u32)
    requires Exact(fs, d, b, s) && Punctual(cal, d, b, s, []) && SmallFiles(fs)
    ensures DataOf(fs, d, IndexName(b), from, to, start, max) ==
      DataResponse(Take(Filter(From(s.records, start), from, to), max), NoErrors)
  {
    hide Opens, Exact, Punctual, SmallFiles, Ordered, FullyReadable, MatchTime, Collect, ReadFrom, Filter, Take,
         ReadAt, TimeAt, Count, Resolves;
    var index, data := FileOf(fs, d, IndexName(b)), PairedFile(fs, d, IndexName(b));
    Catalogued(fs, cal, d, b, s);
    assert |data| < TWO32 by { OpensSmall(index, data, s); }
    assert InOrder(s.records) by { PunctualOrder(cal, d, b, s); }
    OpensOrdered(index, data, s);
    OpensFrom(index, data, s, start);
    QueryIs(fs, d, IndexName(b), from, to, start, max);
    NoFailure(index, data, start, from, to, max);
  }

  lemma OpensSmall(index: seq<byte>, data: seq<byte>, s: Segment)
    requires Opens(index, data, s)
    ensures |data| < TWO32
  {
  }

  lemma PunctualOrder(cal: Calendar, d: nat, b: string, s: Segment)
    requires Punctual(cal, d, b, s, [])
    ensures InOrder(s.records)
  {
  }

  // The catalog entry of a file on the log.
  lemma OnCatalog(st: Store, cal: Calendar, cat: Catalog, log: seq<Entry>, d: nat, b: string)
    requires Kept(st, cal, cat, log, []) && d in cat && b in cat[d]
    ensures Exact(st.fs, d, b, cat[d][b]) && Punctual(cal, d, b, cat[d][b], [])
    ensures OnFile(log, d, b) == cat[d][b].records
  {
    hide Exact, Punctual, AllOwned;
    assert Shelved(st.fs, d, cat[d]);
    assert ShelfPunctual(cal, d, cat[d], []);
  }

  // A stream is listed under the name of its segment's channel.
  lemma CataloguedName(fs: Fs, cal: Calendar, d: nat, b: string, s: Segment)
    requires Exact(fs, d, b, s) && Punctual(cal, d, b, s, []) && SmallFiles(fs)
    ensures Describe(fs, d, IndexName(b)).name == NameBytes(s.channel)
  {
    hide Exact, Punctual, SmallFiles, Opens, HeaderOf, ValidIndex, Count, TimeAt, StatusOf;
    Catalogued(fs, cal, d, b, s);
    OpensHeaders(FileOf(fs, d, IndexName(b)), PairedFile(fs, d, IndexName(b)), s);
  }

  // Which streams are listed, by what the log has for them.
  lemma ListedIff(st: Store, cal: Calendar, cat: Catalog, log: seq<Entry>, from: u64, to: u64, d: nat, b: string)
    requires Kept(st, cal, cat, log, []) && SmallFiles(st.fs) && d in cat && b in cat[d]
    ensures Listed(st.fs, cal, from, to, d, IndexName(b)) <==>
      && cal.dayOf(from) <= d <= cal.dayOf(to) && from <= to
      && (exists x <- OnFile(log, d, b) :: x.time <= to)
      && exists y <- OnFile(log, d, b) :: y.time >= from
  {
    hide Exact, Opens, SmallFiles, Stocked, AllPunctual, MatchTime, Resolves, FileOf, PairedFile, OnFile, IndexName;
    var s, file := cat[d][b], IndexName(b);
    OnCatalog(st, cal, cat, log, d, b);
    Catalogued(st.fs, cal, d, b, s);
    OpensMatchIff(FileOf(st.fs, d, file), PairedFile(st.fs, d, file), s, from, to);
  }

  // What a client is told about a stream of the log.
  lemma DescribedAs(st: Store, cal: Calendar, cat: Catalog, log: seq<Entry>, d: nat, b: string)
    requires Kept(st, cal, cat, log, []) && SmallFiles(st.fs) && d in cat && b in cat[d] && OnFile(log, d, b) != []
    ensures var rs := OnFile(log, d, b);
      Describe(st.fs, d, IndexName(b)) == StreamInfo(
        d, IndexName(b), NameBytes(cat[d][b].channel), Healthy, |rs|, rs[0].time, rs[|rs| - 1].time)
  {
    hide Exact, SmallFiles, Stocked, AllPunctual, Resolves, FileOf, PairedFile, OnFile, IndexName, ReadAt, TimeAt,
         Count, HeaderOf, NameBytes, Punctual, Opens;
    var s, file := cat[d][b], IndexName(b);
    var index, data := FileOf(st.fs, d, file), PairedFile(st.fs, d, file);
    OnCatalog(st, cal, cat, log, d, b);
    Catalogued(st.fs, cal, d, b, s);
    CataloguedName(st.fs, cal, d, b, s);
    OpensWhole(index, data, s);
    OpensHeaders(index, data, s);
    var last := |s.records| - 1;
    assert TimeAt(index, 0) == s.records[0].time && TimeAt(index, last) == s.records[last].time;
  }

  // Every kept record in range is in a listed stream of its channel.
  lemma EntryListed(st: Store, cal: Calendar, cat: Catalog, log: seq<Entry>, from: u64, to: u64, e: Entry)
    requires Kept(st, cal, cat, log, []) && SmallFiles(st.fs) && Monotone(cal)
    requires e in log && InRange(e.record, from, to)
    ensures Listed(st.fs, cal, from, to, e.day, IndexName(e.base))
    ensures Describe(st.fs, e.day, IndexName(e.base)).name == NameBytes(e.channel)
  {
    hide Exact, Opens, SmallFiles, Stocked, AllPunctual, MatchTime, Resolves, FileOf, PairedFile, Describe, NameBytes;
    assert EntryFiled(cat, e);
    var s := cat[e.day][e.base];
    OnCatalog(st, cal, cat, log, e.day, e.base);
    EntryOnFile(log, e);
    var k: nat :| k < |s.records| && s.records[k] == e.record;
    var file := IndexName(e.base);
    Catalogued(st.fs, cal, e.day, e.base, s);
    CataloguedName(st.fs, cal, e.day, e.base, s);
    OpensMatches(FileOf(st.fs, e.day, file), PairedFile(st.fs, e.day, file), s, k, from, to);
  }

  // Every listed stream is a file on the log, ...
  lemma ListedIsCatalogued(st: Store, cal: Calendar, cat: Catalog, log: seq<Entry>, from: u64, to: u64, d: nat,
      f: string)
    returns (b: string)
    requires Kept(st, cal, cat, log, []) && SmallFiles(st.fs)
    requires Listed(st.fs, cal, from, to, d, f)
    ensures f == IndexName(b) && BaseOf(f) == b && d in cat && b in cat[d]
    ensures 0 < |cat[d][b].records| < TWO32
  {
    hide Exact, Opens, SmallFiles, AllPunctual, ValidIndex, FindFrom, Punctual, HeaderOf, AllExact, Filed, PairedFile;
    assert Shelved(st.fs, d, cat[d]) && AllOwned(st.fs.days[d], cat[d]);
    assert Owned(cat[d], f);
    b :| b in cat[d] && Names(b, cat[d][b], f);
    ExtensionIsIndex(b, f);
    BaseOfIndex(b);
    OnCatalog(st, cal, cat, log, d, b);
    Catalogued(st.fs, cal, d, b, cat[d][b]);
    OpensWhole(FileOf(st.fs, d, f), PairedFile(st.fs, d, f), cat[d][b]);
  }

  // What a query for file f of day d has to answer, given the log: exactly
  // the records kept in that file, all of them of the channel whose name the
  // stream is listed under, from the one asked for on.
  ghost predicate Answers(fs: Fs, log: seq<Entry>, from: u64, to: u64, d: nat, f: string) {
    && f == IndexName(BaseOf(f))
    && |OnFile(log, d, BaseOf(f))| < TWO32
    && DescribedBy(Describe(fs, d, f), OnFile(log, d, BaseOf(f)))
    && (exists e <- log :: IsOn(e, d, BaseOf(f)))
    && (forall e <- log :: IsOn(e, d, BaseOf(f)) ==> Describe(fs, d, f).name == NameBytes(e.channel))
    && (forall e <- log, x <- log :: IsOn(e, d, BaseOf(f)) && IsOn(x, d, BaseOf(f)) ==> e.channel == x.channel)
    && forall start: u32, max: u32 ::
         DataOf(fs, d, f, from, to, start, max) ==
           DataResponse(Take(Filter(From(OnFile(log, d, BaseOf(f)), start), from, to), max), NoErrors)
  }

  // What a client is told about a stream of these records.
  predicate DescribedBy(info: StreamInfo, rs: seq<Record>) {
    && rs != [] && info.status == Healthy && info.recordsCount == |rs|
    && info.startTime == rs[0].time && info.endTime == rs[|rs| - 1].time
  }

  // Whether some stream file f holds a record up to the end of the range and
  // one from its beginning on.
  ghost predicate Reaches(log: seq<Entry>, from: u64, to: u64, d: nat, f: string) {
    exists e <- log, x <- log ::
      && e.day == d && x.day == d && IndexName(e.base) == f && x.base == e.base
      && e.record.time <= to && from <= x.record.time
  }

  lemma ListedReaches(st: Store, cal: Calendar, cat: Catalog, log: seq<Entry>, from: u64, to: u64, d: nat, b: string)
    requires Kept(st, cal, cat, log, []) && SmallFiles(st.fs) && d in cat && b in cat[d]
    requires Listed(st.fs, cal, from, to, d, IndexName(b))
    ensures cal.dayOf(from) <= d <= cal.dayOf(to) && from <= to && Reaches(log, from, to, d, IndexName(b))
  {
    hide Kept, SmallFiles, Listed, OnFile, IndexName;
    ListedIff(st, cal, cat, log, from, to, d, b);
    var x :| x in OnFile(log, d, b) && x.time <= to;
    var y :| y in OnFile(log, d, b) && y.time >= from;
    var e := OnFileEntry(log, d, b, x);
    var f := OnFileEntry(log, d, b, y);
  }

  lemma ReachesListed(st: Store, cal: Calendar, cat: Catalog, log: seq<Entry>, from: u64, to: u64, d: nat, f: string)
    requires Kept(st, cal, cat, log, []) && SmallFiles(st.fs)
    requires cal.dayOf(from) <= d <= cal.dayOf(to) && from <= to && Reaches(log, from, to, d, f)
    ensures Listed(st.fs, cal, from, to, d, f)
  {
    hide Stocked, Crewed, AllPunctual, SmallFiles, Listed, OnFile, IndexName;
    var e, x :| e in log && x in log && e.day == d && x.day == d && IndexName(e.base) == f && x.base == e.base
      && e.record.time <= to && from <= x.record.time;
    assert EntryFiled(cat, e);
    EntryOnFile(log, e);
    EntryOnFile(log, x);
    ListedIff(st, cal, cat, log, from, to, d, e.base);
  }

  // ... and answers with its records.
  lemma ListedAnswers(st: Store, cal: Calendar, cat: Catalog, log: seq<Entry>, from: u64, to: u64, d: nat, f: string)
    requires Kept(st, cal, cat, log, []) && SmallFiles(st.fs)
    requires Listed(st.fs, cal, from, to, d, f)
    ensures Answers(st.fs, log, from, to, d, f)
  {
    hide Exact, SmallFiles, Stocked, Crewed, AllPunctual, DataOf, Punctual, Filter, Take, Listed, Describe, OnFile,
         Listing, NameBytes, From;
    var b := ListedIsCatalogued(st, cal, cat, log, from, to, d, f);
    var s := cat[d][b];
    OnCatalog(st, cal, cat, log, d, b);
    DescribedAs(st, cal, cat, log, d, b);
    assert s.records[0] in OnFile(log, d, b);
    var e := OnFileEntry(log, d, b, s.records[0]);
    forall x <- log | IsOn(x, d, b) ensures x.channel == s.channel {
      assert EntryFiled(cat, x);
    }
    forall start: u32, max: u32
      ensures DataOf(st.fs, d, f, from, to, start, max) ==
        DataResponse(Take(Filter(From(OnFile(log, d, b), start), from, to), max), NoErrors)
    {
      CatalogedQuery(st.fs, cal, d, b, s, from, to, start, max);
    }
  }

  lemma ExtensionIsIndex(b: string, f: string)
    requires HasExtension(f, IDX) && (f == IndexName(b) || f == DataName(b))
    ensures f == IndexName(b)
  {
    assert IDX[3] == 'x' && DATA[4] == 'a';
    assert f[|f| - 4..][3] == f[|f| - 1];
  }

  // The calendar and the requests of whole runs.
  ghost predicate Wellbehaved(cal: Calendar, reqs: seq<Request>) {
    ValidCalendar(cal) && Monotone(cal) && PlainClock(cal.clock) && Orderly(reqs) && forall q <- reqs :: Storable(q)
  }

  // MAIN: let any number of processes, one after the other, run any requests
  // on an empty storage, with any evictions and day switches; then query any
  // range.  Each record the log keeps in that range is in a stream listed
  // under its channel's name; a stream is listed exactly when the log has a
  // record for it that is not behind the range and one that is not before it;
  // it holds records of one channel only, is listed under that channel's
  // name, with their number and their first and last time, and answers with
  // exactly the records the log has for it in that range, once each and in
  // the order they were written.
  lemma WholeRunRefinement(
    fs: Fs, cal: Calendar, sessions: seq<Session>, from: u64, to: u64, end: Fs, log: seq<Entry>)
    requires fs.days == map[] && Wellbehaved(cal, Requests(sessions))
    requires end == AfterSessions(fs, cal, sessions) && log == SessionsLog([], fs, cal, sessions)
    requires SmallFiles(end)
    ensures forall e <- log :: InRange(e.record, from, to) ==>
      Listed(end, cal, from, to, e.day, IndexName(e.base)) &&
      Describe(end, e.day, IndexName(e.base)).name == NameBytes(e.channel)
    ensures forall d: nat, f: string :: Listed(end, cal, from, to, d, f) <==>
      cal.dayOf(from) <= d <= cal.dayOf(to) && from <= to && Reaches(log, from, to, d, f)
    ensures forall d: nat, f: string :: Listed(end, cal, from, to, d, f) ==> Answers(end, log, from, to, d, f)
  {
    hide Kept, Listed, Answers, AfterSessions, SessionsLog, Storable, SmallFiles, InRange, Monotone, ValidCalendar,
         PlainClock, Orderly, Describe, NameBytes, Reaches;
    EmptyKept(fs, cal, Requests(sessions));
    var cat := AnySessions(fs, cal, sessions, map[], []);
    var st := Closing(end);
    forall e <- log | InRange(e.record, from, to)
      ensures Listed(end, cal, from, to, e.day, IndexName(e.base))
      ensures Describe(end, e.day, IndexName(e.base)).name == NameBytes(e.channel)
    {
      EntryListed(st, cal, cat, log, from, to, e);
    }
    forall d: nat, f: string | Listed(end, cal, from, to, d, f)
      ensures Answers(end, log, from, to, d, f)
      ensures cal.dayOf(from) <= d <= cal.dayOf(to) && from <= to && Reaches(log, from, to, d, f)
    {
      ListedAnswers(st, cal, cat, log, from, to, d, f);
      var b := ListedIsCatalogued(st, cal, cat, log, from, to, d, f);
      ListedReaches(st, cal, cat, log, from, to, d, b);
    }
    forall d: nat, f: string | cal.dayOf(from) <= d <= cal.dayOf(to) && from <= to && Reaches(log, from, to, d, f)
      ensures Listed(end, cal, from, to, d, f)
    {
      ReachesListed(st, cal, cat, log, from, to, d, f);
    }
  }

  lemma EmptyKept(fs: Fs, cal: Calendar, reqs: seq<Request>)
    requires fs.days == map[]
    ensures Kept(Closing(fs), cal, map[], [], reqs)
  {
  }

  // Files within a budget the counter can hold are small.
  lemma BudgetKeepsFilesSmall(st: Store, maxSize: nat)
    requires Balanced(st, maxSize) && maxSize + st.dropped < TWO32
    ensures SmallFiles(st.fs)
  {
    LinkedFilesSmall(st.fs);
  }

  lemma LinkedFilesSmall(fs: Fs)
    requires LinkedBytes(fs.days) < TWO32
    ensures SmallFiles(fs)
  {
    forall d <- fs.days, n <- fs.days[d] ensures |fs.days[d][n]| < TWO32 {
      LinkedWithout(fs.days, d);
      SumWithout(Sizes(fs.days[d]), n);
    }
  }
}
