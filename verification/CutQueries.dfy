// Queries on a storage whose files were cut short between sessions.
module CutQueries {
  import opened Bytes
  import opened Sequences
  import opened Layout
  import opened Segments
  import opened ReaderSpec
  import opened Recovery
  import opened FileNames
  import opened FileSystems
  import opened WriterRuns
  import opened StorageSpec
  import opened ScannerSpec
  import opened Ledgers
  import opened Catalogs
  import opened Punctuality
  import opened WholeRun
  import opened Queries
  import opened Channels
  import opened Shadows
  import opened CutSessions

  // What is read when exactly the first m records can be read.
  lemma {:induction false} ReadFromCut(index: seq<byte>, data: seq<byte>, rs: seq<Record>, m: nat, k: nat)
    requires m <= |rs| && m <= Count(index)
    requires forall j: nat :: ReadAt(index, data, j) == if j < m then Some(rs[j]) else None
    ensures ReadFrom(index, data, k) == if k < m then rs[k..m] else []
    decreases Count(index) - k
  {
    hide ReadAt, Count;
    if k < Count(index) {
      ReadFromCut(index, data, rs, m, k + 1);
    }
  }

  // Files of a segment, each of them cut somewhere.
  ghost predicate Clipped(index: seq<byte>, data: seq<byte>, s: Segment) {
    && WellFormed(s) && index <= IndexBytes(s) && |index| < TWO32
    && (s.recordSize == 0 ==> data <= DataBytes(s))
    && forall r <- s.records :: r.time != 0
  }

  lemma ClippedReads(index: seq<byte>, data: seq<byte>, s: Segment)
    requires Clipped(index, data, s)
    ensures ReadFrom(index, data, 0) == s.records[..Surviving(s, |index|, |data|)]
    ensures Surviving(s, |index|, |data|) <= Count(index)
  {
    hide IndexBytes, DataBytes, ReadAt, Count, Surviving;
    var m := Surviving(s, |index|, |data|);
    forall j: nat ensures ReadAt(index, data, j) == if j < m then Some(s.records[j]) else None {
      TruncationRecovery(s, index, data, j);
    }
    if m > 0 && m > Count(index) { NothingBeyond(index, data, m - 1); }
    ReadFromCut(index, data, s.records, m, 0);
  }

  lemma ClippedTime(index: seq<byte>, data: seq<byte>, s: Segment, k: nat)
    requires Clipped(index, data, s) && k < Count(index)
    ensures k < |s.records| && TimeAt(index, k) == s.records[k].time
    ensures ReadAt(index, data, k).Some? ==> ReadAt(index, data, k).value == s.records[k]
  {
    hide IndexBytes, DataBytes, ReadAt, TimeAt, Count, Surviving;
    PrefixAgrees(index, IndexBytes(s));
    CountIs(s, index, k);
    SegmentLengths(s);
    if k >= |s.records| { SpanMonotone(|s.records| + 1, k + 1, Width(s.recordSize)); }
    IndexEntrySurvives(s, index, k);
    TruncationRecovery(s, index, data, k);
  }

  lemma ClippedOrdered(index: seq<byte>, data: seq<byte>, s: Segment)
    requires Clipped(index, data, s) && InOrder(s.records)
    ensures Ordered(index, data)
  {
    hide Clipped, ReadAt, TimeAt, Count;
    forall k: nat | k < Count(index)
      ensures k < |s.records| && TimeAt(index, k) == s.records[k].time
      ensures ReadAt(index, data, k).Some? ==> ReadAt(index, data, k).value == s.records[k]
    {
      ClippedTime(index, data, s, k);
    }
  }

  // The record size an index file tells; 0 when its header is not there.
  function RecordSizeIn(index: seq<byte>): u32 {
    match HeaderOf(index) case None => 0 case Some(h) => h.recordSize
  }

  // An index file that lost part of its header opens nothing, and nothing of
  // its segment survives.
  lemma ClippedHeader(index: seq<byte>, data: seq<byte>, s: Segment)
    requires Clipped(index, data, s)
    ensures Surviving(s, |index|, |data|) > 0 ==> |index| >= HEADER_SIZE
    ensures |index| >= HEADER_SIZE ==> ValidIndex(index) && NameOf(index) == NameBytes(s.channel)
    ensures |index| >= HEADER_SIZE ==> HeaderOf(index).Some? && RecordSizeIn(index) == s.recordSize
  {
    hide IndexBytes, DataBytes, EncodeHeader;
    PrefixAgrees(index, IndexBytes(s));
    CompleteIndexRecordsIff(s, |index|, 0);
    if |index| >= HEADER_SIZE { IndexHeaderSurvives(s, index); }
  }

  // How many of the records written to a stream its two files still hold.
  function Intact(index: seq<byte>, data: seq<byte>, rs: seq<Record>): (m: nat)
    ensures m <= |rs|
  {
    Surviving(Segment("", RecordSizeIn(index), 0, rs), |index|, |data|)
  }

  // Record k is among them if and only if its index entry is there to the
  // last byte and, unless the entry is all of it, its data record as well.
  lemma IntactIff(index: seq<byte>, data: seq<byte>, rs: seq<Record>, k: nat)
    ensures k < Intact(index, data, rs) <==>
      && k < |rs|
      && HEADER_SIZE + Span(k + 1, Width(RecordSizeIn(index))) <= |index|
      && (RecordSizeIn(index) == 0 ==> DataEnd(rs[..k + 1]) <= |data|)
  {
    CompleteIndexRecordsIff(Segment("", RecordSizeIn(index), 0, rs), |index|, k);
    CompleteDataRecordsIff(rs, |data|, k);
  }

  lemma IntactIs(index: seq<byte>, data: seq<byte>, s: Segment)
    requires Clipped(index, data, s)
    ensures Intact(index, data, s.records) == Surviving(s, |index|, |data|)
  {
    hide Clipped, CompleteIndexRecords, CompleteDataRecords, RecordSizeIn;
    var t := Segment("", RecordSizeIn(index), 0, s.records);
    ClippedHeader(index, data, s);
    if |index| >= HEADER_SIZE {
      SameComplete(s, t, |index|);
    } else {
      CompleteIndexRecordsIff(t, |index|, 0);
      CompleteIndexRecordsIff(s, |index|, 0);
    }
  }

  lemma SameComplete(s: Segment, t: Segment, size: nat)
    requires s.recordSize == t.recordSize && s.records == t.records
    ensures CompleteIndexRecords(s, size) == CompleteIndexRecords(t, size)
  {
    hide CompleteIndexRecords;
    var a: nat, b: nat := CompleteIndexRecords(s, size), CompleteIndexRecords(t, size);
    CompleteIndexRecordsIff(s, size, a);
    CompleteIndexRecordsIff(t, size, a);
    CompleteIndexRecordsIff(s, size, b);
    CompleteIndexRecordsIff(t, size, b);
  }

  // How many records of the log the files of stream b of day d still hold.
  function Left(fs: Fs, log: seq<Entry>, d: nat, b: string): (m: nat)
    ensures m <= |OnFile(log, d, b)|
  {
    Intact(FileOf(fs, d, IndexName(b)), FileOf(fs, d, DataName(b)), OnFile(log, d, b))
  }

  // What asking for a file of a channel gives: its first records, as many as
  // both of its files still hold; and it is listed, under the name of the
  // channel, if one of these is in range.
  ghost predicate AnswersCut(
    fs: Fs, cal: Calendar, log: seq<Entry>, from: u64, to: u64, d: nat, b: string, channel: string)
  {
    var left := OnFile(log, d, b)[..Left(fs, log, d, b)];
    && |left| < TWO32
    && (forall max: u32 :: DataOf(fs, d, IndexName(b), from, to, 0, max).records == Take(Filter(left, from, to), max))
    && forall r <- left :: InRange(r, from, to) ==>
         Listed(fs, cal, from, to, d, IndexName(b)) && Describe(fs, d, IndexName(b)).name == NameBytes(channel)
  }

  // A catalogued segment in the files that are there.
  lemma ClippedFiles(fs: Fs, whole: Fs, cal: Calendar, d: nat, b: string, s: Segment)
    requires Shadow(fs, whole, 0, {}) && Exact(whole, d, b, s) && Punctual(cal, d, b, s, []) && SmallFiles(fs)
    ensures var index, data := FileOf(fs, d, IndexName(b)), FileOf(fs, d, DataName(b));
      Clipped(index, data, s) && Linked(fs, d, IndexName(b)) && HasExtension(IndexName(b), IDX) &&
      |data| < TWO32 && PairedFile(fs, d, IndexName(b)) == data && InOrder(s.records)
  {
    hide IndexBytes, DataBytes, WellFormed, FindFrom;
    PairedNameIff(b);
    assert ShadowDay(fs.days[d], whole.days[d]);
  }

  lemma {:induction false} InFilter(rs: seq<Record>, r: Record, from: u64, to: u64)
    requires r in rs && InRange(r, from, to)
    ensures Filter(rs, from, to) != []
  {
    if rs[0] != r { InFilter(rs[1..], r, from, to); }
  }

  lemma ClippedAnswers(
    fs: Fs, whole: Fs, cal: Calendar, log: seq<Entry>, from: u64, to: u64, d: nat, b: string, s: Segment)
    requires Shadow(fs, whole, 0, {}) && Exact(whole, d, b, s) && Punctual(cal, d, b, s, []) && SmallFiles(fs)
    requires Monotone(cal) && OnFile(log, d, b) == s.records
    ensures AnswersCut(fs, cal, log, from, to, d, b, s.channel)
  {
    hide Shadow, Exact, Punctual, SmallFiles, Clipped, ValidIndex, HeaderOf, Ordered, MatchTime, ReadFrom, Filter, Take,
         InRange, ReadAt, TimeAt, Count, Collect, Surviving, FileOf, PairedFile, IndexName, DataName, NameBytes, OnFile,
         Intact;
    var file := IndexName(b);
    var index, data := FileOf(fs, d, file), FileOf(fs, d, DataName(b));
    var m := Left(fs, log, d, b);
    ClippedFiles(fs, whole, cal, d, b, s);
    ClippedReads(index, data, s);
    ClippedHeader(index, data, s);
    ClippedOrdered(index, data, s);
    IntactIs(index, data, s);
    CountSmall(index);
    FilterEmpty(from, to);
    forall max: u32
      ensures DataOf(fs, d, file, from, to, 0, max).records == Take(Filter(s.records[..m], from, to), max)
    {
      if |index| >= HEADER_SIZE {
        QueryIs(fs, d, file, from, to, 0, max);
      } else {
        ShortIndex(index);
      }
    }
    forall r <- s.records[..m] | InRange(r, from, to)
      ensures Listed(fs, cal, from, to, d, file) && Describe(fs, d, file).name == NameBytes(s.channel)
    {
      InFilter(s.records[..m], r, from, to);
      if !MatchTime(index, data, from, to) { GateLosesNothing(index, data, 0, from, to); }
      DayInRange(cal, d, b, s, r, from, to);
    }
  }

  // Whether a query that has not been cut off by max reports a failed read:
  // when there are index entries behind the records that are left.
  lemma ClippedErrors(fs: Fs, whole: Fs, cal: Calendar, from: u64, to: u64, max: u32, d: nat, b: string, s: Segment)
    requires Shadow(fs, whole, 0, {}) && Exact(whole, d, b, s) && Punctual(cal, d, b, s, []) && SmallFiles(fs)
    ensures var index, data := FileOf(fs, d, IndexName(b)), FileOf(fs, d, DataName(b));
      var m := Surviving(s, |index|, |data|);
      DataOf(fs, d, IndexName(b), from, to, 0, max).errors ==
        if |index| < HEADER_SIZE then InvalidPath
        else if MatchTime(index, data, from, to) && m < CompleteIndexRecords(s, |index|) &&
          |Filter(s.records[..m], from, to)| < max then ReadFailed
        else NoErrors
  {
    hide Shadow, Exact, Punctual, SmallFiles, Clipped, ValidIndex, HeaderOf, MatchTime, Filter, CompleteIndexRecords,
         InRange, ReadAt, TimeAt, Count, Collect, Surviving, FileOf, PairedFile, IndexName, DataName, DataOf, FailsAt;
    var file := IndexName(b);
    var index, data := FileOf(fs, d, file), FileOf(fs, d, DataName(b));
    ClippedFiles(fs, whole, cal, d, b, s);
    ClippedHeader(index, data, s);
    if |index| < HEADER_SIZE { ShortIndex(index); }
    ErrorsAre(fs, d, file, from, to, 0, max);
    ClippedFailure(index, data, s, from, to, max);
  }

  lemma ClippedFailure(index: seq<byte>, data: seq<byte>, s: Segment, from: u64, to: u64, max: u32)
    requires Clipped(index, data, s)
    ensures var m := Surviving(s, |index|, |data|);
      (exists k: nat :: FailsAt(index, data, 0, k, from, to, max)) <==>
        m < CompleteIndexRecords(s, |index|) && |Filter(s.records[..m], from, to)| < max
  {
    hide IndexBytes, DataBytes, ReadAt, Count, Filter, Surviving, CompleteIndexRecords, ReadBetween, Clipped;
    var m, c := Surviving(s, |index|, |data|), CompleteIndexRecords(s, |index|);
    CountComplete(index, data, s);
    forall j: nat ensures ReadAt(index, data, j) == if j < m then Some(s.records[j]) else None {
      ClippedRead(index, data, s, j);
    }
    forall k: nat | m <= k
      ensures ReadBetween(index, data, 0, k) == s.records[..m]
    {
      BetweenCut(index, data, s.records, m, 0, k);
    }
    if m < c && |Filter(s.records[..m], from, to)| < max {
      assert FailsAt(index, data, 0, m, from, to, max);
    }
  }

  lemma ClippedRead(index: seq<byte>, data: seq<byte>, s: Segment, j: nat)
    requires Clipped(index, data, s)
    ensures ReadAt(index, data, j) == if j < Surviving(s, |index|, |data|) then Some(s.records[j]) else None
  {
    hide ReadAt, Surviving, IndexBytes, DataBytes;
    TruncationRecovery(s, index, data, j);
  }

  lemma CountComplete(index: seq<byte>, data: seq<byte>, s: Segment)
    requires Clipped(index, data, s)
    ensures Count(index) == CompleteIndexRecords(s, |index|)
  {
    hide IndexBytes, DataBytes, Count, CompleteIndexRecords;
    var a: nat, c: nat := Count(index), CompleteIndexRecords(s, |index|);
    PrefixAgrees(index, IndexBytes(s));
    CountIs(s, index, a);
    CountIs(s, index, c);
    CompleteIndexRecordsIff(s, |index|, c);
    if c < a { ClippedTime(index, data, s, c); }
    CompleteIndexRecordsIff(s, |index|, a);
  }

  lemma {:induction false} BetweenCut(index: seq<byte>, data: seq<byte>, rs: seq<Record>, m: nat, j: nat, k: nat)
    requires m <= |rs| && m <= k
    requires forall i: nat :: ReadAt(index, data, i) == if i < m then Some(rs[i]) else None
    ensures ReadBetween(index, data, j, k) == if j < m then rs[j..m] else []
    decreases k - j
  {
    hide ReadAt;
    if j < k {
      BetweenCut(index, data, rs, m, j + 1, k);
      AppendNothing(ReadBetween(index, data, j + 1, k));
      if j < m { assert rs[j..m] == [rs[j]] + rs[j + 1..m]; }
    }
  }

  lemma ShortIndex(index: seq<byte>)
    requires |index| < HEADER_SIZE
    ensures !ValidIndex(index)
  {
  }

  lemma DayInRange(cal: Calendar, d: nat, b: string, s: Segment, r: Record, from: u64, to: u64)
    requires Punctual(cal, d, b, s, []) && Monotone(cal) && r in s.records && InRange(r, from, to)
    ensures cal.dayOf(from) <= d <= cal.dayOf(to)
  {
  }

  // Every listed stream is a catalogued file, ...
  lemma ListedIsKept(
    fs: Fs, whole: Fs, cal: Calendar, cat: Catalog, log: seq<Entry>, from: u64, to: u64, d: nat, f: string)
    returns (b: string)
    requires Followed(Closing(fs), whole, {}, cal, cat, log, []) && Listed(fs, cal, from, to, d, f)
    ensures d in cat && b in cat[d] && f == IndexName(b)
  {
    hide AllExact, Filed, AllPunctual, MatchTime, ValidIndex, FindFrom, PairedFile, FileOf;
    assert ShadowDay(fs.days[d], whole.days[d]);
    assert Shelved(whole, d, cat[d]) && Owned(cat[d], f);
    b :| b in cat[d] && Names(b, cat[d][b], f);
    ExtensionIsIndex(b, f);
  }

  // ... and there are records of it on the log.
  lemma ListedIsLogged(
    fs: Fs, whole: Fs, cal: Calendar, cat: Catalog, log: seq<Entry>, from: u64, to: u64, d: nat, f: string)
    returns (e: Entry)
    requires Followed(Closing(fs), whole, {}, cal, cat, log, []) && SmallFiles(fs) && Listed(fs, cal, from, to, d, f)
    ensures e in log && e.day == d && IndexName(e.base) == f
    ensures cal.dayOf(from) <= d <= cal.dayOf(to) && from <= to && Reaches(log, from, to, d, f)
  {
    hide Kept, Shadow, Exact, Punctual, SmallFiles, Count, TimeAt, Clipped, OnFile, StatusOf, Resolves, PairedFile,
         FileOf, IndexName, DataName;
    var b := ListedIsKept(fs, whole, cal, cat, log, from, to, d, f);
    OnCatalog(Closing(whole), cal, cat, log, d, b);
    ClippedFiles(fs, whole, cal, d, b, cat[d][b]);
    ClippedTime(FileOf(fs, d, f), FileOf(fs, d, DataName(b)), cat[d][b], 0);
    var rs := cat[d][b].records;
    var last := Count(FileOf(fs, d, f)) - 1;
    ClippedTime(FileOf(fs, d, f), FileOf(fs, d, DataName(b)), cat[d][b], last);
    assert rs[0] in OnFile(log, d, b) && rs[last] in OnFile(log, d, b);
    e := OnFileEntry(log, d, b, rs[0]);
    var x := OnFileEntry(log, d, b, rs[last]);
  }

  lemma EntryAnswered(
    fs: Fs, whole: Fs, cal: Calendar, cat: Catalog, log: seq<Entry>, from: u64, to: u64, e: Entry)
    requires Followed(Closing(fs), whole, {}, cal, cat, log, []) && SmallFiles(fs) && Monotone(cal) && e in log
    ensures AnswersCut(fs, cal, log, from, to, e.day, e.base, e.channel)
    ensures EntryFiled(cat, e)
  {
    hide Stocked, Crewed, AllPunctual, Listing, Shadow, Exact, Punctual, SmallFiles, AnswersCut, OnFile;
    assert EntryFiled(cat, e);
    OnCatalog(Closing(whole), cal, cat, log, e.day, e.base);
    ClippedAnswers(fs, whole, cal, log, from, to, e.day, e.base, cat[e.day][e.base]);
  }

  lemma CountSmall(index: seq<byte>)
    ensures Count(index) < TWO32
  {
  }

  lemma EmptyFollowed(fs: Fs, cal: Calendar, reqs: seq<Request>)
    requires fs.days == map[]
    ensures Followed(Closing(fs), fs, {}, cal, map[], [], reqs)
  {
    EmptyKept(fs, cal, reqs);
  }

  // MAIN: let any number of processes run any requests on an empty storage,
  // with any evictions and day switches, and let every file be cut anywhere
  // behind every one of them.  Each file then answers with the records the
  // log has for it, in order, up to the first that is not complete in both of
  // its files; nothing else is read, and nothing of the rest is lost.
  lemma CutRefinement(
    disks: seq<Fs>, cal: Calendar, sessions: seq<Session>, from: u64, to: u64, end: Fs, log: seq<Entry>)
    requires CutBetween(disks, cal, sessions) && disks[0].days == map[] && end == disks[|sessions|]
    requires Wellbehaved(cal, Requests(sessions)) && log == CutLog([], disks, cal, sessions) && SmallFiles(end)
    ensures forall e <- log :: AnswersCut(end, cal, log, from, to, e.day, e.base, e.channel)
    ensures forall e <- log, x <- log :: e.day == x.day && e.base == x.base ==> e.channel == x.channel
    ensures forall d: nat, f: string :: Listed(end, cal, from, to, d, f) ==>
      (exists e <- log :: e.day == d && IndexName(e.base) == f) &&
      cal.dayOf(from) <= d <= cal.dayOf(to) && from <= to && Reaches(log, from, to, d, f)
  {
    hide Followed, Cut, CutLog, SmallFiles, Storable, Monotone, ValidCalendar, PlainClock, Orderly, Listed, AnswersCut,
         Closing, IndexName, Reaches;
    EmptyFollowed(disks[0], cal, Requests(sessions));
    var whole, cat := AnyCutSessions(disks, disks[0], cal, sessions, map[], []);
    forall e <- log ensures AnswersCut(end, cal, log, from, to, e.day, e.base, e.channel) && EntryFiled(cat, e) {
      EntryAnswered(end, whole, cal, cat, log, from, to, e);
    }
    forall d: nat, f: string | Listed(end, cal, from, to, d, f)
      ensures exists e <- log :: e.day == d && IndexName(e.base) == f
      ensures cal.dayOf(from) <= d <= cal.dayOf(to) && from <= to && Reaches(log, from, to, d, f)
    {
      var e := ListedIsLogged(end, whole, cal, cat, log, from, to, d, f);
    }
  }

  // The entries at the beginning of the log that are left of all of it: of
  // each file the first records.
  function LeftOf(log: seq<Entry>, fs: Fs, all: seq<Entry>): seq<Entry> {
    if log == [] then []
    else
      var n := |log| - 1;
      var e := log[n];
      LeftOf(log[..n], fs, all) +
      if |OnFile(log[..n], e.day, e.base)| < Left(fs, all, e.day, e.base) then [e] else []
  }

  // The part of the log that the files still hold.
  function Spared(log: seq<Entry>, fs: Fs): seq<Entry> {
    LeftOf(log, fs, log)
  }

  lemma {:induction false} OnFileLeft(log: seq<Entry>, fs: Fs, all: seq<Entry>, d: nat, b: string)
    ensures OnFile(LeftOf(log, fs, all), d, b) == Take(OnFile(log, d, b), Left(fs, all, d, b))
  {
    hide Left;
    if log != [] {
      var n := |log| - 1;
      OnFileLeft(log[..n], fs, all, d, b);
      AppendOne(LeftOf(log[..n], fs, all), log[n]);
      AppendNothing(LeftOf(log[..n], fs, all));
    }
  }

  lemma {:induction false} LeftIn(log: seq<Entry>, fs: Fs, all: seq<Entry>, e: Entry)
    requires e in LeftOf(log, fs, all)
    ensures e in log
  {
    var n := |log| - 1;
    if e in LeftOf(log[..n], fs, all) { LeftIn(log[..n], fs, all, e); }
  }

  // The log comes from the requests here, too.
  lemma {:induction false} CutRequested(
    disks: seq<Fs>, cal: Calendar, sessions: seq<Session>, before: seq<Request>, log: seq<Entry>)
    requires |disks| == |sessions| + 1 && ValidCalendar(cal) && Requested(cal, log, before)
    ensures Requested(cal, CutLog(log, disks, cal, sessions), before + Requests(sessions))
    decreases |sessions|
  {
    hide SessionLog, Requested;
    if sessions == [] {
      AppendNothing(before);
    } else {
      var s := sessions[0];
      SessionRequested(disks[0], cal, s, before, log);
      CutRequested(disks[1..], cal, sessions[1..], before + s.requests, SessionLog(log, disks[0], cal, s));
      Reassociate(before, s.requests, Requests(sessions[1..]));
    }
  }

  lemma SparedTells(
    fs: Fs, cal: Calendar, log: seq<Entry>, from: u64, to: u64, d: nat, b: string, channel: string)
    requires AnswersCut(fs, cal, log, from, to, d, b, channel)
    ensures Tells(fs, Spared(log, fs), from, to, d, IndexName(b))
  {
    hide DataOf, Listed, Describe, Filter, OnFile, LeftOf, Left, NameBytes, IndexName, BaseOf;
    var max: u32 := TWO32 - 1;
    var rs, m := OnFile(log, d, b), Left(fs, log, d, b);
    BaseOfIndex(b);
    OnFileLeft(log, fs, log, d, b);
    assert Take(rs, m) == rs[..m];
    assert DataOf(fs, d, IndexName(b), from, to, 0, max).records == Take(Filter(rs[..m], from, to), max);
  }

  lemma SparedListed(fs: Fs, cal: Calendar, log: seq<Entry>, from: u64, to: u64, e: Entry)
    requires e in Spared(log, fs) && InRange(e.record, from, to)
    requires AnswersCut(fs, cal, log, from, to, e.day, e.base, e.channel)
    ensures Listed(fs, cal, from, to, e.day, IndexName(e.base))
    ensures Describe(fs, e.day, IndexName(e.base)).name == NameBytes(e.channel)
  {
    hide DataOf, Listed, Describe, Filter, OnFile, LeftOf, Left, NameBytes, IndexName, InRange;
    EntryOnFile(Spared(log, fs), e);
    OnFileLeft(log, fs, log, e.day, e.base);
  }

  // MAIN: what a client gets for one channel then is the part of its log that
  // the files still hold, each record as often as it was written.
  lemma CutPerChannel(
    disks: seq<Fs>, cal: Calendar, sessions: seq<Session>, from: u64, to: u64, end: Fs, log: seq<Entry>,
    streams: seq<StreamInfo>, channel: string)
    requires CutBetween(disks, cal, sessions) && disks[0].days == map[] && end == disks[|sessions|]
    requires Wellbehaved(cal, Requests(sessions)) && log == CutLog([], disks, cal, sessions) && SmallFiles(end)
    requires AllStreams(end, cal, from, to, streams)
    requires Named(channel) && forall q <- Requests(sessions) :: Named(q.channel)
    ensures multiset(Gathered(end, streams, NameBytes(channel), from, to)) ==
      multiset(Filter(OfChannel(Spared(log, end), channel), from, to))
    ensures forall r: Record ::
      multiset(Gathered(end, streams, NameBytes(channel), from, to))[r] ==
      if from <= r.time <= to then Times(Spared(log, end), channel, r) else 0
  {
    hide Cut, ValidCalendar, Monotone, PlainClock, Orderly, Storable, CutLog, SmallFiles, AnswersCut, Left, Tells,
         Gathered, Pooled, Filter, OfChannel, InRange, Listed, Describe, Named, NameBytes, Selected, Apart, LeftOf,
         Requested, IndexName;
    CutRefinement(disks, cal, sessions, from, to, end, log);
    var left := Spared(log, end);
    forall s <- streams ensures Tells(end, left, from, to, s.day, s.file) {
      var e :| e in log && e.day == s.day && IndexName(e.base) == s.file;
      SparedTells(end, cal, log, from, to, e.day, e.base, e.channel);
    }
    GatheredIsPooled(end, left, streams, NameBytes(channel), from, to);
    ListedApart(end, cal, left, from, to, streams);
    forall e <- left | InRange(e.record, from, to)
      ensures Selected(streams, NameBytes(channel), e) <==> e.channel == channel
    {
      LeftIn(log, end, log, e);
      SparedListed(end, cal, log, from, to, e);
      CutNamed(disks, cal, sessions, log, e);
      SelectedByName(end, cal, left, from, to, streams, channel, e);
    }
    PooledIsChannel(left, streams, NameBytes(channel), channel, from, to);
    AnsweredRecords(Gathered(end, streams, NameBytes(channel), from, to), left, channel, from, to);
  }

  lemma CutNamed(disks: seq<Fs>, cal: Calendar, sessions: seq<Session>, log: seq<Entry>, e: Entry)
    requires |disks| == |sessions| + 1 && ValidCalendar(cal) && log == CutLog([], disks, cal, sessions) && e in log
    requires forall q <- Requests(sessions) :: Named(q.channel)
    ensures Named(e.channel)
  {
    hide CutLog, Requested, Named;
    NothingRequested(cal);
    CutRequested(disks, cal, sessions, [], []);
    AppendNothing(Requests(sessions));
    var q := RequestedEntry(cal, log, Requests(sessions), e);
  }

  lemma {:induction false} OnFileShorter(log: seq<Entry>, n: nat, d: nat, b: string)
    requires n <= |log|
    ensures |OnFile(log[..n], d, b)| <= |OnFile(log, d, b)|
  {
    if n < |log| {
      OnFileShorter(log[..|log| - 1], n, d, b);
      assert log[..|log| - 1][..n] == log[..n];
    } else {
      assert log[..n] == log;
    }
  }

  lemma {:induction false} AllLeft(fs: Fs, all: seq<Entry>, n: nat)
    requires n <= |all| && forall e <- all :: Left(fs, all, e.day, e.base) == |OnFile(all, e.day, e.base)|
    ensures LeftOf(all[..n], fs, all) == all[..n]
  {
    hide Left;
    if n > 0 {
      var e := all[n - 1];
      AllLeft(fs, all, n - 1);
      AppendOne(all[..n - 1], e);
      assert all[..n] == all[..n - 1] + [e];
      OnFileShorter(all, n, e.day, e.base);
    }
  }

  lemma WholeLeft(fs: Fs, log: seq<Entry>, d: nat, b: string, s: Segment)
    requires Exact(fs, d, b, s) && SmallFiles(fs) && OnFile(log, d, b) == s.records &&
      forall r <- s.records :: r.time != 0
    ensures Left(fs, log, d, b) == |OnFile(log, d, b)|
  {
    hide IndexBytes, DataBytes, OnFile, SmallFiles, CompleteIndexRecords, CompleteDataRecords, Intact, WellFormed;
    var index, data, n := FileOf(fs, d, IndexName(b)), FileOf(fs, d, DataName(b)), |s.records|;
    assert |index| < TWO32 by { SmallAt(fs, d, IndexName(b)); }
    IntactIs(index, data, s);
    SegmentLengths(s);
    if n > 0 {
      assert s.records[..n] == s.records;
      CompleteIndexRecordsIff(s, |index|, n - 1);
      CompleteDataRecordsIff(s.records, |data|, n - 1);
    }
  }

  lemma SmallAt(fs: Fs, d: nat, n: string)
    requires SmallFiles(fs)
    ensures |FileOf(fs, d, n)| < TWO32
  {
  }

  // Where no file has been cut nothing is missing.
  lemma NothingCut(fs: Fs, cal: Calendar, sessions: seq<Session>, end: Fs, log: seq<Entry>)
    requires fs.days == map[] && Wellbehaved(cal, Requests(sessions))
    requires end == AfterSessions(fs, cal, sessions) && log == SessionsLog([], fs, cal, sessions) && SmallFiles(end)
    ensures Spared(log, end) == log
  {
    hide Kept, Exact, Punctual, AfterSessions, SessionsLog, Storable, SmallFiles, Monotone, ValidCalendar, PlainClock,
         Orderly, Left, OnFile, LeftOf;
    EmptyKept(fs, cal, Requests(sessions));
    var cat := AnySessions(fs, cal, sessions, map[], []);
    forall e <- log ensures Left(end, log, e.day, e.base) == |OnFile(log, e.day, e.base)| {
      KeptEntry(Closing(end), cal, cat, log, e);
      OnCatalog(Closing(end), cal, cat, log, e.day, e.base);
      PunctualTimes(cal, e.day, e.base, cat[e.day][e.base]);
      WholeLeft(end, log, e.day, e.base, cat[e.day][e.base]);
    }
    AllLeft(end, log, |log|);
    assert log[..|log|] == log;
  }

  lemma KeptEntry(st: Store, cal: Calendar, cat: Catalog, log: seq<Entry>, e: Entry)
    requires Kept(st, cal, cat, log, []) && e in log
    ensures EntryFiled(cat, e)
  {
  }

  lemma PunctualTimes(cal: Calendar, d: nat, b: string, s: Segment)
    requires Punctual(cal, d, b, s, [])
    ensures forall r <- s.records :: r.time != 0
  {
  }
}
