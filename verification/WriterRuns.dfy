// Whole runs of a stream writer, on devices that may fail at any call.
module WriterRuns {
  import opened Bytes
  import opened Sequences
  import opened Layout
  import opened Segments
  import opened FileNames
  import opened FreshNames
  import opened FileSystems
  import opened WriterSpec
  import opened ReaderSpec
  import opened Recovery

  // The largest payload whose write result is a positive int.
  predicate Fits(payload: seq<byte>) {
    MaxRecordSize(|payload|) <= INT_MAX
  }

  // The files of a segment begin with what the segment was written to be.
  ghost predicate Committed(fs: Fs, day: nat, base: string, s: Segment) {
    && WellFormed(s)
    && Linked(fs, day, IndexName(base)) && IndexBytes(s) <= FileOf(fs, day, IndexName(base))
    && (s.recordSize == 0 ==>
          Linked(fs, day, DataName(base)) && DataBytes(s) <= FileOf(fs, day, DataName(base)))
  }

  // ... and end there.
  ghost predicate Exact(fs: Fs, day: nat, base: string, s: Segment) {
    && WellFormed(s)
    && Linked(fs, day, IndexName(base)) && FileOf(fs, day, IndexName(base)) == IndexBytes(s)
    && (s.recordSize == 0 ==>
          Linked(fs, day, DataName(base)) && FileOf(fs, day, DataName(base)) == DataBytes(s))
  }

  // The writer is positioned behind the segment in the files of base.
  ghost predicate Positioned(w: WriterState, base: string, s: Segment) {
    && s.channel == w.channel && s.recordSize == w.recordSize
    && IsOpen(w.index) && w.index.value.name == IndexName(base)
    && (w.recordSize > 0 ==> w.data.None?)
    && (w.recordSize == 0 ==>
          IsOpen(w.data) && w.data.value.name == DataName(base) && w.offset == DataEnd(s.records))
  }

  // The offset invariant: the segment is in the files, exactly so as long as
  // no stream has failed, and the offset is the end of its last data record.
  ghost predicate Tracks(fs: Fs, w: WriterState, base: string, s: Segment) {
    && Positioned(w, base, s)
    && Committed(fs, w.day, base, s)
    && (!w.index.value.bad ==> FileOf(fs, w.day, IndexName(base)) == IndexBytes(s))
    && (Sound(w) ==> Exact(fs, w.day, base, s))
  }

  // MAIN: the offset invariant of a variable-length writer no stream of which
  // has failed: the offset is the length of the data file, index entry k is
  // where the k data records before it end, and both files are below 4 GiB,
  // so neither the offset nor the reader's 32-bit lengths have wrapped.
  lemma OffsetInvariant(fs: Fs, w: WriterState, base: string, s: Segment, k: nat)
    requires Tracks(fs, w, base, s) && Sound(w) && w.recordSize == 0 && k < |s.records|
    ensures var i, d := FileOf(fs, w.day, IndexName(base)), FileOf(fs, w.day, DataName(base));
      && w.offset == |d| < TWO32 && |i| <= |d|
      && Size32(i) == |i| && Size32(d) == |d|
      && OffsetAt(i, k) == HEADER_SIZE + DataLen(s.records[..k])
  {
    hide IndexBytes, DataBytes, OffsetAt;
    SegmentLengths(s);
    PrefixAgrees(IndexBytes(s), IndexBytes(s));
    SpanMonotone(k + 1, |s.records|, INDEX_ENTRY);
    IndexEntrySurvives(s, IndexBytes(s), k);
  }

  lemma SegmentStarts(channel: string, recordSize: u32, time: u64)
    ensures var s := Segment(channel, recordSize, time, []);
      IndexBytes(s) == EncodeHeader(FileHeader(channel, recordSize, time, INDEX_FILE)) &&
      DataBytes(s) == EncodeHeader(FileHeader(channel, recordSize, time, DATA_FILE)) && WellFormed(s)
  {
  }

  // Opening new files starts an empty segment under a name nobody used, and
  // leaves every existing file alone.
  lemma ReopenStarts(fs: Fs, w: WriterState, clock: u64 -> string, time: u64)
    requires w.day in fs.days && (w.recordSize > 0 ==> w.data.None?)
    ensures var (fs', w', r) := Reopened(fs, w, clock, time);
      var base := NextBase(fs, w, clock, time);
      r > 0 && !Taken(fs.days[w.day], base) && Sound(w') &&
      Tracks(fs', w', base, Segment(w.channel, w.recordSize, time, [])) &&
      OthersKept(fs, fs', w.day, {})
  {
    NamesDiffer(NextBase(fs, w, clock, time), NextBase(fs, w, clock, time));
    SegmentStarts(w.channel, w.recordSize, time);
  }

  lemma KeptCommitted(fs: Fs, fs': Fs, day: nat, touched: set<string>, base: string, s: Segment)
    requires OthersKept(fs, fs', day, touched)
    requires IndexName(base) !in touched && DataName(base) !in touched
    ensures Committed(fs, day, base, s) ==> Committed(fs', day, base, s)
    ensures Exact(fs, day, base, s) ==> Exact(fs', day, base, s)
  {
  }

  // A successful write that needs no new files extends the segment.
  lemma FixedExtends(fs: Fs, w: WriterState, base: string, s: Segment, r: Record)
    requires Tracks(fs, w, base, s) && Sound(w) && w.recordSize > 0 && |r.payload| == w.recordSize
    ensures var fs' := Appended(fs, w.day, IndexName(base), IndexRecord(w.recordSize, r, 0));
      Tracks(fs', w, base, Extend(s, r)) && OnlyGrown(fs, fs', w.day, {IndexName(base)})
  {
    var b := IndexRecord(w.recordSize, r, 0);
    ExtendBytes(s, r);
    AppendedKeeps(fs, w.day, IndexName(base), b);
    PrefixExtends(IndexBytes(s), b);
  }

  lemma PrefixExtends<T>(a: seq<T>, b: seq<T>)
    ensures a <= a + b
  {
  }

  lemma VariableExtends(fs: Fs, w: WriterState, base: string, s: Segment, r: Record)
    requires Tracks(fs, w, base, s) && Sound(w) && w.recordSize == 0
    requires DataEnd(s.records) + DATA_HEAD + |r.payload| < TWO32
    ensures var (fs', w') := AppendedVariable(fs, w, r);
      Tracks(fs', w', base, Extend(s, r)) && Sound(w') &&
      OnlyGrown(fs, fs', w.day, {IndexName(base), DataName(base)})
  {
    var i, d := IndexName(base), DataName(base);
    NamesDiffer(base, base);
    ExtendBytes(s, r);
    var fs1 := Appended(fs, w.day, d, DataRecord(r));
    AppendedKeeps(fs, w.day, d, DataRecord(r));
    UntouchedFile(fs, fs1, w.day, {d}, i);
    var b := IndexRecord(0, r, w.offset);
    var fs2 := Appended(fs1, w.day, i, b);
    AppendedKeeps(fs1, w.day, i, b);
    UntouchedFile(fs1, fs2, w.day, {i}, d);
    var s' := Extend(s, r);
    assert FileOf(fs2, w.day, i) == IndexBytes(s') && FileOf(fs2, w.day, d) == DataBytes(s');
  }

  // A failing append leaves the segment where it was.
  lemma TornKeeps(fs: Fs, w: WriterState, fs': Fs, w': WriterState, base: string, s: Segment)
    requires Tracks(fs, w, base, s) && Torn(fs, w, fs', w')
    ensures Tracks(fs', w', base, s)
    ensures OnlyGrown(fs, fs', w.day, {IndexName(base), DataName(base)})
  {
    PrefixTrans(IndexBytes(s), FileOf(fs, w.day, IndexName(base)), FileOf(fs', w.day, IndexName(base)));
    if w.recordSize == 0 {
      PrefixTrans(DataBytes(s), FileOf(fs, w.day, DataName(base)), FileOf(fs', w.day, DataName(base)));
    }
  }

  lemma PrefixTrans<T>(a: seq<T>, b: seq<T>, c: seq<T>)
    requires a <= b <= c
    ensures a <= c
  {
  }

  // One set of files a writer has produced: where it is, what it holds, and
  // whether the files hold nothing else.
  datatype Volume = Volume(base: string, segment: Segment, clean: bool)

  // The history of a writer: finished volumes and the one it is appending to.
  datatype Book = Book(closed: seq<Volume>, current: Option<Volume>)

  // One call of write and what it led to.
  datatype Call = Call(time: u64, payload: seq<byte>, fs: Fs, w: WriterState, result: int)

  predicate Rolls(w: WriterState, payload: seq<byte>) {
    IsOpen(w.index) && w.recordSize == 0 && IsOpen(w.data) && NeedsRollover(w, Truncate32(|payload|))
  }

  function Accepted(time: u64, payload: seq<byte>, result: int): seq<Record> {
    if result > 0 then [Record(time, payload)] else []
  }

  ghost function NextBook(book: Book, fs: Fs, w: WriterState, clock: u64 -> string, c: Call): Book {
    match book.current
    case None => book
    case Some(v) =>
      var added := Accepted(c.time, c.payload, c.result);
      if !Rolls(w, c.payload) then
        book.(current := Some(v.(segment := v.segment.(records := v.segment.records + added))))
      else
        var done := book.closed + [v.(clean := Sound(w))];
        if !IsOpen(c.w.index) then Book(done, None)
        else Book(done, Some(Volume(NextBase(fs, w, clock, c.time), Segment(w.channel, 0, c.time, added), true)))
  }

  ghost predicate VolumeStands(fs: Fs, day: nat, v: Volume) {
    Committed(fs, day, v.base, v.segment) && (v.clean ==> Exact(fs, day, v.base, v.segment))
  }

  // What every call keeps.
  ghost predicate Inv(fs: Fs, w: WriterState, book: Book) {
    && (forall v <- book.closed :: VolumeStands(fs, w.day, v))
    && (book.current.None? ==> !IsOpen(w.index))
    && (book.current.Some? ==>
          var v := book.current.value;
          && Tracks(fs, w, v.base, v.segment)
          && w.day in fs.days
          && forall c <- book.closed :: c.base != v.base)
  }

  ghost predicate StepOf(fs: Fs, w: WriterState, clock: u64 -> string, c: Call) {
    Fits(c.payload) && WriteStep(fs, w, clock, c.time, c.payload, c.fs, c.w, c.result)
  }

  // The volume being appended to after a call that opens no new files.
  lemma PlainStep(fs: Fs, w: WriterState, clock: u64 -> string, c: Call, base: string, s: Segment)
    requires Tracks(fs, w, base, s) && w.day in fs.days
    requires StepOf(fs, w, clock, c) && !Rolls(w, c.payload)
    ensures Tracks(c.fs, c.w, base, s.(records := s.records + Accepted(c.time, c.payload, c.result)))
    ensures OnlyGrown(fs, c.fs, w.day, {IndexName(base), DataName(base)})
    ensures c.w.day == w.day && c.w.channel == w.channel && c.w.recordSize == w.recordSize
    ensures c.result > 0 ==> Sound(c.w)
  {
    var r := Record(c.time, c.payload);
    if c.result <= 0 {
      TornKeeps(fs, w, c.fs, c.w, base, s);
      assert s.(records := s.records + []) == s;
    } else if w.recordSize > 0 {
      FixedExtends(fs, w, base, s, r);
    } else {
      assert c.payload[..|c.payload|] == c.payload;
      VariableExtends(fs, w, base, s, r);
    }
  }

  // The volume a rollover starts, if it gets that far.
  lemma RollStep(fs: Fs, w: WriterState, clock: u64 -> string, c: Call, base: string, s: Segment)
    requires Tracks(fs, w, base, s) && w.day in fs.days
    requires StepOf(fs, w, clock, c) && Rolls(w, c.payload)
    ensures OthersKept(fs, c.fs, w.day, {})
    ensures c.w.day == w.day && c.w.channel == w.channel && c.w.recordSize == w.recordSize
    ensures !Taken(fs.days[w.day], NextBase(fs, w, clock, c.time))
    ensures IsOpen(c.w.index) ==>
      Tracks(c.fs, c.w, NextBase(fs, w, clock, c.time),
        Segment(w.channel, 0, c.time, Accepted(c.time, c.payload, c.result)))
    ensures c.result > 0 ==> IsOpen(c.w.index)
    ensures c.result > 0 ==> Sound(c.w)
  {
    hide IndexBytes, DataBytes, DataRecord, IndexRecord, Committed, Exact, FreshBase, OthersKept;
    var closed := Closed(w);
    var base' := NextBase(fs, w, clock, c.time);
    assert NextBase(fs, closed, clock, c.time) == base';
    ReopenStarts(fs, closed, clock, c.time);
    var (fs1, w1, header) := Reopened(fs, closed, clock, c.time);
    var s' := Segment(w.channel, 0, c.time, []);
    if c.result > 0 {
      assert c.payload[..|c.payload|] == c.payload;
      VariableExtends(fs1, w1, base', s', Record(c.time, c.payload));
      KeptThrough(fs, fs1, c.fs, w.day, base');
    } else if IsOpen(c.w.index) {
      TornKeeps(fs1, w1, c.fs, c.w, base', s');
      KeptThrough(fs, fs1, c.fs, w.day, base');
    }
  }

  // Files that did not exist before do not matter to those that did.
  lemma KeptThrough(fs: Fs, fs1: Fs, fs2: Fs, day: nat, base: string)
    requires day in fs.days && !Taken(fs.days[day], base)
    requires OthersKept(fs, fs1, day, {}) && OthersKept(fs1, fs2, day, {IndexName(base), DataName(base)})
    ensures OthersKept(fs, fs2, day, {})
  {
  }

  lemma VolumeKept(fs: Fs, fs': Fs, day: nat, base: string, v: Volume)
    requires OthersKept(fs, fs', day, {IndexName(base), DataName(base)}) && v.base != base
    requires VolumeStands(fs, day, v)
    ensures VolumeStands(fs', day, v)
  {
    NamesDiffer(base, v.base);
    NamesDiffer(v.base, base);
    KeptCommitted(fs, fs', day, {IndexName(base), DataName(base)}, v.base, v.segment);
  }

  lemma InvStep(fs: Fs, w: WriterState, clock: u64 -> string, c: Call, book: Book)
    requires Inv(fs, w, book) && StepOf(fs, w, clock, c)
    ensures Inv(c.fs, c.w, NextBook(book, fs, w, clock, c))
  {
    if book.current.Some? {
      var v := book.current.value;
      if Rolls(w, c.payload) {
        RollStep(fs, w, clock, c, v.base, v.segment);
        RolledInv(fs, w, clock, c, book);
      } else {
        PlainStep(fs, w, clock, c, v.base, v.segment);
        forall x <- book.closed ensures VolumeStands(c.fs, w.day, x) {
          VolumeKept(fs, c.fs, w.day, v.base, x);
        }
      }
    }
  }

  lemma StandsTaken(fs: Fs, day: nat, v: Volume)
    requires VolumeStands(fs, day, v) && day in fs.days
    ensures Taken(fs.days[day], v.base)
  {
  }

  lemma RolledInv(fs: Fs, w: WriterState, clock: u64 -> string, c: Call, book: Book)
    requires Inv(fs, w, book) && StepOf(fs, w, clock, c)
    requires book.current.Some? && Rolls(w, c.payload)
    ensures Inv(c.fs, c.w, NextBook(book, fs, w, clock, c))
  {
    hide WriteStep, Reopened, NextBase, Committed, Exact, IndexBytes, DataBytes;
    var v := book.current.value;
    RollStep(fs, w, clock, c, v.base, v.segment);
    var finished := v.(clean := Sound(w));
    var done := book.closed + [finished];
    assert VolumeStands(fs, w.day, finished);
    forall x <- done
      ensures VolumeStands(c.fs, w.day, x) && x.base != NextBase(fs, w, clock, c.time)
    {
      assert VolumeStands(fs, w.day, x);
      KeptCommitted(fs, c.fs, w.day, {}, x.base, x.segment);
      StandsTaken(fs, w.day, x);
    }
  }

  function Flatten(vs: seq<Volume>): seq<Record> {
    if vs == [] then [] else Flatten(vs[..|vs| - 1]) + vs[|vs| - 1].segment.records
  }

  // All records a history holds, in the order of their files.
  function Recorded(book: Book): seq<Record> {
    Flatten(book.closed) + match book.current case None => [] case Some(v) => v.segment.records
  }

  lemma RecordedStep(fs: Fs, w: WriterState, clock: u64 -> string, c: Call, book: Book)
    requires Inv(fs, w, book) && StepOf(fs, w, clock, c)
    ensures Recorded(NextBook(book, fs, w, clock, c)) == Recorded(book) + Accepted(c.time, c.payload, c.result)
  {
    if book.current.None? {
      assert Recorded(book) + [] == Recorded(book);
    } else {
      var v := book.current.value;
      var added := Accepted(c.time, c.payload, c.result);
      if Rolls(w, c.payload) {
        RollStep(fs, w, clock, c, v.base, v.segment);
        var done := book.closed + [v.(clean := Sound(w))];
        assert done[..|done| - 1] == book.closed;
        assert Flatten(done) == Recorded(book);
        assert added == [] ==> Recorded(book) + added == Recorded(book);
      } else {
        assert Flatten(book.closed) + (v.segment.records + added) == Flatten(book.closed) + v.segment.records + added;
      }
    }
  }

  // A run: every call starts where the one before ended.
  ghost predicate IsRun(fs: Fs, w: WriterState, clock: u64 -> string, calls: seq<Call>)
    decreases |calls|
  {
    calls == [] || (StepOf(fs, w, clock, calls[0]) && IsRun(calls[0].fs, calls[0].w, clock, calls[1..]))
  }

  ghost function History(fs: Fs, w: WriterState, clock: u64 -> string, calls: seq<Call>, book: Book): Book
    decreases |calls|
  {
    if calls == [] then book
    else History(calls[0].fs, calls[0].w, clock, calls[1..], NextBook(book, fs, w, clock, calls[0]))
  }

  // The records whose writes returned a positive number.
  function Acknowledged(calls: seq<Call>): seq<Record> {
    if calls == [] then []
    else Accepted(calls[0].time, calls[0].payload, calls[0].result) + Acknowledged(calls[1..])
  }

  function EndFs(fs: Fs, calls: seq<Call>): Fs {
    if calls == [] then fs else calls[|calls| - 1].fs
  }

  function EndWriter(w: WriterState, calls: seq<Call>): WriterState {
    if calls == [] then w else calls[|calls| - 1].w
  }

  lemma RestOfRun(fs: Fs, w: WriterState, calls: seq<Call>)
    requires calls != []
    ensures EndFs(calls[0].fs, calls[1..]) == EndFs(fs, calls)
    ensures EndWriter(calls[0].w, calls[1..]) == EndWriter(w, calls)
  {
  }

  // MAIN: over any run of writes, with device failures anywhere and any
  // number of rollovers, the invariant holds at the end and the volumes hold
  // exactly the acknowledged records in order.
  lemma {:induction false} AnyRun(fs: Fs, w: WriterState, clock: u64 -> string, calls: seq<Call>, book: Book, end: Book)
    requires Inv(fs, w, book) && IsRun(fs, w, clock, calls)
    requires end == History(fs, w, clock, calls, book)
    ensures Inv(EndFs(fs, calls), EndWriter(w, calls), end)
    ensures Recorded(end) == Recorded(book) + Acknowledged(calls)
    decreases |calls|
  {
    if calls == [] {
      assert Recorded(book) + [] == Recorded(book);
    } else {
      var c := calls[0];
      var next := NextBook(book, fs, w, clock, c);
      InvStep(fs, w, clock, c, book);
      RecordedStep(fs, w, clock, c, book);
      RestOfRun(fs, w, calls);
      AnyRun(c.fs, c.w, clock, calls[1..], next, end);
      Reassociate(Recorded(book), Accepted(c.time, c.payload, c.result), Acknowledged(calls[1..]));
    }
  }

  // MAIN: in any history kept by such a run, an acknowledged record is read
  // back under its index in its volume for as long as that volume's files
  // stay below 4 GiB.
  lemma AcknowledgedReadable(fs: Fs, w: WriterState, book: Book, v: Volume, k: nat)
    requires Inv(fs, w, book)
    requires v in book.closed || book.current == Some(v)
    requires k < |v.segment.records| && v.segment.records[k].time != 0
    requires |FileOf(fs, w.day, IndexName(v.base))| < TWO32
    requires v.segment.recordSize == 0 ==> |FileOf(fs, w.day, DataName(v.base))| < TWO32
    ensures ReadAt(FileOf(fs, w.day, IndexName(v.base)), FileOf(fs, w.day, DataName(v.base)), k) ==
      Some(v.segment.records[k])
  {
    CommittedRecordsStay(v.segment, FileOf(fs, w.day, IndexName(v.base)), FileOf(fs, w.day, DataName(v.base)), k);
  }

  // MAIN: whatever a writer does later, a read of a recorded index yields
  // that record or nothing - never another one - and it yields the record if
  // and only if both files, as far as 32-bit lengths reach, still cover it.
  lemma CommittedStable(fs: Fs, w: WriterState, book: Book, v: Volume, k: nat)
    requires Inv(fs, w, book)
    requires v in book.closed || book.current == Some(v)
    requires k < |v.segment.records|
    ensures var i, d := FileOf(fs, w.day, IndexName(v.base)), FileOf(fs, w.day, DataName(v.base));
      ReadAt(i, d, k) ==
        if IndexHolds(v.segment, Size32(i), k) && (v.segment.recordSize == 0 ==> DataHolds(v.segment, Size32(d), k)) &&
           v.segment.records[k].time != 0
        then Some(v.segment.records[k]) else None
  {
    var i, d := FileOf(fs, w.day, IndexName(v.base)), FileOf(fs, w.day, DataName(v.base));
    PrefixAgrees(IndexBytes(v.segment), i);
    if v.segment.recordSize == 0 { PrefixAgrees(DataBytes(v.segment), d); }
    ReadWritten(v.segment, i, d, k);
  }
}
