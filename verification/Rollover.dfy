// Runs of a stream writer on a device that never fails: reading all files
// back gives what was written.
module Rollover {
  import opened Bytes
  import opened Sequences
  import opened Layout
  import opened Segments
  import opened FileNames
  import opened FileSystems
  import opened WriterSpec
  import opened WriterRuns
  import opened ReaderSpec
  import opened Recovery

  // Without failures a call of write is a possible call of write.
  lemma WrittenIsStep(fs: Fs, w: WriterState, clock: u64 -> string, time: u64, payload: seq<byte>, base: string,
      s: Segment)
    requires Tracks(fs, w, base, s) && Sound(w) && Fits(payload) && w.day in fs.days
    ensures var (fs', w', r) := Written(fs, w, clock, time, payload);
      WriteStep(fs, w, clock, time, payload, fs', w', r) && Sound(w') &&
      (r > 0 <==> w.recordSize == 0 || |payload| == w.recordSize)
  {
    if Rolls(w, payload) {
      ReopenStarts(fs, Closed(w), clock, time);
    }
  }

  // When a write is refused on a device that never fails, and that it then
  // leaves everything as it was.
  lemma WriteRefusedIff(fs: Fs, w: WriterState, clock: u64 -> string, time: u64, payload: seq<byte>)
    requires Fits(payload) && w.day in fs.days
    ensures var (fs', w', r) := Written(fs, w, clock, time, payload);
      && (r <= 0 <==> !IsOpen(w.index) || (if w.recordSize > 0 then |payload| != w.recordSize else !IsOpen(w.data)))
      && (r <= 0 ==> r == -22 && fs' == fs && w' == w)
  {
  }

  // A writer whose files have been closed writes nothing.
  lemma ClosedRefuses(fs: Fs, w: WriterState, clock: u64 -> string, time: u64, payload: seq<byte>)
    ensures Written(fs, Closed(w), clock, time, payload) == (fs, Closed(w), -22)
  {
  }

  // A new set of files is started exactly when the data file, the two record
  // heads and the payload would go beyond the largest 32-bit number together.
  lemma RollsIff(fs: Fs, w: WriterState, clock: u64 -> string, time: u64, payload: seq<byte>, base: string, s: Segment)
    requires Tracks(fs, w, base, s) && Sound(w) && Fits(payload) && w.day in fs.days && w.recordSize == 0
    ensures Written(fs, w, clock, time, payload).1.index != w.index <==>
      12 + 12 + |payload| + |FileOf(fs, w.day, DataName(base))| > 0xFFFF_FFFF
  {
    hide IndexBytes, DataBytes, Appended, IndexRecord, DataRecord, HeaderBytes;
    SegmentLengths(s);
    if Rolls(w, payload) {
      ReopenStarts(fs, Closed(w), clock, time);
    }
  }

  // The calls a sequence of records leads to.
  ghost function FaultFree(fs: Fs, w: WriterState, clock: u64 -> string, rs: seq<Record>): (calls: seq<Call>)
    decreases |rs|
  {
    if rs == [] then []
    else
      var (fs', w', r) := Written(fs, w, clock, rs[0].time, rs[0].payload);
      [Call(rs[0].time, rs[0].payload, fs', w', r)] + FaultFree(fs', w', clock, rs[1..])
  }

  ghost predicate AllClean(vs: seq<Volume>) {
    forall v <- vs :: v.clean && v.segment.recordSize == 0
  }

  // Along a run of a variable-length writer every write succeeds and every
  // volume is left clean.
  lemma {:induction false} FaultFreeRun(
    fs: Fs, w: WriterState, clock: u64 -> string, rs: seq<Record>, book: Book, calls: seq<Call>, end: Book)
    requires Inv(fs, w, book) && book.current.Some? && Sound(w) && w.recordSize == 0 && AllClean(book.closed)
    requires forall r <- rs :: Fits(r.payload)
    requires calls == FaultFree(fs, w, clock, rs) && end == History(fs, w, clock, calls, book)
    ensures IsRun(fs, w, clock, calls) && Acknowledged(calls) == rs
    ensures Sound(EndWriter(w, calls)) && EndWriter(w, calls).day == w.day
    ensures AllClean(end.closed) && end.current.Some? && end.current.value.segment.recordSize == 0
    decreases |rs|
  {
    if rs != [] {
      var v := book.current.value;
      var c := calls[0];
      var rest := FaultFree(c.fs, c.w, clock, rs[1..]);
      assert calls[1..] == rest;
      WrittenIsStep(fs, w, clock, c.time, c.payload, v.base, v.segment);
      FaultFreeStep(fs, w, clock, c, book);
      FaultFreeRun(c.fs, c.w, clock, rs[1..], NextBook(book, fs, w, clock, c), rest, end);
      RestOfRun(fs, w, calls);
      HeadAndTail(rs);
    }
  }

  lemma FaultFreeStep(fs: Fs, w: WriterState, clock: u64 -> string, c: Call, book: Book)
    requires Inv(fs, w, book) && book.current.Some? && Sound(w) && w.recordSize == 0 && AllClean(book.closed)
    requires StepOf(fs, w, clock, c) && c.result > 0
    ensures var next := NextBook(book, fs, w, clock, c);
      Inv(c.fs, c.w, next) && next.current.Some? && AllClean(next.closed)
    ensures c.w.recordSize == 0 && c.w.day == w.day && Sound(c.w)
  {
    hide WriteStep, Written, Committed, Exact, NextBase, Reopened;
    InvStep(fs, w, clock, c, book);
    var v := book.current.value;
    if Rolls(w, c.payload) {
      RollStep(fs, w, clock, c, v.base, v.segment);
    } else {
      PlainStep(fs, w, clock, c, v.base, v.segment);
    }
  }

  // What the readers return from the files of vs, file after file.
  function ReadBack(fs: Fs, day: nat, vs: seq<Volume>): seq<Record> {
    if vs == [] then []
    else
      var v := vs[|vs| - 1];
      ReadBack(fs, day, vs[..|vs| - 1]) +
        ReadFrom(FileOf(fs, day, IndexName(v.base)), FileOf(fs, day, DataName(v.base)), 0)
  }

  lemma {:induction false} ReadBackIs(fs: Fs, day: nat, vs: seq<Volume>)
    requires forall v <- vs :: Exact(fs, day, v.base, v.segment) && v.segment.recordSize == 0
    requires forall r <- Flatten(vs) :: r.time != 0
    ensures ReadBack(fs, day, vs) == Flatten(vs)
  {
    if vs != [] {
      var v := vs[|vs| - 1];
      assert forall r <- v.segment.records :: r in Flatten(vs);
      SegmentLengths(v.segment);
      RoundTrip(v.segment);
      ReadBackIs(fs, day, vs[..|vs| - 1]);
    }
  }

  // The history of a writer that has just opened its files.
  function Opening(base: string, w: WriterState, time: u64): Book {
    Book([], Some(Volume(base, Segment(w.channel, w.recordSize, time, []), true)))
  }

  // MAIN: open a variable-length stream, write any records - any number of
  // offset overflows included - and read all of its files back in the order
  // of their creation: the result is the sequence of written records.
  lemma RolloverRefinement(fs: Fs, w: WriterState, clock: u64 -> string, time: u64, rs: seq<Record>)
    requires w.day in fs.days && w.recordSize == 0
    requires forall r <- rs :: Fits(r.payload) && r.time != 0
    ensures var (fs1, w1, _) := Reopened(fs, w, clock, time);
      var calls := FaultFree(fs1, w1, clock, rs);
      var end := History(fs1, w1, clock, calls, Opening(NextBase(fs, w, clock, time), w, time));
      end.current.Some? && ReadBack(EndFs(fs1, calls), w.day, end.closed + [end.current.value]) == rs
  {
    ReopenStarts(fs, w, clock, time);
    var (fs1, w1, _) := Reopened(fs, w, clock, time);
    var book := Opening(NextBase(fs, w, clock, time), w, time);
    var calls := FaultFree(fs1, w1, clock, rs);
    var end := History(fs1, w1, clock, calls, book);
    FaultFreeRun(fs1, w1, clock, rs, book, calls, end);
    AnyRun(fs1, w1, clock, calls, book, end);
    AppendNothing(rs);
    WholeBookReadBack(EndFs(fs1, calls), EndWriter(w1, calls), end);
  }

  lemma WholeBookReadBack(fs: Fs, w: WriterState, book: Book)
    requires Inv(fs, w, book) && book.current.Some? && AllClean(book.closed) && Sound(w)
    requires book.current.value.segment.recordSize == 0
    requires forall r <- Recorded(book) :: r.time != 0
    ensures ReadBack(fs, w.day, book.closed + [book.current.value]) == Recorded(book)
  {
    var all := book.closed + [book.current.value];
    AppendOne(book.closed, book.current.value);
    ReadBackIs(fs, w.day, all);
  }
}
