// What failing writes leave behind, and what a reader can make of it: over
// any run nobody ever reads a record that was not handed to the writer.
module Leftovers {
  import opened Bytes
  import opened Sequences
  import opened Layout
  import opened Segments
  import opened FileNames
  import opened FreshNames
  import opened FileSystems
  import opened WriterSpec
  import opened WriterRuns
  import opened ReaderSpec
  import opened Recovery

  // For the files whose index stream has failed, by base name: the record
  // that was being written when it did.
  type Debris = map<string, Record>

  // The index file ends with the segment, or somewhere in the entry of the
  // record that was being written - and then its data is there.
  ghost predicate Leaves(fs: Fs, day: nat, base: string, s: Segment, debris: Debris) {
    var i, d := FileOf(fs, day, IndexName(base)), FileOf(fs, day, DataName(base));
    if base !in debris then i == IndexBytes(s)
    else
      var more := Extend(s, debris[base]);
      && WellFormed(more)
      && IndexBytes(s) <= i <= IndexBytes(more)
      && (s.recordSize == 0 ==> DataBytes(more) <= d)
  }

  // A failing call on files that are in order so far.
  lemma FailedLeaves(
    fs: Fs, w: WriterState, fs': Fs, w': WriterState, base: string, s: Segment, r: Record, debris: Debris)
    requires Tracks(fs, w, base, s) && Failed(fs, w, fs', w', r) && Fits(r.payload)
    requires w.recordSize == 0 ==> !NeedsRollover(w, |r.payload|)
    requires !w.index.value.bad && base !in debris
    ensures Leaves(fs', w.day, base, s, if w'.index.value.bad then debris[base := r] else debris)
  {
    hide IndexBytes, DataBytes, IndexRecord, DataRecord;
    TornKeeps(fs, w, fs', w', base, s);
    if w'.index.value.bad {
      ExtendBytes(s, r);
      IndexRecordOffset(s, r, w.offset);
    }
  }

  lemma IndexRecordOffset(s: Segment, r: Record, offset: nat)
    ensures s.recordSize > 0 || offset == DataEnd(s.records) ==>
      IndexRecord(s.recordSize, r, offset) == IndexRecord(s.recordSize, r, DataEnd(s.records))
  {
  }

  // Once the index stream is bad its file stays as it is.
  lemma BadLeaves(
    fs: Fs, w: WriterState, fs': Fs, w': WriterState, base: string, s: Segment, r: Record, debris: Debris)
    requires Tracks(fs, w, base, s) && Failed(fs, w, fs', w', r)
    requires w.index.value.bad && base in debris && Leaves(fs, w.day, base, s, debris)
    ensures Leaves(fs', w.day, base, s, debris)
  {
    hide IndexBytes, DataBytes, IndexRecord, DataRecord, WellFormed;
    if s.recordSize == 0 {
      PrefixTrans(DataBytes(Extend(s, debris[base])), FileOf(fs, w.day, DataName(base)),
        FileOf(fs', w.day, DataName(base)));
    }
  }

  // Files nobody touches keep their leftovers.
  lemma LeavesKept(fs: Fs, fs': Fs, day: nat, touched: set<string>, base: string, s: Segment, debris: Debris,
      debris': Debris)
    requires OthersKept(fs, fs', day, touched) && IndexName(base) !in touched && DataName(base) !in touched
    requires Committed(fs, day, base, s) && Leaves(fs, day, base, s, debris)
    requires base in debris <==> base in debris'
    requires base in debris ==> debris'[base] == debris[base]
    ensures Leaves(fs', day, base, s, debris')
  {
    hide IndexBytes, DataBytes, WellFormed;
  }

  ghost function NextDebris(debris: Debris, book: Book, fs: Fs, w: WriterState, clock: u64 -> string, c: Call): Debris {
    match book.current
    case None => debris
    case Some(v) =>
      var r := Record(c.time, c.payload);
      if !Rolls(w, c.payload) then
        if c.w.index.Some? && c.w.index.value.bad && v.base !in debris then debris[v.base := r] else debris
      else
        var b := NextBase(fs, w, clock, c.time);
        if IsOpen(c.w.index) && c.w.index.value.bad then debris[b := r] else debris - {b}
  }

  ghost predicate AllLeave(fs: Fs, day: nat, vs: seq<Volume>, debris: Debris) {
    forall v <- vs :: Leaves(fs, day, v.base, v.segment, debris)
  }

  // The invariant of WriterRuns, and what is behind the committed records.
  ghost predicate Accounted(fs: Fs, w: WriterState, book: Book, debris: Debris) {
    && Inv(fs, w, book)
    && AllLeave(fs, w.day, book.closed, debris)
    && (book.current.Some? ==>
          var v := book.current.value;
          && Leaves(fs, w.day, v.base, v.segment, debris)
          && w.index.Some? && (v.base in debris <==> w.index.value.bad))
  }

  lemma PlainLeaves(fs: Fs, w: WriterState, clock: u64 -> string, c: Call, base: string, s: Segment, debris: Debris)
    requires Tracks(fs, w, base, s) && w.day in fs.days && StepOf(fs, w, clock, c) && !Rolls(w, c.payload)
    requires Leaves(fs, w.day, base, s, debris) && (base in debris <==> w.index.value.bad)
    ensures c.w.index.Some? && c.w.day == w.day
    ensures var debris' := if c.w.index.value.bad && base !in debris
        then debris[base := Record(c.time, c.payload)] else debris;
      var s' := s.(records := s.records + Accepted(c.time, c.payload, c.result));
      Leaves(c.fs, w.day, base, s', debris') && (base in debris' <==> c.w.index.value.bad)
  {
    hide IndexBytes, DataBytes, Leaves, Torn, Spilled, Committed, Exact, WellFormed, Reopened, NextBase,
         AppendedVariable,
         IndexRecord, Appended;
    PlainStep(fs, w, clock, c, base, s);
    var r := Record(c.time, c.payload);
    if c.result > 0 {
      AcknowledgedSound(fs, w, clock, c);
      TracksExact(c.fs, c.w, base, s.(records := s.records + [r]), debris);
    } else {
      AppendNothing(s.records);
      FailedBad(fs, w, c.fs, c.w, r);
      if w.index.value.bad {
        BadLeaves(fs, w, c.fs, c.w, base, s, r, debris);
      } else {
        FailedLeaves(fs, w, c.fs, c.w, base, s, r, debris);
      }
    }
  }

  lemma AcknowledgedSound(fs: Fs, w: WriterState, clock: u64 -> string, c: Call)
    requires w.index.Some? && StepOf(fs, w, clock, c) && !Rolls(w, c.payload) && c.result > 0
    ensures c.w.index == w.index && !w.index.value.bad
  {
    hide Reopened, Appended, IndexRecord, DataRecord;
  }

  lemma ReopenedDay(fs: Fs, w: WriterState, clock: u64 -> string, time: u64)
    ensures Reopened(fs, w, clock, time).1.day == w.day
  {
    hide NextBase, HeaderBytes;
  }

  lemma FailedBad(fs: Fs, w: WriterState, fs': Fs, w': WriterState, r: Record)
    requires w.index.Some? && Failed(fs, w, fs', w', r)
    ensures w'.index.Some? && (w.index.value.bad ==> w'.index.value.bad)
  {
  }

  lemma TracksExact(fs: Fs, w: WriterState, base: string, s: Segment, debris: Debris)
    requires Tracks(fs, w, base, s) && !w.index.value.bad && base !in debris
    ensures Leaves(fs, w.day, base, s, debris)
  {
  }

  // The volume a rollover starts.
  lemma RollLeaves(fs: Fs, w: WriterState, clock: u64 -> string, c: Call, base: string, s: Segment, debris: Debris)
    requires Tracks(fs, w, base, s) && w.day in fs.days && StepOf(fs, w, clock, c) && Rolls(w, c.payload)
    requires IsOpen(c.w.index)
    ensures var b := NextBase(fs, w, clock, c.time);
      var debris' := if c.w.index.value.bad then debris[b := Record(c.time, c.payload)] else debris - {b};
      Leaves(c.fs, w.day, b, Segment(w.channel, 0, c.time, Accepted(c.time, c.payload, c.result)), debris')
  {
    hide IndexBytes, DataBytes, Leaves, Torn, Spilled, Committed, Exact, WellFormed, Reopened, NextBase,
         AppendedVariable,
         IndexRecord, Appended, OthersKept;
    RollStep(fs, w, clock, c, base, s);
    var b, closed := NextBase(fs, w, clock, c.time), Closed(w);
    var r := Record(c.time, c.payload);
    assert b == NextBase(fs, closed, clock, c.time) by { ClosedBase(fs, w, clock, c.time); }
    ReopenStarts(fs, closed, clock, c.time);
    var (fs1, w1, _) := Reopened(fs, closed, clock, c.time);
    if c.result > 0 {
      TracksExact(c.fs, c.w, b, Segment(w.channel, 0, c.time, [r]), debris - {b});
    } else {
      ReopenedDay(fs, closed, clock, c.time);
      FailedLeaves(fs1, w1, c.fs, c.w, b, Segment(w.channel, 0, c.time, []), r, debris - {b});
      assert (debris - {b})[b := r] == debris[b := r];
    }
  }

  lemma ClosedBase(fs: Fs, w: WriterState, clock: u64 -> string, time: u64)
    ensures NextBase(fs, Closed(w), clock, time) == NextBase(fs, w, clock, time)
  {
  }

  lemma AllLeaveKept(
    fs: Fs, fs': Fs, day: nat, vs: seq<Volume>, base: string, debris: Debris, debris': Debris)
    requires OthersKept(fs, fs', day, {IndexName(base), DataName(base)}) && AllLeave(fs, day, vs, debris)
    requires forall v <- vs :: v.base != base && VolumeStands(fs, day, v)
    requires debris' - {base} == debris - {base}
    ensures AllLeave(fs', day, vs, debris')
  {
    hide Leaves, Committed, Exact;
    forall v <- vs ensures Leaves(fs', day, v.base, v.segment, debris') {
      NamesDiffer(base, v.base);
      NamesDiffer(v.base, base);
      assert v.base in debris <==> v.base in debris - {base};
      assert v.base in debris' <==> v.base in debris' - {base};
      if v.base in debris { assert (debris - {base})[v.base] == debris[v.base]; }
      LeavesKept(fs, fs', day, {IndexName(base), DataName(base)}, v.base, v.segment, debris, debris');
    }
  }

  lemma PlainAccounted(fs: Fs, w: WriterState, clock: u64 -> string, c: Call, book: Book, debris: Debris)
    requires Accounted(fs, w, book, debris) && StepOf(fs, w, clock, c)
    requires book.current.Some? && !Rolls(w, c.payload)
    ensures Accounted(c.fs, c.w, NextBook(book, fs, w, clock, c), NextDebris(debris, book, fs, w, clock, c))
  {
    hide Leaves, WriteStep, Committed, Exact, Tracks, OnlyGrown;
    var v := book.current.value;
    InvStep(fs, w, clock, c, book);
    PlainStep(fs, w, clock, c, v.base, v.segment);
    PlainLeaves(fs, w, clock, c, v.base, v.segment, debris);
    GrownKept(fs, c.fs, w.day, {IndexName(v.base), DataName(v.base)});
    AllLeaveKept(fs, c.fs, w.day, book.closed, v.base, debris, NextDebris(debris, book, fs, w, clock, c));
  }

  lemma GrownKept(fs: Fs, fs': Fs, day: nat, touched: set<string>)
    requires OnlyGrown(fs, fs', day, touched)
    ensures OthersKept(fs, fs', day, touched)
  {
  }

  lemma WiderKept(fs: Fs, fs': Fs, day: nat, touched: set<string>)
    requires OthersKept(fs, fs', day, {})
    ensures OthersKept(fs, fs', day, touched)
  {
  }

  lemma RolledAccounted(fs: Fs, w: WriterState, clock: u64 -> string, c: Call, book: Book, debris: Debris)
    requires Accounted(fs, w, book, debris) && StepOf(fs, w, clock, c)
    requires book.current.Some? && Rolls(w, c.payload)
    ensures Accounted(c.fs, c.w, NextBook(book, fs, w, clock, c), NextDebris(debris, book, fs, w, clock, c))
  {
    hide Leaves, WriteStep, Committed, Exact, Tracks, OthersKept, NextBase, StepOf;
    var v, b := book.current.value, NextBase(fs, w, clock, c.time);
    InvStep(fs, w, clock, c, book);
    RollStep(fs, w, clock, c, v.base, v.segment);
    var done := book.closed + [v.(clean := Sound(w))];
    assert Inv(fs, w, book.(closed := book.closed));
    RolledStand(fs, w, book, done, b);
    WiderKept(fs, c.fs, w.day, {IndexName(b), DataName(b)});
    assert AllLeave(fs, w.day, done, debris);
    AllLeaveKept(fs, c.fs, w.day, done, b, debris, NextDebris(debris, book, fs, w, clock, c));
    if IsOpen(c.w.index) {
      RollLeaves(fs, w, clock, c, v.base, v.segment, debris);
    }
  }

  lemma RolledStand(fs: Fs, w: WriterState, book: Book, done: seq<Volume>, b: string)
    requires Inv(fs, w, book) && book.current.Some? && !Taken(fs.days[w.day], b)
    requires done == book.closed + [book.current.value.(clean := Sound(w))]
    ensures forall v <- done :: v.base != b && VolumeStands(fs, w.day, v)
  {
    forall v <- done ensures v.base != b && VolumeStands(fs, w.day, v) {
      assert VolumeStands(fs, w.day, v);
      StandsTaken(fs, w.day, v);
    }
  }

  lemma AccountedStep(fs: Fs, w: WriterState, clock: u64 -> string, c: Call, book: Book, debris: Debris)
    requires Accounted(fs, w, book, debris) && StepOf(fs, w, clock, c)
    ensures Accounted(c.fs, c.w, NextBook(book, fs, w, clock, c), NextDebris(debris, book, fs, w, clock, c))
  {
    if book.current.Some? {
      hide Accounted, StepOf, NextBook, NextDebris;
      if Rolls(w, c.payload) {
        RolledAccounted(fs, w, clock, c, book, debris);
      } else {
        PlainAccounted(fs, w, clock, c, book, debris);
      }
    }
  }

  ghost function RunDebris(
    debris: Debris, book: Book, fs: Fs, w: WriterState, clock: u64 -> string, calls: seq<Call>): Debris
    decreases |calls|
  {
    if calls == [] then debris
    else
      var c := calls[0];
      RunDebris(NextDebris(debris, book, fs, w, clock, c), NextBook(book, fs, w, clock, c), c.fs, c.w, clock,
        calls[1..])
  }

  // What is in the debris was handed to a call that failed.
  ghost predicate Failures(debris: Debris, calls: seq<Call>) {
    forall b <- debris :: exists c <- calls :: c.result <= 0 && debris[b] == Record(c.time, c.payload)
  }

  // MAIN: over any run of writes, with failures anywhere, every file is
  // accounted for to its last index entry.
  lemma {:induction false} AccountedRun(
    fs: Fs, w: WriterState, clock: u64 -> string, calls: seq<Call>, book: Book, debris: Debris, end: Debris)
    requires Accounted(fs, w, book, debris) && IsRun(fs, w, clock, calls)
    requires end == RunDebris(debris, book, fs, w, clock, calls)
    ensures Accounted(EndFs(fs, calls), EndWriter(w, calls), History(fs, w, clock, calls, book), end)
    decreases |calls|
  {
    hide Accounted, NextBook, NextDebris, StepOf;
    if calls != [] {
      var c := calls[0];
      AccountedStep(fs, w, clock, c, book, debris);
      RestOfRun(fs, w, calls);
      AccountedRun(
        c.fs, c.w, clock, calls[1..], NextBook(book, fs, w, clock, c), NextDebris(debris, book, fs, w, clock, c), end);
    }
  }

  // MAIN: whatever index is asked for, a volume yields the record it has
  // under that index, or - one behind its last - the record of the call on
  // which its index stream failed, or nothing.
  lemma NothingInvented(fs: Fs, w: WriterState, book: Book, debris: Debris, v: Volume, k: nat)
    requires Accounted(fs, w, book, debris) && (v in book.closed || book.current == Some(v))
    ensures var read := ReadAt(FileOf(fs, w.day, IndexName(v.base)), FileOf(fs, w.day, DataName(v.base)), k);
      || read == None
      || (k < |v.segment.records| && read == Some(v.segment.records[k]))
      || (k == |v.segment.records| && v.base in debris && read == Some(debris[v.base]))
  {
    hide IndexBytes, DataBytes, ReadAt, Inv;
    assert Leaves(fs, w.day, v.base, v.segment, debris);
    assert Committed(fs, w.day, v.base, v.segment) by { VolumeCommitted(fs, w, book, v); }
    var i, d := FileOf(fs, w.day, IndexName(v.base)), FileOf(fs, w.day, DataName(v.base));
    if v.base in debris {
      var more := Extend(v.segment, debris[v.base]);
      PrefixAgrees(i, IndexBytes(more));
      if more.recordSize == 0 { PrefixAgrees(DataBytes(more), d); }
      ReadOrNothing(more, i, d, k);
      AppendOne(v.segment.records, debris[v.base]);
    } else {
      PrefixAgrees(i, IndexBytes(v.segment));
      if v.segment.recordSize == 0 { PrefixAgrees(DataBytes(v.segment), d); }
      ReadOrNothing(v.segment, i, d, k);
    }
  }

  lemma VolumeCommitted(fs: Fs, w: WriterState, book: Book, v: Volume)
    requires Inv(fs, w, book) && (v in book.closed || book.current == Some(v))
    ensures Committed(fs, w.day, v.base, v.segment)
  {
    if v in book.closed { assert VolumeStands(fs, w.day, v); }
  }

  lemma ReadOrNothing(s: Segment, i: seq<byte>, d: seq<byte>, k: nat)
    requires WellFormed(s) && i <= IndexBytes(s) && Agree(i, IndexBytes(s))
    requires s.recordSize == 0 ==> Agree(d, DataBytes(s))
    ensures ReadAt(i, d, k) == None || (k < |s.records| && ReadAt(i, d, k) == Some(s.records[k]))
  {
    hide IndexBytes, DataBytes, ReadAt;
    if k < |s.records| {
      ReadWritten(s, i, d, k);
    } else {
      SegmentLengths(s);
      CountIs(s, i, k);
      SpanMonotone(|s.records| + 1, k + 1, Width(s.recordSize));
      NothingBeyond(i, d, k);
    }
  }

  // A stream just opened is accounted for, with no debris.
  lemma OpeningAccounted(fs: Fs, w: WriterState, clock: u64 -> string, time: u64)
    requires w.day in fs.days && (w.recordSize > 0 ==> w.data.None?)
    ensures var (fs1, w1, _) := Reopened(fs, w, clock, time);
      var base := NextBase(fs, w, clock, time);
      Accounted(fs1, w1, Book([], Some(Volume(base, Segment(w.channel, w.recordSize, time, []), true))), map[])
  {
    hide IndexBytes, DataBytes;
    ReopenStarts(fs, w, clock, time);
  }

  lemma {:induction false} RunFailures(
    debris: Debris, book: Book, fs: Fs, w: WriterState, clock: u64 -> string, calls: seq<Call>, before: seq<Call>)
    requires Accounted(fs, w, book, debris) && IsRun(fs, w, clock, calls) && Failures(debris, before)
    ensures Failures(RunDebris(debris, book, fs, w, clock, calls), before + calls)
    decreases |calls|
  {
    hide Accounted, NextBook, NextDebris, StepOf, Failures;
    if calls == [] {
      AppendNothing(before);
    } else {
      var c := calls[0];
      AccountedStep(fs, w, clock, c, book, debris);
      NextFailures(debris, book, fs, w, clock, c, before);
      RunFailures(
        NextDebris(debris, book, fs, w, clock, c), NextBook(book, fs, w, clock, c), c.fs, c.w, clock, calls[1..],
          before + [c]);
      HeadAndTail(calls);
      Reassociate(before, [c], calls[1..]);
    }
  }

  lemma NextFailures(debris: Debris, book: Book, fs: Fs, w: WriterState, clock: u64 -> string, c: Call,
      before: seq<Call>)
    requires Accounted(fs, w, book, debris) && StepOf(fs, w, clock, c) && Failures(debris, before)
    ensures Failures(NextDebris(debris, book, fs, w, clock, c), before + [c])
  {
    hide Leaves, Inv, AllLeave, Torn, Spilled, Reopened, Written;
    var debris' := NextDebris(debris, book, fs, w, clock, c);
    forall b <- debris'
      ensures exists x <- before + [c] :: x.result <= 0 && debris'[b] == Record(x.time, x.payload)
    {
      assert c in before + [c];
      if b in debris && debris'[b] == debris[b] {
        var x :| x in before && x.result <= 0 && debris[b] == Record(x.time, x.payload);
        assert x in before + [c];
      } else {
        assert c.w.index.Some? && c.w.index.value.bad && debris'[b] == Record(c.time, c.payload);
        assert c.result <= 0;
      }
    }
  }

  // MAIN: so over any run from an opening on, with failures anywhere, every
  // record anybody can read from any of the writer's files was handed to it:
  // it was acknowledged, or its call failed.
  lemma OnlyRequestedRead(
    fs: Fs, w: WriterState, clock: u64 -> string, time: u64, calls: seq<Call>, end: Book, v: Volume, k: nat, r: Record)
    requires w.day in fs.days && (w.recordSize > 0 ==> w.data.None?)
    requires var (fs1, w1, _) := Reopened(fs, w, clock, time);
      var base := NextBase(fs, w, clock, time);
      var book := Book([], Some(Volume(base, Segment(w.channel, w.recordSize, time, []), true)));
      && IsRun(fs1, w1, clock, calls) && end == History(fs1, w1, clock, calls, book)
      && (v in end.closed || end.current == Some(v))
      && var fs2 := EndFs(fs1, calls);
         var day := EndWriter(w1, calls).day;
         ReadAt(FileOf(fs2, day, IndexName(v.base)), FileOf(fs2, day, DataName(v.base)), k) == Some(r)
    ensures r in v.segment.records || exists c <- calls :: c.result <= 0 && r == Record(c.time, c.payload)
  {
    hide Accounted, History, RunDebris, IsRun, ReadAt, Reopened, NextBase;
    var (fs1, w1, _) := Reopened(fs, w, clock, time);
    var book := Book([], Some(Volume(NextBase(fs, w, clock, time), Segment(w.channel, w.recordSize, time, []), true)));
    var debris := RunDebris(map[], book, fs1, w1, clock, calls);
    OpeningAccounted(fs, w, clock, time);
    AccountedRun(fs1, w1, clock, calls, book, map[], debris);
    assert Failures(map[], []);
    RunFailures(map[], book, fs1, w1, clock, calls, []);
    AppendNothing(calls);
    NothingInvented(EndFs(fs1, calls), EndWriter(w1, calls), end, debris, v, k);
  }
}
