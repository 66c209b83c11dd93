// An index stream that has failed does not stop the data stream: every later
// write appends its data record, fails at the index, and leaves the offset
// where it was, so the overflow check never fires.
module Overgrowth {
  import opened Bytes
  import opened Sequences
  import opened Layout
  import opened Segments
  import opened FileNames
  import opened FileSystems
  import opened WriterSpec
  import opened WriterRuns
  import opened ReaderSpec
  import opened Recovery
  import opened Rollover

  // The writer's index stream is bad, its data stream is not, and the next
  // record of up to size bytes still seems to fit.
  ghost predicate Limping(fs: Fs, w: WriterState, base: string, s: Segment, size: nat) {
    && Tracks(fs, w, base, s) && w.day in fs.days && w.recordSize == 0
    && w.index.value.bad && !w.data.value.bad
    && INDEX_ENTRY + DATA_HEAD + size + w.offset <= TWO32 - 1
    && MaxRecordSize(size) <= INT_MAX
  }

  function Failing(fs: Fs, w: WriterState, r: Record): Call
    requires w.data.Some?
  {
    Call(r.time, r.payload, Appended(fs, w.day, w.data.value.name, DataRecord(r)), w, -EIO)
  }

  lemma FailingStep(fs: Fs, w: WriterState, clock: u64 -> string, base: string, s: Segment, size: nat, r: Record)
    requires Limping(fs, w, base, s, size) && |r.payload| <= size
    ensures var c := Failing(fs, w, r);
      StepOf(fs, w, clock, c) && Limping(c.fs, w, base, s, size) &&
      FileOf(c.fs, w.day, DataName(base)) == FileOf(fs, w.day, DataName(base)) + DataRecord(r) &&
      FileOf(c.fs, w.day, IndexName(base)) == FileOf(fs, w.day, IndexName(base))
  {
    NamesDiffer(base, base);
    var c := Failing(fs, w, r);
    AppendedKeeps(fs, w.day, DataName(base), DataRecord(r));
    UntouchedFile(fs, c.fs, w.day, {DataName(base)}, IndexName(base));
    assert Torn(fs, w, c.fs, w);
    TornKeeps(fs, w, c.fs, w, base, s);
  }

  function FailingCalls(fs: Fs, w: WriterState, rs: seq<Record>): seq<Call>
    requires w.data.Some?
    decreases |rs|
  {
    if rs == [] then [] else [Failing(fs, w, rs[0])] + FailingCalls(Failing(fs, w, rs[0]).fs, w, rs[1..])
  }

  // Such a writer can be kept appending forever.
  lemma {:induction false} FailingRun(fs: Fs, w: WriterState, clock: u64 -> string, base: string, s: Segment,
      size: nat, rs: seq<Record>)
    requires Limping(fs, w, base, s, size) && forall r <- rs :: |r.payload| <= size
    ensures var calls := FailingCalls(fs, w, rs);
      IsRun(fs, w, clock, calls) && Acknowledged(calls) == [] && Limping(EndFs(fs, calls), w, base, s, size) &&
      |FileOf(EndFs(fs, calls), w.day, DataName(base))| == |FileOf(fs, w.day, DataName(base))| + Total(rs)
    decreases |rs|
  {
    var calls := FailingCalls(fs, w, rs);
    if rs != [] {
      FailingStep(fs, w, clock, base, s, size, rs[0]);
      FailingRun(calls[0].fs, w, clock, base, s, size, rs[1..]);
      assert calls[1..] == FailingCalls(calls[0].fs, w, rs[1..]);
      RestOfRun(fs, w, calls);
    }
  }

  function Total(rs: seq<Record>): nat {
    if rs == [] then 0 else DATA_HEAD + |rs[0].payload| + Total(rs[1..])
  }

  function Zeros(n: nat): (b: seq<byte>)
    ensures |b| == n
  {
    seq(n, _ => 0 as byte)
  }

  // n records of up to 2^30 bytes that add up to total bytes of data file.
  function Filler(total: nat, n: nat): (rs: seq<Record>)
    requires n * 100 <= total <= n * 0x4000_0000
    ensures Total(rs) == total && forall r <- rs :: |r.payload| <= 0x4000_0000
  {
    if n == 0 then []
    else
      var part := if total - (n - 1) * 100 < 0x4000_0000 then total - (n - 1) * 100 else 0x4000_0000;
      [Record(1, Zeros(part - DATA_HEAD))] + Filler(total - part, n - 1)
  }

  // Enough failing writes to take a data file of the given length to a
  // multiple of 4 GiB.
  function Overflow(length: nat): (rs: seq<Record>)
    ensures forall r <- rs :: |r.payload| <= 0x4000_0000
    ensures length + Total(rs) == (length / TWO32 + 2) * TWO32
  {
    Filler((length / TWO32 + 2) * TWO32 - length, 8)
  }

  // An acknowledged record of a limping stream can become unreadable, by a
  // run of writes none of which succeeds.  (CommittedStable says exactly when
  // a record stays readable.)
  lemma AcknowledgedCanBeLost(fs: Fs, w: WriterState, clock: u64 -> string, base: string, s: Segment, k: nat,
      calls: seq<Call>)
    requires Limping(fs, w, base, s, 0x4000_0000) && k < |s.records|
    requires calls == FailingCalls(fs, w, Overflow(|FileOf(fs, w.day, DataName(base))|))
    ensures IsRun(fs, w, clock, calls) && Acknowledged(calls) == []
    ensures var end := EndFs(fs, calls);
      ReadAt(FileOf(end, w.day, IndexName(base)), FileOf(end, w.day, DataName(base)), k) == None
  {
    var length := |FileOf(fs, w.day, DataName(base))|;
    FailingRun(fs, w, clock, base, s, 0x4000_0000, Overflow(length));
    UnreadableWhenEmpty(EndFs(fs, calls), w, base, s, k, length / TWO32 + 2);
  }

  lemma UnreadableWhenEmpty(fs: Fs, w: WriterState, base: string, s: Segment, k: nat, n: nat)
    requires Tracks(fs, w, base, s) && w.recordSize == 0 && k < |s.records|
    requires |FileOf(fs, w.day, DataName(base))| == n * TWO32
    ensures ReadAt(FileOf(fs, w.day, IndexName(base)), FileOf(fs, w.day, DataName(base)), k) == None
  {
    var i, d := FileOf(fs, w.day, IndexName(base)), FileOf(fs, w.day, DataName(base));
    TruncateMultiple(n);
    PrefixAgrees(IndexBytes(s), i);
    PrefixAgrees(DataBytes(s), d);
    ReadWritten(s, i, d, k);
  }

  // A write whose data record goes out and whose index entry does not: not a
  // byte of it is written and the stream is bad from then on.
  function IndexFailing(fs: Fs, w: WriterState, r: Record): Call
    requires w.index.Some? && w.data.Some?
  {
    Failing(fs, w, r).(w := w.(index := Some(w.index.value.(bad := true))))
  }

  // One such write makes a sound writer limp.
  lemma IndexFails(fs: Fs, w: WriterState, clock: u64 -> string, base: string, s: Segment, size: nat, r: Record)
    requires Tracks(fs, w, base, s) && Sound(w) && w.day in fs.days && w.recordSize == 0
    requires |r.payload| <= size && INDEX_ENTRY + DATA_HEAD + size + w.offset <= TWO32 - 1
    requires MaxRecordSize(size) <= INT_MAX
    ensures var c := IndexFailing(fs, w, r);
      StepOf(fs, w, clock, c) && c.result <= 0 && Limping(c.fs, c.w, base, s, size)
  {
    NamesDiffer(base, base);
    var c := IndexFailing(fs, w, r);
    AppendedKeeps(fs, w.day, DataName(base), DataRecord(r));
    UntouchedFile(fs, c.fs, w.day, {DataName(base)}, IndexName(base));
    assert Torn(fs, w, c.fs, c.w);
    TornKeeps(fs, w, c.fs, c.w, base, s);
  }

  // The first write of a stream just opened.
  lemma FirstWrite(fs: Fs, w: WriterState, clock: u64 -> string, base: string, s: Segment, r: Record, c: Call)
    requires Tracks(fs, w, base, s) && Sound(w) && w.day in fs.days && w.recordSize == 0 && s.records == []
    requires |r.payload| <= 0x4000_0000 && r.time != 0
    requires (c.time, c.payload) == (r.time, r.payload) &&
      (c.fs, c.w, c.result) == Written(fs, w, clock, r.time, r.payload)
    ensures StepOf(fs, w, clock, c) && c.result > 0 && Sound(c.w) && c.w.day == w.day && c.w.day in c.fs.days
    ensures c.w.recordSize == 0 && c.w.offset == HEADER_SIZE + DATA_HEAD + |r.payload|
    ensures Tracks(c.fs, c.w, base, s.(records := [r]))
    ensures ReadAt(FileOf(c.fs, w.day, IndexName(base)), FileOf(c.fs, w.day, DataName(base)), 0) == Some(r)
  {
    hide ReadAt, IndexBytes, DataBytes, WriteStep, Written;
    var s' := s.(records := [r]);
    assert w.offset == HEADER_SIZE by { assert DataEnd([]) == HEADER_SIZE; }
    WrittenIsStep(fs, w, clock, r.time, r.payload, base, s);
    PlainStep(fs, w, clock, c, base, s);
    AppendNothing(s'.records);
    assert DataEnd(s'.records) == HEADER_SIZE + DATA_HEAD + |r.payload| by { OneRecord(r); }
    SegmentLengths(s');
    CommittedRecordsStay(s', FileOf(c.fs, w.day, IndexName(base)), FileOf(c.fs, w.day, DataName(base)), 0);
  }

  lemma OneRecord(r: Record)
    ensures DataEnd([r]) == HEADER_SIZE + DATA_HEAD + |r.payload|
  {
    DataLenStep([r], 0);
    assert [r][..1] == [r] && [r][..0] == [];
  }

  // MAIN: this happens to a stream from its opening on.  A record r is
  // written, acknowledged and readable; then one index write fails, some
  // more writes follow, none of them acknowledged; and r is unreadable.
  lemma OpenedStreamLoses(fs: Fs, w: WriterState, clock: u64 -> string, r: Record, base: string)
    returns (c: Call, run: seq<Call>)
    requires w.day in fs.days && w.recordSize == 0 && |r.payload| <= 0x4000_0000 && r.time != 0
    requires base == NextBase(fs, w, clock, r.time)
    ensures var (fs1, w1, _) := Reopened(fs, w, clock, r.time);
      IsRun(fs1, w1, clock, run) && run != [] && run[0] == c && c.result > 0 && Acknowledged(run) == [r]
    ensures ReadAt(FileOf(c.fs, w.day, IndexName(base)), FileOf(c.fs, w.day, DataName(base)), 0) == Some(r)
    ensures var end := EndFs(c.fs, run);
      ReadAt(FileOf(end, w.day, IndexName(base)), FileOf(end, w.day, DataName(base)), 0) == None
  {
    hide ReadAt, Reopened, Written, NextBase, StepOf, Tracks, Limping, IndexFailing, FailingCalls, Overflow;
    var (fs1, w1, _) := Reopened(fs, w, clock, r.time);
    var s := Segment(w.channel, 0, r.time, []);
    OpenedTracks(fs, w, clock, r.time);
    var (fs2, w2, result) := Written(fs1, w1, clock, r.time, r.payload);
    c := Call(r.time, r.payload, fs2, w2, result);
    FirstWrite(fs1, w1, clock, base, s, r, c);
    var s' := s.(records := [r]);
    assert c.w.index.Some? && c.w.data.Some? by { TracksOpen(c.fs, c.w, base, s'); }
    IndexFails(c.fs, c.w, clock, base, s', 0x4000_0000, r);
    var d := IndexFailing(c.fs, c.w, r);
    FailureOf(c.fs, c.w, r);
    var calls := FailingCalls(d.fs, d.w, Overflow(|FileOf(d.fs, w.day, DataName(base))|));
    AcknowledgedCanBeLost(d.fs, d.w, clock, base, s', 0, calls);
    run := [c] + ([d] + calls);
    assert run[1..] == [d] + calls && ([d] + calls)[1..] == calls;
    assert IsRun(c.fs, c.w, clock, [d] + calls);
    assert EndFs(c.fs, run) == EndFs(d.fs, calls);
    assert Acknowledged([d] + calls) == [] + Acknowledged(calls);
  }

  lemma TracksOpen(fs: Fs, w: WriterState, base: string, s: Segment)
    requires Tracks(fs, w, base, s) && w.recordSize == 0
    ensures w.index.Some? && w.data.Some?
  {
  }

  lemma FailureOf(fs: Fs, w: WriterState, r: Record)
    requires w.index.Some? && w.data.Some?
    ensures var d := IndexFailing(fs, w, r);
      d.w.day == w.day && d.w.data == w.data && d.result <= 0 && d.w.index.Some?
  {
  }

  lemma OpenedTracks(fs: Fs, w: WriterState, clock: u64 -> string, time: u64)
    requires w.day in fs.days && w.recordSize == 0
    ensures var (fs1, w1, _) := Reopened(fs, w, clock, time);
      && Tracks(fs1, w1, NextBase(fs, w, clock, time), Segment(w.channel, 0, time, []))
      && Sound(w1) && w1.day == w.day && w1.day in fs1.days && w1.recordSize == 0
  {
    ReopenStarts(fs, w, clock, time);
  }
}
