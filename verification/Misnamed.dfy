// Channel names the pairing of files, or the check of their headers, does not
// cope with.
module Misnamed {
  import opened Bytes
  import opened Sequences
  import opened Layout
  import opened Segments
  import opened ReaderSpec
  import opened Recovery
  import opened FileNames
  import opened FreshNames
  import opened FileSystems
  import opened WriterSpec
  import opened WriterRuns
  import opened ScannerSpec
  import opened Ledgers
  import opened Punctuality
  import opened Overgrowth

  lemma OccursBetween(a: string, c: string, z: string, i: nat)
    requires Occurs(c, IDX, i)
    ensures Occurs(a + c + z, IDX, |a| + i)
  {
    assert (a + c + z)[|a| + i..|a| + i + 4] == c[i..i + 4];
  }

  // The base names of a channel contain ".idx" exactly when the channel does.
  lemma NamePlainIff(clock: u64 -> string, channel: string, time: u64, size: u32, suffix: nat)
    requires PlainClock(clock)
    ensures Plain(Name(clock, channel, time, size, suffix)) <==> Plain(channel)
  {
    var b := Name(clock, channel, time, size, suffix);
    if Plain(channel) {
      assert NamedFor(clock, channel, b);
      NamedPlain(clock, channel, b);
    } else {
      var i: nat :| Occurs(channel, IDX, i);
      var a := clock(time) + "_";
      var z := "_" + Decimal(size) + if suffix == 0 then "" else "_" + Decimal(suffix);
      assert b == a + channel + z;
      OccursBetween(a, channel, z, i);
    }
  }

  lemma NextBasePlainIff(fs: Fs, w: WriterState, clock: u64 -> string, time: u64)
    requires PlainClock(clock)
    ensures Plain(NextBase(fs, w, clock, time)) <==> Plain(w.channel)
  {
    NextBaseNamed(fs, w, clock, time);
    var t: u64, size: u32, k: nat :| NextBase(fs, w, clock, time) == Name(clock, w.channel, t, size, k);
    var suffix := FreshSuffix(DirectoryOf(fs, w.day), Stem(clock, w, time), 0);
    assert NextBase(fs, w, clock, time) == Name(clock, w.channel, time, w.recordSize, suffix);
    NamePlainIff(clock, w.channel, time, w.recordSize, suffix);
  }

  // A variable-length stream with one record, acknowledged and complete.
  ghost predicate OneWritten(fs: Fs, w: WriterState, clock: u64 -> string, r: Record, base: string, c: Call) {
    && w.day in fs.days && w.recordSize == 0 && |r.payload| <= 0x4000_0000 && r.time != 0
    && base == NextBase(fs, w, clock, r.time)
    && var (fs1, w1, _) := Reopened(fs, w, clock, r.time);
       (c.time, c.payload) == (r.time, r.payload) && (c.fs, c.w, c.result) == Written(fs1, w1, clock, r.time, r.payload)
  }

  lemma OneWrittenFiles(fs: Fs, w: WriterState, clock: u64 -> string, r: Record, base: string, c: Call)
    requires OneWritten(fs, w, clock, r, base, c)
    ensures var s := Segment(w.channel, 0, r.time, [r]);
      c.result > 0 && WellFormed(s) && FileOf(c.fs, w.day, IndexName(base)) == IndexBytes(s) && |IndexBytes(s)| < TWO32
    ensures ReadAt(FileOf(c.fs, w.day, IndexName(base)), FileOf(c.fs, w.day, DataName(base)), 0) == Some(r)
  {
    hide IndexBytes, DataBytes, ReadAt, Reopened, Written, NextBase, StepOf;
    var (fs1, w1, _) := Reopened(fs, w, clock, r.time);
    OpenedTracks(fs, w, clock, r.time);
    FirstWrite(fs1, w1, clock, base, Segment(w.channel, 0, r.time, []), r, c);
    SegmentLengths(Segment(w.channel, 0, r.time, [r]));
  }

  // An index with one entry, its data file not found.
  lemma WithoutData(s: Segment, r: Record)
    requires WellFormed(s) && s.recordSize == 0 && s.records == [r] && r.time != 0 && |IndexBytes(s)| < TWO32
    ensures ReadAt(IndexBytes(s), [], 0) == None
    ensures StatusOf(IndexBytes(s), []) == if NameBytes(s.channel) == [] then Healthy else HeadersDifferent
    ensures MatchTime(IndexBytes(s), [], r.time, r.time) <==> NameBytes(s.channel) == []
  {
    hide IndexBytes, DataBytes, ReadAt, TimeAt, Count, StatusOf, HeaderOf;
    var index := IndexBytes(s);
    IntactCount(s);
    SegmentLengths(s);
    PrefixAgrees(index, index);
    IndexHeaderSurvives(s, index);
    SpanMonotone(1, 1, INDEX_ENTRY);
    IndexEntrySurvives(s, index, 0);
    MissingDataFile(index, 0);
  }

  // MAIN: a channel with ".idx" in its name: in a directory of its own the
  // record is written, acknowledged and complete, and the reader, looking
  // under another name, finds nothing.
  lemma DottedChannelUnreadable(fs: Fs, w: WriterState, clock: u64 -> string, r: Record, base: string, c: Call)
    requires OneWritten(fs, w, clock, r, base, c) && PlainClock(clock)
    requires fs.days[w.day] == map[] && !Plain(w.channel)
    ensures c.result > 0
    ensures ReadAt(FileOf(c.fs, w.day, IndexName(base)), FileOf(c.fs, w.day, DataName(base)), 0) == Some(r)
    ensures ReadAt(FileOf(c.fs, w.day, IndexName(base)), PairedFile(c.fs, w.day, IndexName(base)), 0) == None
  {
    hide IndexBytes, ReadAt, OneWritten, Plain;
    OneWrittenFiles(fs, w, clock, r, base, c);
    OtherNames(fs, w, clock, r, base, c);
    WithoutData(Segment(w.channel, 0, r.time, [r]), r);
  }

  lemma OtherNames(fs: Fs, w: WriterState, clock: u64 -> string, r: Record, base: string, c: Call)
    requires OneWritten(fs, w, clock, r, base, c) && PlainClock(clock)
    requires fs.days[w.day] == map[] && !Plain(w.channel)
    ensures PairedFile(c.fs, w.day, IndexName(base)) == [] && r.time != 0
  {
    hide HeaderBytes, DataRecord, IndexRecord, FindFrom, Plain;
    NextBasePlainIff(fs, w, clock, r.time);
    PairedNameIff(base);
    NamesDiffer(base, base);
    assert c.fs.days[w.day].Keys == {IndexName(base), DataName(base)};
    match PairedName(IndexName(base)) {
      case None =>
      case Some(name) => PairedIsData(base, name);
    }
  }

  lemma PairedIsData(base: string, name: string)
    requires PairedName(IndexName(base)) == Some(name)
    ensures name != IndexName(base)
  {
    var p := FindFrom(IndexName(base), IDX, 0).value;
    NamesDiffer(base, IndexName(base)[..p]);
  }

  // MAIN: a channel without a name: should its data file get lost, the stream
  // is still listed as healthy, and its record cannot be read.
  lemma NamelessStreamListed(fs: Fs, w: WriterState, clock: u64 -> string, r: Record, base: string, c: Call)
    requires OneWritten(fs, w, clock, r, base, c) && w.channel == ""
    ensures c.result > 0
    ensures ReadAt(FileOf(c.fs, w.day, IndexName(base)), FileOf(c.fs, w.day, DataName(base)), 0) == Some(r)
    ensures var index := FileOf(c.fs, w.day, IndexName(base));
      StatusOf(index, []) == Healthy && MatchTime(index, [], r.time, r.time) && ReadAt(index, [], 0) == None
  {
    hide IndexBytes, ReadAt, OneWritten, StatusOf, MatchTime;
    OneWrittenFiles(fs, w, clock, r, base, c);
    assert r.time != 0 by { OneTime(fs, w, clock, r, base, c); }
    WithoutData(Segment("", 0, r.time, [r]), r);
    assert NameField("")[0] == 0;
  }

  lemma OneTime(fs: Fs, w: WriterState, clock: u64 -> string, r: Record, base: string, c: Call)
    requires OneWritten(fs, w, clock, r, base, c)
    ensures r.time != 0 && w.recordSize == 0
  {
  }
}
