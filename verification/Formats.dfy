// The bytes of the store's files, spelled out.
module Formats {
  import opened Bytes
  import opened Layout
  import opened Segments
  import opened FileNames
  import opened FreshNames
  import opened FileSystems
  import opened WriterSpec
  import opened Framing

  // What the name array of a header holds: the name, cut at 32 bytes or
  // filled up with zeros.
  ghost predicate HoldsName(name: seq<byte>, channel: string) {
    && |name| == 32
    && forall i :: 0 <= i < 32 ==> name[i] as int == if i < |channel| then channel[i] as int % 256 else 0
  }

  lemma HeaderHolds(channel: string, recordSize: u32, time: u64, kind: byte)
    ensures var h := DecodeHeader(EncodeHeader(FileHeader(channel, recordSize, time, kind)));
      && (h.headerSize, h.timestamp, h.recordSize) == (49, time, recordSize)
      && (h.major, h.minor, h.fileType) == (1, 0, kind) && HoldsName(h.name, channel)
  {
    HeaderRoundTrip(FileHeader(channel, recordSize, time, kind));
  }

  // MAIN: what a stream's new files hold, from their first byte to their last.
  lemma OpenedFiles(fs: Fs, w: WriterState, clock: u64 -> string, time: u64)
    requires w.day in fs.days
    ensures var base := NextBase(fs, w, clock, time);
      var fs' := Reopened(fs, w, clock, time).0;
      var index := FileOf(fs', w.day, base + ".idx");
      && |index| == 49
      && var h := DecodeHeader(index);
         && (h.headerSize, h.timestamp, h.recordSize) == (49, time, w.recordSize)
         && (h.major, h.minor, h.fileType) == (1, 0, 1) && HoldsName(h.name, w.channel)
    ensures var base := NextBase(fs, w, clock, time);
      var fs' := Reopened(fs, w, clock, time).0;
      w.recordSize == 0 ==>
        var data := FileOf(fs', w.day, base + ".data");
        && |data| == 49
        && var h := DecodeHeader(data);
           && (h.headerSize, h.timestamp, h.recordSize) == (49, time, 0)
           && (h.major, h.minor, h.fileType) == (1, 0, 2) && HoldsName(h.name, w.channel)
  {
    hide NextBase, EncodeHeader, DecodeHeader;
    var base := NextBase(fs, w, clock, time);
    NamesDiffer(base, base);
    HeaderHolds(w.channel, w.recordSize, time, INDEX_FILE);
    HeaderHolds(w.channel, w.recordSize, time, DATA_FILE);
  }

  // The name of a stream's first file in a directory where it is free.
  lemma FirstName(fs: Fs, w: WriterState, clock: u64 -> string, time: u64)
    requires w.day in fs.days && fs.days[w.day] == map[]
    ensures NextBase(fs, w, clock, time) == clock(time) + "_" + w.channel + "_" + Decimal(w.recordSize)
  {
    FreshSuffixIsFirst(fs.days[w.day], Stem(clock, w, time), 0);
  }

  // The name of the next one, under the same clock reading.
  lemma SecondName(fs: Fs, w: WriterState, clock: u64 -> string, time: u64)
    requires w.day in fs.days
    requires var first := clock(time) + "_" + w.channel + "_" + Decimal(w.recordSize);
      (first + ".idx" in fs.days[w.day] || first + ".data" in fs.days[w.day]) &&
      first + "_1.idx" !in fs.days[w.day] && first + "_1.data" !in fs.days[w.day]
    ensures NextBase(fs, w, clock, time) == clock(time) + "_" + w.channel + "_" + Decimal(w.recordSize) + "_1"
  {
    var first, dir := clock(time) + "_" + w.channel + "_" + Decimal(w.recordSize), fs.days[w.day];
    assert Decimal(1) == "1";
    assert Candidate(first, 0) == first && Candidate(first, 1) == first + "_" + "1";
    assert first + "_" + "1" == first + "_1";
    assert first + "_1" + ".idx" == first + "_1.idx" && first + "_1" + ".data" == first + "_1.data";
    FreshSuffixIsFirst(dir, first, 1);
  }

  lemma Bytes2(n: nat)
    ensures LE(n, 2) == [(n % 256) as byte, (n / 256 % 256) as byte]
  {
    assert LE(n, 2) == [(n % 256) as byte] + LE(n / 256, 1);
  }

  lemma Bytes4(n: nat)
    ensures LE(n, 4) == [(n % 256) as byte, (n / 256 % 256) as byte, (n / 256 / 256 % 256) as byte,
      (n / 256 / 256 / 256 % 256) as byte]
  {
    var m := n / 256 / 256;
    assert LE(n, 4) == [(n % 256) as byte] + LE(n / 256, 3);
    assert LE(n / 256, 3) == [(n / 256 % 256) as byte] + LE(m, 2);
    Bytes2(m);
  }

  lemma Bytes8(n: nat)
    ensures LE(n, 8) == LE(n, 4) + LE(n / 256 / 256 / 256 / 256, 4)
  {
    var a, b, c := n / 256, n / 256 / 256, n / 256 / 256 / 256;
    LowestFirst(n, 8);
    LowestFirst(a, 7);
    LowestFirst(b, 6);
    LowestFirst(c, 5);
    hide LE;
    Bytes4(n);
  }

  lemma LowestFirst(n: nat, width: nat)
    requires width > 0
    ensures LE(n, width) == [(n % 256) as byte] + LE(n / 256, width - 1)
  {
  }

  // MAIN: a frame on the wire: four bytes of length, the lowest first, and
  // the payload.
  lemma FrameBytes(p: seq<byte>)
    ensures var n := |p|;
      Frame(p) == [(n % 256) as byte, (n / 256 % 256) as byte, (n / 256 / 256 % 256) as byte,
        (n / 256 / 256 / 256 % 256) as byte] + p
  {
    Bytes4(|p|);
  }

  const SAMPLE := Segment("ab", 0, 0x2827_2625_2423_2221, [Record(0x1817_1615_1413_1211, [33, 34, 35])])

  lemma CreatedField()
    ensures LE(0x2827_2625_2423_2221, 8) == [0x21, 0x22, 0x23, 0x24, 0x25, 0x26, 0x27, 0x28]
  {
    hide LE;
    Bytes8(0x2827_2625_2423_2221);
    Bytes4(0x2827_2625_2423_2221);
    Bytes4(0x2827_2625);
  }

  lemma TimeField()
    ensures LE(0x1817_1615_1413_1211, 8) == [0x11, 0x12, 0x13, 0x14, 0x15, 0x16, 0x17, 0x18]
  {
    hide LE;
    Bytes8(0x1817_1615_1413_1211);
    Bytes4(0x1817_1615_1413_1211);
    Bytes4(0x1817_1615);
  }

  lemma SmallFields()
    ensures LE(49, 2) == [49, 0] && LE(49, 4) == [49, 0, 0, 0] && LE(3, 4) == [3, 0, 0, 0] && LE(0, 4) == [0, 0, 0, 0]
  {
    hide LE;
    Bytes2(49);
    Bytes4(49);
    Bytes4(3);
    Bytes4(0);
  }

  function Zeros(n: nat): seq<byte> {
    seq(n, _ => 0)
  }

  lemma SampleHeader(kind: byte, size: byte)
    requires size == 0 || size == 3
    ensures EncodeHeader(FileHeader("ab", size as nat, 0x2827_2625_2423_2221, kind)) ==
      [49, 0, 0x21, 0x22, 0x23, 0x24, 0x25, 0x26, 0x27, 0x28, size, 0, 0, 0, 1, 0, kind, 97, 98] + Zeros(30)
  {
    hide LE;
    CreatedField();
    SmallFields();
    assert NameField("ab") == [97, 98] + Zeros(30);
  }

  // MAIN: one stream with one record, byte by byte.
  lemma SampleFiles()
    ensures IndexBytes(SAMPLE) ==
      [49, 0, 0x21, 0x22, 0x23, 0x24, 0x25, 0x26, 0x27, 0x28, 0, 0, 0, 0, 1, 0, 1, 97, 98] + Zeros(30) +
      [0x11, 0x12, 0x13, 0x14, 0x15, 0x16, 0x17, 0x18, 49, 0, 0, 0]
    ensures DataBytes(SAMPLE) ==
      [49, 0, 0x21, 0x22, 0x23, 0x24, 0x25, 0x26, 0x27, 0x28, 0, 0, 0, 0, 1, 0, 2, 97, 98] + Zeros(30) +
      [0x11, 0x12, 0x13, 0x14, 0x15, 0x16, 0x17, 0x18, 3, 0, 0, 0, 33, 34, 35]
    ensures IndexBytes(SAMPLE.(recordSize := 3)) ==
      [49, 0, 0x21, 0x22, 0x23, 0x24, 0x25, 0x26, 0x27, 0x28, 3, 0, 0, 0, 1, 0, 1, 97, 98] + Zeros(30) +
      [0x11, 0x12, 0x13, 0x14, 0x15, 0x16, 0x17, 0x18, 33, 34, 35]
  {
    hide LE, EncodeHeader, FileHeader;
    SampleHeader(1, 0);
    SampleHeader(2, 0);
    SampleHeader(1, 3);
    TimeField();
    SmallFields();
    var rs := SAMPLE.records;
    assert rs[..0] == [] && DataLen([]) == 0;
    assert DataBody(rs) == DataRecord(rs[0]);
    assert IndexBody(0, rs) == IndexRecord(0, rs[0], 49);
    assert IndexBody(3, rs) == IndexRecord(3, rs[0], 49);
  }
}
