// What the readers make of files nobody vouches for, said on their bytes.
module AnyFiles {
  import opened Bytes
  import opened Sequences
  import opened Layout
  import opened Segments
  import opened ReaderSpec
  import opened Recovery
  import opened FileSystems
  import opened ScannerSpec
  import opened CutQueries

  // A file has a header if and only if it has the bytes for one.
  lemma HeaderIs(file: seq<byte>)
    requires |file| < TWO32
    ensures HeaderOf(file) == if |file| < 49 then None else Some(DecodeHeader(file[..49]))
  {
  }

  // MAIN: which files are taken for an index: those with a whole header that
  // says so, and says that records start behind it and within the file.
  lemma ValidIndexIff(h: Header, file: seq<byte>)
    requires ValidHeader(h) && EncodeHeader(h) <= file && |file| < TWO32
    ensures ValidIndex(file) <==> h.fileType == 1 && 49 <= h.headerSize <= |file|
  {
    HeaderRoundTrip(h);
    assert file[..49] == EncodeHeader(h);
  }

  lemma ResolvesIff(fs: Fs, day: nat, name: string, h: Header)
    requires var file := FileOf(fs, day, name);
      ValidHeader(h) && EncodeHeader(h) <= file && |file| < TWO32
    ensures Resolves(fs, day, name) <==>
      && day in fs.days && name in fs.days[day]
      && |name| > 4 && name[|name| - 4..] == ".idx"
      && h.fileType == 1 && 49 <= h.headerSize <= |FileOf(fs, day, name)|
  {
    ValidIndexIff(h, FileOf(fs, day, name));
  }

  // A file of another kind gives no time stamps and no records, neither as an
  // index nor as the data of one.
  lemma WrongKind(h: Header, file: seq<byte>, k: nat)
    requires ValidHeader(h) && EncodeHeader(h) <= file && |file| < TWO32
    ensures h.fileType != 1 ==> TimeAt(file, k) == 0 && forall data: seq<byte> :: ReadAt(file, data, k) == None
    ensures h.fileType != 2 ==> forall broken: bool :: DataAt(file, broken, k).0 == None
  {
    HeaderRoundTrip(h);
    assert file[..49] == EncodeHeader(h);
  }

  // MAIN: what a data file delivers at an offset: the record whose time, size
  // and bytes stand there, if the file is one of data records, the offset is
  // not in its header, and the record ends within it.
  lemma DataAtIff(h: Header, file: seq<byte>, offset: nat, r: Record)
    requires ValidHeader(h) && EncodeHeader(h) <= file && |file| < TWO32
    ensures DataAt(file, false, offset).0 == Some(r) <==>
      && h.fileType == 2 && h.headerSize <= offset && h.headerSize <= |file| && offset + 12 + |r.payload| <= |file|
      && r.time == Load64(file[offset..offset + 8])
      && |r.payload| == Load32(file[offset + 8..offset + 12])
      && r.payload == file[offset + 12..offset + 12 + |r.payload|]
  {
    HeaderRoundTrip(h);
    assert file[..49] == EncodeHeader(h);
  }

  // A time stamp or a data offset of 0 counts as a failed read, and leaves
  // the data file alone.
  lemma ZeroMeansError(index: seq<byte>, data: seq<byte>, broken: bool, k: nat)
    requires TimeAt(index, k) == 0 || (!FixedSize(index) && OffsetAt(index, k) == 0)
    ensures ReadStep(index, data, broken, k) == (None, broken)
  {
  }

  // MAIN: the verdict on the files of a stream, each cut somewhere.
  lemma StatusIs(index: seq<byte>, data: seq<byte>, s: Segment)
    requires Clipped(index, data, s) && |data| < TWO32
    ensures StatusOf(index, data) ==
      if s.records == [] || |index| < 49 + Width(s.recordSize) then Empty
      else if s.recordSize > 0 || |data| >= 49 || NameBytes(s.channel) == [] then Healthy
      else HeadersDifferent
  {
    hide IndexBytes, DataBytes, EncodeHeader, Count;
    PrefixAgrees(index, IndexBytes(s));
    CountIs(s, index, 0);
    SegmentLengths(s);
    SpanMonotone(1, |s.records| + 1, Width(s.recordSize));
    if |index| >= HEADER_SIZE { IndexHeaderSurvives(s, index); }
    if s.recordSize == 0 {
      PrefixAgrees(data, DataBytes(s));
      DataHeaderSurvives(s, data);
    }
  }
}
