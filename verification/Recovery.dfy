// What a reader gets back from the files of a segment when they are intact,
// cut short, or followed by the debris of later failing writes.
module Recovery {
  import opened Bytes
  import opened Sequences
  import opened Layout
  import opened Segments
  import opened ReaderSpec

  // How many of the segment's index records fit in the first size bytes of
  // the index file.
  ghost predicate IndexHolds(s: Segment, size: nat, k: nat) {
    k < |s.records| && HEADER_SIZE + Span(k + 1, Width(s.recordSize)) <= size
  }

  ghost predicate DataHolds(s: Segment, size: nat, k: nat) {
    k < |s.records| && DataEnd(s.records[..k + 1]) <= size
  }

  function IndexHeader(s: Segment): Header {
    FileHeader(s.channel, s.recordSize, s.created, INDEX_FILE)
  }

  function DataHeader(s: Segment): Header {
    FileHeader(s.channel, s.recordSize, s.created, DATA_FILE)
  }

  lemma HeaderSurvives(file: seq<byte>, written: seq<byte>, h: Header)
    requires ValidHeader(h) && EncodeHeader(h) <= written && Agree(file, written)
    ensures HeaderOf(file) == if Size32(file) == 0 || |file| < HEADER_SIZE then None else Some(h)
  {
    if |file| >= HEADER_SIZE {
      AgreeSlice(file, written, 0, HEADER_SIZE);
      assert written[..HEADER_SIZE] == EncodeHeader(h);
      HeaderRoundTrip(h);
    }
  }

  lemma HeadersLead(s: Segment)
    ensures EncodeHeader(IndexHeader(s)) <= IndexBytes(s)
    ensures EncodeHeader(DataHeader(s)) <= DataBytes(s)
  {
  }

  // The record count of a surviving index file.
  lemma CountIs(s: Segment, index: seq<byte>, k: nat)
    requires Agree(index, IndexBytes(s))
    ensures k < Count(index) <==>
      HEADER_SIZE + Span(k + 1, Width(s.recordSize)) <= Size32(index)
  {
    HeadersLead(s);
    HeaderSurvives(index, IndexBytes(s), IndexHeader(s));
    var w := Width(s.recordSize);
    SpanIsProduct(k + 1, w);
    if Size32(index) >= HEADER_SIZE {
      QuotientIff(Size32(index) - HEADER_SIZE, w, k);
    } else {
      SpanMonotone(0, k + 1, w);
    }
  }

  // A part of what was written behind the header, wherever it survives.
  lemma BodySlice(file: seq<byte>, head: seq<byte>, body: seq<byte>, i: nat, j: nat)
    requires Agree(file, head + body) && i <= j <= |body| && |head| + j <= |file|
    ensures file[|head| + i..|head| + j] == body[i..j]
  {
    AgreeSlice(file, head + body, |head| + i, |head| + j);
    SliceBehind(head, body, i, j);
  }

  // The bytes of index record k, wherever it survives.
  lemma IndexRecordSurvives(s: Segment, index: seq<byte>, k: nat, i: nat, j: nat)
    requires WellFormed(s) && Agree(index, IndexBytes(s))
    requires k < |s.records| && HEADER_SIZE + j <= |index|
    requires i == Span(k, Width(s.recordSize)) && j == Span(k + 1, Width(s.recordSize))
    ensures i <= j && j - i == Width(s.recordSize)
    ensures index[HEADER_SIZE + i..HEADER_SIZE + j] == IndexRecord(s.recordSize, s.records[k], DataEnd(s.records[..k]))
  {
    IndexRecordAt(s.recordSize, s.records, k, i, j);
    BodySlice(index, EncodeHeader(IndexHeader(s)), IndexBody(s.recordSize, s.records), i, j);
  }

  // The fields packed in an index record.
  lemma IndexFields(file: seq<byte>, p: nat, q: nat, recordSize: u32, r: Record, offset: nat)
    requires recordSize == 0 ==> offset < TWO32
    requires p <= q <= |file| && file[p..q] == IndexRecord(recordSize, r, offset)
    requires recordSize > 0 ==> |r.payload| == recordSize
    ensures p + 8 <= q && Load64(file[p..p + 8]) == r.time
    ensures recordSize == 0 ==> p + 12 == q && Load32(file[p + 8..p + 12]) == offset
    ensures recordSize > 0 ==> p + 8 + recordSize == q && file[p + 8..p + 8 + recordSize] == r.payload
  {
    var part := IndexRecord(recordSize, r, offset);
    LoadStoreFields();
    SubSlice(file, p, q, part, 0, 8);
    SubSlice(file, p, q, part, 8, |part|);
    assert part[0..8] == LE(r.time, 8);
    if recordSize == 0 {
      assert part[8..12] == LE(offset, 4);
    } else {
      assert part[8..|part|] == r.payload;
    }
  }

  lemma OffsetFits(s: Segment, k: nat)
    requires WellFormed(s) && s.recordSize == 0 && k < |s.records|
    ensures DataEnd(s.records[..k]) + DATA_HEAD + |s.records[k].payload| < TWO32
  {
    DataLenStep(s.records, k);
    DataLenMonotone(s.records, k + 1, |s.records|);
    assert s.records[..|s.records|] == s.records;
  }

  // The fields of record k, wherever that record survives.
  lemma IndexFieldsSurvive(s: Segment, index: seq<byte>, k: nat, p: nat)
    requires WellFormed(s) && Agree(index, IndexBytes(s))
    requires IndexHolds(s, |index|, k)
    requires p == HEADER_SIZE + Span(k, Width(s.recordSize))
    ensures p + Width(s.recordSize) <= |index|
    ensures Load64(index[p..p + 8]) == s.records[k].time
    ensures s.recordSize == 0 ==>
      DataEnd(s.records[..k]) < TWO32 && Load32(index[p + 8..p + 12]) == DataEnd(s.records[..k])
    ensures s.recordSize > 0 ==> index[p + 8..p + 8 + s.recordSize] == s.records[k].payload
  {
    hide IndexBytes, DataBytes, IndexRecord, HeaderOf, Count, LE, EncodeHeader, Load32, Load64;
    var q := p + Width(s.recordSize);
    IndexRecordSurvives(s, index, k, p - HEADER_SIZE, q - HEADER_SIZE);
    if s.recordSize == 0 {
      OffsetFits(s, k);
      IndexFields(index, p, q, 0, s.records[k], DataEnd(s.records[..k]));
    } else {
      IndexFields(index, p, q, s.recordSize, s.records[k], DataEnd(s.records[..k]));
    }
  }

  // Everything the index knows about record k, wherever that record survives.
  lemma IndexEntrySurvives(s: Segment, index: seq<byte>, k: nat)
    requires WellFormed(s) && Agree(index, IndexBytes(s))
    requires IndexHolds(s, Size32(index), k)
    ensures k < Count(index) && HeaderOf(index) == Some(IndexHeader(s))
    ensures TimeAt(index, k) == s.records[k].time
    ensures s.recordSize == 0 ==> OffsetAt(index, k) == DataEnd(s.records[..k])
    ensures s.recordSize > 0 ==> PayloadAt(index, k) == Some(s.records[k].payload)
  {
    hide IndexBytes, DataBytes, IndexRecord, HeaderOf, Count, LE, EncodeHeader;
    CountIs(s, index, k);
    assert Size32(index) >= HEADER_SIZE;
    IndexHeaderSurvives(s, index);
    PositionIs(IndexHeader(s), k);
    IndexFieldsSurvive(s, index, k, Position(IndexHeader(s), k));
  }

  lemma IndexHeaderSurvives(s: Segment, index: seq<byte>)
    requires Agree(index, IndexBytes(s)) && Size32(index) >= HEADER_SIZE
    ensures HeaderOf(index) == Some(IndexHeader(s))
  {
    HeadersLead(s);
    HeaderSurvives(index, IndexBytes(s), IndexHeader(s));
  }

  lemma PositionIs(h: Header, k: nat)
    ensures Position(h, k) == h.headerSize + Span(k, RecordWidth(h))
  {
    SpanIsProduct(k, RecordWidth(h));
  }

  // The bytes of data record k, as far as they survive.
  lemma DataFieldsSurvive(s: Segment, data: seq<byte>, k: nat, offset: nat)
    requires WellFormed(s) && s.recordSize == 0 && Agree(data, DataBytes(s))
    requires k < |s.records| && offset == DataEnd(s.records[..k])
    requires offset + DATA_HEAD <= |data|
    ensures |s.records[k].payload| < TWO32
    ensures data[offset..offset + 8] == LE(s.records[k].time, 8)
    ensures data[offset + 8..offset + DATA_HEAD] == LE(|s.records[k].payload|, 4)
    ensures var end := offset + DATA_HEAD + |s.records[k].payload|;
      end <= |data| ==> data[offset + DATA_HEAD..end] == s.records[k].payload
  {
    hide DataRecord, LE, EncodeHeader, FileHeader;
    var r := s.records[k];
    var body := DataBody(s.records);
    var head := EncodeHeader(DataHeader(s));
    var i := DataLen(s.records[..k]);
    DataRecordAt(s.records, k);
    OffsetFits(s, k);
    DataLenStep(s.records, k);
    DataRecordLength(r);
    DataFields(body, i, r);
    BodySlice(data, head, body, i, i + 8);
    BodySlice(data, head, body, i + 8, i + DATA_HEAD);
    if offset + DATA_HEAD + |r.payload| <= |data| {
      BodySlice(data, head, body, i + DATA_HEAD, i + DATA_HEAD + |r.payload|);
    }
  }

  lemma DataFields(body: seq<byte>, i: nat, r: Record)
    requires i + |DataRecord(r)| <= |body| && body[i..i + |DataRecord(r)|] == DataRecord(r)
    ensures body[i..i + 8] == LE(r.time, 8)
    ensures body[i + 8..i + DATA_HEAD] == LE(|r.payload|, 4)
    ensures body[i + DATA_HEAD..i + DATA_HEAD + |r.payload|] == r.payload
  {
    var part := DataRecord(r);
    var j := i + |part|;
    SubSlice(body, i, j, part, 0, 8);
    SubSlice(body, i, j, part, 8, DATA_HEAD);
    SubSlice(body, i, j, part, DATA_HEAD, |part|);
    assert part[0..8] == LE(r.time, 8);
    assert part[8..DATA_HEAD] == LE(|r.payload|, 4);
    assert part[DATA_HEAD..|part|] == r.payload;
  }

  lemma DataHeaderSurvives(s: Segment, data: seq<byte>)
    requires Agree(data, DataBytes(s))
    ensures HeaderOf(data) == if Size32(data) == 0 || |data| < HEADER_SIZE then None else Some(DataHeader(s))
  {
    HeadersLead(s);
    HeaderSurvives(data, DataBytes(s), DataHeader(s));
  }

  // Reading a record of known bytes: delivered when the reader's length
  // covers all of it, refused otherwise.
  lemma DataAtDecodes(data: seq<byte>, h: Header, offset: nat, r: Record)
    requires HeaderOf(data) == Some(h) && h.headerSize == HEADER_SIZE && h.fileType == DATA_FILE
    requires HEADER_SIZE <= offset < TWO32 && |r.payload| < TWO32
    requires offset + DATA_HEAD <= |data| ==>
      Load64(data[offset..offset + 8]) == r.time && Load32(data[offset + 8..offset + DATA_HEAD]) == |r.payload|
    requires var end := offset + DATA_HEAD + |r.payload|;
      end <= |data| ==> data[offset + DATA_HEAD..end] == r.payload
    ensures DataAt(data, false, offset) ==
      (if offset + DATA_HEAD + |r.payload| <= Size32(data) then Some(r) else None, false)
  {
    var size := Size32(data);
    if size >= HEADER_SIZE {
      assert Wrap64(size - DATA_HEAD) == size - DATA_HEAD;
      if offset + DATA_HEAD <= size {
        assert Wrap64(size - offset - DATA_HEAD) == size - offset - DATA_HEAD;
      }
    }
  }

  // Record k of the data file is delivered when it is there to its last byte
  // and refused otherwise; the stream never breaks.
  lemma DataRecordSurvives(s: Segment, data: seq<byte>, k: nat, offset: nat)
    requires WellFormed(s) && s.recordSize == 0 && Agree(data, DataBytes(s))
    requires k < |s.records| && offset == DataEnd(s.records[..k])
    ensures DataAt(data, false, offset) ==
      (if DataHolds(s, Size32(data), k) then Some(s.records[k]) else None, false)
  {
    hide IndexBytes, DataBytes, DataRecord, LE, EncodeHeader, Load32, Load64, HeaderOf;
    DataHeaderSurvives(s, data);
    DataLenStep(s.records, k);
    if HeaderOf(data).Some? {
      OffsetFits(s, k);
      if offset + DATA_HEAD <= |data| {
        DataFieldsSurvive(s, data, k, offset);
        DataFieldsLoad(data, offset, s.records[k]);
      }
      DataAtDecodes(data, DataHeader(s), offset, s.records[k]);
    }
  }

  lemma DataFieldsLoad(data: seq<byte>, offset: nat, r: Record)
    requires offset + DATA_HEAD <= |data| && |r.payload| < TWO32
    requires data[offset..offset + 8] == LE(r.time, 8)
    requires data[offset + 8..offset + DATA_HEAD] == LE(|r.payload|, 4)
    ensures Load64(data[offset..offset + 8]) == r.time
    ensures Load32(data[offset + 8..offset + DATA_HEAD]) == |r.payload|
  {
    LoadStoreFields();
  }

  // MAIN: whatever was cut off the two files or appended to them, each
  // independently of the other, a read of record k returns that record if
  // both files - as far as the reader's 32-bit lengths reach - hold it
  // completely, and fails otherwise.  It never returns anything else.
  lemma ReadWritten(s: Segment, index: seq<byte>, data: seq<byte>, k: nat)
    requires WellFormed(s) && k < |s.records|
    requires Agree(index, IndexBytes(s))
    requires s.recordSize == 0 ==> Agree(data, DataBytes(s))
    ensures ReadAt(index, data, k) ==
      if IndexHolds(s, Size32(index), k) && (s.recordSize == 0 ==> DataHolds(s, Size32(data), k)) &&
        s.records[k].time != 0
      then Some(s.records[k]) else None
  {
    hide IndexBytes, DataBytes, IndexRecord, DataRecord, TimeAt, OffsetAt, PayloadAt, DataAt, Count;
    CountIs(s, index, k);
    if !IndexHolds(s, Size32(index), k) {
      NothingBeyond(index, data, k);
    } else {
      IndexEntrySurvives(s, index, k);
      if s.recordSize == 0 {
        DataHeaderSurvives(s, data);
        DataRecordSurvives(s, data, k, DataEnd(s.records[..k]));
      }
    }
  }

  // The largest number of leading records whose index entries (data records)
  // lie completely in the first size bytes.
  function CompleteIndexRecords(s: Segment, size: nat): (m: nat)
    ensures m <= |s.records|
    decreases s.records
  {
    var n := |s.records|;
    if n == 0 || HEADER_SIZE + Span(n, Width(s.recordSize)) <= size then n
    else CompleteIndexRecords(s.(records := s.records[..n - 1]), size)
  }

  function CompleteDataRecords(rs: seq<Record>, size: nat): (m: nat)
    ensures m <= |rs|
  {
    if rs == [] || DataEnd(rs) <= size then |rs| else CompleteDataRecords(rs[..|rs| - 1], size)
  }

  lemma {:induction false} CompleteIndexRecordsIff(s: Segment, size: nat, k: nat)
    ensures k < CompleteIndexRecords(s, size) <==> IndexHolds(s, size, k)
    decreases s.records
  {
    var n, w := |s.records|, Width(s.recordSize);
    if n > 0 && HEADER_SIZE + Span(n, w) <= size {
      if k < n { SpanMonotone(k + 1, n, w); }
    } else if n > 0 {
      CompleteIndexRecordsIff(s.(records := s.records[..n - 1]), size, k);
    }
  }

  lemma {:induction false} CompleteDataRecordsIff(rs: seq<Record>, size: nat, k: nat)
    ensures k < CompleteDataRecords(rs, size) <==> k < |rs| && DataEnd(rs[..k + 1]) <= size
  {
    var n := |rs|;
    assert rs[..n] == rs;
    if n > 0 && DataEnd(rs) <= size {
      if k < n { DataLenMonotone(rs, k + 1, n); }
    } else if n > 0 {
      CompleteDataRecordsIff(rs[..n - 1], size, k);
      if k < n - 1 { assert rs[..n - 1][..k + 1] == rs[..k + 1]; }
    }
  }

  // How much of a segment survives when its files are cut to i and d bytes.
  function Surviving(s: Segment, i: nat, d: nat): (m: nat)
    ensures m <= |s.records|
  {
    var a := CompleteIndexRecords(s, i);
    var b := CompleteDataRecords(s.records, d);
    if s.recordSize > 0 || a < b then a else b
  }

  lemma SegmentLengths(s: Segment)
    requires WellFormed(s)
    ensures |IndexBytes(s)| == HEADER_SIZE + Span(|s.records|, Width(s.recordSize))
    ensures |DataBytes(s)| == DataEnd(s.records)
    ensures s.recordSize == 0 ==> |IndexBytes(s)| <= |DataBytes(s)| < TWO32
  {
    hide EncodeHeader, FileHeader, IndexBody, DataBody, DataLen, Span;
    var n := |s.records|;
    IndexBodyLength(s.recordSize, s.records);
    DataBodyLength(s.records);
    if s.recordSize == 0 { SpanIsProduct(n, INDEX_ENTRY); }
  }

  // MAIN: cut the two files at any bytes, independently.  Exactly the records
  // complete in both are read back, as they were written; no other index
  // yields anything.  (A stored time of 0 is the reader's error value.)
  lemma TruncationRecovery(s: Segment, index: seq<byte>, data: seq<byte>, k: nat)
    requires WellFormed(s) && index <= IndexBytes(s) && |index| < TWO32
    requires s.recordSize == 0 ==> data <= DataBytes(s)
    ensures ReadAt(index, data, k) ==
      if k < Surviving(s, |index|, |data|) && s.records[k].time != 0 then Some(s.records[k]) else None
  {
    hide IndexBytes, DataBytes, ReadAt;
    PrefixAgrees(index, IndexBytes(s));
    if s.recordSize == 0 { PrefixAgrees(data, DataBytes(s)); }
    SegmentLengths(s);
    CompleteIndexRecordsIff(s, |index|, k);
    CompleteDataRecordsIff(s.records, |data|, k);
    if k < |s.records| {
      ReadWritten(s, index, data, k);
    } else {
      CountIs(s, index, k);
      SpanMonotone(|s.records| + 1, k + 1, Width(s.recordSize));
      NothingBeyond(index, data, k);
    }
  }

  // MAIN: records stay readable under their index whatever later writes leave
  // behind them, as long as both files stay below 4 GiB.
  lemma CommittedRecordsStay(s: Segment, index: seq<byte>, data: seq<byte>, k: nat)
    requires WellFormed(s) && k < |s.records| && s.records[k].time != 0
    requires IndexBytes(s) <= index && |index| < TWO32
    requires s.recordSize == 0 ==> DataBytes(s) <= data && |data| < TWO32
    ensures ReadAt(index, data, k) == Some(s.records[k])
  {
    hide IndexBytes, DataBytes, ReadAt;
    PrefixAgrees(IndexBytes(s), index);
    SegmentLengths(s);
    var n := |s.records|;
    SpanMonotone(k + 1, n, Width(s.recordSize));
    if s.recordSize == 0 {
      PrefixAgrees(DataBytes(s), data);
      DataLenMonotone(s.records, k + 1, n);
      assert s.records[..n] == s.records;
    }
    ReadWritten(s, index, data, k);
  }

  // A fixed-size index file has no size check.  All of its records can be
  // read back if and only if the file stays below 4 GiB.
  lemma FixedSegmentReadableIff(s: Segment)
    requires WellFormed(s) && s.recordSize > 0 && |s.records| > 0
    requires forall r <- s.records :: r.time != 0
    ensures (forall k :: 0 <= k < |s.records| ==> ReadAt(IndexBytes(s), [], k) == Some(s.records[k])) <==>
      HEADER_SIZE + Span(|s.records|, Width(s.recordSize)) < TWO32
  {
    hide IndexBytes, DataBytes, ReadAt;
    var n, w := |s.records|, Width(s.recordSize);
    SegmentLengths(s);
    PrefixAgrees(IndexBytes(s), IndexBytes(s));
    if HEADER_SIZE + Span(n, w) < TWO32 {
      forall k | 0 <= k < n ensures ReadAt(IndexBytes(s), [], k) == Some(s.records[k]) {
        CommittedRecordsStay(s, IndexBytes(s), [], k);
      }
    } else {
      ReadWritten(s, IndexBytes(s), [], n - 1);
    }
  }

  // MAIN: an intact segment reads back as the records it was written with,
  // empty payloads included.
  lemma RoundTrip(s: Segment)
    requires WellFormed(s) && |IndexBytes(s)| < TWO32
    requires forall r <- s.records :: r.time != 0
    ensures Count(IndexBytes(s)) == |s.records|
    ensures ReadFrom(IndexBytes(s), DataBytes(s), 0) == s.records
  {
    hide IndexBytes, DataBytes, ReadAt;
    var n := |s.records|;
    IntactCount(s);
    SegmentLengths(s);
    forall k | 0 <= k < n ensures ReadAt(IndexBytes(s), DataBytes(s), k) == Some(s.records[k]) {
      CommittedRecordsStay(s, IndexBytes(s), DataBytes(s), k);
    }
    ReadFromIs(IndexBytes(s), DataBytes(s), s.records, 0);
  }

  lemma IntactCount(s: Segment)
    requires WellFormed(s) && |IndexBytes(s)| < TWO32
    ensures Count(IndexBytes(s)) == |s.records|
  {
    var n := |s.records|;
    PrefixAgrees(IndexBytes(s), IndexBytes(s));
    SegmentLengths(s);
    CountIs(s, IndexBytes(s), n);
    if n > 0 { CountIs(s, IndexBytes(s), n - 1); }
  }

  lemma {:induction false} ReadFromIs(index: seq<byte>, data: seq<byte>, rs: seq<Record>, k: nat)
    requires Count(index) == |rs| && k <= |rs|
    requires forall j :: 0 <= j < |rs| ==> ReadAt(index, data, j) == Some(rs[j])
    ensures ReadFrom(index, data, k) == rs[k..]
    decreases |rs| - k
  {
    if k < |rs| {
      ReadFromIs(index, data, rs, k + 1);
      assert rs[k..] == [rs[k]] + rs[k + 1..];
    }
  }

  // Power is lost after the data record is written and before its index entry
  // is: nothing but that record is missing.
  lemma PowerLossBetweenWrites(s: Segment, r: Record, k: nat)
    requires WellFormed(s) && s.recordSize == 0 && WellFormed(Extend(s, r))
    ensures ReadAt(IndexBytes(s), DataBytes(Extend(s, r)), k) ==
      if k < |s.records| && s.records[k].time != 0 then Some(s.records[k]) else None
  {
    hide IndexBytes, DataBytes, ReadAt, IndexRecord, DataRecord;
    ExtendBytes(s, r);
    SegmentLengths(s);
    SegmentLengths(Extend(s, r));
    PrefixAgrees(IndexBytes(s), IndexBytes(s));
    if k < |s.records| {
      PrefixAgrees(DataBytes(s), DataBytes(Extend(s, r)));
      SpanMonotone(k + 1, |s.records|, INDEX_ENTRY);
      DataLenMonotone(s.records, k + 1, |s.records|);
      assert s.records[..|s.records|] == s.records;
      ReadWritten(s, IndexBytes(s), DataBytes(Extend(s, r)), k);
    } else {
      CountIs(s, IndexBytes(s), k);
      SpanMonotone(|s.records| + 1, k + 1, INDEX_ENTRY);
      NothingBeyond(IndexBytes(s), DataBytes(Extend(s, r)), k);
    }
  }

  // Without its data file a variable-length stream yields nothing; it is
  // reported as damaged unless its channel name is empty.
  lemma MissingDataFile(index: seq<byte>, k: nat)
    requires Count(index) > 0 && !FixedSize(index)
    ensures StatusOf(index, []) == if NameOf(index) == [] then Healthy else HeadersDifferent
    ensures ReadAt(index, [], k) == None
  {
    hide Count, TimeAt, OffsetAt;
    assert HeaderOf([]) == None;
    assert NameOf([]) == [];
  }
}
