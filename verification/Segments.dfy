// A segment is one stream file set: the records one run of StreamWriter put
// in an index file and, for variable-length channels, its data file.
module Segments {
  import opened Bytes
  import opened Sequences
  import opened Layout

  datatype Segment = Segment(channel: string, recordSize: u32, created: u64, records: seq<Record>)

  // Length of the data records (libs/data_types.h:46-50) of rs.
  function DataLen(rs: seq<Record>): nat {
    if rs == [] then 0 else DataLen(rs[..|rs| - 1]) + DATA_HEAD + |rs[|rs| - 1].payload|
  }

  // Where the next data record goes.
  function DataEnd(rs: seq<Record>): nat {
    HEADER_SIZE + DataLen(rs)
  }

  function Width(recordSize: u32): (w: nat)
    ensures w >= 8
  {
    if recordSize > 0 then FIXED_HEAD + recordSize else INDEX_ENTRY
  }

  function DataRecord(r: Record): seq<byte> {
    LE(r.time, 8) + LE(|r.payload|, 4) + r.payload
  }

  // What one accepted record adds to the index file when the data file
  // already ends at offset.
  function IndexRecord(recordSize: u32, r: Record, offset: nat): seq<byte> {
    if recordSize > 0 then LE(r.time, 8) + r.payload else LE(r.time, 8) + LE(offset, 4)
  }

  function DataBody(rs: seq<Record>): seq<byte> {
    if rs == [] then [] else DataBody(rs[..|rs| - 1]) + DataRecord(rs[|rs| - 1])
  }

  function IndexBody(recordSize: u32, rs: seq<Record>): seq<byte> {
    if rs == [] then []
    else
      var before := rs[..|rs| - 1];
      IndexBody(recordSize, before) + IndexRecord(recordSize, rs[|rs| - 1], DataEnd(before))
  }

  function IndexBytes(s: Segment): seq<byte> {
    EncodeHeader(FileHeader(s.channel, s.recordSize, s.created, INDEX_FILE)) + IndexBody(s.recordSize, s.records)
  }

  function DataBytes(s: Segment): seq<byte> {
    EncodeHeader(FileHeader(s.channel, s.recordSize, s.created, DATA_FILE)) + DataBody(s.records)
  }

  // Fixed-size segments hold records of exactly that size; variable-length
  // ones keep every data offset in 32 bits.
  ghost predicate WellFormed(s: Segment) {
    if s.recordSize > 0 then forall r <- s.records :: |r.payload| == s.recordSize
    else DataEnd(s.records) < TWO32
  }

  function Extend(s: Segment, r: Record): Segment {
    s.(records := s.records + [r])
  }

  lemma ExtendBytes(s: Segment, r: Record)
    ensures IndexBytes(Extend(s, r)) == IndexBytes(s) + IndexRecord(s.recordSize, r, DataEnd(s.records))
    ensures DataBytes(Extend(s, r)) == DataBytes(s) + DataRecord(r)
    ensures DataEnd(Extend(s, r).records) == DataEnd(s.records) + DATA_HEAD + |r.payload|
  {
    hide IndexRecord, DataRecord, EncodeHeader, FileHeader;
    AppendOne(s.records, r);
    Reassociate(EncodeHeader(FileHeader(s.channel, s.recordSize, s.created, INDEX_FILE)),
                IndexBody(s.recordSize, s.records), IndexRecord(s.recordSize, r, DataEnd(s.records)));
    Reassociate(EncodeHeader(FileHeader(s.channel, s.recordSize, s.created, DATA_FILE)), DataBody(s.records),
      DataRecord(r));
  }

  lemma {:induction false} DataBodyLength(rs: seq<Record>)
    ensures |DataBody(rs)| == DataLen(rs)
    ensures DataLen(rs) >= DATA_HEAD * |rs|
  {
    if rs != [] { DataBodyLength(rs[..|rs| - 1]); }
  }

  ghost predicate RightSizes(recordSize: u32, rs: seq<Record>) {
    recordSize > 0 ==> forall r <- rs :: |r.payload| == recordSize
  }

  // Total size of k records of width w.
  function Span(k: nat, w: nat): nat {
    if k == 0 then 0 else Span(k - 1, w) + w
  }

  lemma {:induction false} SpanIsProduct(k: nat, w: nat)
    ensures Span(k, w) == k * w
  {
    if k > 0 {
      SpanIsProduct(k - 1, w);
      Distribute(k, 1, w);
    }
  }

  lemma {:induction false} SpanMonotone(j: nat, k: nat, w: nat)
    requires j <= k
    ensures Span(j, w) <= Span(k, w)
  {
    if j < k { SpanMonotone(j, k - 1, w); }
  }

  lemma IndexRecordLength(recordSize: u32, r: Record, offset: nat)
    requires recordSize > 0 ==> |r.payload| == recordSize
    ensures |IndexRecord(recordSize, r, offset)| == Width(recordSize)
  {
  }

  lemma {:induction false} IndexBodyLength(recordSize: u32, rs: seq<Record>)
    requires RightSizes(recordSize, rs)
    ensures |IndexBody(recordSize, rs)| == Span(|rs|, Width(recordSize))
  {
    hide IndexRecord, Width, DataEnd;
    if rs != [] {
      var n := |rs| - 1;
      IndexBodyLength(recordSize, rs[..n]);
      IndexRecordLength(recordSize, rs[n], DataEnd(rs[..n]));
    }
  }

  lemma {:induction false} DataLenMonotone(rs: seq<Record>, j: nat, k: nat)
    requires j <= k <= |rs|
    ensures DataLen(rs[..j]) + DATA_HEAD * (k - j) <= DataLen(rs[..k])
  {
    if j < k {
      DataLenMonotone(rs, j, k - 1);
      assert rs[..k][..k - 1] == rs[..k - 1];
    }
  }

  lemma DataLenStep(rs: seq<Record>, k: nat)
    requires k < |rs|
    ensures DataLen(rs[..k + 1]) == DataLen(rs[..k]) + DATA_HEAD + |rs[k].payload|
  {
    assert rs[..k + 1][..k] == rs[..k];
  }

  lemma DataRecordLength(r: Record)
    ensures |DataRecord(r)| == DATA_HEAD + |r.payload|
  {
  }

  // The k-th data record sits right behind the first k ones.
  lemma {:induction false} DataRecordAt(rs: seq<Record>, k: nat)
    requires k < |rs|
    ensures DataLen(rs[..k]) + |DataRecord(rs[k])| == DataLen(rs[..k + 1]) <= |DataBody(rs)|
    ensures DataBody(rs)[DataLen(rs[..k])..DataLen(rs[..k + 1])] == DataRecord(rs[k])
  {
    hide DataRecord;
    DataRecordLength(rs[k]);
    DataLenStep(rs, k);
    var n := |rs| - 1;
    var i, j := DataLen(rs[..k]), DataLen(rs[..k + 1]);
    var front, last := DataBody(rs[..n]), DataRecord(rs[n]);
    DataBodyLength(rs[..n]);
    assert DataBody(rs) == front + last;
    if k < n {
      DataRecordAt(rs[..n], k);
      assert rs[..n][..k] == rs[..k] && rs[..n][..k + 1] == rs[..k + 1];
      SliceOfFront(front, last, i, j);
    } else {
      assert i == |front|;
      SliceOfBack(front, last);
    }
  }

  // The k-th index record sits behind k records of the segment's width.
  lemma {:induction false} IndexRecordAt(recordSize: u32, rs: seq<Record>, k: nat, p: nat, q: nat)
    requires RightSizes(recordSize, rs)
    requires k < |rs| && p == Span(k, Width(recordSize)) && q == p + Width(recordSize)
    ensures q <= |IndexBody(recordSize, rs)|
    ensures IndexBody(recordSize, rs)[p..q] == IndexRecord(recordSize, rs[k], DataEnd(rs[..k]))
  {
    hide IndexRecord, Width, DataEnd;
    var n := |rs| - 1;
    var front := IndexBody(recordSize, rs[..n]);
    var last := IndexRecord(recordSize, rs[n], DataEnd(rs[..n]));
    assert IndexBody(recordSize, rs) == front + last;
    IndexBodyLength(recordSize, rs[..n]);
    IndexRecordLength(recordSize, rs[n], DataEnd(rs[..n]));
    if k < n {
      IndexRecordAt(recordSize, rs[..n], k, p, q);
      assert rs[..n][..k] == rs[..k];
      SliceOfFront(front, last, p, q);
    } else {
      SliceOfBack(front, last);
    }
  }
}
