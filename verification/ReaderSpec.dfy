// What the reader classes compute on arbitrary file contents: the meaning
// every method in Readers.dfy is proved against.  Nothing here assumes that
// the bytes come from a writer.
module ReaderSpec {
  import opened Bytes
  import opened Layout

  datatype Status = Unknown | Healthy | Empty | HeadersDifferent

  // The readers keep a file's length in a uint32_t.
  function Size32(file: seq<byte>): (size: u32)
    ensures size <= |file|
    ensures |file| < TWO32 ==> size == |file|
  {
    Truncate32(|file|)
  }

  function HeaderOf(file: seq<byte>): (h: Option<Header>)
    ensures h.Some? ==> |h.value.name| == NAME_SIZE
  {
    if Size32(file) == 0 || |file| < HEADER_SIZE then None else Some(DecodeHeader(file[..HEADER_SIZE]))
  }

  function NameOf(file: seq<byte>): seq<byte> {
    match HeaderOf(file)
    case None => []
    case Some(h) => CString(h.name)
  }

  function RecordWidth(h: Header): (w: nat)
    ensures w > 0
  {
    if h.recordSize > 0 then FIXED_HEAD + h.recordSize else INDEX_ENTRY
  }

  function Count(file: seq<byte>): (n: u32) {
    match HeaderOf(file)
    case None => 0
    case Some(h) =>
      if h.headerSize <= Size32(file) then QuotientBound(Size32(file) - h.headerSize, RecordWidth(h));
        (Size32(file) - h.headerSize) / RecordWidth(h)
      else 0
  }

  lemma QuotientBound(x: nat, w: nat)
    requires w > 0
    ensures 0 <= x / w <= x
  {
    var q, r := x / w, x % w;
    assert x == q * w + r;
    MulLower(w, q);
    assert w * q == q * w;
  }

  lemma QuotientIff(x: nat, w: nat, k: nat)
    requires w > 0
    ensures k < x / w <==> (k + 1) * w <= x
  {
    var q, r := x / w, x % w;
    assert x == q * w + r;
    if k < q {
      Distribute(q, k + 1, w);
      if q > k + 1 { MulLower(q - (k + 1), w); }
    } else {
      Distribute(k + 1, q, w);
      MulLower(k + 1 - q, w);
    }
  }

  // Byte position of record k, as selectRecord seeks it.
  function Position(h: Header, k: nat): nat {
    h.headerSize + k * RecordWidth(h)
  }

  lemma RecordInFile(file: seq<byte>, k: nat)
    requires k < Count(file)
    ensures HeaderOf(file).Some?
    ensures var h := HeaderOf(file).value;
      0 <= Position(h, k) && Position(h, k) + RecordWidth(h) <= Size32(file) <= |file|
  {
    var h := HeaderOf(file).value;
    var w := RecordWidth(h);
    QuotientIff(Size32(file) - h.headerSize, w, k);
    Distribute(k + 1, k, w);
  }

  // 0 stands for a failed read.
  function TimeAt(file: seq<byte>, k: nat): u64 {
    if k >= Count(file) then 0
    else
      RecordInFile(file, k);
      var h := HeaderOf(file).value;
      if h.fileType != INDEX_FILE then 0
      else Load64(file[Position(h, k)..Position(h, k) + 8])
  }

  function OffsetAt(file: seq<byte>, k: nat): u32 {
    if k >= Count(file) then 0
    else
      RecordInFile(file, k);
      var h := HeaderOf(file).value;
      if h.recordSize > 0 then 0
      else Load32(file[Position(h, k) + 8..Position(h, k) + 12])
  }

  function PayloadAt(file: seq<byte>, k: nat): Option<seq<byte>> {
    if k >= Count(file) then None
    else
      RecordInFile(file, k);
      var h := HeaderOf(file).value;
      if h.recordSize == 0 then None
      else Some(file[Position(h, k) + FIXED_HEAD..Position(h, k) + FIXED_HEAD + h.recordSize])
  }

  predicate OffsetRejected(file: seq<byte>, h: Header, offset: nat) {
    Size32(file) < h.headerSize || offset < h.headerSize ||
    offset > Wrap64(Size32(file) - DATA_HEAD) || h.fileType != DATA_FILE
  }

  // The record at a data file offset, and whether the input stream is broken
  // afterwards: a read past the real end sets a failure bit nobody clears.
  function DataAt(file: seq<byte>, broken: bool, offset: nat): (Option<Record>, bool) {
    match HeaderOf(file)
    case None => (None, broken)
    case Some(h) =>
      if OffsetRejected(file, h, offset) then (None, broken)
      else if broken || offset + DATA_HEAD > |file| then (None, true)
      else
        var time := Load64(file[offset..offset + 8]);
        var size := Load32(file[offset + 8..offset + DATA_HEAD]);
        if size > Wrap64(Size32(file) - offset - DATA_HEAD) then (None, false)
        else if offset + DATA_HEAD + size > |file| then (None, true)
        else (Some(Record(time, file[offset + DATA_HEAD..offset + DATA_HEAD + size])), false)
  }

  function FixedSize(index: seq<byte>): bool {
    HeaderOf(index).Some? ==> HeaderOf(index).value.recordSize > 0
  }

  // The verdict of opening an index file and its data file; a missing data
  // file reads like an empty one.
  function StatusOf(index: seq<byte>, data: seq<byte>): Status {
    if Count(index) == 0 then Empty
    else if FixedSize(index) || NameOf(data) == NameOf(index) then Healthy
    else HeadersDifferent
  }

  // One read of record k on an open stream.
  function ReadStep(index: seq<byte>, data: seq<byte>, broken: bool, k: nat): (Option<Record>, bool) {
    if StatusOf(index, data) != Healthy || TimeAt(index, k) == 0 then (None, broken)
    else if FixedSize(index) then
      (match PayloadAt(index, k) case None => None case Some(p) => Some(Record(TimeAt(index, k), p)), broken)
    else if OffsetAt(index, k) == 0 then (None, broken)
    else DataAt(data, broken, OffsetAt(index, k))
  }

  // The read on a freshly opened stream.
  function ReadAt(index: seq<byte>, data: seq<byte>, k: nat): Option<Record> {
    ReadStep(index, data, false, k).0
  }

  // A data file below 4 GiB never breaks the stream, so on such files every
  // read behaves as if it were the first one.
  lemma NeverBroken(index: seq<byte>, data: seq<byte>, k: nat)
    requires |data| < TWO32
    ensures ReadStep(index, data, false, k) == (ReadAt(index, data, k), false)
  {
    if HeaderOf(data).Some? {
      assert Size32(data) == |data|;
    }
  }

  // The time range gate of an index: first and last timestamps only.
  function MatchTime(index: seq<byte>, data: seq<byte>, from: u64, to: u64): bool {
    StatusOf(index, data) == Healthy && Count(index) > 0 && from <= to &&
    TimeAt(index, 0) <= to && TimeAt(index, Count(index) - 1) >= from
  }

  // Everything readable from index k on, in order.
  function ReadFrom(index: seq<byte>, data: seq<byte>, k: nat): seq<Record>
    decreases Count(index) - k
  {
    if k >= Count(index) then []
    else
      (match ReadAt(index, data, k) case None => [] case Some(r) => [r]) + ReadFrom(index, data, k + 1)
  }

  lemma NothingBeyond(index: seq<byte>, data: seq<byte>, k: nat)
    requires k >= Count(index)
    ensures ReadAt(index, data, k) == None
  {
  }
}
