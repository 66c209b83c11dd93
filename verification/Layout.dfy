// The packed on-disk structures (libs/data_types.h).
module Layout {
  import opened Bytes

  const INDEX_FILE: byte := 1
  const DATA_FILE: byte := 2
  const FORMAT_MAJOR: byte := 1
  const FORMAT_MINOR: byte := 0
  const NAME_SIZE: nat := 32
  const HEADER_SIZE: nat := 49       // sizeof(LogFileHeader)
  const FIXED_HEAD: nat := 8         // sizeof(FixedRecordIdx)
  const INDEX_ENTRY: nat := 12       // sizeof(VariableRecordIdx)
  const DATA_HEAD: nat := 12         // sizeof(VariableRecordDataHeader)

  datatype Header = Header(
    headerSize: u16, timestamp: u64, recordSize: u32,
    major: byte, minor: byte, fileType: byte, name: seq<byte>)

  // A record as a client sees it.
  datatype Record = Record(time: u64, payload: seq<byte>)

  // Time stamps never decrease.
  ghost predicate InOrder(rs: seq<Record>) {
    forall i, j :: 0 <= i < j < |rs| ==> rs[i].time <= rs[j].time
  }

  ghost predicate ValidHeader(h: Header) {
    |h.name| == NAME_SIZE
  }

  function EncodeHeader(h: Header): (b: seq<byte>)
    requires |h.name| == NAME_SIZE
    ensures |b| == HEADER_SIZE
  {
    LE(h.headerSize, 2) + LE(h.timestamp, 8) + LE(h.recordSize, 4) +
    [h.major, h.minor, h.fileType] + h.name
  }

  function DecodeHeader(b: seq<byte>): (h: Header)
    requires |b| == HEADER_SIZE
    ensures |h.name| == NAME_SIZE
  {
    Header(Load16(b[0..2]), Load64(b[2..10]), Load32(b[10..14]), b[14], b[15], b[16], b[17..49])
  }

  lemma HeaderRoundTrip(h: Header)
    requires ValidHeader(h)
    ensures DecodeHeader(EncodeHeader(h)) == h
  {
    var b := EncodeHeader(h);
    LoadStoreFields();
    assert b[0..2] == LE(h.headerSize, 2);
    assert b[2..10] == LE(h.timestamp, 8);
    assert b[10..14] == LE(h.recordSize, 4);
    assert b[17..49] == h.name;
  }

  // The bytes copied into name_: truncated to the array, zero padded.
  function NameField(channel: string): (b: seq<byte>)
    ensures |b| == NAME_SIZE
  {
    seq(NAME_SIZE, i requires 0 <= i => if i < |channel| then (channel[i] as int % 256) as byte else 0)
  }

  // The C string held by a name_ array.
  function CString(b: seq<byte>): seq<byte> {
    if b == [] || b[0] == 0 then [] else [b[0]] + CString(b[1..])
  }

  // The name a reader finds in the header of a channel's files.
  function NameBytes(channel: string): seq<byte> {
    CString(NameField(channel))
  }

  // Channel names a header holds completely and unchanged.
  ghost predicate Named(channel: string) {
    |channel| < NAME_SIZE && forall c <- channel :: 0 < c as int < 256
  }

  lemma {:induction false} CStringEnds(b: seq<byte>, n: nat)
    requires n < |b| && b[n] == 0 && forall i :: 0 <= i < n ==> b[i] != 0
    ensures CString(b) == b[..n]
  {
    if n > 0 {
      CStringEnds(b[1..], n - 1);
      assert b[..n] == [b[0]] + b[1..][..n - 1];
    }
  }

  lemma NameBytesAre(channel: string)
    requires Named(channel)
    ensures |NameBytes(channel)| == |channel|
    ensures forall i :: 0 <= i < |channel| ==> NameBytes(channel)[i] as int == channel[i] as int
  {
    var b, n := NameField(channel), |channel|;
    forall i | 0 <= i < n ensures b[i] as int == channel[i] as int && b[i] != 0 {
      assert channel[i] in channel;
    }
    CStringEnds(b, n);
  }

  // Such names tell channels apart.
  lemma NamesTell(a: string, b: string)
    requires Named(a) && Named(b) && NameBytes(a) == NameBytes(b)
    ensures a == b
  {
    NameBytesAre(a);
    NameBytesAre(b);
    forall i | 0 <= i < |a| ensures a[i] == b[i] {
      assert a[i] as int == NameBytes(a)[i] as int == b[i] as int;
    }
  }

  function FileHeader(channel: string, recordSize: u32, created: u64, fileType: byte): (h: Header)
    ensures |h.name| == NAME_SIZE
  {
    Header(HEADER_SIZE, created, recordSize, FORMAT_MAJOR, FORMAT_MINOR, fileType, NameField(channel))
  }

  // What is set aside for a write: headers of both files, a record in each.
  function MaxRecordSize(size: nat): nat {
    2 * HEADER_SIZE + INDEX_ENTRY + DATA_HEAD + size
  }
}
