// The reader classes: std::ifstream handling, bounds checks and error
// reporting, proved against ReaderSpec for arbitrary file contents.
module Readers {
  import opened Bytes
  import opened Sequences
  import opened Layout
  import opened ReaderSpec
  import opened FileNames

  datatype ReadError = NoError | NotOpened | BadIndex | BadKind | ShortRead | BadOffset | CantSeek | BeyondEnd

  // A file opened for reading: a snapshot of its bytes and the stream state.
  class FileReader {
    const content: seq<byte>
    var position: nat
    var failed: bool       // the stream's failbit; nothing ever clears it
    var header: Option<Header>
    var sizeBytes: u32
    var lastError: ReadError

    ghost predicate Valid()
      reads this
    {
      header == HeaderOf(content) && sizeBytes == Size32(content)
    }

    constructor (content: seq<byte>)
      ensures this.content == content && Valid()
      ensures header.Some? ==> !failed
    {
      this.content := content;
      position, failed, header, lastError := 0, false, None, NoError;
      sizeBytes := Truncate32(|content|);
      new;
      if sizeBytes > 0 {
        var b := Read(HEADER_SIZE);
        if failed {
          lastError := ShortRead;
        } else {
          header := Some(DecodeHeader(b));
        }
      }
    }

    method Seek(offset: nat)
      modifies this`position
      ensures !failed ==> position == offset
    {
      if !failed {
        position := offset;
      }
    }

    method Read(n: nat) returns (b: seq<byte>)
      modifies this`position, this`failed
      ensures failed == (old(failed) || old(position) + n > |content|)
      ensures !failed ==> b == content[old(position)..old(position) + n] && position == old(position) + n
    {
      if failed || position + n > |content| {
        failed := true;
        b := [];
      } else {
        b := content[position..position + n];
        position := position + n;
      }
    }

    function Name(): (s: seq<byte>)
      requires Valid()
      reads this
      ensures s == NameOf(content)
    {
      match header
      case None => []
      case Some(h) => CString(h.name)
    }
  }

  // Its error branches behind the bounds checks are dead: a record the count
  // covers always lies inside the file, so neither seek nor read can fail.
  class IndexFileReader {
    const file: FileReader
    var recordsCount: u32
    var startTime: u64
    var endTime: u64

    ghost predicate Valid()
      reads this, file
    {
      file.Valid() && (file.header.Some? ==> !file.failed) && recordsCount == Count(file.content)
    }

    // The cached range is what the first and last records say.
    ghost predicate Ready()
      reads this, file
    {
      Valid() && startTime == TimeAt(file.content, 0) &&
      endTime == if recordsCount == 0 then 0 else TimeAt(file.content, recordsCount - 1)
    }

    constructor (content: seq<byte>)
      ensures Ready() && file.content == content && fresh(file)
    {
      file := new FileReader(content);
      recordsCount, startTime, endTime := 0, 0, 0;
      new;
      if file.sizeBytes > 0 && file.header.Some? && file.header.value.headerSize <= file.sizeBytes {
        var h := file.header.value;
        QuotientBound(file.sizeBytes - h.headerSize, RecordWidth(h));
        recordsCount := (file.sizeBytes - h.headerSize) / RecordWidth(h);
        startTime := TimeOf(0);
        endTime := TimeOf(if recordsCount == 0 then TWO32 - 1 else recordsCount - 1);
      }
    }

    method SelectRecord(index: u32) returns (ok: bool)
      requires file.Valid() && file.header.Some? && !file.failed
      modifies file`position
      ensures ok && file.position == Position(file.header.value, index)
    {
      file.Seek(file.header.value.headerSize + index * RecordWidth(file.header.value));
      ok := !file.failed;
    }

    method TimeOf(index: nat) returns (time: u64)
      requires Valid()
      modifies file
      ensures Valid() && time == TimeAt(file.content, index)
      ensures file.lastError == NoError <==> index < recordsCount && file.header.value.fileType == INDEX_FILE
    {
      file.lastError := NoError;
      if file.header.None? {
        file.lastError := NotOpened;
        return 0;
      }
      if index >= recordsCount || file.header.value.fileType != INDEX_FILE {
        file.lastError := BadIndex;
        return 0;
      }
      RecordInFile(file.content, index);
      var ok := SelectRecord(index);
      if !ok {
        assert false;
      }
      var b := file.Read(8);
      if file.failed {
        assert false;
      }
      time := Load64(b);
    }

    method ReadPayload(index: u32) returns (payload: Option<seq<byte>>)
      requires Valid()
      modifies file
      ensures Valid() && payload == PayloadAt(file.content, index)
      ensures file.lastError == NoError <==> payload.Some?
    {
      file.lastError := NoError;
      if file.header.None? {
        file.lastError := NotOpened;
        return None;
      }
      if file.header.value.recordSize == 0 || index >= recordsCount {
        file.lastError := BadKind;
        return None;
      }
      RecordInFile(file.content, index);
      var ok := SelectRecord(index);
      if !ok {
        assert false;
      }
      var head := file.Read(FIXED_HEAD);
      if file.failed {
        assert false;
      }
      var buffer := file.Read(file.header.value.recordSize);
      if file.failed {
        assert false;
      }
      payload := Some(buffer);
    }

    method ReadOffset(index: u32) returns (offset: u32)
      requires Valid()
      modifies file
      ensures Valid() && offset == OffsetAt(file.content, index)
    {
      file.lastError := NoError;
      if file.header.None? {
        file.lastError := NotOpened;
        return 0;
      }
      if file.header.value.recordSize > 0 || index >= recordsCount {
        file.lastError := BadKind;
        return 0;
      }
      RecordInFile(file.content, index);
      var ok := SelectRecord(index);
      if !ok {
        assert false;
      }
      var b := file.Read(INDEX_ENTRY);
      if file.failed {
        assert false;
      }
      var p := Position(file.header.value, index);
      SubSlice(file.content, p, p + INDEX_ENTRY, b, 8, 12);
      offset := Load32(b[8..12]);
    }

    function FixedSizeRecords(): (fixed: bool)
      requires Valid()
      reads this, file
      ensures fixed == FixedSize(file.content)
    {
      if file.header.Some? then file.header.value.recordSize > 0 else true
    }

    function InRange(from: u64, to: u64): bool
      reads this
    {
      recordsCount > 0 && from <= to && startTime <= to && endTime >= from
    }
  }

  class DataFileReader {
    const file: FileReader

    ghost predicate Valid()
      reads this, file
    {
      file.Valid()
    }

    constructor (content: seq<byte>)
      ensures Valid() && file.content == content && fresh(file)
      ensures file.header.Some? ==> !file.failed
    {
      file := new FileReader(content);
    }

    // Returns the record's length and the record, or 0 and None.
    method Read(offset: nat) returns (size: u32, result: Option<Record>)
      requires Valid() && (file.header.None? || offset < TWO64)
      modifies file
      ensures Valid()
      ensures result == DataAt(file.content, old(file.failed), offset).0
      ensures file.header.Some? ==> file.failed == DataAt(file.content, old(file.failed), offset).1
      ensures size == if result.Some? then |result.value.payload| else 0
      ensures file.lastError == NoError <==> result.Some?
    {
      file.lastError := NoError;
      size, result := 0, None;
      if file.header.None? {
        file.lastError := NotOpened;
        return;
      }
      var h := file.header.value;
      if file.sizeBytes < h.headerSize || offset < h.headerSize ||
         offset > Wrap64(file.sizeBytes - DATA_HEAD) || h.fileType != DATA_FILE {
        file.lastError := BadOffset;
        return;
      }
      file.Seek(offset);
      if file.failed {
        file.lastError := CantSeek;
        return;
      }
      var head := file.Read(DATA_HEAD);
      if file.failed {
        file.lastError := ShortRead;
        return;
      }
      SubSlice(file.content, offset, offset + DATA_HEAD, head, 0, 8);
      SubSlice(file.content, offset, offset + DATA_HEAD, head, 8, DATA_HEAD);
      var time, length := Load64(head[0..8]), Load32(head[8..DATA_HEAD]);
      if length > Wrap64(file.sizeBytes - offset - DATA_HEAD) {
        file.lastError := BeyondEnd;
        return;
      }
      var buffer := file.Read(length);
      if file.failed {
        file.lastError := ShortRead;
        return;
      }
      size, result := length, Some(Record(time, buffer));
    }
  }

  // An index file and the data file that goes with it, opened for queries.
  class StreamReader {
    var index: IndexFileReader?
    var data: DataFileReader?
    var status: Status

    ghost var Repr: set<object>

    // What the stream was opened on: the index file and the data file paired
    // with it by name.
    ghost predicate Opened(indexBytes: seq<byte>, dataBytes: seq<byte>)
      reads this, Repr
    {
      && index != null && {index, index.file} <= Repr && index.Ready() && index.file.content == indexBytes
      && status == StatusOf(indexBytes, dataBytes)
      && (status != Empty && !FixedSize(indexBytes) ==>
            data != null && {data, data.file} <= Repr && data.Valid() && data.file.content == dataBytes &&
              data.file != index.file)
    }

    // The failure bit of the data stream; fixed-size streams have none.
    ghost function Broken(): bool
      reads this, Repr
    {
      data != null && data in Repr && data.file in Repr && data.file.header.Some? && data.file.failed
    }

    constructor (dir: Directory, path: string)
      ensures path !in dir || PairedName(path).None? <==> status == Unknown
      ensures status != Unknown ==> Opened(dir[path], Contents(dir, PairedName(path).value)) && !Broken()
      ensures fresh(Repr)
    {
      index, data, status, Repr := null, null, Unknown, {};
      new;
      if path !in dir {
        return;
      }
      var paired := PairedName(path);
      if paired.None? {
        return;
      }
      index := new IndexFileReader(dir[path]);
      Repr := {index, index.file};
      Inspect(Contents(dir, paired.value));
    }

    // Settles the status, opening the data file if there has to be one.
    method Inspect(dataBytes: seq<byte>)
      requires index != null && data == null && Repr == {index, index.file} && index.Ready()
      modifies this
      ensures index == old(index) && Opened(index.file.content, dataBytes) && !Broken()
      ensures fresh(Repr - old(Repr)) && status != Unknown
    {
      if index.recordsCount == 0 {
        status := Empty;
        return;
      }
      status := Healthy;
      var fixed := index.FixedSizeRecords();
      if !fixed {
        data := new DataFileReader(dataBytes);
        Repr := Repr + {data, data.file};
        if data.file.Name() != index.file.Name() {
          status := HeadersDifferent;
        }
      }
    }

    function MatchRange(from: u64, to: u64): (m: bool)
      reads this, index
    {
      status == Healthy && index != null && index.InRange(from, to)
    }

    // The gate is a property of the two files alone.
    lemma RangeGate(indexBytes: seq<byte>, dataBytes: seq<byte>, from: u64, to: u64)
      requires status != Unknown && Opened(indexBytes, dataBytes)
      ensures MatchRange(from, to) == MatchTime(indexBytes, dataBytes, from, to)
    {
      hide Count, TimeAt;
    }

    method Read(k: nat, ghost indexBytes: seq<byte>, ghost dataBytes: seq<byte>) returns (payload: Option<Record>)
      requires status != Unknown ==> Opened(indexBytes, dataBytes)
      modifies Repr
      ensures status != Unknown ==> Opened(indexBytes, dataBytes)
      ensures payload == if status == Unknown then None else ReadStep(indexBytes, dataBytes, old(Broken()), k).0
      ensures status != Unknown ==> Broken() == ReadStep(indexBytes, dataBytes, old(Broken()), k).1
      ensures status == old(status) && index == old(index) && data == old(data) && Repr == old(Repr)
    {
      if status != Healthy {
        return None;
      }
      var time := index.TimeOf(k);
      if time == 0 {
        return None;
      }
      var fixed := index.FixedSizeRecords();
      if fixed {
        var content := index.ReadPayload(k);
        if content.None? {
          return None;
        }
        payload := Some(Record(time, content.value));
      } else {
        var offset := index.ReadOffset(k);
        if offset == 0 {
          return None;
        }
        var size, result := data.Read(offset);
        if size == 0 && data.file.lastError != NoError {
          return None;
        }
        payload := result;
      }
    }
  }
}
