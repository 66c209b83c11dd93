// StreamWriter, proved against WriterSpec on a device that may fail at any
// call.
module StreamWriters {
  import opened Bytes
  import opened Layout
  import opened Segments
  import opened FileNames
  import opened FreshNames
  import opened FileSystems
  import opened WriterSpec

  lemma PairedApart(w: WriterState)
    requires Paired(w) && w.index.Some? && w.data.Some?
    ensures w.index.value.name != w.data.value.name
  {
  }

  // A call that does nothing tears nothing.
  lemma Unchanged(fs: Fs, w: WriterState, r: Record)
    requires w.index.Some?
    ensures Failed(fs, w, fs, w, r)
  {
  }

  class StreamWriter {
    const fs: FileSystem
    const clock: u64 -> string     // HHMMSS of a time stamp, local time
    const day: nat                 // the folder
    var channel: string
    var recordSize: u32
    var offset: u32
    var index: Option<Handle>
    var data: Option<Handle>

    ghost function View(): WriterState
      reads this
    {
      WriterState(day, channel, recordSize, offset, index, data)
    }

    // Whatever has failed, the two handles are never on the same file.
    ghost predicate Valid()
      reads this
    {
      Paired(View())
    }

    constructor (fs: FileSystem, clock: u64 -> string, day: nat)
      ensures Valid()
      ensures this.fs == fs && this.clock == clock && this.day == day
      ensures View() == WriterState(day, "", 0, 0, None, None)
    {
      this.fs, this.clock, this.day := fs, clock, day;
      channel, recordSize, offset, index, data := "", 0, 0, None, None;
    }

    // A channel gets its first files.
    method OpenFile(channel: string, recordSize: u32, time: u64) returns (r: int)
      requires Valid()
      modifies this, fs
      ensures Valid()
      ensures r > 0 || fs.reliable ==>
        (fs.state, View(), r) ==
          Reopened(old(fs.state), old(View()).(channel := channel, recordSize := recordSize), clock, time)
      ensures OthersKept(old(fs.state), fs.state, day, {})
      ensures r <= 0 ==> !IsOpen(index)
    {
      this.channel, this.recordSize := channel, recordSize;
      r := ReopenFile(time);
    }

    method FreshName(time: u64) returns (base: string)
      ensures base == NextBase(fs.state, View(), clock, time)
    {
      var stem := clock(time) + "_" + channel + "_" + Decimal(recordSize);
      ghost var dir := DirectoryOf(fs.state, day);
      base := stem;
      var suffix := 1;
      var indexThere := fs.Exists(day, IndexName(base));
      var dataThere := fs.Exists(day, DataName(base));
      while indexThere || dataThere
        invariant suffix >= 1 && base == Candidate(stem, suffix - 1) && AllTaken(dir, stem, suffix - 1)
        invariant indexThere == (IndexName(base) in dir) && dataThere == (DataName(base) in dir)
        decreases |dir| + 1 - suffix
      {
        TakenBound(dir, stem, suffix);
        base := stem + "_" + Decimal(suffix);
        suffix := suffix + 1;
        indexThere := fs.Exists(day, IndexName(base));
        dataThere := fs.Exists(day, DataName(base));
      }
      FreshSuffixIsFirst(dir, stem, suffix - 1);
    }

    method WriteHeader(h: Handle, time: u64, kind: byte) returns (r: int, h': Handle)
      requires h.open && Linked(fs.state, day, h.name)
      modifies fs
      ensures h' == h.(bad := h'.bad)
      ensures r == HEADER_SIZE || r == -EIO
      ensures r > 0 ==> !h'.bad && fs.state == Appended(old(fs.state), day, h.name, HeaderBytes(View(), time, kind))
      ensures OthersKept(old(fs.state), fs.state, day, {h.name})
      ensures fs.reliable && !h.bad ==> r > 0
    {
      var header := FileHeader(channel, recordSize, time, kind);
      var ok, h1, landed := fs.Write(day, h, EncodeHeader(header));
      if !ok {
        return -EIO, h1;
      }
      assert EncodeHeader(header)[..landed] == EncodeHeader(header);
      ok, h' := fs.Flush(h1);
      r := if ok then HEADER_SIZE else -EIO;
    }

    // One file, new and holding its header, or none that is any good.
    method StartFile(name: string, time: u64, kind: byte) returns (r: int, h: Handle)
      requires !Linked(fs.state, day, name)
      modifies fs
      ensures h == Handle(name, h.open, h.bad)
      ensures r == HEADER_SIZE || r == -EINVAL || r == -EIO
      ensures r > 0 ==> h.open && !h.bad && day in old(fs.state.days) &&
                        fs.state == Put(old(fs.state), day, name, HeaderBytes(View(), time, kind))
      ensures OthersKept(old(fs.state), fs.state, day, {})
      ensures fs.reliable ==> (r > 0 <==> day in old(fs.state.days))
      ensures fs.reliable && r <= 0 ==> r == -EINVAL && fs.state == old(fs.state) && h == Handle(name, false, false)
    {
      h := fs.Open(day, name);
      if !h.open {
        return -EINVAL, h;
      }
      CreateAndAppend(old(fs.state), day, name, HeaderBytes(View(), time, kind));
      r, h := WriteHeader(h, time, kind);
    }

    method CloseFile()
      modifies this`index, this`data
      ensures View() == Closed(old(View()))
    {
      if index.Some? && index.value.open {
        index := Some(index.value.(open := false));
      }
      if data.Some? && data.value.open {
        data := Some(data.value.(open := false));
      }
    }

    method ReopenFile(time: u64) returns (r: int)
      requires Valid()
      modifies this`offset, this`index, this`data, fs
      ensures Valid()
      ensures r > 0 || fs.reliable ==> (fs.state, View(), r) == Reopened(old(fs.state), old(View()), clock, time)
      ensures OthersKept(old(fs.state), fs.state, day, {})
      ensures r <= 0 ==> !IsOpen(index)
    {
      hide FreshBase, EncodeHeader, FileHeader, Decimal, EndsIn;
      offset := 0;
      var base := FreshName(time);
      NamesEnd(base);
      NamesDiffer(base, base);
      var h;
      r, h := StartFile(IndexName(base), time, INDEX_FILE);
      index := Some(h);
      if r <= 0 {
        index := Some(h.(open := false));
        return;
      }
      if recordSize == 0 {
        var more, hd := StartFile(DataName(base), time, DATA_FILE);
        data := Some(hd);
        offset := HEADER_SIZE;
        if more < 0 {
          index := Some(h.(open := false));
          return more;
        }
        r := r + more;
      }
    }

    // Two writes in a row; the second is not tried when the first fails.
    method WriteTwo(h: Handle, a: seq<byte>, b: seq<byte>) returns (ok: bool, h': Handle, ghost landed: seq<byte>)
      modifies fs
      ensures h' == h.(bad := !ok)
      ensures fs.state == Appended(old(fs.state), day, h.name, landed)
      ensures ok ==> !h.bad && landed == a + b
      ensures landed <= a + b
      ensures h.bad ==> landed == []
      ensures fs.reliable && !h.bad ==> ok
    {
      ghost var n;
      ok, h', n := fs.Write(day, h, a);
      landed := a[..n];
      if ok {
        assert a[..n] == a;
        ok, h', n := fs.Write(day, h', b);
        AppendTwice(old(fs.state), day, h.name, a, b[..n]);
        landed := a + b[..n];
        if ok { assert b[..n] == b; }
      }
    }

    method WriteFixed(time: u64, payload: seq<byte>, flush: bool) returns (r: int)
      requires IsOpen(index) && recordSize > 0
      modifies this`index, fs
      ensures old(Valid()) ==> Valid()
      ensures r > 0 || (fs.reliable && Sound(old(View()))) ==>
        (fs.state, View(), r) == Written(old(fs.state), old(View()), clock, time, payload)
      ensures r > 0 ==> Sound(View())
      ensures r <= 0 && MaxRecordSize(|payload|) <= INT_MAX ==>
        Failed(old(fs.state), old(View()), fs.state, View(), Record(time, payload))
    {
      hide EndsIn, LE, Reopened, AppendedVariable, NeedsRollover, Appended;
      if |payload| != recordSize {
        Unchanged(fs.state, View(), Record(time, payload));
        return -EINVAL;
      }
      var ok, h, landed := WriteTwo(index.value, LE(time, 8), payload);
      AppendedKeeps(old(fs.state), day, index.value.name, landed);
      index := Some(h);
      if !ok {
        return -EIO;
      }
      if flush {
        ok, h := fs.Flush(h);
        index := Some(h);
        if !ok {
          return -EIO;
        }
      }
      r := Int32(recordSize + FIXED_HEAD);
    }

    // The data record has to be there before anything points to it.
    method WriteVariable(time: u64, payload: seq<byte>, flush: bool) returns (ok: bool)
      requires |payload| < TWO32 && recordSize == 0
      requires index.Some? && data.Some? && data.value.name != index.value.name
      modifies this`offset, this`index, this`data, fs
      ensures old(Valid()) ==> Valid()
      ensures ok ==> (fs.state, View()) == AppendedVariable(old(fs.state), old(View()), Record(time, payload))
      ensures ok ==> Sound(View())
      ensures !ok ==> Failed(old(fs.state), old(View()), fs.state, View(), Record(time, payload))
      ensures fs.reliable && Sound(old(View())) ==> ok
    {
      ghost var i, d := index.value.name, data.value.name;
      ok := WriteData(time, payload, flush);
      UntouchedFile(old(fs.state), fs.state, day, {d}, i);
      if !ok {
        return;
      }
      label between:
      ok := WriteIndex(time, flush);
      UntouchedFile(old@between(fs.state), fs.state, day, {i}, d);
      if ok {
        offset := Truncate32(offset + DATA_HEAD + |payload|);
      }
    }

    // Makes the data record reachable.
    method WriteIndex(time: u64, flush: bool) returns (ok: bool)
      requires index.Some?
      modifies this`index, fs
      ensures index == Some(old(index).value.(bad := !ok))
      ensures ok ==> !old(index).value.bad
      ensures ok ==> fs.state == Appended(old(fs.state), day, index.value.name, LE(time, 8) + LE(offset, 4))
      ensures OnlyGrown(old(fs.state), fs.state, day, {index.value.name})
      ensures FileOf(fs.state, day, index.value.name) <=
        FileOf(old(fs.state), day, index.value.name) + (LE(time, 8) + LE(offset, 4))
      ensures old(index).value.bad ==>
        FileOf(fs.state, day, index.value.name) == FileOf(old(fs.state), day, index.value.name)
      ensures FileOf(old(fs.state), day, index.value.name) <= FileOf(fs.state, day, index.value.name)
      ensures fs.reliable && !old(index).value.bad ==> ok
    {
      var h;
      ghost var landed;
      ok, h, landed := WriteTwo(index.value, LE(time, 8), LE(offset, 4));
      AppendedKeeps(old(fs.state), day, index.value.name, landed);
      index := Some(h);
      if ok && flush {
        ok, h := fs.Flush(h);
        index := Some(h);
      }
    }

    method WriteData(time: u64, payload: seq<byte>, flush: bool) returns (ok: bool)
      requires |payload| < TWO32 && data.Some?
      modifies this`data, fs
      ensures data == Some(old(data).value.(bad := !ok))
      ensures ok ==>
        !old(data).value.bad &&
        fs.state == Appended(old(fs.state), day, data.value.name, DataRecord(Record(time, payload)))
      ensures OnlyGrown(old(fs.state), fs.state, day, {data.value.name})
      ensures FileOf(fs.state, day, data.value.name) <=
        FileOf(old(fs.state), day, data.value.name) + DataRecord(Record(time, payload))
      ensures old(data).value.bad ==>
        FileOf(fs.state, day, data.value.name) == FileOf(old(fs.state), day, data.value.name)
      ensures FileOf(old(fs.state), day, data.value.name) <= FileOf(fs.state, day, data.value.name)
      ensures fs.reliable && !old(data).value.bad ==> ok
    {
      var name := data.value.name;
      var h, h1;
      ghost var head, n;
      ok, h, head := WriteTwo(data.value, LE(time, 8), LE(|payload|, 4));
      data := Some(h);
      AppendedKeeps(old(fs.state), day, name, head);
      if !ok {
        return;
      }
      ok, h1, n := fs.Write(day, h, payload);
      data := Some(h1);
      AppendTwice(old(fs.state), day, name, head, payload[..n]);
      AppendedKeeps(old(fs.state), day, name, head + payload[..n]);
      if !ok {
        return;
      }
      assert payload[..n] == payload;
      if flush {
        ok, h1 := fs.Flush(h1);
        data := Some(h1);
      }
    }

    // Starts new files when the next record would overflow the offset;
    // returns the header bytes written, if any.
    method MakeRoom(size: u32, time: u64) returns (ok: bool, r: int)
      requires Valid()
      modifies this`offset, this`index, this`data, fs
      ensures Valid()
      ensures !NeedsRollover(old(View()), size) ==> ok && r == 0 && fs.state == old(fs.state) && View() == old(View())
      ensures NeedsRollover(old(View()), size) && (r > 0 || fs.reliable) ==>
        (fs.state, View(), r) == Reopened(old(fs.state), Closed(old(View())), clock, time)
      ensures NeedsRollover(old(View()), size) ==> ok == (r > 0) && OthersKept(old(fs.state), fs.state, day, {})
      ensures !ok ==> !IsOpen(index)
    {
      ok, r := true, 0;
      if INDEX_ENTRY + DATA_HEAD + size + offset > TWO32 - 1 {
        CloseFile();
        r := ReopenFile(time);
        ok := r > 0;
      }
    }

    method WriteOrRoll(time: u64, payload: seq<byte>, flush: bool) returns (r: int)
      requires Valid() && IsOpen(index) && IsOpen(data) && recordSize == 0
      modifies this`offset, this`index, this`data, fs
      ensures Valid()
      ensures fs.reliable && Sound(old(View())) ==>
        (fs.state, View(), r) == Written(old(fs.state), old(View()), clock, time, payload)
      ensures MaxRecordSize(|payload|) <= INT_MAX ==>
        WriteStep(old(fs.state), old(View()), clock, time, payload, fs.state, View(), r)
    {
      hide Torn, OthersKept, OnlyGrown, AppendedVariable, NextBase, HeaderBytes, LE, EndsIn;
      var size := Truncate32(|payload|);
      var ok;
      ok, r := MakeRoom(size, time);
      if !ok {
        return;
      }
      PairedApart(View());
      ok := WriteVariable(time, payload[..size], flush);
      r := if ok then Int32(r + INDEX_ENTRY + DATA_HEAD + size) else -EIO;
    }

    // The result counts what has been added to the files; failures are
    // negative.
    method Write(time: u64, payload: seq<byte>) returns (r: int)
      requires Valid()
      modifies this`offset, this`index, this`data, fs
      ensures Valid()
      ensures fs.reliable && Sound(old(View())) ==>
        (fs.state, View(), r) == Written(old(fs.state), old(View()), clock, time, payload)
      ensures MaxRecordSize(|payload|) <= INT_MAX ==>
        WriteStep(old(fs.state), old(View()), clock, time, payload, fs.state, View(), r)
    {
      if !IsOpen(index) {
        return -EINVAL;
      }
      var flush: bool := *;      // whether a second has passed since the last flush
      if recordSize > 0 {
        r := WriteFixed(time, payload, flush);
      } else if !IsOpen(data) {
        r := -EINVAL;
      } else {
        r := WriteOrRoll(time, payload, flush);
      }
    }
  }
}
