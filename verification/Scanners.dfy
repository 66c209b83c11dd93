// StorageScanner: answers queries by opening the files it finds.
module Scanners {
  import opened Bytes
  import opened Sequences
  import opened Layout
  import opened ReaderSpec
  import opened Readers
  import opened FileNames
  import opened FileSystems
  import opened StorageSpec
  import opened ScannerSpec

  class StorageScanner {
    const fs: FileSystem
    const cal: Calendar

    constructor (fs: FileSystem, cal: Calendar)
      ensures this.fs == fs && this.cal == cal
    {
      this.fs, this.cal := fs, cal;
    }

    method ResolveIndexPath(day: nat, file: string) returns (ok: bool)
      ensures ok == Resolves(fs.state, day, file)
    {
      if day !in fs.state.days || file !in fs.state.days[day] || !HasExtension(file, IDX) {
        return false;
      }
      var index := new IndexFileReader(fs.state.days[day][file]);
      match index.file.header {
        case None => ok := false;
        case Some(h) =>
          ok := index.file.sizeBytes >= h.headerSize && h.headerSize >= HEADER_SIZE && h.fileType == INDEX_FILE;
      }
    }

    // All streams of the time range, every one once.
    method GetStreams(from: u64, to: u64) returns (result: seq<StreamInfo>)
      ensures AllStreams(fs.state, cal, from, to, result)
    {
      result := [];
      var firstDay, lastDay := cal.dayOf(from), cal.dayOf(to);
      var rest := fs.state.days.Keys;
      while rest != {}
        invariant rest <= fs.state.days.Keys
        invariant forall s <- result ::
          s.day !in rest && Listed(fs.state, cal, from, to, s.day, s.file) && s == Describe(fs.state, s.day, s.file)
        invariant forall d: nat, f: string :: Listed(fs.state, cal, from, to, d, f) && d !in rest ==>
          Describe(fs.state, d, f) in result
        invariant forall i, j :: 0 <= i < j < |result| ==> result[i] != result[j]
        decreases |rest|
      {
        var day :| day in rest;
        rest := rest - {day};
        if firstDay <= day <= lastDay {
          var found := ExtractStreams(day, from, to);
          result := result + found;
        }
      }
    }

    method ExtractStreams(day: nat, from: u64, to: u64) returns (found: seq<StreamInfo>)
      requires day in fs.state.days && cal.dayOf(from) <= day <= cal.dayOf(to)
      ensures forall s <- found ::
        s.day == day && Listed(fs.state, cal, from, to, day, s.file) && s == Describe(fs.state, day, s.file)
      ensures forall f: string :: Listed(fs.state, cal, from, to, day, f) ==> Describe(fs.state, day, f) in found
      ensures forall i, j :: 0 <= i < j < |found| ==> found[i] != found[j]
    {
      found := [];
      var rest := fs.state.days[day].Keys;
      while rest != {}
        invariant rest <= fs.state.days[day].Keys
        invariant forall s <- found ::
          s.file !in rest && s.day == day && Listed(fs.state, cal, from, to, day, s.file) &&
          s == Describe(fs.state, day, s.file)
        invariant forall f: string :: Listed(fs.state, cal, from, to, day, f) && f !in rest ==>
          Describe(fs.state, day, f) in found
        invariant forall i, j :: 0 <= i < j < |found| ==> found[i] != found[j]
        decreases |rest|
      {
        var file :| file in rest;
        rest := rest - {file};
        var listed, info := Inspect(day, file, from, to);
        if listed {
          found := found + [info];
        }
      }
    }

    method Inspect(day: nat, file: string, from: u64, to: u64) returns (listed: bool, info: StreamInfo)
      requires day in fs.state.days && cal.dayOf(from) <= day <= cal.dayOf(to)
      ensures listed == Listed(fs.state, cal, from, to, day, file)
      ensures listed ==> info == Describe(fs.state, day, file)
    {
      info := StreamInfo(day, file, [], Unknown, 0, 0, 0);
      var ok := ResolveIndexPath(day, file);
      if !ok {
        return false, info;
      }
      ExtensionPairs(file);
      var reader := new StreamReader(fs.state.days[day], file);
      listed := reader.MatchRange(from, to);
      if listed {
        info := StreamInfo(day, file, reader.index.file.Name(), reader.status, reader.index.recordsCount,
                           reader.index.startTime, reader.index.endTime);
      }
    }

    // The records of one stream.
    method GetData(day: nat, file: string, from: u64, to: u64, start: u32, max: u32) returns (response: DataResponse)
      ensures response == DataOf(fs.state, day, file, from, to, start, max)
    {
      hide ReadStep, Count, TimeAt, FixedSize, FindFrom, ValidIndex, Collect;
      var ok := ResolveIndexPath(day, file);
      if !ok {
        return DataResponse([], InvalidPath);
      }
      ExtensionPairs(file);
      var reader := new StreamReader(fs.state.days[day], file);
      if !reader.MatchRange(from, to) || start >= reader.index.recordsCount {
        return DataResponse([], NoErrors);
      }
      ghost var index, data := FileOf(fs.state, day, file), PairedFile(fs.state, day, file);
      var records, failed := ReadLoop(reader, from, to, start, max, index, data);
      response := DataResponse(records, if failed then ReadFailed else NoErrors);
    }

    method ReadLoop(reader: StreamReader, from: u64, to: u64, start: u32, max: u32, ghost index: seq<byte>,
        ghost data: seq<byte>)
      returns (records: seq<Record>, failed: bool)
      requires reader.status == Healthy && reader.Opened(index, data)
      modifies reader.Repr
      ensures (records, failed) == Collect(index, data, old(reader.Broken()), start, from, to, max)
    {
      hide ReadStep, Count, TimeAt, StatusOf, FixedSize, InRange;
      records, failed := [], false;
      var returned, k := 0, start;
      AppendNothing(Collect(index, data, reader.Broken(), start, from, to, max).0);
      while k < reader.index.recordsCount && returned < max
        invariant reader.status == Healthy && reader.Opened(index, data) && reader.Repr == old(reader.Repr)
        invariant returned <= max
        invariant var (rest, f) := Collect(index, data, reader.Broken(), k, from, to, max - returned);
          Collect(index, data, old(reader.Broken()), start, from, to, max) == (records + rest, failed || f)
        decreases Count(index) - k
      {
        ghost var broken := reader.Broken();
        var piece := reader.Read(k, index, data);
        CollectStep(index, data, broken, k, from, to, max - returned, records);
        if piece.None? {
          failed := true;
        } else if InRange(piece.value, from, to) {
          records := records + [piece.value];
          returned := returned + 1;
        }
        k := k + 1;
      }
      AppendNothing(records);
    }
  }
}
