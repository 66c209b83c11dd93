// What queries over the storage tree answer, and what that means for the
// records in it.
module ScannerSpec {
  import opened Bytes
  import opened Sequences
  import opened Layout
  import opened ReaderSpec
  import opened FileNames
  import opened FileSystems
  import opened StorageSpec

  // A stream as listed to a client.
  datatype StreamInfo = StreamInfo(
    day: nat, file: string, name: seq<byte>, status: Status, recordsCount: nat, startTime: u64, endTime: u64)

  datatype Errors = NoErrors | InvalidPath | ReadFailed

  datatype DataResponse = DataResponse(records: seq<Record>, errors: Errors)

  predicate ValidIndex(file: seq<byte>) {
    match HeaderOf(file)
    case None => false
    case Some(h) => Size32(file) >= h.headerSize && h.headerSize >= HEADER_SIZE && h.fileType == INDEX_FILE
  }

  // resolveIndexPath, for identifiers inside the storage root
  predicate Resolves(fs: Fs, day: nat, file: string) {
    Linked(fs, day, file) && HasExtension(file, IDX) && ValidIndex(FileOf(fs, day, file))
  }

  // The data file paired with an index file by name.
  function PairedFile(fs: Fs, day: nat, file: string): seq<byte> {
    match PairedName(file)
    case None => []
    case Some(name) => FileOf(fs, day, name)
  }

  lemma ExtensionPairs(file: string)
    requires HasExtension(file, IDX)
    ensures PairedName(file).Some?
  {
    assert Occurs(file, IDX, |file| - |IDX|);
  }

  predicate Listed(fs: Fs, cal: Calendar, from: u64, to: u64, day: nat, file: string) {
    cal.dayOf(from) <= day <= cal.dayOf(to) && Resolves(fs, day, file) &&
    MatchTime(FileOf(fs, day, file), PairedFile(fs, day, file), from, to)
  }

  function Describe(fs: Fs, day: nat, file: string): StreamInfo {
    var index := FileOf(fs, day, file);
    var n := Count(index);
    StreamInfo(day, file, NameOf(index), StatusOf(index, PairedFile(fs, day, file)), n,
               TimeAt(index, 0), if n == 0 then 0 else TimeAt(index, n - 1))
  }

  // What getStreams returns: all streams of the range, every one once.
  ghost predicate AllStreams(fs: Fs, cal: Calendar, from: u64, to: u64, streams: seq<StreamInfo>) {
    && (forall s <- streams :: Listed(fs, cal, from, to, s.day, s.file) && s == Describe(fs, s.day, s.file))
    && (forall d: nat, f: string :: Listed(fs, cal, from, to, d, f) ==> Describe(fs, d, f) in streams)
    && forall i, j :: 0 <= i < j < |streams| ==> streams[i] != streams[j]
  }

  predicate InRange(r: Record, from: u64, to: u64) {
    from <= r.time <= to
  }

  function Filter(rs: seq<Record>, from: u64, to: u64): (f: seq<Record>)
    ensures |f| <= |rs|
  {
    if rs == [] then []
    else (if InRange(rs[0], from, to) then [rs[0]] else []) + Filter(rs[1..], from, to)
  }

  function Take<T>(s: seq<T>, n: nat): (t: seq<T>)
    ensures |t| <= n && |t| <= |s|
  {
    if |s| <= n then s else s[..n]
  }

  // The reading loop from index k on: collected records and whether any read
  // failed.
  function Collect(index: seq<byte>, data: seq<byte>, broken: bool, k: nat, from: u64, to: u64, max: nat)
    : (seq<Record>, bool)
    decreases Count(index) - k
  {
    if max == 0 || k >= Count(index) then ([], false)
    else
      var (r, broken') := ReadStep(index, data, broken, k);
      if r.None? then (Collect(index, data, broken', k + 1, from, to, max).0, true)
      else if InRange(r.value, from, to) then
        var (rest, failed) := Collect(index, data, broken', k + 1, from, to, max - 1);
        ([r.value] + rest, failed)
      else Collect(index, data, broken', k + 1, from, to, max)
  }

  // One turn of the loop, behind what it has collected so far.
  lemma CollectStep(index: seq<byte>, data: seq<byte>, broken: bool, k: nat, from: u64, to: u64, max: nat,
      before: seq<Record>)
    requires max > 0 && k < Count(index)
    ensures var (r, broken') := ReadStep(index, data, broken, k);
      var (all, failed) := Collect(index, data, broken, k, from, to, max);
      if r.None? then (all, failed) == (Collect(index, data, broken', k + 1, from, to, max).0, true)
      else if InRange(r.value, from, to) then
        var (rest, f) := Collect(index, data, broken', k + 1, from, to, max - 1);
        failed == f && before + all == before + [r.value] + rest
      else (all, failed) == Collect(index, data, broken', k + 1, from, to, max)
  {
    hide ReadStep, Count;
  }

  // getData
  function DataOf(fs: Fs, day: nat, file: string, from: u64, to: u64, start: u32, max: u32): DataResponse {
    if !Resolves(fs, day, file) then DataResponse([], InvalidPath)
    else
      var index, data := FileOf(fs, day, file), PairedFile(fs, day, file);
      if !MatchTime(index, data, from, to) || start >= Count(index) then DataResponse([], NoErrors)
      else
        var (records, failed) := Collect(index, data, false, start, from, to, max);
        DataResponse(records, if failed then ReadFailed else NoErrors)
  }

  // The loop takes the first max in-range records among the readable ones.
  lemma {:induction false} CollectIs(index: seq<byte>, data: seq<byte>, k: nat, from: u64, to: u64, max: nat)
    requires |data| < TWO32
    ensures Collect(index, data, false, k, from, to, max).0 == Take(Filter(ReadFrom(index, data, k), from, to), max)
    decreases Count(index) - k
  {
    hide ReadStep, ReadAt, Count, Filter, InRange;
    FilterEmpty(from, to);
    if max > 0 && k < Count(index) {
      NeverBroken(index, data, k);
      var rest := ReadFrom(index, data, k + 1);
      match ReadAt(index, data, k) {
        case None =>
          CollectIs(index, data, k + 1, from, to, max);
          AppendNothing(rest);
        case Some(r) =>
          FilterCons(r, rest, from, to);
          CollectIs(index, data, k + 1, from, to, if InRange(r, from, to) then max - 1 else max);
          TakeCons(r, Filter(rest, from, to), max);
      }
    }
  }

  lemma FilterEmpty(from: u64, to: u64)
    ensures Filter([], from, to) == []
  {
  }

  lemma FilterCons(r: Record, rest: seq<Record>, from: u64, to: u64)
    ensures Filter([r] + rest, from, to) ==
      if InRange(r, from, to) then [r] + Filter(rest, from, to) else Filter(rest, from, to)
  {
    HeadOfConcat(r, rest);
    AppendNothing(Filter(rest, from, to));
  }

  // What that means record by record, both ends of the range included.
  lemma {:induction false} FilterCounts(rs: seq<Record>, from: u64, to: u64, r: Record)
    ensures multiset(Filter(rs, from, to))[r] == if from <= r.time <= to then multiset(rs)[r] else 0
  {
    if rs != [] {
      FilterCounts(rs[1..], from, to, r);
      assert rs == [rs[0]] + rs[1..];
    }
  }

  lemma HeadOfConcat<T>(x: T, rest: seq<T>)
    ensures ([x] + rest)[0] == x && ([x] + rest)[1..] == rest
  {
  }

  lemma TakeCons<T>(x: T, rest: seq<T>, n: nat)
    requires n > 0
    ensures Take([x] + rest, n) == [x] + Take(rest, n - 1)
  {
  }

  // An index whose time stamps never decrease, and whose records carry the
  // time stamps the index gives them.
  ghost predicate Ordered(index: seq<byte>, data: seq<byte>) {
    && (forall j: nat, k: nat :: j <= k < Count(index) ==> TimeAt(index, j) <= TimeAt(index, k))
    && forall k: nat :: k < Count(index) && ReadAt(index, data, k).Some? ==>
         ReadAt(index, data, k).value.time == TimeAt(index, k)
  }

  // MAIN: on an ordered index the gate on the first and last time stamp loses
  // nothing: it closes only when no readable record is in range.
  lemma {:induction false} GateLosesNothing(index: seq<byte>, data: seq<byte>, k: nat, from: u64, to: u64)
    requires Ordered(index, data) && !MatchTime(index, data, from, to)
    ensures Filter(ReadFrom(index, data, k), from, to) == []
    decreases Count(index) - k
  {
    hide Filter, InRange, Ordered, MatchTime, ReadAt, Count;
    FilterEmpty(from, to);
    if k < Count(index) {
      GateLosesNothing(index, data, k + 1, from, to);
      var rest := ReadFrom(index, data, k + 1);
      match ReadAt(index, data, k) {
        case None => AppendNothing(rest);
        case Some(r) =>
          FilterCons(r, rest, from, to);
          OutOfRange(index, data, k, from, to);
      }
    }
  }

  lemma OutOfRange(index: seq<byte>, data: seq<byte>, k: nat, from: u64, to: u64)
    requires Ordered(index, data) && !MatchTime(index, data, from, to)
    requires k < Count(index) && ReadAt(index, data, k).Some?
    ensures !InRange(ReadAt(index, data, k).value, from, to)
  {
    hide TimeAt, Count, DataAt, OffsetAt, PayloadAt;
    var last := Count(index) - 1;
    assert TimeAt(index, 0) <= TimeAt(index, k) <= TimeAt(index, last);
  }

  // MAIN: a query over an ordered stream returns the first max records in
  // range among the readable ones from start on.
  lemma QueryIs(fs: Fs, day: nat, file: string, from: u64, to: u64, start: u32, max: u32)
    requires Resolves(fs, day, file)
    requires Ordered(FileOf(fs, day, file), PairedFile(fs, day, file)) && |PairedFile(fs, day, file)| < TWO32
    ensures DataOf(fs, day, file, from, to, start, max).records ==
      Take(Filter(ReadFrom(FileOf(fs, day, file), PairedFile(fs, day, file), start), from, to), max)
  {
    hide Ordered, MatchTime, ReadStep, ReadAt, Count, Resolves, FileOf, PairedFile;
    var index, data := FileOf(fs, day, file), PairedFile(fs, day, file);
    if !MatchTime(index, data, from, to) {
      GateLosesNothing(index, data, start, from, to);
    } else if start < Count(index) {
      CollectIs(index, data, start, from, to, max);
    }
  }

  // Everything readable from index j up to, and without, index k.
  function ReadBetween(index: seq<byte>, data: seq<byte>, j: nat, k: nat): seq<Record>
    decreases k - j
  {
    if j >= k then []
    else (match ReadAt(index, data, j) case None => [] case Some(r) => [r]) + ReadBetween(index, data, j + 1, k)
  }

  // Record k cannot be read, and fewer than max records in range come before
  // it from start on.
  ghost predicate FailsAt(
    index: seq<byte>, data: seq<byte>, start: nat, k: nat, from: u64, to: u64, max: nat)
  {
    start <= k < Count(index) && ReadAt(index, data, k) == None &&
    |Filter(ReadBetween(index, data, start, k), from, to)| < max
  }

  lemma FailsLater(index: seq<byte>, data: seq<byte>, start: nat, k: nat, from: u64, to: u64, max: nat)
    requires start < k && max > 0
    ensures var r := ReadAt(index, data, start);
      FailsAt(index, data, start, k, from, to, max) <==>
        FailsAt(index, data, start + 1, k, from, to,
          if r.Some? && InRange(r.value, from, to) then max - 1 else max)
  {
    hide ReadAt, Count, Filter, InRange;
    var rest := ReadBetween(index, data, start + 1, k);
    match ReadAt(index, data, start) {
      case None => AppendNothing(rest);
      case Some(r) => FilterCons(r, rest, from, to);
    }
  }

  // The loop reports an error if and only if it comes across such a record.
  lemma {:induction false} FailedIff(index: seq<byte>, data: seq<byte>, start: nat, from: u64, to: u64, max: nat)
    requires |data| < TWO32
    ensures Collect(index, data, false, start, from, to, max).1 <==>
      exists k: nat :: FailsAt(index, data, start, k, from, to, max)
    decreases Count(index) - start
  {
    hide ReadStep, ReadAt, Count, FailsAt;
    if max == 0 || start >= Count(index) {
      forall k: nat ensures !FailsAt(index, data, start, k, from, to, max) {
        NoFailsAt(index, data, start, k, from, to, max);
      }
    } else {
      NeverBroken(index, data, start);
      FailsFirst(index, data, start, from, to, max);
      var r := ReadAt(index, data, start);
      if r.Some? {
        var left := if InRange(r.value, from, to) then max - 1 else max;
        FailedIff(index, data, start + 1, from, to, left);
        forall k: nat | k != start
          ensures FailsAt(index, data, start, k, from, to, max) <==> FailsAt(index, data, start + 1, k, from, to, left)
        {
          if k > start {
            FailsLater(index, data, start, k, from, to, max);
          } else {
            NoFailsAt(index, data, start, k, from, to, max);
            NoFailsAt(index, data, start + 1, k, from, to, left);
          }
        }
        NoFailsAt(index, data, start + 1, start, from, to, left);
        if Collect(index, data, false, start + 1, from, to, left).1 {
          var k: nat :| FailsAt(index, data, start + 1, k, from, to, left);
          assert FailsAt(index, data, start, k, from, to, max);
        }
      }
    }
  }

  lemma NoFailsAt(index: seq<byte>, data: seq<byte>, start: nat, k: nat, from: u64, to: u64, max: nat)
    requires max == 0 || start >= Count(index) || k < start
    ensures !FailsAt(index, data, start, k, from, to, max)
  {
  }

  lemma FailsFirst(index: seq<byte>, data: seq<byte>, start: nat, from: u64, to: u64, max: nat)
    requires max > 0 && start < Count(index)
    ensures FailsAt(index, data, start, start, from, to, max) <==> ReadAt(index, data, start) == None
  {
    FilterEmpty(from, to);
  }

  // MAIN: a query reports an invalid path exactly when the identifier does not
  // lead to an index file, and a failed read exactly when, behind an open
  // gate, it comes across a record that cannot be read.
  lemma ErrorsAre(fs: Fs, day: nat, file: string, from: u64, to: u64, start: u32, max: u32)
    requires |PairedFile(fs, day, file)| < TWO32
    ensures var index, data := FileOf(fs, day, file), PairedFile(fs, day, file);
      && (DataOf(fs, day, file, from, to, start, max).errors == InvalidPath <==> !Resolves(fs, day, file))
      && (DataOf(fs, day, file, from, to, start, max).errors == ReadFailed <==>
            Resolves(fs, day, file) && MatchTime(index, data, from, to) &&
            exists k: nat :: FailsAt(index, data, start, k, from, to, max))
  {
    hide MatchTime, ReadStep, ReadAt, Resolves, FileOf, PairedFile, FailsAt, Count;
    var index, data := FileOf(fs, day, file), PairedFile(fs, day, file);
    FailedIff(index, data, start, from, to, max);
  }

  // A client paging through a stream, m records at a time.
  function Pages(fs: Fs, day: nat, file: string, from: u64, to: u64, start: nat, m: nat): seq<Record>
    requires 0 < m < TWO32
    decreases Count(FileOf(fs, day, file)) - start
  {
    if start >= Count(FileOf(fs, day, file)) then []
    else DataOf(fs, day, file, from, to, start, m).records + Pages(fs, day, file, from, to, start + m, m)
  }

  ghost predicate FullyReadable(index: seq<byte>, data: seq<byte>) {
    forall k: nat :: k < Count(index) ==> ReadAt(index, data, k).Some?
  }

  lemma {:induction false} FullReadLength(index: seq<byte>, data: seq<byte>, k: nat)
    requires FullyReadable(index, data) && k <= Count(index)
    ensures |ReadFrom(index, data, k)| == Count(index) - k
    ensures forall i: nat :: i < Count(index) - k ==> ReadAt(index, data, k + i) == Some(ReadFrom(index, data, k)[i])
    decreases Count(index) - k
  {
    hide ReadAt, Count;
    if k < Count(index) {
      FullReadLength(index, data, k + 1);
      var all, rest := ReadFrom(index, data, k), ReadFrom(index, data, k + 1);
      assert all == [ReadAt(index, data, k).value] + rest;
      forall i: nat | i < Count(index) - k ensures ReadAt(index, data, k + i) == Some(all[i]) {
        if i > 0 { assert ReadAt(index, data, k + 1 + (i - 1)) == Some(rest[i - 1]); }
      }
    }
  }

  // Skipping j records ahead skips the first j readable ones.
  lemma FullReadSkips(index: seq<byte>, data: seq<byte>, k: nat, j: nat)
    requires FullyReadable(index, data) && k <= j <= Count(index)
    ensures |ReadFrom(index, data, k)| == Count(index) - k
    ensures ReadFrom(index, data, j) == ReadFrom(index, data, k)[j - k..]
  {
    hide ReadAt, Count, ReadFrom;
    FullReadLength(index, data, k);
    FullReadLength(index, data, j);
    var a, b := ReadFrom(index, data, k), ReadFrom(index, data, j);
    forall i | 0 <= i < |b| ensures b[i] == a[j - k + i] {
      assert ReadAt(index, data, j + i) == Some(b[i]);
      assert ReadAt(index, data, k + (j - k + i)) == Some(a[j - k + i]);
    }
  }

  lemma {:induction false} FilterAll(rs: seq<Record>, from: u64, to: u64)
    requires forall r <- rs :: InRange(r, from, to)
    ensures Filter(rs, from, to) == rs
  {
    if rs != [] {
      FilterAll(rs[1..], from, to);
      HeadAndTail(rs);
    }
  }

  // A stream that can be paged: every record readable, all of them in range.
  ghost predicate Pageable(fs: Fs, day: nat, file: string, from: u64, to: u64) {
    var index, data := FileOf(fs, day, file), PairedFile(fs, day, file);
    Resolves(fs, day, file) && Ordered(index, data) && FullyReadable(index, data) && |data| < TWO32 &&
    forall r <- ReadFrom(index, data, 0) :: InRange(r, from, to)
  }

  lemma OnePage(fs: Fs, day: nat, file: string, from: u64, to: u64, start: u32, m: u32)
    requires Pageable(fs, day, file, from, to)
    requires start < Count(FileOf(fs, day, file))
    ensures DataOf(fs, day, file, from, to, start, m).records ==
      Take(ReadFrom(FileOf(fs, day, file), PairedFile(fs, day, file), start), m)
  {
    hide Ordered, ReadStep, ReadAt, Count, Resolves, FileOf, PairedFile, DataOf, ReadFrom;
    var index, data := FileOf(fs, day, file), PairedFile(fs, day, file);
    FullReadSkips(index, data, 0, start);
    FilterAll(ReadFrom(index, data, start), from, to);
    QueryIs(fs, day, file, from, to, start, m);
  }

  // MAIN: pages at 0, m, 2m, ... of a fully readable stream, with a range
  // that covers it, concatenate to the whole stream.
  lemma {:induction false} PagesConcatenate(fs: Fs, day: nat, file: string, from: u64, to: u64, start: nat, m: nat)
    requires 0 < m < TWO32 && Pageable(fs, day, file, from, to)
    ensures Pages(fs, day, file, from, to, start, m) ==
      ReadFrom(FileOf(fs, day, file), PairedFile(fs, day, file), start)
    decreases Count(FileOf(fs, day, file)) - start
  {
    hide Ordered, ReadStep, ReadAt, Count, Resolves, FileOf, PairedFile, DataOf, ReadFrom;
    var index, data := FileOf(fs, day, file), PairedFile(fs, day, file);
    if start < Count(index) {
      var rest := ReadFrom(index, data, start);
      OnePage(fs, day, file, from, to, start, m);
      PagesConcatenate(fs, day, file, from, to, start + m, m);
      FullReadLength(index, data, start);
      if start + m < Count(index) {
        FullReadSkips(index, data, start, start + m);
        assert rest[..m] + rest[m..] == rest;
      } else {
        NothingLeft(index, data, start + m);
        AppendNothing(rest);
      }
    } else {
      NothingLeft(index, data, start);
    }
  }

  lemma NothingLeft(index: seq<byte>, data: seq<byte>, k: nat)
    requires k >= Count(index)
    ensures ReadFrom(index, data, k) == []
  {
  }
}
