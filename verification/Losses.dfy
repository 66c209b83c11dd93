// Which acknowledged records a storage loses.
module Losses {
  import opened Bytes
  import opened Sequences
  import opened Layout
  import opened Segments
  import opened FreshNames
  import opened FileSystems
  import opened WriterSpec
  import opened WriterRuns
  import opened Accounting
  import opened StorageSpec
  import opened Retention
  import opened Ledgers
  import opened Catalogs
  import opened WholeRun

  // MAIN: a request evicts a day exactly when the free bytes and all older
  // days together are less than it needs.
  lemma {:induction false} EvictedIff(fs: Fs, available: nat, need: nat, d: nat)
    requires Canonical(fs.days) && d in fs.days
    ensures d !in Evicted(fs, available, need).0.days <==> available + LinkedBytes(Older(fs.days, d)) < need
    decreases |fs.days|
  {
    hide DirectoryBytes, LinkedBytes;
    var oldest := Oldest(fs.days);
    if need > available && oldest == d {
      EvictedRestricts(fs.(days := fs.days - {d}), available + DirectoryBytes(fs.days[d]), need);
      assert Evicted(fs, available, need) ==
        Evicted(fs.(days := fs.days - {d}), available + DirectoryBytes(fs.days[d]), need);
      assert Older(fs.days, d) == map[];
      EmptyDirectory();
    } else if need > available {
      var next := fs.(days := fs.days - {oldest});
      var more := available + DirectoryBytes(fs.days[oldest]);
      assert Evicted(fs, available, need) == Evicted(next, more, need);
      EvictedIff(next, more, need, d);
      LinkedWithout(Older(fs.days, d), oldest);
      assert Older(next.days, d) == Older(fs.days, d) - {oldest};
    }
  }

  lemma WrittenDays(fs: Fs, w: WriterState, clock: u64 -> string, time: u64, payload: seq<byte>)
    ensures Written(fs, w, clock, time, payload).0.days.Keys == fs.days.Keys
  {
    hide NextBase, IndexRecord, DataRecord, HeaderBytes, NeedsRollover;
    ReopenedDays(fs, Closed(w), clock, time);
  }

  lemma ReopenedDays(fs: Fs, w: WriterState, clock: u64 -> string, time: u64)
    ensures Reopened(fs, w, clock, time).0.days.Keys == fs.days.Keys
  {
    hide NextBase, HeaderBytes;
  }

  // Writing makes and removes no directory.
  lemma ReadyDays(fs: Fs, folder: FolderState, cal: Calendar, req: Request)
    ensures var (fs', folder', _, _) := ReadyWritten(fs, folder, cal, req);
      fs'.days.Keys == fs.days.Keys && folder'.day == folder.day
  {
    hide Written, Reopened;
    if req.channel in folder.writers {
      WrittenDays(fs, folder.writers[req.channel], cal.clock, req.time, req.data);
    } else {
      var w0 := NewWriter(folder.day, req.channel, req.size);
      var (fs1, w, _) := Reopened(fs, w0, cal.clock, req.time);
      ReopenedDays(fs, w0, cal.clock, req.time);
      WrittenDays(fs1, w, cal.clock, req.time, req.data);
    }
  }

  // MAIN: an acknowledged record goes into files that are already deleted if
  // and only if it belongs to the current day and that day's directory was
  // missing, or was evicted to make room for this very record.
  lemma LostIff(st: Store, cal: Calendar, req: Request)
    requires ValidCalendar(cal) && Canonical(st.fs.days)
    requires StoreWritten(st, cal, req).1 > 0
    ensures var st' := StoreWritten(st, cal, req).0;
      var day := cal.dayOf(req.time);
      st'.folder.day == day &&
      (day !in st'.fs.days <==>
        st.folder.day == day &&
        (day !in st.fs.days || st.available + LinkedBytes(Older(st.fs.days, day)) < MaxRecordSize(|req.data|)))
  {
    hide Evicted, ReadyWritten;
    var need := MaxRecordSize(|req.data|);
    var (fs1, available) := Evicted(st.fs, st.available, need);
    var day := cal.dayOf(req.time);
    EvictedRestricts(st.fs, st.available, need);
    if day in st.fs.days { EvictedIff(st.fs, st.available, need, day); }
    var (fs2, ready) := FolderReady(fs1, FolderFor(st, cal, req), cal, req.time);
    ReadyDays(fs2, ready, cal, req);
  }

  function TotalNeed(reqs: seq<Request>): nat {
    if reqs == [] then 0 else MaxRecordSize(|reqs[0].data|) + TotalNeed(reqs[1..])
  }

  // The records of all requests answered with a positive number.
  ghost function Acked(st: Store, cal: Calendar, reqs: seq<Request>): seq<Record>
    decreases |reqs|
  {
    if reqs == [] then []
    else
      var (st', r) := StoreWritten(st, cal, reqs[0]);
      Accepted(reqs[0].time, reqs[0].data, r) + Acked(st', cal, reqs[1..])
  }

  function Records(log: seq<Entry>): seq<Record> {
    if log == [] then [] else Records(log[..|log| - 1]) + [log[|log| - 1].record]
  }

  lemma {:induction false} AllSurvive(log: seq<Entry>, days: set<nat>)
    requires forall e <- log :: e.day in days
    ensures Survivors(log, days) == log
  {
    if log != [] {
      AllSurvive(log[..|log| - 1], days);
      assert log == log[..|log| - 1] + [log[|log| - 1]];
    }
  }

  // A folder is new or its day exists, and so do all days on the log.
  ghost predicate Present(st: Store, log: seq<Entry>) {
    (st.folder == NEW_FOLDER || st.folder.day in st.fs.days) && forall e <- log :: e.day in st.fs.days
  }

  lemma RoomyStep(st: Store, cal: Calendar, req: Request, log: seq<Entry>)
    requires ValidCalendar(cal) && Present(st, log) && MaxRecordSize(|req.data|) <= st.available < TWO64
    ensures var (st', r) := StoreWritten(st, cal, req);
      && st'.available + MaxRecordSize(|req.data|) >= st.available && st'.available <= st.available
      && Present(st', NextLog(log, st, cal, req))
      && Records(NextLog(log, st, cal, req)) == Records(log) + Accepted(req.time, req.data, r)
  {
    hide ReadyWritten;
    NoUnderflow(st, cal, req);
    AllSurvive(log, st.fs.days.Keys);
    var (fs2, ready) := FolderReady(st.fs, FolderFor(st, cal, req), cal, req.time);
    ReadyDays(fs2, ready, cal, req);
    var (st', r) := StoreWritten(st, cal, req);
    AppendNothing(Records(log));
    AppendOne(log, Entry(st'.folder.day, Place(WriterOf(st'.folder, req)), req.channel, Record(req.time, req.data)));
  }

  // MAIN: while the budget covers all requests nothing is lost: the log is
  // the sequence of acknowledged records.
  lemma {:induction false} RoomyRun(st: Store, cal: Calendar, reqs: seq<Request>, log: seq<Entry>)
    requires ValidCalendar(cal) && Present(st, log) && TotalNeed(reqs) <= st.available < TWO64
    ensures Records(RunLog(log, st, cal, reqs)) == Records(log) + Acked(st, cal, reqs)
    decreases |reqs|
  {
    hide StoreWritten, NextLog, Present;
    if reqs == [] {
      AppendNothing(Records(log));
    } else {
      var (st', r) := StoreWritten(st, cal, reqs[0]);
      RoomyStep(st, cal, reqs[0], log);
      RoomyRun(st', cal, reqs[1..], NextLog(log, st, cal, reqs[0]));
      Reassociate(Records(log), Accepted(reqs[0].time, reqs[0].data, r), Acked(st', cal, reqs[1..]));
    }
  }

  // A writer that has just stored one byte in files of its own.
  ghost predicate AfterOneByte(w: WriterState, day: nat) {
    w.day == day && w.recordSize == 0 && IsOpen(w.index) && IsOpen(w.data) && w.offset == HEADER_SIZE + DATA_HEAD + 1
  }

  lemma OneByteWritten(fs: Fs, folder: FolderState, cal: Calendar, req: Request)
    requires folder.day in fs.days && req.channel !in folder.writers && req.size == 0 && |req.data| == 1
    ensures var (fs', folder', r, header) := ReadyWritten(fs, folder, cal, req);
      && r == INDEX_ENTRY + DATA_HEAD + 1 && header == 2 * HEADER_SIZE
      && fs'.orphaned == fs.orphaned
      && folder'.writers.Keys == folder.writers.Keys + {req.channel}
      && AfterOneByte(folder'.writers[req.channel], folder.day)
  {
    hide HeaderBytes, Stem, FreshBase, IndexRecord, DataRecord;
    var w0 := NewWriter(folder.day, req.channel, 0);
    NextNamesDiffer(fs, w0, cal.clock, req.time);
    assert req.data[..1] == req.data;
  }

  // The first byte of a channel: 25 bytes are charged, 98 more are not.
  lemma OneByteStored(st: Store, cal: Calendar, req: Request)
    requires ValidCalendar(cal) && Present(st, []) && req.size == 0 && |req.data| == 1
    requires 123 <= st.available < TWO64
    requires req.channel !in FolderFor(st, cal, req).writers
    ensures var (st', r) := StoreWritten(st, cal, req);
      && r == 25 && st'.available == st.available - 25 && st'.dropped == st.dropped + 98
      && st'.fs.orphaned == st.fs.orphaned && Present(st', [])
      && st'.fs.days.Keys == st.fs.days.Keys + {cal.dayOf(req.time)}
      && st'.folder.day == cal.dayOf(req.time)
      && st'.folder.writers.Keys == FolderFor(st, cal, req).writers.Keys + {req.channel}
      && AfterOneByte(st'.folder.writers[req.channel], cal.dayOf(req.time))
  {
    hide ReadyWritten, AfterOneByte;
    var (fs2, ready) := FolderReady(st.fs, FolderFor(st, cal, req), cal, req.time);
    OneByteWritten(fs2, ready, cal, req);
    ReadyDays(fs2, ready, cal, req);
  }

  ghost function FreshStore(maxSize: nat): Store {
    Store(maxSize, Fs(map[], 0), NEW_FOLDER, 0)
  }

  lemma FreshBalanced(maxSize: nat)
    ensures Balanced(FreshStore(maxSize), maxSize)
  {
    EmptyDirectory();
  }

  // Because opened files' headers are not charged, a storage limited to 260
  // bytes holds 369 after one byte on each of three channels.
  lemma LimitExceeded(cal: Calendar, a: Request, b: Request, c: Request)
    requires ValidCalendar(cal) && a.time == b.time == c.time
    requires a.size == b.size == c.size == 0 && |a.data| == |b.data| == |c.data| == 1
    requires a.channel != b.channel && b.channel != c.channel && a.channel != c.channel
    ensures LinkedBytes(Run(FreshStore(260), cal, [a, b, c]).fs.days) == 369
  {
    hide StoreWritten, Balanced;
    var st := FreshStore(260);
    FreshBalanced(260);
    OneByteStored(st, cal, a);
    Conservation(st, cal, a, 260);
    var st1 := StoreWritten(st, cal, a).0;
    OneByteStored(st1, cal, b);
    Conservation(st1, cal, b, 260);
    var st2 := StoreWritten(st1, cal, b).0;
    OneByteStored(st2, cal, c);
    Conservation(st2, cal, c, 260);
    var st3 := StoreWritten(st2, cal, c).0;
    assert [a, b, c][1..] == [b, c] && [b, c][1..] == [c] && [c][1..] == [];
    assert Run(st2, cal, [c]) == Run(st3, cal, []) == st3;
    assert Run(st1, cal, [b, c]) == st3;
    assert LinkedBytes(st3.fs.days) == 369 by { BalancedBytes(st3, 260); }
  }

  lemma BalancedBytes(st: Store, maxSize: nat)
    requires Balanced(st, maxSize)
    ensures LinkedBytes(st.fs.days) == maxSize + st.dropped - st.available - st.fs.orphaned
  {
  }

  // An append by a writer whose day is gone is acknowledged and goes nowhere.
  lemma GoneWritten(fs: Fs, folder: FolderState, cal: Calendar, req: Request)
    requires fs.days == map[] && folder.day != 0 && |req.data| == 1
    requires req.channel in folder.writers && AfterOneByte(folder.writers[req.channel], folder.day)
    ensures var (fs', folder', r, _) := ReadyWritten(fs, folder, cal, req);
      r == INDEX_ENTRY + DATA_HEAD + 1 && fs'.days == map[] && folder'.day == folder.day
  {
    hide IndexRecord, DataRecord, Reopened;
  }

  // With a limit of 130 bytes, writing one byte twice leaves no file at all:
  // the second write evicts the day it is writing to and is acknowledged.
  lemma AcknowledgedIntoNothing(cal: Calendar, q: Request)
    requires ValidCalendar(cal) && q.size == 0 && |q.data| == 1
    ensures var st := FreshStore(130);
      && Acked(st, cal, [q, q]) == [Record(q.time, q.data), Record(q.time, q.data)]
      && Run(st, cal, [q, q]).fs.days == map[] && RunLog([], st, cal, [q, q]) == []
  {
    hide StoreWritten, ReadyWritten, Evicted, Balanced, NextLog, AfterOneByte;
    var st := FreshStore(130);
    FreshBalanced(130);
    OneByteStored(st, cal, q);
    Conservation(st, cal, q, 130);
    var st1 := StoreWritten(st, cal, q).0;
    BalancedBytes(st1, 130);
    SecondWrite(st1, cal, q, NextLog([], st, cal, q));
    var st2 := StoreWritten(st1, cal, q).0;
    assert [q, q][1..] == [q] && [q][1..] == [];
    assert Run(st1, cal, [q]) == Run(st2, cal, []) == st2;
    assert Acked(st1, cal, [q]) == [Record(q.time, q.data)] + Acked(st2, cal, []);
    assert RunLog(NextLog([], st, cal, q), st1, cal, [q]) == RunLog([], st2, cal, []) == [];
  }

  lemma SecondWrite(st: Store, cal: Calendar, q: Request, log: seq<Entry>)
    requires ValidCalendar(cal) && |q.data| == 1 && st.folder.day == cal.dayOf(q.time)
    requires st.fs.days.Keys == {st.folder.day} && st.available == 105 && LinkedBytes(st.fs.days) == 123
    requires q.channel in st.folder.writers && AfterOneByte(st.folder.writers[q.channel], st.folder.day)
    ensures var (st', r) := StoreWritten(st, cal, q);
      r == 25 && st'.fs.days == map[] && NextLog(log, st, cal, q) == []
  {
    hide ReadyWritten, Evicted, AfterOneByte;
    var day := st.folder.day;
    var (fs1, available) := Evicted(st.fs, st.available, 123);
    EvictionMinimal(st.fs, st.available, 123);
    EvictedIff(st.fs, st.available, 123, day);
    assert Older(st.fs.days, day) == map[];
    EmptyDirectory();
    assert fs1.days == map[];
    GoneWritten(fs1, st.folder, cal, q);
    NoneSurvive(log);
    assert fs1.days.Keys == {};
    assert Survivors(log, fs1.days.Keys) == [];
  }

  lemma {:induction false} NoneSurvive(log: seq<Entry>)
    ensures Survivors(log, {}) == []
  {
    if log != [] { NoneSurvive(log[..|log| - 1]); }
  }
}
