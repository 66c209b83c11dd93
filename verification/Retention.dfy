// The retention policy: results never exceed what was reserved, bytes are
// accounted for to the last one, and eviction removes the oldest days only.
module Retention {
  import opened Bytes
  import opened Layout
  import opened Segments
  import opened FileNames
  import opened FileSystems
  import opened WriterSpec
  import opened WriterRuns
  import opened Accounting
  import opened StorageSpec

  // MAIN: no write reports more than the worst case reserved for it, over
  // fixed, variable and rolled-over files.
  lemma WrittenBound(fs: Fs, w: WriterState, clock: u64 -> string, time: u64, payload: seq<byte>)
    ensures Written(fs, w, clock, time, payload).2 <= MaxRecordSize(|payload|)
  {
  }

  // So the budget never wraps below zero.
  lemma NoUnderflow(st: Store, cal: Calendar, req: Request)
    ensures var (fs1, available) := Evicted(st.fs, st.available, MaxRecordSize(|req.data|));
      var (st', r) := StoreWritten(st, cal, req);
      available < TWO64 ==> st'.available == if r > 0 then available - r else available
    ensures StoreWritten(st, cal, req).1 <= MaxRecordSize(|req.data|)
  {
    var (fs1, available) := Evicted(st.fs, st.available, MaxRecordSize(|req.data|));
    var folder := if st.folder.day == cal.dayOf(req.time) then st.folder else NEW_FOLDER;
    FolderBound(fs1, folder, cal, req);
  }

  lemma FolderBound(fs: Fs, folder: FolderState, cal: Calendar, req: Request)
    ensures FolderWritten(fs, folder, cal, req).2 <= MaxRecordSize(|req.data|)
  {
    var (fs1, ready) := FolderReady(fs, folder, cal, req.time);
    if req.channel in ready.writers {
      WrittenBound(fs1, ready.writers[req.channel], cal.clock, req.time, req.data);
    } else {
      var (fs2, w, header) := Reopened(fs1, NewWriter(ready.day, req.channel, req.size), cal.clock, req.time);
      WrittenBound(fs2, w, cal.clock, req.time, req.data);
    }
  }

  // The bytes of newly opened files are the header bytes the call reports.
  lemma ReopenedBytes(fs: Fs, w: WriterState, clock: u64 -> string, time: u64)
    ensures var (fs', w', r) := Reopened(fs, w, clock, time);
      && Held(fs') == Held(fs) + (if r > 0 then r else 0) && fs'.orphaned == fs.orphaned
      && (r > 0 && w.recordSize == 0 ==> r == 2 * HEADER_SIZE && w'.index.Some? && w'.data.Some?)
  {
    var base := NextBase(fs, w, clock, time);
    NamesDiffer(base, base);
    if w.day in fs.days {
      PutBytes(fs, w.day, IndexName(base), HeaderBytes(w, time, INDEX_FILE));
      var fs1 := Put(fs, w.day, IndexName(base), HeaderBytes(w, time, INDEX_FILE));
      PutBytes(fs1, w.day, DataName(base), HeaderBytes(w, time, DATA_FILE));
    }
  }

  lemma AppendedVariableBytes(fs: Fs, w: WriterState, r: Record)
    requires w.index.Some? && w.data.Some?
    ensures Held(AppendedVariable(fs, w, r).0) == Held(fs) + INDEX_ENTRY + DATA_HEAD + |r.payload|
  {
    var fs1 := Appended(fs, w.day, w.data.value.name, DataRecord(r));
    AppendedBytes(fs, w.day, w.data.value.name, DataRecord(r));
    AppendedBytes(fs1, w.day, w.index.value.name, IndexRecord(0, r, w.offset));
  }

  // The bytes a write adds are the bytes it reports.
  lemma WrittenBytes(fs: Fs, w: WriterState, clock: u64 -> string, time: u64, payload: seq<byte>)
    requires Fits(payload)
    ensures var (fs', _, r) := Written(fs, w, clock, time, payload);
      Held(fs') == Held(fs) + if r > 0 then r else 0
  {
    hide Held, Reopened, AppendedVariable, IndexRecord, NextBase;
    if IsOpen(w.index) && w.recordSize > 0 && |payload| == w.recordSize {
      IndexRecordLength(w.recordSize, Record(time, payload), 0);
      AppendedBytes(fs, w.day, w.index.value.name, IndexRecord(w.recordSize, Record(time, payload), 0));
    } else if IsOpen(w.index) && w.recordSize == 0 && IsOpen(w.data) {
      var rolled := Rolls(w, payload);
      ReopenedBytes(fs, Closed(w), clock, time);
      var (fs1, w1, header) := if rolled then Reopened(fs, Closed(w), clock, time) else (fs, w, 0);
      if !rolled || header > 0 {
        AppendedVariableBytes(fs1, w1, Record(time, payload));
        assert payload[..|payload|] == payload;
      }
    }
  }

  lemma WithDayBytes(fs: Fs, day: nat)
    ensures Held(WithDay(fs, day)) == Held(fs)
  {
    LinkedReplace(fs.days, day, map[]);
    EmptyDirectory();
  }

  lemma FolderBytes(fs: Fs, folder: FolderState, cal: Calendar, req: Request)
    requires Fits(req.data)
    ensures var (fs', _, r, header) := FolderWritten(fs, folder, cal, req);
      Held(fs') == Held(fs) + header + if r > 0 then r else 0
  {
    WithDayBytes(fs, cal.dayOf(req.time));
    var (fs1, ready) := FolderReady(fs, folder, cal, req.time);
    if req.channel in ready.writers {
      WrittenBytes(fs1, ready.writers[req.channel], cal.clock, req.time, req.data);
    } else {
      var w0 := NewWriter(ready.day, req.channel, req.size);
      ReopenedBytes(fs1, w0, cal.clock, req.time);
      var (fs2, w, header) := Reopened(fs1, w0, cal.clock, req.time);
      WrittenBytes(fs2, w, cal.clock, req.time, req.data);
    }
  }

  lemma {:induction false} EvictedBytes(fs: Fs, available: nat, need: nat)
    ensures var (fs', available') := Evicted(fs, available, need);
      available' + Held(fs') == available + Held(fs) && fs'.orphaned == fs.orphaned
    decreases |fs.days|
  {
    var d := Oldest(fs.days);
    if need > available && d < MAX_DAY {
      var next := fs.(days := fs.days - {d});
      var more := available + DirectoryBytes(fs.days[d]);
      assert Evicted(fs, available, need) == Evicted(next, more, need);
      LinkedWithout(fs.days, d);
      EvictedBytes(next, more, need);
    }
  }

  // The budget a store was given, plus the header bytes it lost track of.
  ghost predicate Balanced(st: Store, maxSize: nat) {
    st.available + Held(st.fs) == maxSize + st.dropped
  }

  // MAIN: conservation.  Every write keeps the balance of available bytes,
  // bytes in linked files, bytes in deleted files still being written, and
  // unreported headers.
  lemma Conservation(st: Store, cal: Calendar, req: Request, maxSize: nat)
    requires Balanced(st, maxSize) && Fits(req.data) && maxSize + st.dropped < TWO64
    ensures Balanced(StoreWritten(st, cal, req).0, maxSize)
    ensures st.dropped <= StoreWritten(st, cal, req).0.dropped <= st.dropped + 2 * HEADER_SIZE
  {
    var need := MaxRecordSize(|req.data|);
    var (fs1, available) := Evicted(st.fs, st.available, need);
    EvictedBytes(st.fs, st.available, need);
    NoUnderflow(st, cal, req);
    FolderBytes(fs1, if st.folder.day == cal.dayOf(req.time) then st.folder else NEW_FOLDER, cal, req);
  }

  ghost function Run(st: Store, cal: Calendar, reqs: seq<Request>): Store
    decreases |reqs|
  {
    if reqs == [] then st else Run(StoreWritten(st, cal, reqs[0]).0, cal, reqs[1..])
  }

  // MAIN: the balance over whole runs.  What the files exceed the limit by is
  // at most the headers nobody counted, two for each request.
  lemma {:induction false} BudgetOverRuns(st: Store, cal: Calendar, reqs: seq<Request>, maxSize: nat)
    requires Balanced(st, maxSize) && forall q <- reqs :: Fits(q.data)
    requires maxSize + st.dropped + 2 * HEADER_SIZE * |reqs| < TWO64
    ensures var end := Run(st, cal, reqs);
      && Balanced(end, maxSize)
      && LinkedBytes(end.fs.days) <= maxSize + end.dropped
      && st.dropped <= end.dropped <= st.dropped + 2 * HEADER_SIZE * |reqs|
    decreases |reqs|
  {
    hide StoreWritten, LinkedBytes;
    if reqs != [] {
      Conservation(st, cal, reqs[0], maxSize);
      BudgetOverRuns(StoreWritten(st, cal, reqs[0]).0, cal, reqs[1..], maxSize);
    }
  }

  // The days an eviction removed are the oldest ones ...
  ghost predicate Ascending(days: map<nat, Directory>, days': map<nat, Directory>) {
    && days'.Keys <= days.Keys
    && (forall d <- days' :: days'[d] == days[d])
    && forall d <- days, e <- days' :: d !in days' ==> d < e
  }

  function Older(days: map<nat, Directory>, d: nat): map<nat, Directory> {
    map e | e in days && e < d :: days[e]
  }

  // ... and none of them was removed before it had to be: with only the days
  // before it gone, there was not enough room yet.
  ghost predicate Minimal(days: map<nat, Directory>, days': map<nat, Directory>, available: nat, need: nat) {
    forall d <- days :: d !in days' ==> available + LinkedBytes(Older(days, d)) < need
  }

  // MAIN: eviction removes the shortest ascending prefix of days that makes
  // room, or all of them when no prefix does.
  lemma {:induction false} EvictionMinimal(fs: Fs, available: nat, need: nat)
    requires Canonical(fs.days)
    ensures var (fs', available') := Evicted(fs, available, need);
      && Ascending(fs.days, fs'.days) && Minimal(fs.days, fs'.days, available, need)
      && available' == available + LinkedBytes(fs.days) - LinkedBytes(fs'.days)
      && (need > available' ==> fs'.days == map[])
    decreases |fs.days|
  {
    var d := Oldest(fs.days);
    if need > available && d < MAX_DAY {
      var next := fs.(days := fs.days - {d});
      var more := available + DirectoryBytes(fs.days[d]);
      var (end, left) := Evicted(next, more, need);
      assert Evicted(fs, available, need) == (end, left);
      EvictionMinimal(next, more, need);
      LinkedWithout(fs.days, d);
      AscendingStep(fs.days, end.days, d);
      MinimalStep(fs.days, end.days, d, available, need);
    } else if need > available {
      assert fs.days == map[];
    }
  }

  lemma AscendingStep(days: map<nat, Directory>, days': map<nat, Directory>, d: nat)
    requires Canonical(days) && IsOldest(days, d) && d < MAX_DAY && Ascending(days - {d}, days')
    ensures Ascending(days, days')
  {
    assert d !in days';
    forall x <- days, e <- days' | x !in days' ensures x < e {
      if x != d { assert x in days - {d}; }
    }
  }

  lemma OlderWithout(days: map<nat, Directory>, d: nat, x: nat)
    requires d in days && d < x
    ensures LinkedBytes(Older(days, x)) == DirectoryBytes(days[d]) + LinkedBytes(Older(days - {d}, x))
  {
    hide LinkedBytes, DirectoryBytes;
    LinkedWithout(Older(days, x), d);
    assert Older(days, x) - {d} == Older(days - {d}, x);
  }

  lemma NothingOlder(days: map<nat, Directory>, d: nat)
    requires Canonical(days) && IsOldest(days, d)
    ensures LinkedBytes(Older(days, d)) == 0
  {
    hide LinkedBytes;
    assert Older(days, d) == map[];
    EmptyDirectory();
  }

  lemma MinimalStep(days: map<nat, Directory>, days': map<nat, Directory>, d: nat, available: nat, need: nat)
    requires Canonical(days) && IsOldest(days, d) && d < MAX_DAY && available < need
    requires Minimal(days - {d}, days', available + DirectoryBytes(days[d]), need)
    ensures Minimal(days, days', available, need)
  {
    hide LinkedBytes, DirectoryBytes, Older;
    forall x <- days | x !in days' ensures available + LinkedBytes(Older(days, x)) < need {
      if x == d {
        NothingOlder(days, d);
      } else {
        assert x in days - {d};
        OlderWithout(days, d, x);
      }
    }
  }

  // With results that fit an int no write reports 0.
  lemma ReadyNonzero(fs: Fs, folder: FolderState, cal: Calendar, req: Request)
    requires Fits(req.data)
    ensures ReadyWritten(fs, folder, cal, req).2 != 0
  {
    hide NextBase, HeaderBytes, AppendedVariable, Appended, Put, IndexRecord, Stem;
  }

  lemma NeverZero(fs: Fs, folder: FolderState, cal: Calendar, req: Request)
    requires Fits(req.data)
    ensures FolderWritten(fs, folder, cal, req).2 != 0
  {
    hide ReadyWritten;
    var (fs1, ready) := FolderReady(fs, folder, cal, req.time);
    ReadyNonzero(fs1, ready, cal, req);
  }

  // MAIN: a write is refused with 0 exactly when deleting every day would not
  // make room - and then every day has been deleted.
  lemma RefusedIff(st: Store, cal: Calendar, req: Request)
    requires Canonical(st.fs.days) && Fits(req.data)
    ensures var (st', r) := StoreWritten(st, cal, req);
      && (r == 0 <==> st.available + LinkedBytes(st.fs.days) < MaxRecordSize(|req.data|))
      && (r == 0 ==> st'.fs.days == map[] && st'.folder == st.folder)
  {
    var need := MaxRecordSize(|req.data|);
    EvictionMinimal(st.fs, st.available, need);
    EmptyDirectory();
    var (fs1, available) := Evicted(st.fs, st.available, need);
    NeverZero(fs1, if st.folder.day == cal.dayOf(req.time) then st.folder else NEW_FOLDER, cal, req);
  }
}
