// When the files of a storage stay within its limit.
module Limits {
  import opened Bytes
  import opened Layout
  import opened Segments
  import opened FileNames
  import opened FileSystems
  import opened WriterSpec
  import opened WriterRuns
  import opened Accounting
  import opened StorageSpec
  import opened Retention
  import opened Catalogs
  import opened WholeRun

  // What a record of n bytes takes in files of the given record size.
  function RecordCost(size: u32, n: nat): nat {
    if size == 0 then INDEX_ENTRY + DATA_HEAD + n
    else if n == size then FIXED_HEAD + n
    else 0
  }

  function OpenCost(size: u32): nat {
    if size == 0 then 2 * HEADER_SIZE else HEADER_SIZE
  }

  // What a write of n bytes adds to the files of an open writer.
  function WriteCost(w: WriterState, n: nat): nat {
    if !IsOpen(w.index) || (w.recordSize == 0 && !IsOpen(w.data)) then 0
    else
      RecordCost(w.recordSize, n) +
      if w.recordSize == 0 && NeedsRollover(w, Truncate32(n)) then OpenCost(0) else 0
  }

  // What a request adds to the linked files of fs: nothing when the day of
  // the current folder is gone, the record alone when the channel is open,
  // headers and record otherwise.
  function Growth(fs: Fs, folder: FolderState, day: nat, req: Request): nat {
    if folder.day == day && day !in fs.days then 0
    else if folder.day == day && req.channel in folder.writers then WriteCost(folder.writers[req.channel], |req.data|)
    else OpenCost(req.size) + RecordCost(req.size, |req.data|)
  }

  ghost predicate OnDisk(fs: Fs, w: WriterState) {
    && (IsOpen(w.index) ==> Linked(fs, w.day, w.index.value.name))
    && (w.recordSize == 0 && IsOpen(w.data) ==> Linked(fs, w.day, w.data.value.name))
  }

  // While its day is there, the current folder's writers append to files
  // that can be reached by name.
  ghost predicate Afloat(fs: Fs, folder: FolderState) {
    OneDay(folder) && (folder.day in fs.days ==> forall c <- folder.writers :: OnDisk(fs, folder.writers[c]))
  }

  ghost predicate NamesKept(fs: Fs, fs': Fs) {
    fs'.days.Keys == fs.days.Keys && forall d <- fs.days :: fs.days[d].Keys <= fs'.days[d].Keys
  }

  lemma NamesKeptTwice(a: Fs, b: Fs, c: Fs)
    requires NamesKept(a, b) && NamesKept(b, c)
    ensures NamesKept(a, c)
  {
  }

  lemma AppendedNames(fs: Fs, day: nat, name: string, b: seq<byte>)
    ensures NamesKept(fs, Appended(fs, day, name, b))
    ensures Linked(fs, day, name) ==> Appended(fs, day, name, b).orphaned == fs.orphaned
  {
  }

  lemma ReopenedCost(fs: Fs, w: WriterState, clock: u64 -> string, time: u64)
    requires w.day in fs.days
    ensures var (fs', w', r) := Reopened(fs, w, clock, time);
      && NamesKept(fs, fs') && OnDisk(fs', w') && fs'.orphaned == fs.orphaned && r == OpenCost(w.recordSize)
      && w' == w.(offset := w'.offset, index := w'.index, data := w'.data)
      && w'.index.Some? && w'.index.value.open && (w.recordSize == 0 ==> w'.data.Some? && w'.data.value.open)
      && w'.offset <= HEADER_SIZE
  {
    hide HeaderBytes, NextBase, IndexName, DataName;
  }

  lemma VariableNames(fs: Fs, w: WriterState, r: Record)
    requires w.index.Some? && w.data.Some?
    requires Linked(fs, w.day, w.index.value.name) && Linked(fs, w.day, w.data.value.name)
    ensures var (fs', w') := AppendedVariable(fs, w, r);
      NamesKept(fs, fs') && fs'.orphaned == fs.orphaned && w' == w.(offset := w'.offset)
  {
    hide DataRecord, IndexRecord, Appended;
    var fs1 := Appended(fs, w.day, w.data.value.name, DataRecord(r));
    AppendedNames(fs, w.day, w.data.value.name, DataRecord(r));
    AppendedNames(fs1, w.day, w.index.value.name, IndexRecord(0, r, w.offset));
  }

  // A write through a writer whose files are there: nothing goes astray, and
  // its result is known beforehand.
  lemma WrittenAfloat(fs: Fs, w: WriterState, clock: u64 -> string, time: u64, payload: seq<byte>)
    requires w.day in fs.days && OnDisk(fs, w) && Fits(payload)
    ensures var (fs', w', r) := Written(fs, w, clock, time, payload);
      && NamesKept(fs, fs') && OnDisk(fs', w') && w'.day == w.day && fs'.orphaned == fs.orphaned
      && WriteCost(w, |payload|) == if r > 0 then r else 0
  {
    hide HeaderBytes, NextBase, Reopened, AppendedVariable, IndexRecord, Appended;
    assert payload[..|payload|] == payload;
    var record := Record(time, payload);
    if IsOpen(w.index) && w.recordSize > 0 {
      AppendedNames(fs, w.day, w.index.value.name, IndexRecord(w.recordSize, record, 0));
    } else if IsOpen(w.index) && IsOpen(w.data) {
      if NeedsRollover(w, |payload|) {
        ReopenedCost(fs, Closed(w), clock, time);
        var (fs1, w1, _) := Reopened(fs, Closed(w), clock, time);
        VariableNames(fs1, w1, record);
        NamesKeptTwice(fs, fs1, AppendedVariable(fs1, w1, record).0);
      } else {
        VariableNames(fs, w, record);
      }
    }
  }

  lemma WrittenGrowth(fs: Fs, w: WriterState, clock: u64 -> string, time: u64, payload: seq<byte>)
    requires w.day in fs.days && OnDisk(fs, w) && Fits(payload)
    ensures LinkedBytes(Written(fs, w, clock, time, payload).0.days) == LinkedBytes(fs.days) + WriteCost(w, |payload|)
  {
    hide Written, WriteCost, OnDisk;
    WrittenAfloat(fs, w, clock, time, payload);
    WrittenBytes(fs, w, clock, time, payload);
  }

  lemma OthersAfloat(fs: Fs, fs': Fs, folder: FolderState, c: string, w: WriterState)
    requires Afloat(fs, folder) && folder.day in fs.days && NamesKept(fs, fs')
    requires OnDisk(fs', w) && w.day == folder.day
    ensures Afloat(fs', folder.(writers := folder.writers[c := w]))
  {
    forall x <- folder.writers ensures OnDisk(fs', folder.writers[x]) {
      assert OnDisk(fs, folder.writers[x]);
    }
  }

  // The folder of a day that exists grows by exactly the stated bytes.
  lemma ReadyGrowth(fs: Fs, folder: FolderState, cal: Calendar, req: Request)
    requires Afloat(fs, folder) && folder.day in fs.days && Fits(req.data)
    ensures var (fs', folder', _, _) := ReadyWritten(fs, folder, cal, req);
      && Afloat(fs', folder') && folder'.day == folder.day && fs'.days.Keys == fs.days.Keys
      && LinkedBytes(fs'.days) == LinkedBytes(fs.days) + Growth(fs, folder, folder.day, req)
  {
    hide Written, Reopened, OnDisk, LinkedBytes, WriteCost, Afloat;
    if req.channel in folder.writers {
      var w := folder.writers[req.channel];
      MemberAfloat(fs, folder, req.channel);
      WrittenAfloat(fs, w, cal.clock, req.time, req.data);
      WrittenGrowth(fs, w, cal.clock, req.time, req.data);
      var (fs', w', _) := Written(fs, w, cal.clock, req.time, req.data);
      OthersAfloat(fs, fs', folder, req.channel, w');
    } else {
      OpenedGrowth(fs, folder, cal, req);
    }
  }

  lemma MemberAfloat(fs: Fs, folder: FolderState, c: string)
    requires Afloat(fs, folder) && folder.day in fs.days && c in folder.writers
    ensures OnDisk(fs, folder.writers[c]) && folder.writers[c].day == folder.day
  {
  }

  lemma OpenedGrowth(fs: Fs, folder: FolderState, cal: Calendar, req: Request)
    requires Afloat(fs, folder) && folder.day in fs.days && Fits(req.data) && req.channel !in folder.writers
    ensures var (fs', folder', _, _) := ReadyWritten(fs, folder, cal, req);
      && Afloat(fs', folder') && folder'.day == folder.day && fs'.days.Keys == fs.days.Keys
      && LinkedBytes(fs'.days) == LinkedBytes(fs.days) + OpenCost(req.size) + RecordCost(req.size, |req.data|)
  {
    hide Written, Reopened, OnDisk, LinkedBytes, Afloat;
    var w0 := NewWriter(folder.day, req.channel, req.size);
    ReopenedCost(fs, w0, cal.clock, req.time);
    ReopenedBytes(fs, w0, cal.clock, req.time);
    var (fs1, w1, _) := Reopened(fs, w0, cal.clock, req.time);
    WrittenAfloat(fs1, w1, cal.clock, req.time, req.data);
    WrittenGrowth(fs1, w1, cal.clock, req.time, req.data);
    var (fs', w', _) := Written(fs1, w1, cal.clock, req.time, req.data);
    NamesKeptTwice(fs, fs1, fs');
    OthersAfloat(fs, fs', folder, req.channel, w');
    var c := req.channel;
    assert folder.writers[c := w1][c := w'] == folder.writers[c := w'];
    assert WriteCost(w1, |req.data|) == RecordCost(req.size, |req.data|);
  }

  lemma EvictedAfloat(fs: Fs, available: nat, need: nat, folder: FolderState)
    requires Afloat(fs, folder)
    ensures Afloat(Evicted(fs, available, need).0, folder)
  {
    hide Evicted;
    EvictedRestricts(fs, available, need);
    var fs1 := Evicted(fs, available, need).0;
    if folder.day in fs1.days {
      forall c <- folder.writers ensures OnDisk(fs1, folder.writers[c]) {
        assert OnDisk(fs, folder.writers[c]);
      }
    }
  }

  // MAIN: the bytes in linked files after a request are known before it: what
  // the eviction leaves, and what the request adds.
  lemma LinkedAfter(st: Store, cal: Calendar, req: Request, left: Fs, available: nat)
    requires Afloat(st.fs, st.folder) && ValidCalendar(cal) && Canonical(st.fs.days) && Fits(req.data)
    requires (left, available) == Evicted(st.fs, st.available, MaxRecordSize(|req.data|))
    ensures var st' := StoreWritten(st, cal, req).0;
      && Afloat(st'.fs, st'.folder) && Canonical(st'.fs.days)
      && LinkedBytes(st'.fs.days) == LinkedBytes(left.days) +
           if MaxRecordSize(|req.data|) > available then 0 else Growth(left, st.folder, cal.dayOf(req.time), req)
  {
    hide Evicted, ReadyWritten, LinkedBytes, Afloat, WriteCost;
    var day, folder := cal.dayOf(req.time), FolderFor(st, cal, req);
    EvictedRestricts(st.fs, st.available, MaxRecordSize(|req.data|));
    EvictedAfloat(st.fs, st.available, MaxRecordSize(|req.data|), st.folder);
    if MaxRecordSize(|req.data|) <= available {
      var (fs2, ready) := FolderReady(left, folder, cal, req.time);
      if ready.day in fs2.days {
        WithDayBytes(left, day);
        assert Afloat(fs2, ready) by { ReadyAfloat(left, folder, day); }
        ReadyGrowth(fs2, ready, cal, req);
        GrowthReady(left, st.folder, day, req);
      } else {
        assert OneDay(ready) by { AfloatOneDay(left, st.folder); }
        DeadFolder(fs2, ready, cal, req);
        DeadAfloat(fs2, ready, cal, req);
      }
    }
  }

  lemma AfloatOneDay(fs: Fs, folder: FolderState)
    requires Afloat(fs, folder)
    ensures OneDay(folder)
  {
  }

  lemma DeadAfloat(fs: Fs, folder: FolderState, cal: Calendar, req: Request)
    requires folder.day !in fs.days && OneDay(folder)
    ensures var (fs', folder', _, _) := ReadyWritten(fs, folder, cal, req); Afloat(fs', folder')
  {
    hide ReadyWritten;
    DeadFolder(fs, folder, cal, req);
  }

  lemma ReadyAfloat(fs: Fs, folder: FolderState, day: nat)
    requires Afloat(fs, folder) || folder == NEW_FOLDER
    requires folder == NEW_FOLDER || folder.day == day
    ensures folder == NEW_FOLDER ==> Afloat(WithDay(fs, day), folder.(day := day))
    ensures folder.day == day ==> Afloat(fs, folder)
  {
  }

  // A folder just made has no open channel, so its first request opens one.
  lemma GrowthReady(fs: Fs, folder: FolderState, day: nat, req: Request)
    requires day != 0
    ensures folder.day == day && day in fs.days ==>
      Growth(fs, folder, day, req) == Growth(fs, folder, folder.day, req)
    ensures folder.day != day ==>
      Growth(WithDay(fs, day), NEW_FOLDER.(day := day), day, req) == Growth(fs, folder, day, req)
  {
  }

  // What can be checked before a request: it will be refused, or what the
  // eviction leaves and what the request adds are within the limit.
  ghost predicate Admissible(st: Store, cal: Calendar, req: Request, maxSize: nat) {
    var (left, available) := Evicted(st.fs, st.available, MaxRecordSize(|req.data|));
    MaxRecordSize(|req.data|) > available ||
    LinkedBytes(left.days) + Growth(left, st.folder, cal.dayOf(req.time), req) <= maxSize
  }

  // MAIN: the files are within the limit after a request exactly when that
  // holds; the test the program makes, on its own counter, is another one.
  lemma LimitIff(st: Store, cal: Calendar, req: Request, maxSize: nat)
    requires Afloat(st.fs, st.folder) && ValidCalendar(cal) && Canonical(st.fs.days) && Fits(req.data)
    ensures LinkedBytes(StoreWritten(st, cal, req).0.fs.days) <= maxSize <==> Admissible(st, cal, req, maxSize)
  {
    hide Evicted, StoreWritten, LinkedBytes, Growth, Afloat;
    var (left, available) := Evicted(st.fs, st.available, MaxRecordSize(|req.data|));
    LinkedAfter(st, cal, req, left, available);
    if MaxRecordSize(|req.data|) > available {
      EvictionMinimal(st.fs, st.available, MaxRecordSize(|req.data|));
      EmptyDirectory();
    }
  }

  ghost predicate AlwaysWithin(st: Store, cal: Calendar, reqs: seq<Request>, maxSize: nat)
    decreases |reqs|
  {
    LinkedBytes(st.fs.days) <= maxSize &&
    (reqs == [] || AlwaysWithin(StoreWritten(st, cal, reqs[0]).0, cal, reqs[1..], maxSize))
  }

  ghost predicate AlwaysAdmissible(st: Store, cal: Calendar, reqs: seq<Request>, maxSize: nat)
    decreases |reqs|
  {
    reqs == [] ||
    (Admissible(st, cal, reqs[0], maxSize) &&
      AlwaysAdmissible(StoreWritten(st, cal, reqs[0]).0, cal, reqs[1..], maxSize))
  }

  lemma {:induction false} WithinIffAdmissible(st: Store, cal: Calendar, reqs: seq<Request>, maxSize: nat)
    requires Afloat(st.fs, st.folder) && ValidCalendar(cal) && Canonical(st.fs.days)
    requires LinkedBytes(st.fs.days) <= maxSize && forall q <- reqs :: Fits(q.data)
    ensures AlwaysWithin(st, cal, reqs, maxSize) <==> AlwaysAdmissible(st, cal, reqs, maxSize)
    decreases |reqs|
  {
    hide StoreWritten, Admissible, Afloat, LinkedBytes;
    if reqs != [] {
      var q := reqs[0];
      var (left, available) := Evicted(st.fs, st.available, MaxRecordSize(|q.data|));
      LimitIff(st, cal, q, maxSize);
      LinkedAfter(st, cal, q, left, available);
      if Admissible(st, cal, q, maxSize) {
        WithinIffAdmissible(StoreWritten(st, cal, q).0, cal, reqs[1..], maxSize);
      } else {
        assert !AlwaysWithin(StoreWritten(st, cal, q).0, cal, reqs[1..], maxSize);
      }
    }
  }

  lemma ConstructedWithin(fs: Fs, maxSize: nat)
    requires Canonical(fs.days)
    ensures var st := Constructed(fs, maxSize);
      Afloat(st.fs, st.folder) && Canonical(st.fs.days) && LinkedBytes(st.fs.days) <= maxSize
  {
    hide LinkedBytes, Evicted;
    EvictionMinimal(fs, maxSize, LinkedBytes(fs.days));
    EvictedRestricts(fs, maxSize, LinkedBytes(fs.days));
    EmptyDirectory();
  }

  // MAIN: a storage opened with a limit, on whatever files, holds to it
  // throughout a run exactly when every request of the run is admissible.
  lemma LimitOverRuns(fs: Fs, cal: Calendar, reqs: seq<Request>, maxSize: nat)
    requires ValidCalendar(cal) && Canonical(fs.days) && forall q <- reqs :: Fits(q.data)
    ensures var st := Constructed(fs, maxSize);
      AlwaysWithin(st, cal, reqs, maxSize) <==> AlwaysAdmissible(st, cal, reqs, maxSize)
  {
    hide Constructed, Afloat;
    ConstructedWithin(fs, maxSize);
    WithinIffAdmissible(Constructed(fs, maxSize), cal, reqs, maxSize);
  }
}
