// Retention policy, day folders and channels as functions on values.
module StorageSpec {
  import opened Bytes
  import opened Layout
  import opened FileNames
  import opened FileSystems
  import opened WriterSpec
  import opened Accounting

  const MAX_DAY: nat := 99999999

  datatype Request = Request(channel: string, size: u32, data: seq<byte>, time: u64)

  // Local time, left uninterpreted: the HHMMSS of a file name and the day in
  // YYYYMMDD format.
  datatype Calendar = Calendar(clock: u64 -> string, dayOf: u64 -> nat)

  // Days have eight digits: never 0, the mark of a folder not created yet,
  // and below the search bound of findOldest.
  ghost predicate ValidCalendar(cal: Calendar) {
    forall t: u64 :: 0 < cal.dayOf(t) < MAX_DAY
  }

  ghost predicate Monotone(cal: Calendar) {
    forall s: u64, t: u64 :: s <= t ==> cal.dayOf(s) <= cal.dayOf(t)
  }

  // day == 0: not created yet.
  datatype FolderState = FolderState(day: nat, writers: map<string, WriterState>)

  const NEW_FOLDER := FolderState(0, map[])

  // dropped counts the header bytes Folder::write never reports.
  datatype Store = Store(available: nat, fs: Fs, folder: FolderState, dropped: nat)

  ghost predicate Canonical(days: map<nat, Directory>) {
    forall d <- days :: 0 < d < MAX_DAY
  }

  // findOldest: the smallest day below MAX_DAY, or MAX_DAY.
  ghost predicate IsOldest(days: map<nat, Directory>, d: nat) {
    d <= MAX_DAY && (d < MAX_DAY ==> d in days) && forall e <- days :: d <= e || MAX_DAY <= e
  }

  ghost function Oldest(days: map<nat, Directory>): (d: nat)
    ensures IsOldest(days, d)
  {
    OldestExists(days);
    var d :| IsOldest(days, d);
    d
  }

  lemma {:induction false} OldestExists(days: map<nat, Directory>)
    ensures exists d :: IsOldest(days, d)
    decreases |days|
  {
    if days == map[] {
      assert IsOldest(days, MAX_DAY);
    } else {
      var k :| k in days;
      OldestExists(days - {k});
      var d :| IsOldest(days - {k}, d);
      var m := if k < d then k else d;
      forall e <- days ensures m <= e || MAX_DAY <= e {
        if e != k { assert e in days - {k}; }
      }
      assert IsOldest(days, m);
    }
  }

  lemma OldestUnique(days: map<nat, Directory>, d: nat, e: nat)
    requires IsOldest(days, d) && IsOldest(days, e)
    ensures d == e
  {
  }

  // removeOldest until need fits or nothing is left to remove.
  ghost function Evicted(fs: Fs, available: nat, need: nat): (Fs, nat)
    decreases |fs.days|
  {
    var d := Oldest(fs.days);
    if need <= available || d == MAX_DAY then (fs, available)
    else Evicted(fs.(days := fs.days - {d}), available + DirectoryBytes(fs.days[d]), need)
  }

  // The Storage constructor: the oldest days go until what is there fits.
  ghost function Constructed(fs: Fs, maxSize: nat): Store {
    var used := LinkedBytes(fs.days);
    var (left, available) := Evicted(fs, maxSize, used);
    Store(if used <= available then available - used else 0, left, NEW_FOLDER, 0)
  }

  // A directory made if there is none.
  function WithDay(fs: Fs, day: nat): Fs {
    if day in fs.days then fs else fs.(days := fs.days[day := map[]])
  }

  function NewWriter(day: nat, channel: string, size: u32): WriterState {
    WriterState(day, channel, size, 0, None, None)
  }

  // Folder::create
  function FolderReady(fs: Fs, folder: FolderState, cal: Calendar, time: u64): (Fs, FolderState) {
    if folder.day != 0 then (fs, folder)
    else (WithDay(fs, cal.dayOf(time)), folder.(day := cal.dayOf(time)))
  }

  // A channel used for the first time: its files are opened.
  ghost function ChannelOpened(fs: Fs, folder: FolderState, cal: Calendar, req: Request): (Fs, FolderState, int) {
    var (fs', w, header) := Reopened(fs, NewWriter(folder.day, req.channel, req.size), cal.clock, req.time);
    (fs', folder.(writers := folder.writers[req.channel := w]), header)
  }

  ghost function ChannelWritten(fs: Fs, folder: FolderState, cal: Calendar, req: Request): (Fs, FolderState, int)
    requires req.channel in folder.writers
  {
    var (fs', w, r) := Written(fs, folder.writers[req.channel], cal.clock, req.time, req.data);
    (fs', folder.(writers := folder.writers[req.channel := w]), r)
  }

  // Folder::write on a ready folder: result, and the header bytes it drops.
  ghost function ReadyWritten(fs: Fs, folder: FolderState, cal: Calendar, req: Request): (Fs, FolderState, int, nat) {
    if req.channel in folder.writers then
      var (fs', folder', r) := ChannelWritten(fs, folder, cal, req);
      (fs', folder', r, 0)
    else
      var (fs1, folder1, header) := ChannelOpened(fs, folder, cal, req);
      if header <= 0 then (fs1, folder1, header, 0)
      else
        var (fs', folder', r) := ChannelWritten(fs1, folder1, cal, req);
        (fs', folder', r, header)
  }

  ghost function FolderWritten(fs: Fs, folder: FolderState, cal: Calendar, req: Request): (Fs, FolderState, int, nat) {
    var (fs1, folder1) := FolderReady(fs, folder, cal, req.time);
    ReadyWritten(fs1, folder1, cal, req)
  }

  // FilesystemStorageBackend::write
  ghost function BackendWritten(fs: Fs, folder: FolderState, cal: Calendar, req: Request): (Fs, FolderState, int, nat) {
    FolderWritten(fs, if folder.day == cal.dayOf(req.time) then folder else NEW_FOLDER, cal, req)
  }

  // The write itself, and what it costs the budget.
  ghost function Stored(st: Store, cal: Calendar, req: Request): (Store, int) {
    var (fs, folder, r, header) := BackendWritten(st.fs, st.folder, cal, req);
    (Store(if r > 0 then Wrap64(st.available - r) else st.available, fs, folder, st.dropped + header), r)
  }

  // Storage::write
  ghost function StoreWritten(st: Store, cal: Calendar, req: Request): (Store, int) {
    var (fs, available) := Evicted(st.fs, st.available, MaxRecordSize(|req.data|));
    var roomy := st.(fs := fs, available := available);
    if MaxRecordSize(|req.data|) > available then (roomy, 0) else Stored(roomy, cal, req)
  }
}
