// The storage classes: byte budget and eviction, day folders, channel map.
module Storages {
  import opened Bytes
  import opened Layout
  import opened FileNames
  import opened FileSystems
  import opened WriterSpec
  import opened StreamWriters
  import opened Accounting
  import opened StorageSpec
  import opened Retention

  // One day's folder and the streams opened in it.
  class Folder {
    const fs: FileSystem
    const cal: Calendar
    var day: nat
    var files: map<string, StreamWriter>

    ghost predicate Valid()
      reads this, files.Values
    {
      && fs.reliable
      && (day == 0 ==> files == map[])
      && (forall c <- files :: Usable(files[c]))
      && forall c <- files, d <- files :: c != d ==> files[c] != files[d]
    }

    ghost predicate Usable(w: StreamWriter)
      reads this, w
    {
      w.fs == fs && w.clock == cal.clock && w.day == day && Tidy(w.View())
    }

    ghost function View(): FolderState
      reads this, files.Values
    {
      FolderState(day, Views(files))
    }

    static ghost function Views(files: map<string, StreamWriter>): map<string, WriterState>
      reads files.Values
    {
      map c | c in files :: files[c].View()
    }

    static lemma ViewsUpdate(files: map<string, StreamWriter>, c: string, w: StreamWriter)
      ensures Views(files[c := w]) == Views(files)[c := w.View()]
    {
    }

    constructor (fs: FileSystem, cal: Calendar)
      requires fs.reliable
      ensures this.fs == fs && this.cal == cal && Valid() && View() == NEW_FOLDER
      ensures files == map[]
    {
      this.fs, this.cal, day, files := fs, cal, 0, map[];
    }

    function SameDay(time: u64): bool
      reads this
    {
      day == cal.dayOf(time)
    }

    // A folder belongs to the day of its first request.
    method MakeReady(time: u64)
      requires Valid() && ValidCalendar(cal)
      modifies this`day, fs
      ensures day != 0 && Valid() && (fs.state, View()) == FolderReady(old(fs.state), old(View()), cal, time)
    {
      if day == 0 {
        day := cal.dayOf(time);
        fs.CreateDirectory(day);
      }
    }

    // The first request of a channel makes its files.
    method OpenChannel(req: Request) returns (r: int)
      requires Valid() && day != 0 && req.channel !in files
      modifies this`files, fs
      ensures Valid() && req.channel in files && fresh(files.Values - old(files.Values))
      ensures (fs.state, View(), r) == ChannelOpened(old(fs.state), old(View()), cal, req)
    {
      hide Reopened, Folder.Views;
      var w := new StreamWriter(fs, cal.clock, day);
      r := w.OpenFile(req.channel, req.size, req.time);
      ReopenedTidy(old(fs.state), NewWriter(day, req.channel, req.size), cal.clock, req.time);
      ViewsUpdate(files, req.channel, w);
      files := files[req.channel := w];
    }

    method WriteChannel(req: Request) returns (r: int)
      requires Valid() && req.channel in files
      modifies files[req.channel], fs
      ensures Valid()
      ensures (fs.state, View(), r) == ChannelWritten(old(fs.state), old(View()), cal, req)
    {
      hide Written;
      var w := files[req.channel];
      WrittenTidy(fs.state, w.View(), cal.clock, req.time, req.data);
      r := w.Write(req.time, req.data);
      assert Views(files) == old(Views(files))[req.channel := w.View()];
    }

    method Write(req: Request) returns (r: int, ghost header: nat)
      requires Valid() && ValidCalendar(cal)
      modifies this, files.Values, fs
      ensures Valid() && fresh(files.Values - old(files.Values))
      ensures (fs.state, View(), r, header) == FolderWritten(old(fs.state), old(View()), cal, req)
    {
      hide Written, Reopened, ChannelOpened, ChannelWritten, FolderReady;
      MakeReady(req.time);
      header := 0;
      if req.channel !in files {
        r := OpenChannel(req);
        if r <= 0 {
          return;
        }
        header := r;
      }
      r := WriteChannel(req);
    }
  }

  // The storage root and the active day folder.
  class FilesystemStorageBackend {
    const fs: FileSystem
    const cal: Calendar
    var folder: Folder

    ghost predicate Valid()
      reads this, folder, folder.files.Values
    {
      folder.fs == fs && folder.cal == cal && folder.Valid() && ValidCalendar(cal)
    }

    constructor (fs: FileSystem, cal: Calendar)
      requires fs.reliable && ValidCalendar(cal)
      ensures this.fs == fs && this.cal == cal && Valid() && folder.View() == NEW_FOLDER
      ensures fresh(folder) && folder.files == map[]
    {
      this.fs, this.cal := fs, cal;
      folder := new Folder(fs, cal);
    }

    method DirectorySize(day: nat) returns (size: nat)
      requires day in fs.state.days
      ensures size == DirectoryBytes(fs.state.days[day])
    {
      size := 0;
      var dir := fs.state.days[day];
      var rest := dir;
      while rest != map[]
        invariant size + DirectoryBytes(rest) == DirectoryBytes(dir)
        decreases |rest|
      {
        var n :| n in rest;
        SumWithout(Sizes(rest), n);
        assert Sizes(rest) - {n} == Sizes(rest - {n});
        size, rest := size + |rest[n]|, rest - {n};
      }
      EmptyDirectory();
    }

    method UsedBytes() returns (size: nat)
      ensures size == LinkedBytes(fs.state.days)
    {
      size := 0;
      var rest := fs.state.days;
      while rest != map[]
        invariant rest.Keys <= fs.state.days.Keys && forall d <- rest :: rest[d] == fs.state.days[d]
        invariant size + LinkedBytes(rest) == LinkedBytes(fs.state.days)
        decreases |rest|
      {
        var d :| d in rest;
        LinkedWithout(rest, d);
        var bytes := DirectorySize(d);
        size, rest := size + bytes, rest - {d};
      }
      EmptyDirectory();
    }

    method FindOldest() returns (oldest: nat)
      ensures oldest == Oldest(fs.state.days)
    {
      oldest := MAX_DAY;
      var seen, rest := {}, fs.state.days.Keys;
      while rest != {}
        invariant seen + rest == fs.state.days.Keys && oldest <= MAX_DAY
        invariant oldest < MAX_DAY ==> oldest in seen
        invariant forall e <- seen :: oldest <= e
        decreases |rest|
      {
        var d :| d in rest;
        if d < oldest {
          oldest := d;
        }
        seen, rest := seen + {d}, rest - {d};
      }
      OldestUnique(fs.state.days, oldest, Oldest(fs.state.days));
    }

    method DeleteFolder(day: nat) returns (freed: nat)
      requires day in fs.state.days
      modifies fs
      ensures freed == DirectoryBytes(old(fs.state).days[day])
      ensures fs.state == old(fs.state).(days := old(fs.state).days - {day})
    {
      freed := DirectorySize(day);
      fs.RemoveAll(day);
    }

    method RemoveOldest() returns (ok: bool, freed: nat)
      modifies fs
      ensures var d := Oldest(old(fs.state).days);
        && ok == (d != MAX_DAY)
        && freed == (if ok then DirectoryBytes(old(fs.state).days[d]) else 0)
        && fs.state == if ok then old(fs.state).(days := old(fs.state).days - {d}) else old(fs.state)
    {
      var oldest := FindOldest();
      if oldest == MAX_DAY {
        return false, 0;
      }
      ok := true;
      freed := DeleteFolder(oldest);
    }

    method Write(req: Request) returns (r: int, ghost header: nat)
      requires Valid()
      modifies this, folder, folder.files.Values, fs
      ensures Valid() && fresh(({folder} + folder.files.Values) - old({folder} + folder.files.Values))
      ensures (fs.state, folder.View(), r, header) == BackendWritten(old(fs.state), old(folder.View()), cal, req)
    {
      hide FolderWritten;
      if !folder.SameDay(req.time) {
        folder := new Folder(fs, cal);
      }
      r, header := folder.Write(req);
    }
  }

  lemma OldestIsDay(days: map<nat, Directory>)
    requires Canonical(days) && days != map[]
    ensures Oldest(days) < MAX_DAY && Oldest(days) in days && Canonical(days - {Oldest(days)})
  {
    var d :| d in days;
  }

  // One turn of the eviction loop.
  lemma EvictedStep(fs: Fs, available: nat, need: nat)
    ensures var d := Oldest(fs.days);
      Evicted(fs, available, need) ==
        if need <= available || d == MAX_DAY then (fs, available)
        else Evicted(fs.(days := fs.days - {d}), available + DirectoryBytes(fs.days[d]), need)
  {
  }

  // The byte budget over a backend.
  class Storage {
    var available: nat
    const backend: FilesystemStorageBackend
    ghost var dropped: nat      // header bytes no write has reported

    ghost predicate Valid()
      reads this, backend, backend.folder, backend.folder.files.Values
    {
      backend.Valid()
    }

    ghost function View(): Store
      reads this, backend, backend.folder, backend.folder.files.Values, backend.fs
    {
      Store(available, backend.fs.state, backend.folder.View(), dropped)
    }

    // Everything a write may change.
    ghost function Parts(): set<object>
      reads this, backend, backend.folder
    {
      {this, backend, backend.folder, backend.fs} + backend.folder.files.Values
    }

    constructor (fs: FileSystem, cal: Calendar, maxSize: nat)
      requires fs.reliable && ValidCalendar(cal) && Canonical(fs.state.days)
      modifies fs
      ensures Valid() && backend.fs == fs && backend.cal == cal && fresh(backend) && fresh(backend.folder)
      ensures View() == Constructed(old(fs.state), maxSize)
      ensures (fs.state, available + LinkedBytes(old(fs.state).days)) ==
        Evicted(old(fs.state), maxSize, LinkedBytes(old(fs.state).days))
      ensures Balanced(View(), maxSize + fs.state.orphaned)
    {
      available := maxSize;
      backend := new FilesystemStorageBackend(fs, cal);
      dropped := 0;
      new;
      var used := backend.UsedBytes();
      RemoveExcess(used);
      available := available - used;
    }

    // Makes room for what is already there; ends because every directory is a
    // day that can be removed.
    method RemoveExcess(used: nat)
      requires Canonical(backend.fs.state.days) && used == LinkedBytes(backend.fs.state.days)
      modifies this`available, backend.fs
      ensures (backend.fs.state, available) == Evicted(old(backend.fs.state), old(available), used)
      ensures used <= available && available + LinkedBytes(backend.fs.state.days) == old(available) + used
    {
      hide Evicted, LinkedBytes, DirectoryBytes, Canonical;
      while used > available
        invariant Canonical(backend.fs.state.days)
        invariant Evicted(backend.fs.state, available, used) == Evicted(old(backend.fs.state), old(available), used)
        invariant available + LinkedBytes(backend.fs.state.days) == old(available) + used
        decreases |backend.fs.state.days|
      {
        ghost var days := backend.fs.state.days;
        assert days != map[] by { EmptyDirectory(); }
        OldestIsDay(days);
        LinkedWithout(days, Oldest(days));
        EvictedStep(backend.fs.state, available, used);
        var _, freed := backend.RemoveOldest();
        available := available + freed;
      }
      EvictedStep(backend.fs.state, available, used);
    }

    // Removes the oldest days until need bytes are available.
    method MakeRoom(need: nat) returns (ok: bool)
      modifies this`available, backend.fs
      ensures (backend.fs.state, available) == Evicted(old(backend.fs.state), old(available), need)
      ensures ok == (need <= available)
    {
      hide Evicted, DirectoryBytes;
      while need > available
        invariant Evicted(backend.fs.state, available, need) == Evicted(old(backend.fs.state), old(available), need)
        decreases |backend.fs.state.days|
      {
        EvictedStep(backend.fs.state, available, need);
        var removed, freed := backend.RemoveOldest();
        if !removed {
          return false;
        }
        available := available + freed;
      }
      EvictedStep(backend.fs.state, available, need);
      ok := true;
    }

    method Deliver(req: Request) returns (written: int)
      requires Valid()
      modifies Parts()
      ensures Valid() && fresh(Parts() - old(Parts()))
      ensures (View(), written) == Stored(old(View()), backend.cal, req)
    {
      hide BackendWritten, Wrap64, Folder.Views;
      ghost var header;
      written, header := backend.Write(req);
      Charge(written, header);
    }

    // What a write costs the budget.
    method Charge(written: int, ghost header: nat)
      requires Valid()
      modifies this
      ensures available == if written > 0 then Wrap64(old(available) - written) else old(available)
      ensures dropped == old(dropped) + header
      ensures Valid() && backend.folder.View() == old(backend.folder.View())
    {
      hide Wrap64;
      if written > 0 {
        available := Wrap64(available - written);
      }
      dropped := dropped + header;
    }

    method Write(req: Request) returns (written: int)
      requires Valid()
      modifies Parts()
      ensures Valid() && fresh(Parts() - old(Parts()))
      ensures (View(), written) == StoreWritten(old(View()), backend.cal, req)
    {
      var ok := MakeRoom(MaxRecordSize(|req.data|));
      assert backend.folder.View() == old(backend.folder.View());
      if !ok {
        return 0;
      }
      written := Deliver(req);
    }
  }
}
