// The records a storage has accepted and still keeps, file by file, through
// day switches and evictions.
module Catalogs {
  import opened Bytes
  import opened Sequences
  import opened Layout
  import opened Segments
  import opened FileSystems
  import opened WriterSpec
  import opened WriterRuns
  import opened Accounting
  import opened StorageSpec
  import opened Ledgers

  // A record, the channel it was sent to, and the file it went to.
  datatype Entry = Entry(day: nat, base: string, channel: string, record: Record)

  ghost predicate IsOn(e: Entry, day: nat, base: string) {
    e.day == day && e.base == base
  }

  function Survivors(log: seq<Entry>, days: set<nat>): seq<Entry> {
    if log == [] then []
    else
      var e := log[|log| - 1];
      Survivors(log[..|log| - 1], days) + if e.day in days then [e] else []
  }

  // The log after a request: nothing of an evicted day is left in it, and an
  // acknowledged record is added unless its own day has just been, or was
  // already, evicted.
  ghost function NextLog(log: seq<Entry>, st: Store, cal: Calendar, req: Request): seq<Entry> {
    var kept := Survivors(log, Evicted(st.fs, st.available, MaxRecordSize(|req.data|)).0.days.Keys);
    var (st', r) := StoreWritten(st, cal, req);
    if r > 0 && st'.folder.day in st'.fs.days
    then kept + [Entry(st'.folder.day, Place(WriterOf(st'.folder, req)), req.channel, Record(req.time, req.data))]
    else kept
  }

  // The log of one file.
  function OnFile(log: seq<Entry>, day: nat, base: string): seq<Record> {
    if log == [] then []
    else
      var e := log[|log| - 1];
      OnFile(log[..|log| - 1], day, base) + if e.day == day && e.base == base then [e.record] else []
  }

  lemma {:induction false} OnFileSurvivors(log: seq<Entry>, days: set<nat>, day: nat, base: string)
    requires day in days
    ensures OnFile(Survivors(log, days), day, base) == OnFile(log, day, base)
  {
    if log != [] {
      var n := |log| - 1;
      OnFileSurvivors(log[..n], days, day, base);
      if log[n].day in days {
        AppendOne(Survivors(log[..n], days), log[n]);
      } else {
        AppendNothing(OnFile(log[..n], day, base));
        AppendNothing(Survivors(log[..n], days));
      }
    }
  }

  lemma {:induction false} SurvivorsIn(log: seq<Entry>, days: set<nat>, e: Entry)
    ensures e in Survivors(log, days) <==> e in log && e.day in days
  {
    if log != [] {
      var n := |log| - 1;
      SurvivorsIn(log[..n], days, e);
      assert log == log[..n] + [log[n]];
    }
  }

  lemma {:induction false} EntryOnFile(log: seq<Entry>, e: Entry)
    requires e in log
    ensures e.record in OnFile(log, e.day, e.base)
  {
    var n := |log| - 1;
    if e != log[n] {
      assert e in log[..n];
      EntryOnFile(log[..n], e);
    }
  }

  lemma {:induction false} OnFileEntry(log: seq<Entry>, day: nat, base: string, r: Record) returns (e: Entry)
    requires r in OnFile(log, day, base)
    ensures e in log && IsOn(e, day, base) && e.record == r
  {
    var n := |log| - 1;
    if r in OnFile(log[..n], day, base) {
      e := OnFileEntry(log[..n], day, base, r);
    } else {
      e := log[n];
    }
  }

  // The log lists the records of the catalogued segments, in their order, and
  // every segment holds records of its own channel only.
  ghost predicate EntryFiled(cat: Catalog, e: Entry) {
    e.day in cat && e.base in cat[e.day] && cat[e.day][e.base].channel == e.channel
  }

  ghost predicate Listing(log: seq<Entry>, cat: Catalog) {
    forall d <- cat, b <- cat[d] :: OnFile(log, d, b) == cat[d][b].records
  }

  ghost predicate Filed(log: seq<Entry>, cat: Catalog) {
    (forall e <- log :: EntryFiled(cat, e)) && Listing(log, cat)
  }

  function Restricted(cat: Catalog, days: set<nat>): Catalog {
    map d | d in cat && d in days :: cat[d]
  }

  function ShelfOf(cat: Catalog, day: nat): Shelf {
    if day in cat then cat[day] else map[]
  }

  lemma FiledRestricted(log: seq<Entry>, cat: Catalog, days: set<nat>)
    requires Filed(log, cat)
    ensures Filed(Survivors(log, days), Restricted(cat, days))
  {
    var log', cat' := Survivors(log, days), Restricted(cat, days);
    forall e <- log' ensures EntryFiled(cat', e) {
      SurvivorsIn(log, days, e);
      assert EntryFiled(cat, e);
    }
    forall d <- cat', b <- cat'[d] ensures OnFile(log', d, b) == cat'[d][b].records {
      OnFileSurvivors(log, days, d, b);
    }
  }

  lemma FiledNewDay(log: seq<Entry>, cat: Catalog, day: nat)
    requires Filed(log, cat)
    ensures Filed(log, cat[day := ShelfOf(cat, day)])
  {
    forall e <- log ensures EntryFiled(cat[day := ShelfOf(cat, day)], e) {
      assert EntryFiled(cat, e);
    }
  }

  lemma NotOnFile(log: seq<Entry>, cat: Catalog, d: nat, b: string)
    requires Filed(log, cat) && b !in ShelfOf(cat, d)
    ensures OnFile(log, d, b) == []
  {
    var rs := OnFile(log, d, b);
    if rs != [] {
      var e := OnFileEntry(log, d, b, rs[0]);
      assert false;
    }
  }

  lemma FiledStarted(log: seq<Entry>, cat: Catalog, d: nat, b: string, channel: string, size: u32, time: u64)
    requires Filed(log, cat) && d in cat && b !in cat[d]
    ensures Filed(log, cat[d := Started(cat[d], b, channel, size, time)])
  {
    NotOnFile(log, cat, d, b);
    forall e <- log ensures EntryFiled(cat[d := Started(cat[d], b, channel, size, time)], e) {
      assert EntryFiled(cat, e);
    }
  }

  lemma FiledGrown(log: seq<Entry>, cat: Catalog, d: nat, b: string, r: Record)
    requires Filed(log, cat) && d in cat && b in cat[d]
    ensures Filed(log + [Entry(d, b, cat[d][b].channel, r)], cat[d := Grown(cat[d], b, r)])
  {
    var cat' := cat[d := Grown(cat[d], b, r)];
    var e := Entry(d, b, cat[d][b].channel, r);
    AppendOne(log, e);
    forall x <- log + [e] ensures EntryFiled(cat', x) {
      if x != e { assert x in log && EntryFiled(cat, x); }
    }
    forall x <- cat', y <- cat'[x] ensures OnFile(log + [e], x, y) == cat'[x][y].records {
      if (x, y) != (d, b) {
        assert y in cat[x];
        AppendNothing(OnFile(log, x, y));
      }
    }
  }

  // The log and the shelf after a request, from the shelf its files were
  // ready on.
  lemma FiledNext(log: seq<Entry>, cat: Catalog, d: nat, w: WriterState, time: u64, payload: seq<byte>, result: int)
    requires Filed(log, cat) && d in cat
    requires result > 0 && Place(w) in cat[d] ==> cat[d][Place(w)].channel == w.channel
    ensures Filed(if result > 0 then log + [Entry(d, Place(w), w.channel, Record(time, payload))] else log,
                  cat[d := NextShelf(cat[d], w, time, payload, result)])
  {
    hide Filed, Started, Grown;
    var b := Place(w);
    if result <= 0 {
      assert cat[d := cat[d]] == cat;
    } else if b in cat[d] {
      FiledGrown(log, cat, d, b, Record(time, payload));
    } else {
      var mid := Started(cat[d], b, w.channel, w.recordSize, time);
      StartedHas(cat[d], b, w.channel, w.recordSize, time);
      FiledStarted(log, cat, d, b, w.channel, w.recordSize, time);
      FiledGrown(log, cat[d := mid], d, b, Record(time, payload));
      assert cat[d := mid][d := Grown(mid, b, Record(time, payload))] == cat[d := Grown(mid, b, Record(time, payload))];
    }
  }

  lemma StartedHas(shelf: Shelf, b: string, channel: string, size: u32, time: u64)
    ensures b in Started(shelf, b, channel, size, time) && Started(shelf, b, channel, size, time)[b].channel == channel
  {
  }

  // The catalog describes the file system.
  ghost predicate Stocked(fs: Fs, cat: Catalog) {
    cat.Keys == fs.days.Keys && forall d <- cat :: Shelved(fs, d, cat[d])
  }

  ghost predicate OneDay(folder: FolderState) {
    forall c <- folder.writers :: folder.writers[c].day == folder.day
  }

  // The writers of the current folder are at their segments, unless the
  // folder's day is gone.
  ghost predicate Crewed(cat: Catalog, folder: FolderState) {
    OneDay(folder) && (folder.day in cat ==> Manned(folder, cat[folder.day]))
  }

  lemma ShelvedSame(fs: Fs, fs': Fs, d: nat, shelf: Shelf)
    requires Shelved(fs, d, shelf) && d in fs'.days && fs'.days[d] == fs.days[d]
    ensures Shelved(fs', d, shelf)
  {
    hide IndexBytes, DataBytes, WellFormed, AllOwned;
    forall b <- shelf ensures Exact(fs', d, b, shelf[b]) {
      assert Exact(fs, d, b, shelf[b]);
    }
  }

  // Eviction only takes whole days away.
  lemma {:induction false} EvictedRestricts(fs: Fs, available: nat, need: nat)
    ensures var fs' := Evicted(fs, available, need).0;
      fs'.days.Keys <= fs.days.Keys && forall d <- fs'.days :: fs'.days[d] == fs.days[d]
    decreases |fs.days|
  {
    hide DirectoryBytes;
    var d := Oldest(fs.days);
    if need > available && d != MAX_DAY {
      assert Evicted(fs, available, need) ==
        Evicted(fs.(days := fs.days - {d}), available + DirectoryBytes(fs.days[d]), need);
      EvictedRestricts(fs.(days := fs.days - {d}), available + DirectoryBytes(fs.days[d]), need);
    }
  }

  lemma StockedRestricted(fs: Fs, fs': Fs, cat: Catalog, folder: FolderState)
    requires Stocked(fs, cat) && Crewed(cat, folder)
    requires fs'.days.Keys <= fs.days.Keys && forall d <- fs'.days :: fs'.days[d] == fs.days[d]
    ensures Stocked(fs', Restricted(cat, fs'.days.Keys)) && Crewed(Restricted(cat, fs'.days.Keys), folder)
  {
    hide Shelved, Manned;
    forall d <- Restricted(cat, fs'.days.Keys) ensures Shelved(fs', d, cat[d]) {
      ShelvedSame(fs, fs', d, cat[d]);
    }
  }

  lemma StockedReady(fs: Fs, cat: Catalog, day: nat)
    requires Stocked(fs, cat)
    ensures Stocked(WithDay(fs, day), cat[day := ShelfOf(cat, day)])
  {
    hide Shelved;
    var fs' := WithDay(fs, day);
    var cat' := cat[day := ShelfOf(cat, day)];
    forall d <- cat' ensures Shelved(fs', d, cat'[d]) {
      if d in cat {
        ShelvedSame(fs, fs', d, cat[d]);
      } else {
        EmptyShelved(fs', day);
      }
    }
  }

  lemma EmptyShelved(fs: Fs, day: nat)
    requires day in fs.days && fs.days[day] == map[]
    ensures Shelved(fs, day, map[])
  {
  }

  lemma StockedNext(fs: Fs, fs': Fs, cat: Catalog, day: nat, next: Shelf)
    requires Stocked(fs, cat) && day in cat && OtherDaysKept(fs, fs', day) && Shelved(fs', day, next)
    ensures Stocked(fs', cat[day := next])
  {
    hide Shelved;
    forall d <- cat | d != day ensures Shelved(fs', d, cat[d]) {
      ShelvedSame(fs, fs', d, cat[d]);
    }
  }

  // In a folder whose day is gone nothing reaches a linked file.
  lemma DeadFolder(fs: Fs, folder: FolderState, cal: Calendar, req: Request)
    requires folder.day !in fs.days && OneDay(folder)
    ensures var (fs', folder', r, _) := ReadyWritten(fs, folder, cal, req);
      fs'.days == fs.days && folder'.day == folder.day && OneDay(folder')
  {
    hide NextBase, IndexRecord, DataRecord;
  }
}
