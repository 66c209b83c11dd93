// What a whole storage holds: for every day directory the segments in its
// files, kept in step with every write of a device that never fails.
module Ledgers {
  import opened Bytes
  import opened Layout
  import opened Segments
  import opened FileNames
  import opened FreshNames
  import opened FileSystems
  import opened WriterSpec
  import opened WriterRuns
  import opened StorageSpec

  // The segments of one day directory, by the base name of their files.
  type Shelf = map<string, Segment>
  type Catalog = map<nat, Shelf>

  ghost predicate Names(b: string, s: Segment, name: string) {
    name == IndexName(b) || (s.recordSize == 0 && name == DataName(b))
  }

  ghost predicate Owned(shelf: Shelf, name: string) {
    exists b <- shelf :: Names(b, shelf[b], name)
  }

  ghost predicate AllExact(fs: Fs, day: nat, shelf: Shelf) {
    forall b <- shelf :: Exact(fs, day, b, shelf[b])
  }

  ghost predicate AllOwned(dir: Directory, shelf: Shelf) {
    forall n <- dir :: Owned(shelf, n)
  }

  // The files of a day are exactly the files of its segments, byte for byte.
  ghost predicate Shelved(fs: Fs, day: nat, shelf: Shelf) {
    day in fs.days && AllExact(fs, day, shelf) && AllOwned(fs.days[day], shelf)
  }

  function BaseOf(index: string): string {
    if |index| < |IDX| then "" else index[..|index| - |IDX|]
  }

  lemma BaseOfIndex(b: string)
    ensures BaseOf(IndexName(b)) == b
  {
  }

  // A writer of the day is positioned behind the segment it appends to.
  ghost predicate Mans(w: WriterState, day: nat, channel: string, shelf: Shelf) {
    && w.day == day && w.channel == channel && Sound(w) && w.index.Some?
    && var b := BaseOf(w.index.value.name);
       b in shelf && Positioned(w, b, shelf[b])
  }

  ghost predicate Manned(folder: FolderState, shelf: Shelf) {
    forall c <- folder.writers :: Mans(folder.writers[c], folder.day, c, shelf)
  }

  lemma MansTracks(fs: Fs, w: WriterState, day: nat, channel: string, shelf: Shelf)
    requires Shelved(fs, day, shelf) && Mans(w, day, channel, shelf)
    ensures var b := BaseOf(w.index.value.name); Tracks(fs, w, b, shelf[b])
  {
  }

  // Another segment under a new name, or more records in one that is there.
  function Started(shelf: Shelf, b: string, channel: string, size: u32, time: u64): Shelf {
    shelf[b := Segment(channel, size, time, [])]
  }

  function Grown(shelf: Shelf, b: string, r: Record): Shelf
    requires b in shelf
  {
    shelf[b := Extend(shelf[b], r)]
  }

  lemma ReopenedNames(fs: Fs, w: WriterState, clock: u64 -> string, time: u64, b: string, s: Segment)
    requires w.day in fs.days && b == NextBase(fs, w, clock, time) && s.recordSize == w.recordSize
    ensures var (fs', w', _) := Reopened(fs, w, clock, time);
      && w' == w.(offset := w'.offset, index := w'.index, data := w'.data)
      && w.day in fs'.days
      && (forall n <- fs'.days[w.day] :: n in fs.days[w.day] || Names(b, s, n))
  {
    hide HeaderBytes, IndexName, DataName;
  }

  // New files make a new segment and nothing else.
  lemma StartShelved(fs: Fs, w: WriterState, clock: u64 -> string, time: u64, shelf: Shelf, b: string)
    requires Shelved(fs, w.day, shelf) && (w.recordSize > 0 ==> w.data.None?)
    requires b == NextBase(fs, w, clock, time)
    ensures var (fs', w', r) := Reopened(fs, w, clock, time);
      && r > 0 && b !in shelf && w' == w.(offset := w'.offset, index := w'.index, data := w'.data)
      && Shelved(fs', w.day, Started(shelf, b, w.channel, w.recordSize, time))
      && Mans(w', w.day, w.channel, Started(shelf, b, w.channel, w.recordSize, time))
      && OthersKept(fs, fs', w.day, {})
  {
    hide IndexBytes, DataBytes, NextBase, Reopened, AllOwned, OthersKept, Names, IndexName, DataName, WellFormed, Taken;
    var s := Segment(w.channel, w.recordSize, time, []);
    ReopenStarts(fs, w, clock, time);
    ReopenedNames(fs, w, clock, time, b, s);
    BaseOfIndex(b);
    FreshOnShelf(fs, w.day, shelf, b);
    var fs' := Reopened(fs, w, clock, time).0;
    OthersExact(fs, fs', w.day, {}, shelf, b, s);
    StartOwned(fs.days[w.day], fs'.days[w.day], shelf, b, s);
  }

  lemma FreshOnShelf(fs: Fs, day: nat, shelf: Shelf, b: string)
    requires day in fs.days && AllExact(fs, day, shelf) && !Taken(fs.days[day], b)
    ensures b !in shelf
  {
    assert b in shelf ==> Exact(fs, day, b, shelf[b]);
  }

  lemma OthersExact(fs: Fs, fs': Fs, day: nat, touched: set<string>, shelf: Shelf, b: string, s: Segment)
    requires OthersKept(fs, fs', day, touched) && touched <= {IndexName(b), DataName(b)}
    requires AllExact(fs, day, shelf) && Exact(fs', day, b, s)
    ensures AllExact(fs', day, shelf[b := s])
  {
    hide Exact, OthersKept, IndexName, DataName;
    forall x <- shelf | x != b ensures Exact(fs', day, x, shelf[x]) {
      NamesDiffer(b, x);
      NamesDiffer(x, b);
      KeptCommitted(fs, fs', day, touched, x, shelf[x]);
    }
  }

  lemma StartOwned(dir: Directory, dir': Directory, shelf: Shelf, b: string, s: Segment)
    requires AllOwned(dir, shelf) && b !in shelf
    requires forall n <- dir' :: n in dir || Names(b, s, n)
    ensures AllOwned(dir', shelf[b := s])
  {
    hide Names;
    var more := shelf[b := s];
    forall n <- dir' ensures Owned(more, n) {
      if n in dir {
        assert Owned(shelf, n);
        var x :| x in shelf && Names(x, shelf[x], n);
        assert Names(x, more[x], n);
      } else {
        assert Names(b, more[b], n);
      }
    }
  }

  lemma GrowOwned(dir: Directory, dir': Directory, shelf: Shelf, b: string, r: Record)
    requires AllOwned(dir, shelf) && b in shelf && dir'.Keys == dir.Keys
    ensures AllOwned(dir', Grown(shelf, b, r))
  {
    var more := Grown(shelf, b, r);
    forall n <- dir' ensures Owned(more, n) {
      assert n in dir && Owned(shelf, n);
      var x :| x in shelf && Names(x, shelf[x], n);
      assert Names(x, more[x], n);
    }
  }

  // An append to one segment leaves the others alone.
  lemma GrowShelved(fs: Fs, fs': Fs, day: nat, shelf: Shelf, b: string, r: Record)
    requires Shelved(fs, day, shelf) && b in shelf
    requires OnlyGrown(fs, fs', day, {IndexName(b), DataName(b)})
    requires Exact(fs', day, b, Extend(shelf[b], r))
    ensures Shelved(fs', day, Grown(shelf, b, r))
  {
    OthersExact(fs, fs', day, {IndexName(b), DataName(b)}, shelf, b, Extend(shelf[b], r));
    GrowOwned(fs.days[day], fs'.days[day], shelf, b, r);
  }

  // The other writers stay where they are.
  lemma MansKept(w: WriterState, day: nat, channel: string, shelf: Shelf, b: string, s: Segment)
    requires Mans(w, day, channel, shelf)
    requires b !in shelf || shelf[b].channel != channel
    ensures Mans(w, day, channel, shelf[b := s])
  {
  }

  // The base name of the files a writer appends to.
  function Place(w: WriterState): string {
    if w.index.Some? then BaseOf(w.index.value.name) else ""
  }

  // The shelf after a write that left the writer at w.
  function NextShelf(shelf: Shelf, w: WriterState, time: u64, payload: seq<byte>, result: int): Shelf {
    var b := Place(w);
    if result <= 0 then shelf
    else Grown(if b in shelf then shelf else Started(shelf, b, w.channel, w.recordSize, time), b, Record(time, payload))
  }

  // Only files of this day differ.
  ghost predicate OtherDaysKept(fs: Fs, fs': Fs, day: nat) {
    fs'.days.Keys == fs.days.Keys && forall d <- fs.days :: d != day ==> fs'.days[d] == fs.days[d]
  }

  function Name(clock: u64 -> string, channel: string, time: u64, size: u32, suffix: nat): string {
    Candidate(clock(time) + "_" + channel + "_" + Decimal(size), suffix)
  }

  // Base names are built from a clock reading, the channel and two numbers.
  ghost predicate NamedFor(clock: u64 -> string, channel: string, b: string) {
    exists time: u64, size: u32, suffix: nat :: b == Name(clock, channel, time, size, suffix)
  }

  lemma NextBaseNamed(fs: Fs, w: WriterState, clock: u64 -> string, time: u64)
    ensures NamedFor(clock, w.channel, NextBase(fs, w, clock, time))
  {
    var k := FreshSuffix(DirectoryOf(fs, w.day), Stem(clock, w, time), 0);
    assert NextBase(fs, w, clock, time) == Name(clock, w.channel, time, w.recordSize, k);
  }

  // What a write does on the shelf of its day.
  ghost predicate ShelfStep(
    fs: Fs, fs': Fs, w: WriterState, w': WriterState, clock: u64 -> string, shelf: Shelf, time: u64,
    payload: seq<byte>, result: int)
  {
    var next := NextShelf(shelf, w', time, payload, result);
    && (result > 0 <==> w.recordSize == 0 || |payload| == w.recordSize)
    && Shelved(fs', w.day, next)
    && Mans(w', w.day, w.channel, next)
    && w'.recordSize == w.recordSize
    && OtherDaysKept(fs, fs', w.day)
    && (result > 0 ==> if Place(w') in shelf then shelf[Place(w')].channel == w.channel
      else NamedFor(clock, w.channel, Place(w')))
  }

  lemma FixedShelfStep(fs: Fs, w: WriterState, clock: u64 -> string, time: u64, payload: seq<byte>, shelf: Shelf)
    requires Shelved(fs, w.day, shelf) && Mans(w, w.day, w.channel, shelf) && Fits(payload) && w.recordSize > 0
    ensures var (fs', w', r) := Written(fs, w, clock, time, payload);
      ShelfStep(fs, fs', w, w', clock, shelf, time, payload, r)
  {
    hide NamedFor, IndexRecord, AllOwned, AllExact, NextBase, Reopened, IndexBytes, DataBytes, IndexName, DataName;
    var b := Place(w);
    MansTracks(fs, w, w.day, w.channel, shelf);
    if |payload| == w.recordSize {
      var r := Record(time, payload);
      FixedExtends(fs, w, b, shelf[b], r);
      GrowShelved(fs, Appended(fs, w.day, IndexName(b), IndexRecord(w.recordSize, r, 0)), w.day, shelf, b, r);
    }
  }

  lemma VariableShelfStep(fs: Fs, w: WriterState, shelf: Shelf, r: Record, fs': Fs, w': WriterState)
    requires Shelved(fs, w.day, shelf) && Mans(w, w.day, w.channel, shelf) && w.recordSize == 0
    requires w.offset + DATA_HEAD + |r.payload| < TWO32
    requires w.data.Some? && (fs', w') == AppendedVariable(fs, w, r)
    ensures var b := Place(w);
      && Place(w') == b && b in shelf && w'.channel == w.channel && w'.day == w.day && w'.recordSize == 0
      && Shelved(fs', w.day, Grown(shelf, b, r)) && Mans(w', w.day, w.channel, Grown(shelf, b, r))
      && OtherDaysKept(fs, fs', w.day)
  {
    hide DataRecord, IndexRecord, AllOwned, AllExact, IndexBytes, DataBytes, IndexName, DataName;
    var b := Place(w);
    MansTracks(fs, w, w.day, w.channel, shelf);
    VariableExtends(fs, w, b, shelf[b], r);
    GrowShelved(fs, fs', w.day, shelf, b, r);
  }

  // MAIN: a write extends the segment its channel is in, or - when the file
  // offset would overflow - a new segment, by exactly the record written.
  lemma WriteShelved(fs: Fs, w: WriterState, clock: u64 -> string, time: u64, payload: seq<byte>, shelf: Shelf)
    requires Shelved(fs, w.day, shelf) && Mans(w, w.day, w.channel, shelf) && Fits(payload)
    ensures var (fs', w', r) := Written(fs, w, clock, time, payload);
      ShelfStep(fs, fs', w, w', clock, shelf, time, payload, r)
  {
    hide NamedFor, IndexRecord, DataRecord, AllOwned, AllExact, NextBase, Reopened, IndexBytes, DataBytes, IndexName,
         DataName, AppendedVariable, OthersKept, Extend;
    if w.recordSize > 0 {
      FixedShelfStep(fs, w, clock, time, payload, shelf);
    } else {
      var r := Record(time, payload);
      assert payload[..|payload|] == payload;
      if NeedsRollover(w, |payload|) {
        RolledShelfStep(fs, w, clock, r, shelf);
      } else {
        var (fs', w') := AppendedVariable(fs, w, r);
        VariableShelfStep(fs, w, shelf, r, fs', w');
      }
    }
  }

  lemma RolledShelfStep(fs: Fs, w: WriterState, clock: u64 -> string, r: Record, shelf: Shelf)
    requires Shelved(fs, w.day, shelf) && Mans(w, w.day, w.channel, shelf) && w.recordSize == 0 && Fits(r.payload)
    ensures var (fs1, w1, header) := Reopened(fs, Closed(w), clock, r.time);
      header == 2 * HEADER_SIZE && w1.index.Some? && w1.data.Some? &&
      var (fs', w') := AppendedVariable(fs1, w1, r);
      ShelfStep(fs, fs', w, w', clock, shelf, r.time, r.payload, 1)
  {
    hide NamedFor, IndexRecord, DataRecord, AllOwned, AllExact, NextBase, IndexBytes, DataBytes, IndexName, DataName,
         AppendedVariable, HeaderBytes, Put;
    var closed := Closed(w);
    var b := NextBase(fs, closed, clock, r.time);
    StartShelved(fs, closed, clock, r.time, shelf, b);
    NextBaseNamed(fs, closed, clock, r.time);
    BaseOfIndex(b);
    var (fs1, w1, header) := Reopened(fs, closed, clock, r.time);
    var (fs', w') := AppendedVariable(fs1, w1, r);
    VariableShelfStep(fs1, w1, Started(shelf, b, w.channel, 0, r.time), r, fs', w');
  }

  // The first write of a channel opens its files.
  lemma OpenShelved(fs: Fs, day: nat, cal: Calendar, req: Request, shelf: Shelf, b: string)
    requires Shelved(fs, day, shelf) && b == NextBase(fs, NewWriter(day, req.channel, req.size), cal.clock, req.time)
    ensures var (fs', w, header) := Reopened(fs, NewWriter(day, req.channel, req.size), cal.clock, req.time);
      && header > 0 && b !in shelf && OtherDaysKept(fs, fs', day)
      && w.day == day && w.channel == req.channel && w.recordSize == req.size
      && Shelved(fs', day, Started(shelf, b, req.channel, req.size, req.time))
      && Mans(w, day, req.channel, Started(shelf, b, req.channel, req.size, req.time))
  {
    hide Reopened, Shelved, Mans, NextBase;
    StartShelved(fs, NewWriter(day, req.channel, req.size), cal.clock, req.time, shelf, b);
  }

  ghost function OpenedShelf(shelf: Shelf, fs: Fs, folder: FolderState, cal: Calendar, req: Request): Shelf {
    if req.channel in folder.writers then shelf
    else Started(shelf, NextBase(fs, NewWriter(folder.day, req.channel, req.size), cal.clock, req.time), req.channel,
      req.size, req.time)
  }

  // The writer of the request's channel after the request.
  function WriterOf(folder: FolderState, req: Request): WriterState {
    if req.channel in folder.writers then folder.writers[req.channel] else NewWriter(folder.day, req.channel, req.size)
  }

  ghost function ShelfAfter(shelf: Shelf, fs: Fs, folder: FolderState, cal: Calendar, req: Request): Shelf {
    var (_, folder', r, _) := ReadyWritten(fs, folder, cal, req);
    NextShelf(OpenedShelf(shelf, fs, folder, cal, req), WriterOf(folder', req), req.time, req.data, r)
  }

  // What a request does in the folder of its day.
  ghost predicate FolderStep(
    fs: Fs, fs': Fs, folder: FolderState, folder': FolderState, clock: u64 -> string, before: Shelf, next: Shelf,
    req: Request, result: int)
  {
    var w := WriterOf(folder', req);
    && folder'.day == folder.day
    && Shelved(fs', folder.day, next)
    && Manned(folder', next)
    && OtherDaysKept(fs, fs', folder.day)
    && next == NextShelf(before, w, req.time, req.data, result)
    && w.channel == req.channel
    && (result > 0 ==> if Place(w) in before then before[Place(w)].channel == req.channel
      else NamedFor(clock, req.channel, Place(w)))
    && (result > 0 <==> w.recordSize == 0 || |req.data| == w.recordSize)
  }

  lemma MannedNext(folder: FolderState, c: string, w: WriterState, shelf: Shelf, b: string, s: Segment)
    requires Manned(folder, shelf) && Mans(w, folder.day, c, shelf[b := s])
    requires b !in shelf || shelf[b].channel == c
    ensures Manned(folder.(writers := folder.writers[c := w]), shelf[b := s])
  {
    hide Mans;
    forall x <- folder.writers | x != c ensures Mans(folder.writers[x], folder.day, x, shelf[b := s]) {
      MansKept(folder.writers[x], folder.day, x, shelf, b, s);
    }
  }

  lemma ChannelShelved(fs: Fs, folder: FolderState, cal: Calendar, req: Request, shelf: Shelf)
    requires Shelved(fs, folder.day, shelf) && Manned(folder, shelf) && Fits(req.data) && req.channel in folder.writers
    ensures var (fs', folder', r) := ChannelWritten(fs, folder, cal, req);
      FolderStep(fs, fs', folder, folder', cal.clock, shelf,
        NextShelf(shelf, WriterOf(folder', req), req.time, req.data, r), req, r)
  {
    hide NamedFor, Written, Shelved, OtherDaysKept, Extend;
    var w := folder.writers[req.channel];
    var (fs', w', r) := Written(fs, w, cal.clock, req.time, req.data);
    WriteShelved(fs, w, cal.clock, req.time, req.data, shelf);
    var b := Place(w');
    if r > 0 {
      var from := if b in shelf then shelf else Started(shelf, b, w'.channel, w'.recordSize, req.time);
      var s := Extend(from[b], Record(req.time, req.data));
      assert NextShelf(shelf, w', req.time, req.data, r) == shelf[b := s];
      MannedNext(folder, req.channel, w', shelf, b, s);
    } else {
      MannedSame(folder, req.channel, w', shelf);
    }
  }

  lemma MannedSame(folder: FolderState, c: string, w: WriterState, shelf: Shelf)
    requires Manned(folder, shelf) && Mans(w, folder.day, c, shelf)
    ensures Manned(folder.(writers := folder.writers[c := w]), shelf)
  {
    hide Mans;
  }

  lemma OpenManned(fs: Fs, folder: FolderState, cal: Calendar, req: Request, shelf: Shelf)
    requires Shelved(fs, folder.day, shelf) && Manned(folder, shelf) && req.channel !in folder.writers
    ensures var (fs1, folder1, header) := ChannelOpened(fs, folder, cal, req);
      var ready := OpenedShelf(shelf, fs, folder, cal, req);
      && header > 0 && folder1.day == folder.day && req.channel in folder1.writers
      && Shelved(fs1, folder.day, ready) && Manned(folder1, ready) && OtherDaysKept(fs, fs1, folder.day)
      && NextBase(fs, NewWriter(folder.day, req.channel, req.size), cal.clock, req.time) !in shelf
  {
    hide Shelved, OtherDaysKept, Reopened, Mans, NextBase;
    OpenedFirst(shelf, fs, folder, cal, req);
    var b := NextBase(fs, NewWriter(folder.day, req.channel, req.size), cal.clock, req.time);
    OpenShelved(fs, folder.day, cal, req, shelf, b);
    var (fs1, w, header) := Reopened(fs, NewWriter(folder.day, req.channel, req.size), cal.clock, req.time);
    MannedNext(folder, req.channel, w, shelf, b, Segment(req.channel, req.size, req.time, []));
  }

  // MAIN: one request in the live folder of its day.
  lemma ReadyShelved(fs: Fs, folder: FolderState, cal: Calendar, req: Request, shelf: Shelf)
    requires Shelved(fs, folder.day, shelf) && Manned(folder, shelf) && Fits(req.data)
    ensures var (fs', folder', r, _) := ReadyWritten(fs, folder, cal, req);
      FolderStep(fs, fs', folder, folder', cal.clock, OpenedShelf(shelf, fs, folder, cal, req),
        ShelfAfter(shelf, fs, folder, cal, req), req, r)
  {
    hide NamedFor, Shelved, Manned, ChannelWritten, ChannelOpened, NextShelf, NextBase, OpenedShelf;
    if req.channel in folder.writers {
      ChannelShelved(fs, folder, cal, req, shelf);
      assert OpenedShelf(shelf, fs, folder, cal, req) == shelf by { OpenedBefore(shelf, fs, folder, cal, req); }
    } else {
      OpenManned(fs, folder, cal, req, shelf);
      var (fs1, folder1, header) := ChannelOpened(fs, folder, cal, req);
      ChannelShelved(fs1, folder1, cal, req, OpenedShelf(shelf, fs, folder, cal, req));
    }
  }

  lemma OpenedFirst(shelf: Shelf, fs: Fs, folder: FolderState, cal: Calendar, req: Request)
    requires req.channel !in folder.writers
    ensures OpenedShelf(shelf, fs, folder, cal, req) ==
      shelf[NextBase(fs, NewWriter(folder.day, req.channel, req.size), cal.clock, req.time) :=
        Segment(req.channel, req.size, req.time, [])]
  {
  }

  lemma OpenedBefore(shelf: Shelf, fs: Fs, folder: FolderState, cal: Calendar, req: Request)
    requires req.channel in folder.writers
    ensures OpenedShelf(shelf, fs, folder, cal, req) == shelf
  {
  }
}
