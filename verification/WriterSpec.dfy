// The stream writer's operations as functions on values: what every call
// does when no device call fails.
module WriterSpec {
  import opened Bytes
  import opened Layout
  import opened Segments
  import opened FileNames
  import opened FreshNames
  import opened FileSystems

  const EIO: int := 5
  const EINVAL: int := 22
  const INT_MAX: nat := 0x7FFF_FFFF

  datatype WriterState = WriterState(
    day: nat, channel: string, recordSize: u32, offset: u32, index: Option<Handle>, data: Option<Handle>)

  // Conversion of a size_t to a 32-bit int
  function Int32(n: nat): (i: int)
    ensures i <= n && i <= INT_MAX
    ensures n <= INT_MAX ==> i == n
  {
    var r := Truncate32(n);
    if r > INT_MAX then r - TWO32 else r
  }

  predicate IsOpen(h: Option<Handle>) {
    h.Some? && h.value.open
  }

  // No stream the writer uses has failed so far.
  predicate Sound(w: WriterState) {
    (w.index.Some? ==> !w.index.value.bad) && (w.recordSize == 0 && w.data.Some? ==> !w.data.value.bad)
  }

  function Stem(clock: u64 -> string, w: WriterState, time: u64): string {
    clock(time) + "_" + w.channel + "_" + Decimal(w.recordSize)
  }

  function HeaderBytes(w: WriterState, time: u64, kind: byte): (b: seq<byte>)
    ensures |b| == HEADER_SIZE
  {
    EncodeHeader(FileHeader(w.channel, w.recordSize, time, kind))
  }

  ghost function NextBase(fs: Fs, w: WriterState, clock: u64 -> string, time: u64): string {
    FreshBase(DirectoryOf(fs, w.day), Stem(clock, w, time))
  }

  // reopenFile
  ghost function Reopened(fs: Fs, w: WriterState, clock: u64 -> string, time: u64): (Fs, WriterState, int) {
    var base := NextBase(fs, w, clock, time);
    var index := Handle(IndexName(base), true, false);
    var data := Handle(DataName(base), true, false);
    if w.day !in fs.days then
      (fs, w.(offset := 0, index := Some(index.(open := false))), -EINVAL)
    else if w.recordSize > 0 then
      (Put(fs, w.day, index.name, HeaderBytes(w, time, INDEX_FILE)), w.(offset := 0, index := Some(index)), HEADER_SIZE)
    else
      (Put(Put(fs, w.day, index.name, HeaderBytes(w, time, INDEX_FILE)), w.day, data.name,
        HeaderBytes(w, time, DATA_FILE)),
       w.(offset := HEADER_SIZE, index := Some(index), data := Some(data)),
       2 * HEADER_SIZE)
  }

  lemma NextNamesDiffer(fs: Fs, w: WriterState, clock: u64 -> string, time: u64)
    requires w.day in fs.days && w.recordSize == 0
    ensures var (_, w', r) := Reopened(fs, w, clock, time);
      r > 0 && IsOpen(w'.index) && IsOpen(w'.data) && w'.index.value.name != w'.data.value.name
  {
    var base := NextBase(fs, w, clock, time);
    NamesDiffer(base, base);
  }

  ghost predicate EndsIn(name: string, c: char) {
    name != "" && name[|name| - 1] == c
  }

  lemma NamesEnd(base: string)
    ensures EndsIn(IndexName(base), 'x') && EndsIn(DataName(base), 'a')
  {
  }

  // Index handles are on .idx files and data handles on .data files, ...
  ghost predicate Paired(w: WriterState) {
    && (w.index.Some? ==> EndsIn(w.index.value.name, 'x'))
    && (w.data.Some? ==> EndsIn(w.data.value.name, 'a'))
  }

  // ... and no stream has failed.
  ghost predicate Tidy(w: WriterState) {
    Sound(w) && Paired(w)
  }

  lemma ReopenedTidy(fs: Fs, w: WriterState, clock: u64 -> string, time: u64)
    requires w.data.Some? ==> EndsIn(w.data.value.name, 'a')
    requires Sound(w)
    ensures var w' := Reopened(fs, w, clock, time).1;
      Tidy(w') && w'.day == w.day && w'.channel == w.channel && w'.recordSize == w.recordSize
  {
  }

  lemma WrittenTidy(fs: Fs, w: WriterState, clock: u64 -> string, time: u64, payload: seq<byte>)
    requires Tidy(w)
    ensures var w' := Written(fs, w, clock, time, payload).1;
      Tidy(w') && w'.day == w.day && w'.channel == w.channel && w'.recordSize == w.recordSize
  {
    ReopenedTidy(fs, Closed(w), clock, time);
  }

  predicate NeedsRollover(w: WriterState, size: u32) {
    INDEX_ENTRY + DATA_HEAD + size + w.offset > TWO32 - 1
  }

  function ClosedHandle(h: Option<Handle>): Option<Handle> {
    match h case None => None case Some(x) => Some(x.(open := false))
  }

  // closeFile; a failing flush changes nothing that matters afterwards
  function Closed(w: WriterState): WriterState {
    w.(index := ClosedHandle(w.index), data := ClosedHandle(w.data))
  }

  // Appends one variable-length record: data first, then the index entry.
  function AppendedVariable(fs: Fs, w: WriterState, r: Record): (Fs, WriterState)
    requires w.index.Some? && w.data.Some?
  {
    var fs1 := Appended(fs, w.day, w.data.value.name, DataRecord(r));
    var fs2 := Appended(fs1, w.day, w.index.value.name, IndexRecord(0, r, w.offset));
    (fs2, w.(offset := Truncate32(w.offset + DATA_HEAD + |r.payload|)))
  }

  // write
  ghost function Written(fs: Fs, w: WriterState, clock: u64 -> string, time: u64, payload: seq<byte>)
    : (Fs, WriterState, int)
  {
    if !IsOpen(w.index) then (fs, w, -EINVAL)
    else if w.recordSize > 0 then
      if |payload| != w.recordSize then (fs, w, -EINVAL)
      else
        (Appended(fs, w.day, w.index.value.name, IndexRecord(w.recordSize, Record(time, payload), 0)), w,
         Int32(w.recordSize + FIXED_HEAD))
    else if !IsOpen(w.data) then (fs, w, -EINVAL)
    else
      var size := Truncate32(|payload|);
      var rolled := NeedsRollover(w, size);
      var (fs1, w1, header) := if rolled then Reopened(fs, Closed(w), clock, time) else (fs, w, 0);
      if rolled && header <= 0 then (fs1, w1, header)
      else
        var (fs2, w2) := AppendedVariable(fs1, w1, Record(time, payload[..size]));
        (fs2, w2, Int32(header + INDEX_ENTRY + DATA_HEAD + size))
  }

  // What a failing append may leave behind: the writer's own files only grow,
  // and a file of theirs with anything uncommitted has a bad stream.
  ghost predicate Torn(fs: Fs, w: WriterState, fs': Fs, w': WriterState)
    requires w.index.Some?
  {
    var i := w.index.value.name;
    && w'.index.Some?
    && w' == w.(index := Some(w.index.value.(bad := w'.index.value.bad)), data := w'.data)
    && w'.data.Some? == w.data.Some?
    && (w.data.Some? ==> w'.data == Some(w.data.value.(bad := w'.data.value.bad)))
    && (w.index.value.bad ==> w'.index.value.bad)
    && OnlyGrown(fs, fs', w.day, {i} + if w.data.Some? then {w.data.value.name} else {})
    && FileOf(fs, w.day, i) <= FileOf(fs', w.day, i)
    && (!w'.index.value.bad ==> FileOf(fs', w.day, i) == FileOf(fs, w.day, i))
    && (w.data.Some? ==>
          var d := w.data.value.name;
          && (w.data.value.bad ==> w'.data.value.bad)
          && FileOf(fs, w.day, d) <= FileOf(fs', w.day, d)
          && (!w'.index.value.bad && !w'.data.value.bad ==> FileOf(fs', w.day, d) == FileOf(fs, w.day, d)))
  }

  // ... and what it leaves is a beginning of the record that was to be
  // written: of its data first, then of its index entry, and of the entry
  // only when the data is there as a whole.  A bad stream takes nothing.
  ghost predicate Spilled(fs: Fs, w: WriterState, fs': Fs, w': WriterState, r: Record)
    requires w.index.Some? && w'.index.Some?
  {
    var i := w.index.value.name;
    var breaks := w'.index.value.bad && !w.index.value.bad;
    && FileOf(fs', w.day, i) <= FileOf(fs, w.day, i) + IndexRecord(w.recordSize, r, w.offset)
    && (w.index.value.bad ==> FileOf(fs', w.day, i) == FileOf(fs, w.day, i))
    && (breaks && w.recordSize > 0 ==> |r.payload| == w.recordSize)
    && (w.recordSize == 0 && w.data.Some? ==>
          var d := w.data.value.name;
          && FileOf(fs', w.day, d) <= FileOf(fs, w.day, d) + DataRecord(r)
          && (w.data.value.bad ==> FileOf(fs', w.day, d) == FileOf(fs, w.day, d) && !breaks)
          && (breaks && Linked(fs, w.day, d) ==> FileOf(fs', w.day, d) == FileOf(fs, w.day, d) + DataRecord(r)))
  }

  // A failing call.
  ghost predicate Failed(fs: Fs, w: WriterState, fs': Fs, w': WriterState, r: Record)
    requires w.index.Some?
  {
    Torn(fs, w, fs', w') && Spilled(fs, w, fs', w', r)
  }

  // One call of write on a device that may fail anywhere.  A positive result
  // means the call did exactly what it should.
  ghost predicate WriteStep(
    fs: Fs, w: WriterState, clock: u64 -> string, time: u64, payload: seq<byte>, fs': Fs, w': WriterState, r: int)
  {
    if r > 0 then (fs', w', r) == Written(fs, w, clock, time, payload) && Sound(w')
    else if !IsOpen(w.index) then (fs', w') == (fs, w)
    else if w.recordSize == 0 && IsOpen(w.data) && NeedsRollover(w, Truncate32(|payload|)) then
      var (fs1, w1, _) := Reopened(fs, Closed(w), clock, time);
      || (!IsOpen(w'.index) && OthersKept(fs, fs', w.day, {}) &&
            w' == w.(offset := w'.offset, index := w'.index, data := w'.data))
      || (w.day in fs.days && Failed(fs1, w1, fs', w', Record(time, payload)))
    else Failed(fs, w, fs', w', Record(time, payload))
  }
}
