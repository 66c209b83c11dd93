// Two file systems under the same names, one of them with files cut short:
// a storage does the same to both.
module Shadows {
  import opened Bytes
  import opened Layout
  import opened FileNames
  import opened FreshNames
  import opened FileSystems
  import opened WriterSpec
  import opened Segments
  import opened StorageSpec

  // Every file of fs is a beginning of the file of that name in whole; the
  // live files of the day are the same in both.
  ghost predicate Shadow(fs: Fs, whole: Fs, day: nat, live: set<string>) {
    && fs.days.Keys == whole.days.Keys
    && (forall d <- fs.days :: ShadowDay(fs.days[d], whole.days[d]))
    && (day in fs.days ==> forall n <- fs.days[day] :: n in live ==> fs.days[day][n] == whole.days[day][n])
  }

  ghost predicate ShadowDay(dir: Directory, whole: Directory) {
    dir.Keys == whole.Keys && forall n <- dir :: dir[n] <= whole[n]
  }

  lemma FewerLive(fs: Fs, whole: Fs, day: nat, live: set<string>, day': nat, live': set<string>)
    requires Shadow(fs, whole, day, live)
    requires live' <= if day' == day then live else {}
    ensures Shadow(fs, whole, day', live')
  {
  }

  lemma PutShadow(fs: Fs, whole: Fs, day: nat, live: set<string>, name: string, content: seq<byte>)
    requires Shadow(fs, whole, day, live)
    ensures Shadow(Put(fs, day, name, content), Put(whole, day, name, content), day, live + {name})
  {
    var fs', whole' := Put(fs, day, name, content), Put(whole, day, name, content);
    forall d <- fs'.days ensures ShadowDay(fs'.days[d], whole'.days[d]) {
      if d in fs.days { assert ShadowDay(fs.days[d], whole.days[d]); }
    }
  }

  lemma AppendShadow(fs: Fs, whole: Fs, day: nat, live: set<string>, name: string, b: seq<byte>)
    requires Shadow(fs, whole, day, live) && name in live
    ensures Shadow(Appended(fs, day, name, b), Appended(whole, day, name, b), day, live)
  {
    hide Put;
    if day in fs.days {
      assert ShadowDay(fs.days[day], whole.days[day]);
      if name in fs.days[day] {
        PutShadow(fs, whole, day, live, name, fs.days[day][name] + b);
        assert live + {name} == live;
      }
    }
  }

  lemma SameFresh(dir: Directory, whole: Directory, stem: string)
    requires dir.Keys == whole.Keys
    ensures FreshBase(dir, stem) == FreshBase(whole, stem)
  {
    hide Candidate;
    var r: nat := FreshSuffix(dir, stem, 0);
    assert AllTaken(whole, stem, r) && !Taken(whole, Candidate(stem, r)) by {
      assert forall b :: Taken(dir, b) == Taken(whole, b);
    }
    FreshSuffixIsFirst(whole, stem, r);
  }

  lemma SameNext(fs: Fs, whole: Fs, w: WriterState, live: set<string>, clock: u64 -> string, time: u64)
    requires Shadow(fs, whole, w.day, live)
    ensures NextBase(fs, w, clock, time) == NextBase(whole, w, clock, time)
  {
    hide FreshBase;
    if w.day in fs.days { assert ShadowDay(fs.days[w.day], whole.days[w.day]); }
    SameFresh(DirectoryOf(fs, w.day), DirectoryOf(whole, w.day), Stem(clock, w, time));
  }

  // The files a writer appends to.
  function FilesOf(w: WriterState): set<string> {
    (if w.index.Some? then {w.index.value.name} else {}) +
    (if w.recordSize == 0 && w.data.Some? then {w.data.value.name} else {})
  }

  // A writer does the same in both, ...
  lemma ReopenedShadow(fs: Fs, whole: Fs, w: WriterState, live: set<string>, clock: u64 -> string, time: u64)
    requires Shadow(fs, whole, w.day, live)
    ensures var (fs', w', r) := Reopened(fs, w, clock, time);
      var (whole', v', q) := Reopened(whole, w, clock, time);
      w' == v' && r == q && w'.day == w.day &&
      Shadow(fs', whole', w.day, if r > 0 then live + FilesOf(w') else live)
  {
    hide NextBase, HeaderBytes, Put, Shadow;
    SameNext(fs, whole, w, live, clock, time);
    assert w.day in fs.days <==> w.day in whole.days by { SameDays(fs, whole, w.day, live); }
    if w.day in fs.days {
      var base := NextBase(fs, w, clock, time);
      var index, data := IndexName(base), DataName(base);
      var header := HeaderBytes(w, time, INDEX_FILE);
      PutShadow(fs, whole, w.day, live, index, header);
      if w.recordSize == 0 {
        PutShadow(Put(fs, w.day, index, header), Put(whole, w.day, index, header), w.day, live + {index}, data,
          HeaderBytes(w, time, DATA_FILE));
        assert live + {index} + {data} == live + ({index} + {data});
      } else {
        assert live + ({index} + {}) == live + {index};
      }
    }
  }

  lemma SameDays(fs: Fs, whole: Fs, day: nat, live: set<string>)
    requires Shadow(fs, whole, day, live)
    ensures fs.days.Keys == whole.days.Keys
    ensures day in fs.days <==> day in whole.days
  {
  }

  // The writers of a folder, and what they append to.
  ghost predicate Live(folder: FolderState, live: set<string>) {
    forall c <- folder.writers :: FilesOf(folder.writers[c]) <= live && folder.writers[c].day == folder.day
  }

  lemma VariableShadow(fs: Fs, whole: Fs, w: WriterState, live: set<string>, r: Record)
    requires Shadow(fs, whole, w.day, live) && w.index.Some? && w.data.Some?
    requires w.index.value.name in live && w.data.value.name in live
    ensures var (fs', w') := AppendedVariable(fs, w, r);
      var (whole', v') := AppendedVariable(whole, w, r);
      w' == v' && FilesOf(w') == FilesOf(w) && w'.day == w.day && Shadow(fs', whole', w.day, live)
  {
    hide Shadow, Appended, DataRecord, IndexRecord;
    var d, i := w.data.value.name, w.index.value.name;
    AppendShadow(fs, whole, w.day, live, d, DataRecord(r));
    AppendShadow(Appended(fs, w.day, d, DataRecord(r)), Appended(whole, w.day, d, DataRecord(r)), w.day, live, i,
      IndexRecord(0, r, w.offset));
  }

  // ... so a write has the same result, and what it adds is the same.
  lemma WrittenShadow(
    fs: Fs, whole: Fs, w: WriterState, live: set<string>, clock: u64 -> string, time: u64, payload: seq<byte>)
    returns (live': set<string>)
    requires Shadow(fs, whole, w.day, live) && FilesOf(w) <= live
    ensures var (fs', w', r) := Written(fs, w, clock, time, payload);
      var (whole', v', q) := Written(whole, w, clock, time, payload);
      w' == v' && r == q && w'.day == w.day && live <= live' && FilesOf(w') <= live' &&
      Shadow(fs', whole', w.day, live')
  {
    hide Shadow, Appended, AppendedVariable, Reopened, IndexRecord, NeedsRollover;
    live' := live;
    if IsOpen(w.index) && w.recordSize > 0 {
      AppendShadow(fs, whole, w.day, live, w.index.value.name,
        IndexRecord(w.recordSize, Record(time, payload), 0));
    } else if IsOpen(w.index) && IsOpen(w.data) {
      var size := Truncate32(|payload|);
      var rec := Record(time, payload[..size]);
      if NeedsRollover(w, size) {
        live' := RolledShadow(fs, whole, w, live, clock, rec);
      } else {
        VariableShadow(fs, whole, w, live, rec);
      }
    }
  }

  lemma RolledShadow(fs: Fs, whole: Fs, w: WriterState, live: set<string>, clock: u64 -> string, rec: Record)
    returns (live': set<string>)
    requires Shadow(fs, whole, w.day, live) && FilesOf(w) <= live && w.recordSize == 0
    ensures var (fs1, w1, header) := Reopened(fs, Closed(w), clock, rec.time);
      var (whole1, v1, header') := Reopened(whole, Closed(w), clock, rec.time);
      w1 == v1 && header == header' && w1.day == w.day && live <= live' &&
      if header <= 0 then FilesOf(w1) <= live' && Shadow(fs1, whole1, w.day, live')
      else
        w1.index.Some? && w1.data.Some? &&
        var (fs2, w2) := AppendedVariable(fs1, w1, rec);
        var (whole2, v2) := AppendedVariable(whole1, v1, rec);
        w2 == v2 && w2.day == w.day && FilesOf(w2) <= live' && Shadow(fs2, whole2, w.day, live')
  {
    hide Shadow, AppendedVariable, NextBase, Put, HeaderBytes;
    ReopenedShadow(fs, whole, Closed(w), live, clock, rec.time);
    var (fs1, w1, header) := Reopened(fs, Closed(w), clock, rec.time);
    live' := live + FilesOf(w1);
    if header > 0 {
      VariableShadow(fs1, Reopened(whole, Closed(w), clock, rec.time).0, w1, live', rec);
    } else {
      GoneShadow(fs, whole, w.day, live, live');
    }
  }

  // Without the directory there is nothing to compare.
  lemma GoneShadow(fs: Fs, whole: Fs, day: nat, live: set<string>, live': set<string>)
    requires Shadow(fs, whole, day, live) && day !in fs.days
    ensures Shadow(fs, whole, day, live')
  {
  }

  lemma WriterLive(folder: FolderState, live: set<string>, live': set<string>, c: string, w: WriterState)
    requires Live(folder, live) && live <= live' && FilesOf(w) <= live' && w.day == folder.day
    ensures Live(folder.(writers := folder.writers[c := w]), live')
  {
    hide FilesOf;
  }

  lemma ChannelShadow(fs: Fs, whole: Fs, folder: FolderState, live: set<string>, cal: Calendar, req: Request)
    returns (live': set<string>)
    requires Shadow(fs, whole, folder.day, live) && Live(folder, live) && req.channel in folder.writers
    ensures var (fs', folder', r) := ChannelWritten(fs, folder, cal, req);
      var (whole', g', q) := ChannelWritten(whole, folder, cal, req);
      folder' == g' && r == q && folder'.day == folder.day && Live(folder', live') &&
      Shadow(fs', whole', folder.day, live')
  {
    hide Shadow, Written, FilesOf;
    var w := folder.writers[req.channel];
    live' := WrittenShadow(fs, whole, w, live, cal.clock, req.time, req.data);
    WriterLive(folder, live, live', req.channel, Written(fs, w, cal.clock, req.time, req.data).1);
  }

  lemma OpenedShadow(fs: Fs, whole: Fs, folder: FolderState, live: set<string>, cal: Calendar, req: Request)
    returns (live': set<string>)
    requires Shadow(fs, whole, folder.day, live) && Live(folder, live)
    ensures var (fs', folder', r) := ChannelOpened(fs, folder, cal, req);
      var (whole', g', q) := ChannelOpened(whole, folder, cal, req);
      folder' == g' && r == q && folder'.day == folder.day && Live(folder', live') &&
      Shadow(fs', whole', folder.day, live')
  {
    hide Shadow, FilesOf, NextBase, Put, HeaderBytes;
    var w := NewWriter(folder.day, req.channel, req.size);
    ReopenedShadow(fs, whole, w, live, cal.clock, req.time);
    var (_, w', r) := Reopened(fs, w, cal.clock, req.time);
    live' := live + FilesOf(w');
    if r <= 0 { GoneShadow(fs, whole, folder.day, live, live'); }
    WriterLive(folder, live, live', req.channel, w');
  }

  // A request in a folder does the same in both.
  lemma ReadyShadow(fs: Fs, whole: Fs, folder: FolderState, live: set<string>, cal: Calendar, req: Request)
    returns (live': set<string>)
    requires Shadow(fs, whole, folder.day, live) && Live(folder, live)
    ensures var (fs', folder', r, header) := ReadyWritten(fs, folder, cal, req);
      var (whole', g', q, header') := ReadyWritten(whole, folder, cal, req);
      folder' == g' && r == q && header == header' && folder'.day == folder.day && Live(folder', live') &&
      Shadow(fs', whole', folder.day, live')
  {
    hide Shadow, Live, ChannelWritten, Reopened;
    if req.channel in folder.writers {
      live' := ChannelShadow(fs, whole, folder, live, cal, req);
    } else {
      live' := OpenedShadow(fs, whole, folder, live, cal, req);
      var (fs1, folder1, header) := ChannelOpened(fs, folder, cal, req);
      if header > 0 {
        live' := ChannelShadow(fs1, ChannelOpened(whole, folder, cal, req).0, folder1, live', cal, req);
      }
    }
  }

  lemma DayShadow(fs: Fs, whole: Fs, day: nat, live: set<string>, made: nat)
    requires Shadow(fs, whole, day, live)
    ensures Shadow(WithDay(fs, made), WithDay(whole, made), day, live)
  {
    forall d <- WithDay(fs, made).days ensures ShadowDay(WithDay(fs, made).days[d], WithDay(whole, made).days[d]) {
      if d in fs.days { assert ShadowDay(fs.days[d], whole.days[d]); }
    }
  }

  // What is left of both when the same days are gone.
  lemma FewerDays(fs: Fs, whole: Fs, day: nat, live: set<string>, fs': Fs, whole': Fs)
    requires Shadow(fs, whole, day, live)
    requires fs'.days.Keys <= fs.days.Keys && forall d <- fs'.days :: fs'.days[d] == fs.days[d]
    requires whole'.days.Keys == fs'.days.Keys && forall d <- whole'.days :: whole'.days[d] == whole.days[d]
    ensures Shadow(fs', whole', day, live)
  {
    forall d <- fs'.days ensures ShadowDay(fs'.days[d], whole'.days[d]) {
      assert ShadowDay(fs.days[d], whole.days[d]);
    }
  }

  // The storage after a crash, or after a copy that got only so far: the same
  // files, each of them cut somewhere.
  ghost predicate Cut(fs: Fs, fs': Fs) {
    fs'.days.Keys == fs.days.Keys && forall d <- fs'.days :: ShadowDay(fs'.days[d], fs.days[d])
  }

  lemma CutShadow(fs: Fs, fs': Fs, whole: Fs)
    requires Shadow(fs, whole, 0, {}) && Cut(fs, fs')
    ensures Shadow(fs', whole, 0, {})
  {
    forall d <- fs'.days ensures ShadowDay(fs'.days[d], whole.days[d]) {
      assert ShadowDay(fs'.days[d], fs.days[d]) && ShadowDay(fs.days[d], whole.days[d]);
    }
  }
}
