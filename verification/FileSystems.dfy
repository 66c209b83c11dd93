// The part of a file system the store uses: day directories of files that
// only grow, opened in append mode.
module FileSystems {
  import opened Bytes
  import opened FileNames

  // days: the directories that exist.  orphaned: bytes written through
  // handles whose directory has been removed since they were opened.
  datatype Fs = Fs(days: map<nat, Directory>, orphaned: nat)

  // An output stream: after a failure it stays bad and accepts nothing.
  datatype Handle = Handle(name: string, open: bool, bad: bool)

  function DirectoryOf(fs: Fs, day: nat): Directory {
    if day in fs.days then fs.days[day] else map[]
  }

  function FileOf(fs: Fs, day: nat, name: string): seq<byte> {
    Contents(DirectoryOf(fs, day), name)
  }

  predicate Linked(fs: Fs, day: nat, name: string) {
    day in fs.days && name in fs.days[day]
  }

  function Put(fs: Fs, day: nat, name: string, content: seq<byte>): Fs {
    fs.(days := fs.days[day := DirectoryOf(fs, day)[name := content]])
  }

  function Created(fs: Fs, day: nat, name: string): Fs
    requires day in fs.days
  {
    if name in fs.days[day] then fs else Put(fs, day, name, [])
  }

  function Appended(fs: Fs, day: nat, name: string, b: seq<byte>): Fs {
    if Linked(fs, day, name) then Put(fs, day, name, fs.days[day][name] + b)
    else fs.(orphaned := fs.orphaned + |b|)
  }

  lemma PutTwice(fs: Fs, day: nat, name: string, a: seq<byte>, b: seq<byte>)
    ensures Put(Put(fs, day, name, a), day, name, b) == Put(fs, day, name, b)
  {
    var dir := DirectoryOf(fs, day);
    assert dir[name := a][name := b] == dir[name := b];
    assert fs.days[day := dir[name := a]][day := dir[name := b]] == fs.days[day := dir[name := b]];
  }

  // A file created and written to holds what was written.
  lemma CreateAndAppend(fs: Fs, day: nat, name: string, b: seq<byte>)
    requires day in fs.days && name !in fs.days[day]
    ensures Appended(Created(fs, day, name), day, name, b) == Put(fs, day, name, b)
  {
    PutTwice(fs, day, name, [], b);
    assert [] + b == b;
  }

  lemma AppendTwice(fs: Fs, day: nat, name: string, a: seq<byte>, b: seq<byte>)
    ensures Appended(Appended(fs, day, name, a), day, name, b) == Appended(fs, day, name, a + b)
  {
    if Linked(fs, day, name) {
      var c := fs.days[day][name];
      PutTwice(fs, day, name, c + a, c + a + b);
      assert c + a + b == c + (a + b);
    }
  }

  // An append shows in its own file, if that is still linked, and nowhere else.
  lemma AppendedKeeps(fs: Fs, day: nat, name: string, b: seq<byte>)
    ensures OnlyGrown(fs, Appended(fs, day, name, b), day, {name})
    ensures FileOf(Appended(fs, day, name, b), day, name) ==
      if Linked(fs, day, name) then FileOf(fs, day, name) + b else []
    ensures FileOf(fs, day, name) <= FileOf(Appended(fs, day, name, b), day, name)
    ensures b == [] ==> FileOf(Appended(fs, day, name, b), day, name) == FileOf(fs, day, name)
  {
  }

  // Nothing but the named files of the day differs, and no file is gone.
  ghost predicate OthersKept(fs: Fs, fs': Fs, day: nat, touched: set<string>) {
    && fs'.days.Keys == fs.days.Keys
    && (forall d <- fs.days :: d != day ==> fs'.days[d] == fs.days[d])
    && (day in fs.days ==>
          forall n <- fs.days[day] :: n in fs'.days[day] && (n !in touched ==> fs'.days[day][n] == fs.days[day][n]))
  }

  // As above, and no file is new.
  ghost predicate OnlyGrown(fs: Fs, fs': Fs, day: nat, touched: set<string>) {
    && OthersKept(fs, fs', day, touched)
    && (day in fs.days ==> fs'.days[day].Keys == fs.days[day].Keys)
  }

  lemma UntouchedFile(fs: Fs, fs': Fs, day: nat, touched: set<string>, name: string)
    requires OnlyGrown(fs, fs', day, touched) && name !in touched
    ensures FileOf(fs', day, name) == FileOf(fs, day, name)
  {
  }

  // A device that may fail at any call unless it is reliable.  A failing
  // write may leave any part of its bytes behind.
  class FileSystem {
    var state: Fs
    const reliable: bool

    constructor (state: Fs, reliable: bool)
      ensures this.state == state && this.reliable == reliable
    {
      this.state, this.reliable := state, reliable;
    }

    method Exists(day: nat, name: string) returns (e: bool)
      ensures e == Linked(state, day, name)
    {
      e := day in state.days && name in state.days[day];
    }

    method CreateDirectory(day: nat)
      modifies this
      ensures state == if day in old(state).days then old(state) else old(state).(days := old(state).days[day := map[]])
    {
      if day !in state.days {
        state := state.(days := state.days[day := map[]]);
      }
    }

    method RemoveAll(day: nat)
      modifies this
      ensures state == old(state).(days := old(state).days - {day})
    {
      state := state.(days := state.days - {day});
    }

    method Open(day: nat, name: string) returns (h: Handle)
      modifies this
      ensures h == Handle(name, h.open, false)
      ensures h.open ==> day in old(state.days) && state == Created(old(state), day, name)
      ensures !h.open ==> state == old(state)
      ensures reliable ==> h.open == (day in old(state.days))
    {
      var works: bool := *;
      if day in state.days && (works || reliable) {
        state := Created(state, day, name);
        h := Handle(name, true, false);
      } else {
        h := Handle(name, false, false);
      }
    }

    method Write(day: nat, h: Handle, b: seq<byte>) returns (ok: bool, h': Handle, ghost landed: nat)
      modifies this
      ensures h' == h.(bad := !ok) && landed <= |b|
      ensures state == Appended(old(state), day, h.name, b[..landed])
      ensures ok ==> !h.bad && landed == |b|
      ensures h.bad ==> landed == 0
      ensures reliable && !h.bad ==> ok
    {
      var works: bool := *;
      if !h.bad && (works || reliable) {
        state := Appended(state, day, h.name, b);
        assert b[..|b|] == b;
        ok, h', landed := true, h, |b|;
      } else {
        var n: nat :| n <= |b|;
        n := if h.bad then 0 else n;
        state := Appended(state, day, h.name, b[..n]);
        ok, h', landed := false, h.(bad := true), n;
      }
    }

    method Flush(h: Handle) returns (ok: bool, h': Handle)
      ensures h' == h.(bad := !ok)
      ensures ok ==> !h.bad
      ensures reliable && !h.bad ==> ok
    {
      var works: bool := *;
      ok := !h.bad && (works || reliable);
      h' := h.(bad := !ok);
    }
  }
}
