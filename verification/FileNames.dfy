// Names of stream files inside a day directory.
module FileNames {
  import opened Bytes

  const IDX := ".idx"
  const DATA := ".data"

  type Directory = map<string, seq<byte>>

  // Opening a file that does not exist gives an empty one to the readers.
  function Contents(dir: Directory, name: string): seq<byte> {
    if name in dir then dir[name] else []
  }

  function IndexName(base: string): string {
    base + IDX
  }

  function DataName(base: string): string {
    base + DATA
  }

  predicate HasExtension(name: string, ext: string) {
    |name| > |ext| && name[|name| - |ext|..] == ext
  }

  lemma NamesDiffer(a: string, b: string)
    ensures IndexName(a) != DataName(b)
    ensures IndexName(a) == IndexName(b) <==> a == b
    ensures DataName(a) == DataName(b) <==> a == b
  {
    assert IndexName(a)[|IndexName(a)| - 1] == 'x';
    assert DataName(b)[|DataName(b)| - 1] == 'a';
    if IndexName(a) == IndexName(b) {
      assert a == IndexName(a)[..|a|] && b == IndexName(b)[..|b|];
    }
    if DataName(a) == DataName(b) {
      assert a == DataName(a)[..|a|] && b == DataName(b)[..|b|];
    }
  }

  predicate Occurs(s: string, pattern: string, i: nat) {
    i + |pattern| <= |s| && s[i..i + |pattern|] == pattern
  }

  // std::string::find from position i
  function FindFrom(s: string, pattern: string, i: nat): (p: Option<nat>)
    ensures p.Some? ==> i <= p.value && Occurs(s, pattern, p.value) && forall j :: i <= j < p.value ==>
      !Occurs(s, pattern, j)
    ensures p.None? ==> forall j :: i <= j ==> !Occurs(s, pattern, j)
    decreases |s| - i
  {
    if i + |pattern| > |s| then None
    else if Occurs(s, pattern, i) then Some(i)
    else FindFrom(s, pattern, i + 1)
  }

  // The data file the reader pairs with an index file: everything before the
  // first ".idx" in the name, not before the last.
  function PairedName(index: string): Option<string> {
    match FindFrom(index, IDX, 0)
    case None => None
    case Some(p) => Some(DataName(index[..p]))
  }

  ghost predicate Plain(base: string) {
    forall i: nat :: !Occurs(base, IDX, i)
  }

  // The reader finds the data file the writer made exactly when the base
  // name - and so the channel name in it - does not contain ".idx" itself.
  lemma PairedNameIff(base: string)
    ensures PairedName(IndexName(base)) == Some(DataName(base)) <==> Plain(base)
  {
    var name := IndexName(base);
    assert Occurs(name, IDX, |base|) by { assert name[|base|..|base| + 4] == IDX; }
    var p := FindFrom(name, IDX, 0).value;
    NamesDiffer(base, name[..p]);
    if p < |base| {
      OccursSame(base, p);
    }
    if Plain(base) {
      assert name[..|base|] == base;
    } else {
      var i: nat :| Occurs(base, IDX, i);
      OccursSame(base, i);
      assert |name[..p]| < |base|;
    }
  }

  lemma OccursSame(base: string, p: nat)
    requires p < |base|
    ensures Occurs(IndexName(base), IDX, p) <==> Occurs(base, IDX, p)
  {
    if p + 4 <= |base| {
      assert base[p..p + 4] == IndexName(base)[p..p + 4];
    } else {
      NoOverlap(base, p);
    }
  }

  // ".idx" cannot straddle the end of the base name.
  lemma NoOverlap(base: string, p: nat)
    requires p < |base| < p + |IDX|
    ensures !Occurs(IndexName(base), IDX, p)
  {
    var name := IndexName(base);
    assert IDX[1] != '.' && IDX[2] != '.' && IDX[3] != '.';
    if p + 4 <= |name| {
      assert name[p..p + 4][|base| - p] == '.';
    }
  }
}
