// Byte counts of directories and of the whole store.
module Accounting {
  import opened Bytes
  import opened FileNames
  import opened FileSystems

  ghost function Sum<K(!new)>(m: map<K, nat>): nat {
    if m == map[] then 0
    else
      var k :| k in m;
      m[k] + Sum(m - {k})
  }

  lemma {:induction false} SumWithout<K(!new)>(m: map<K, nat>, k: K)
    requires k in m
    ensures Sum(m) == m[k] + Sum(m - {k})
    decreases |m|
  {
    var j :| j in m && Sum(m) == m[j] + Sum(m - {j});
    if j != k {
      SumWithout(m - {j}, k);
      SumWithout(m - {k}, j);
      assert m - {j} - {k} == m - {k} - {j};
    }
  }

  lemma SumUpdate<K(!new)>(m: map<K, nat>, k: K, n: nat)
    ensures Sum(m[k := n]) == Sum(m - {k}) + n
    ensures Sum(m - {k}) + (if k in m then m[k] else 0) == Sum(m)
  {
    SumWithout(m[k := n], k);
    assert m[k := n] - {k} == m - {k};
    if k in m {
      SumWithout(m, k);
    } else {
      assert m - {k} == m;
    }
  }

  function Sizes(dir: Directory): map<string, nat> {
    map n | n in dir :: |dir[n]|
  }

  ghost function DirectoryBytes(dir: Directory): nat {
    Sum(Sizes(dir))
  }

  ghost function DaySizes(days: map<nat, Directory>): map<nat, nat> {
    map d | d in days :: DirectoryBytes(days[d])
  }

  // Bytes in all files that can be reached by name.
  ghost function LinkedBytes(days: map<nat, Directory>): nat {
    Sum(DaySizes(days))
  }

  lemma DirectoryPut(dir: Directory, name: string, content: seq<byte>)
    ensures DirectoryBytes(dir[name := content]) + |Contents(dir, name)| == DirectoryBytes(dir) + |content|
  {
    SumUpdate(Sizes(dir), name, |content|);
    assert Sizes(dir[name := content]) == Sizes(dir)[name := |content|];
  }

  lemma LinkedReplace(days: map<nat, Directory>, day: nat, dir: Directory)
    ensures LinkedBytes(days[day := dir]) + (if day in days then DirectoryBytes(days[day]) else 0) ==
            LinkedBytes(days) + DirectoryBytes(dir)
  {
    var m, n := DaySizes(days), DirectoryBytes(dir);
    assert DaySizes(days[day := dir]) == m[day := n];
    SumUpdate(m, day, n);
  }

  lemma LinkedWithout(days: map<nat, Directory>, day: nat)
    requires day in days
    ensures LinkedBytes(days) == DirectoryBytes(days[day]) + LinkedBytes(days - {day})
  {
    SumWithout(DaySizes(days), day);
    assert DaySizes(days - {day}) == DaySizes(days) - {day};
  }

  lemma EmptyDirectory()
    ensures DirectoryBytes(map[]) == 0 && LinkedBytes(map[]) == 0
  {
    assert Sizes(map[]) == map[];
    assert DaySizes(map[]) == map[];
  }

  lemma PutBytes(fs: Fs, day: nat, name: string, content: seq<byte>)
    ensures LinkedBytes(Put(fs, day, name, content).days) + |FileOf(fs, day, name)| == LinkedBytes(fs.days) + |content|
  {
    var dir := DirectoryOf(fs, day);
    DirectoryPut(dir, name, content);
    LinkedReplace(fs.days, day, dir[name := content]);
    EmptyDirectory();
  }

  // Everything ever written through the store and not deleted since.
  ghost function Held(fs: Fs): nat {
    LinkedBytes(fs.days) + fs.orphaned
  }

  lemma AppendedBytes(fs: Fs, day: nat, name: string, b: seq<byte>)
    ensures Held(Appended(fs, day, name, b)) == Held(fs) + |b|
  {
    if Linked(fs, day, name) {
      PutBytes(fs, day, name, fs.days[day][name] + b);
    }
  }
}
