// Slices of concatenations and of files that share their beginning.
module Sequences {
  lemma SliceOfFront<T>(a: seq<T>, b: seq<T>, i: nat, j: nat)
    requires i <= j <= |a|
    ensures (a + b)[i..j] == a[i..j]
  {
  }

  lemma SliceOfBack<T>(a: seq<T>, b: seq<T>)
    ensures (a + b)[|a|..|a| + |b|] == b
  {
  }

  lemma SliceBehind<T>(a: seq<T>, b: seq<T>, i: nat, j: nat)
    requires i <= j <= |b|
    ensures (a + b)[|a| + i..|a| + j] == b[i..j]
  {
  }

  lemma SubSlice<T>(f: seq<T>, p: nat, q: nat, part: seq<T>, i: nat, j: nat)
    requires p <= q <= |f| && f[p..q] == part && i <= j <= |part|
    ensures f[p + i..p + j] == part[i..j]
  {
    assert forall x :: i <= x < j ==> f[p + x] == part[x];
  }

  lemma HeadAndTail<T>(s: seq<T>)
    requires s != []
    ensures s == [s[0]] + s[1..]
  {
  }

  lemma Reassociate<T>(a: seq<T>, b: seq<T>, c: seq<T>)
    ensures a + b + c == a + (b + c)
  {
  }

  lemma AppendOne<T>(a: seq<T>, x: T)
    ensures (a + [x])[..|a|] == a && (a + [x])[|a|] == x && |a + [x]| == |a| + 1
  {
  }

  lemma AppendNothing<T>(a: seq<T>)
    ensures a + [] == a && [] + a == a
  {
  }

  function Shorter<T>(a: seq<T>, b: seq<T>): nat {
    if |a| < |b| then |a| else |b|
  }

  // One of the two is a prefix of the other: a file and what it was written
  // to be, after a cut at any byte or after anything was appended.
  ghost predicate Agree<T>(a: seq<T>, b: seq<T>) {
    var n := Shorter(a, b);
    a[..n] == b[..n]
  }

  lemma AgreeSlice<T>(a: seq<T>, b: seq<T>, i: nat, j: nat)
    requires Agree(a, b) && i <= j <= |a| && j <= |b|
    ensures a[i..j] == b[i..j]
  {
    var n := Shorter(a, b);
    assert a[i..j] == a[..n][i..j];
    assert b[i..j] == b[..n][i..j];
  }

  lemma PrefixAgrees<T>(a: seq<T>, b: seq<T>)
    requires a <= b
    ensures Agree(a, b) && Agree(b, a)
  {
  }
}
