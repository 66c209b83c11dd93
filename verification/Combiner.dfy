// StreamsCombiner: regroups the records of several streams by second.
module Combiner {
  import opened Bytes
  import opened Sequences
  import opened Layout

  datatype Piece = Piece(time: u64, data: seq<byte>, stream: nat)

  // The second of a time stamp: a division in floating point, left open.
  type Clock = u64 -> nat

  ghost predicate MonotoneClock(second: Clock) {
    forall s: u64, t: u64 :: s <= t ==> second(s) <= second(t)
  }

  function PieceOf(r: Record, stream: nat): Piece {
    Piece(r.time, r.payload, stream)
  }

  // What addRecords looks at: records before first are skipped, the first one
  // beyond last ends it.
  function Picked(second: Clock, first: nat, last: nat, stream: nat, rs: seq<Record>): seq<Piece> {
    if rs == [] then []
    else if second(rs[0].time) < first then Picked(second, first, last, stream, rs[1..])
    else if second(rs[0].time) > last then []
    else [PieceOf(rs[0], stream)] + Picked(second, first, last, stream, rs[1..])
  }

  // What it keeps: second 0 is dropped.
  function Timed(second: Clock, ps: seq<Piece>): seq<Piece> {
    if ps == [] then []
    else (if second(ps[0].time) != 0 then [ps[0]] else []) + Timed(second, ps[1..])
  }

  function OfSecond(second: Clock, ps: seq<Piece>, s: nat): seq<Piece> {
    if ps == [] then []
    else (if second(ps[0].time) == s then [ps[0]] else []) + OfSecond(second, ps[1..], s)
  }

  function OfStream(ps: seq<Piece>, stream: nat): seq<Piece> {
    if ps == [] then []
    else (if ps[0].stream == stream then [ps[0]] else []) + OfStream(ps[1..], stream)
  }

  lemma {:induction false} OfSecondConcat(second: Clock, a: seq<Piece>, b: seq<Piece>, s: nat)
    ensures OfSecond(second, a + b, s) == OfSecond(second, a, s) + OfSecond(second, b, s)
  {
    if a == [] {
      AppendNothing(b);
      AppendNothing(OfSecond(second, b, s));
    } else {
      OfSecondConcat(second, a[1..], b, s);
      TailOfConcat(a, b);
      Reassociate(if second(a[0].time) == s then [a[0]] else [], OfSecond(second, a[1..], s), OfSecond(second, b, s));
    }
  }

  lemma TailOfConcat<T>(a: seq<T>, b: seq<T>)
    requires a != []
    ensures (a + b)[0] == a[0] && (a + b)[1..] == a[1..] + b
  {
  }

  lemma {:induction false} TimedOfSecond(second: Clock, ps: seq<Piece>, s: nat)
    ensures OfSecond(second, Timed(second, ps), s) == if s == 0 then [] else OfSecond(second, ps, s)
  {
    if ps != [] {
      TimedOfSecond(second, ps[1..], s);
      OfSecondConcat(second, if second(ps[0].time) != 0 then [ps[0]] else [], Timed(second, ps[1..]), s);
    }
  }

  lemma {:induction false} AllOfSecond(second: Clock, ps: seq<Piece>, s: nat, t: nat)
    requires forall p <- ps :: second(p.time) == s
    ensures OfSecond(second, ps, t) == if s == t then ps else []
  {
    if ps != [] {
      AllOfSecond(second, ps[1..], s, t);
      HeadAndTail(ps);
    }
  }

  ghost predicate Numbers(indices: map<string, nat>, k: nat) {
    exists c <- indices :: indices[c] == k
  }

  // Channel numbers are 0, 1, 2, ... without gaps or repetitions.
  ghost predicate Numbered(indices: map<string, nat>) {
    && (forall c <- indices :: indices[c] < |indices|)
    && (forall c <- indices, d <- indices :: indices[c] == indices[d] ==> c == d)
    && (forall k: nat :: k < |indices| ==> Numbers(indices, k))
  }

  lemma NumberedNext(indices: map<string, nat>, c: string)
    requires Numbered(indices) && c !in indices
    ensures Numbered(indices[c := |indices|])
  {
    var next := indices[c := |indices|];
    assert next.Keys == indices.Keys + {c};
    assert |next| == |indices| + 1;
    forall k: nat | k < |next| ensures Numbers(next, k) {
      if k < |indices| {
        assert Numbers(indices, k);
        var d :| d in indices && indices[d] == k;
        assert d in next && next[d] == k;
      } else {
        assert c in next && next[c] == k;
      }
    }
  }

  type Buckets = map<nat, seq<Piece>>

  function In(seconds: Buckets, s: nat): seq<Piece> {
    if s in seconds then seconds[s] else []
  }

  function Bucketed(seconds: Buckets, s: nat, data: seq<Piece>): Buckets {
    if s == 0 || data == [] then seconds else seconds[s := In(seconds, s) + data]
  }

  // What is still to be distributed: the pieces collected for one second and
  // those of the records not looked at yet.
  ghost predicate Remaining(
    second: Clock, seconds: Buckets, tmp: seq<Piece>, last: nat, todo: seq<Piece>, before: Buckets, all: seq<Piece>)
  {
    forall t: nat :: In(seconds, t) + Due(tmp, last, t) + OfSecond(second, Timed(second, todo), t) ==
      In(before, t) + OfSecond(second, all, t)
  }

  function Due(tmp: seq<Piece>, last: nat, t: nat): seq<Piece> {
    if t == last && t != 0 then tmp else []
  }

  lemma FirstTimed(second: Clock, p: Piece, todo: seq<Piece>, t: nat)
    ensures OfSecond(second, Timed(second, [p] + todo), t) ==
      Due([p], second(p.time), t) + OfSecond(second, Timed(second, todo), t)
  {
    assert ([p] + todo)[1..] == todo;
    var rest := Timed(second, todo);
    AppendNothing(rest);
    AppendNothing(OfSecond(second, rest, t));
    if second(p.time) != 0 {
      assert ([p] + rest)[1..] == rest;
    }
  }

  // The next piece belongs to the second being collected ...
  lemma Collected(second: Clock, seconds: Buckets, tmp: seq<Piece>, p: Piece, todo: seq<Piece>, before: Buckets,
      all: seq<Piece>)
    requires Remaining(second, seconds, tmp, second(p.time), [p] + todo, before, all)
    ensures Remaining(second, seconds, tmp + [p], second(p.time), todo, before, all)
  {
    hide OfSecond, Timed;
    forall t: nat
      ensures In(seconds, t) + Due(tmp + [p], second(p.time), t) + OfSecond(second, Timed(second, todo), t) ==
        In(before, t) + OfSecond(second, all, t)
    {
      var rest := OfSecond(second, Timed(second, todo), t);
      FirstTimed(second, p, todo, t);
      assert Due(tmp + [p], second(p.time), t) == Due(tmp, second(p.time), t) + Due([p], second(p.time), t);
      hide Due, In;
      Reassociate(In(seconds, t), Due(tmp, second(p.time), t), Due([p], second(p.time), t));
      Reassociate(In(seconds, t) + Due(tmp, second(p.time), t), Due([p], second(p.time), t), rest);
    }
  }

  lemma StoredIn(seconds: Buckets, last: nat, tmp: seq<Piece>, t: nat)
    ensures In(Bucketed(seconds, last, tmp), t) == In(seconds, t) + Due(tmp, last, t)
  {
    AppendNothing(In(seconds, t));
  }

  // ... or the collected pieces are stored and a new second begins.
  lemma Flushed(second: Clock, seconds: Buckets, tmp: seq<Piece>, last: nat, todo: seq<Piece>, before: Buckets,
      all: seq<Piece>, s: nat)
    requires Remaining(second, seconds, tmp, last, todo, before, all)
    ensures Remaining(second, Bucketed(seconds, last, tmp), [], s, todo, before, all)
  {
    hide OfSecond, Timed, Bucketed, In;
    forall t: nat
      ensures In(Bucketed(seconds, last, tmp), t) + Due([], s, t) + OfSecond(second, Timed(second, todo), t) ==
        In(before, t) + OfSecond(second, all, t)
    {
      StoredIn(seconds, last, tmp, t);
      AppendNothing(In(seconds, t) + Due(tmp, last, t));
    }
  }

  class StreamsCombiner {
    const second: Clock
    const firstSecond: nat
    const lastSecond: nat
    var seconds: map<nat, seq<Piece>>
    var indices: map<string, nat>
    ghost var accepted: seq<Piece>    // everything kept so far, in the order it came

    ghost predicate Valid()
      reads this
    {
      && (forall s: nat :: In(seconds, s) == OfSecond(second, accepted, s))
      && NoEmpty(seconds)
      && Numbered(indices)
    }

    constructor (second: Clock, start: u64, end: u64)
      ensures Valid() && this.second == second && firstSecond == second(start) && lastSecond == second(end)
      ensures seconds == map[] && indices == map[] && accepted == []
    {
      this.second, firstSecond, lastSecond := second, second(start), second(end);
      seconds, indices, accepted := map[], map[], [];
    }

    method StoreData(s: nat, data: seq<Piece>)
      modifies this`seconds
      ensures seconds == Bucketed(old(seconds), s, data)
    {
      if s == 0 || data == [] {
        return;
      }
      if s !in seconds {
        seconds := seconds[s := []];
      }
      seconds := seconds[s := seconds[s] + data];
    }

    // The pieces this call adds to what has been accepted.
    ghost function Added(stream: nat, data: seq<Record>): seq<Piece> {
      Timed(second, Todo(stream, data))
    }

    function Todo(stream: nat, data: seq<Record>): seq<Piece> {
      Picked(second, firstSecond, lastSecond, stream, data)
    }

    method AddRecords(stream: string, data: seq<Record>)
      requires Valid()
      modifies this
      ensures Valid()
      ensures indices == if stream in old(indices) then old(indices) else old(indices)[stream := |old(indices)|]
      ensures accepted == old(accepted) + Added(indices[stream], data)
    {
      hide Numbered, OfSecond, Timed, Remaining;
      if stream !in indices {
        NumberedNext(indices, stream);
        indices := indices[stream := |indices|];
      }
      var index := indices[stream];
      var tmp: seq<Piece>, last: nat := [], 0;
      var i := 0;
      ghost var before, all := seconds, Added(index, data);
      Beginning(second, seconds, Todo(index, data));
      assert data[0..] == data;
      while i < |data|
        invariant 0 <= i <= |data|
        invariant NoEmpty(seconds)
        invariant Remaining(second, seconds, tmp, last, Todo(index, data[i..]), before, all)
        modifies this`seconds
      {
        var s := second(data[i].time);
        assert data[i..][1..] == data[i + 1..];
        if s < firstSecond {
          i := i + 1;
          continue;
        }
        if s > lastSecond {
          break;
        }
        if s != last {
          Flushed(second, seconds, tmp, last, Todo(index, data[i..]), before, all, s);
          StoreData(last, tmp);
          tmp, last := [], s;
        }
        Collected(second, seconds, tmp, PieceOf(data[i], index), Todo(index, data[i + 1..]), before, all);
        tmp := tmp + [PieceOf(data[i], index)];
        i := i + 1;
      }
      Flushed(second, seconds, tmp, last, [], before, all, 0);
      StoreData(last, tmp);
      Distributed(second, seconds, before, accepted, all);
      accepted := accepted + all;
    }

    // All seconds in ascending order, one call of the writer for each.
    method Save() returns (batches: seq<seq<Piece>>, size: nat, ghost keys: seq<nat>)
      requires Valid()
      ensures Ascending(keys) && forall k: nat :: k in keys <==> k in seconds
      ensures |batches| == |keys| && forall i :: 0 <= i < |keys| ==> batches[i] == OfSecond(second, accepted, keys[i])
      ensures Flat(batches) == Grouped(second, accepted, keys) && size == |Flat(batches)|
    {
      hide OfSecond, Numbered, NoEmpty, Flat, Grouped, Ascending, Filled, IsSmallest;
      batches, size, keys := [], 0, [];
      NothingFilled(second, accepted);
      var rest := seconds.Keys;
      while rest != {}
        invariant rest <= seconds.Keys && Before(keys, rest)
        invariant forall k: nat :: k in keys <==> k in seconds && k !in rest
        invariant Filled(second, accepted, keys, batches) && size == |Flat(batches)|
        decreases |rest|
      {
        var s := Smallest(rest);
        assert s in rest && In(seconds, s) == OfSecond(second, accepted, s) by { SmallestIn(rest, s); }
        FilledNext(second, accepted, keys, batches, s, rest);
        rest := rest - {s};
        batches, keys, size := batches + [seconds[s]], keys + [s], size + |seconds[s]|;
      }
      FilledIs(second, accepted, keys, batches, rest);
    }
  }

  // keys are in ascending order and all before the seconds of rest.
  ghost predicate Before(keys: seq<nat>, rest: set<nat>) {
    Ascending(keys) && forall i, r :: 0 <= i < |keys| && r in rest ==> keys[i] < r
  }

  // The batches written so far, one for each key.
  ghost predicate Filled(second: Clock, ps: seq<Piece>, keys: seq<nat>, batches: seq<seq<Piece>>) {
    && |batches| == |keys|
    && (forall i :: 0 <= i < |keys| ==> batches[i] == OfSecond(second, ps, keys[i]))
    && Flat(batches) == Grouped(second, ps, keys)
  }

  lemma NothingFilled(second: Clock, ps: seq<Piece>)
    ensures Filled(second, ps, [], []) && Flat([]) == [] && Ascending([])
  {
  }

  lemma SmallestIn(rest: set<nat>, s: nat)
    requires IsSmallest(rest, s)
    ensures s in rest
  {
  }

  lemma FilledNext(second: Clock, ps: seq<Piece>, keys: seq<nat>, batches: seq<seq<Piece>>, s: nat, rest: set<nat>)
    requires Filled(second, ps, keys, batches) && Before(keys, rest) && IsSmallest(rest, s)
    ensures var batch := OfSecond(second, ps, s);
      && Filled(second, ps, keys + [s], batches + [batch]) && Before(keys + [s], rest - {s})
      && |Flat(batches + [batch])| == |Flat(batches)| + |batch|
  {
    AppendOne(keys, s);
    AppendOne(batches, OfSecond(second, ps, s));
  }

  lemma FilledIs(second: Clock, ps: seq<Piece>, keys: seq<nat>, batches: seq<seq<Piece>>, rest: set<nat>)
    requires Filled(second, ps, keys, batches) && Before(keys, rest)
    ensures Ascending(keys) && |batches| == |keys| && Flat(batches) == Grouped(second, ps, keys)
    ensures forall i :: 0 <= i < |keys| ==> batches[i] == OfSecond(second, ps, keys[i])
  {
  }

  predicate IsSmallest(s: set<nat>, m: nat) {
    m in s && forall r <- s :: m <= r
  }

  method Smallest(s: set<nat>) returns (m: nat)
    requires s != {}
    ensures IsSmallest(s, m)
  {
    SmallestExists(s);
    m :| m in s && IsSmallest(s, m);
  }

  lemma {:induction false} SmallestExists(s: set<nat>)
    requires s != {}
    ensures exists m: nat :: m in s && IsSmallest(s, m)
    decreases |s|
  {
    var x: nat :| x in s;
    var others := s - {x};
    if others == {} {
      assert s == {x} && IsSmallest(s, x);
    } else {
      SmallestExists(others);
      var m: nat :| m in others && IsSmallest(others, m);
      assert IsSmallest(s, if x < m then x else m) by { assert s == others + {x}; }
    }
  }

  ghost predicate Ascending(keys: seq<nat>) {
    forall i, j :: 0 <= i < j < |keys| ==> keys[i] < keys[j]
  }

  function Flat(batches: seq<seq<Piece>>): seq<Piece> {
    if batches == [] then [] else Flat(batches[..|batches| - 1]) + batches[|batches| - 1]
  }

  // The pieces of the given seconds, second after second.
  function Grouped(second: Clock, ps: seq<Piece>, keys: seq<nat>): seq<Piece> {
    if keys == [] then []
    else Grouped(second, ps, keys[..|keys| - 1]) + OfSecond(second, ps, keys[|keys| - 1])
  }


  ghost predicate NoEmpty(seconds: Buckets) {
    forall t <- seconds :: t != 0 && seconds[t] != []
  }

  lemma Beginning(second: Clock, seconds: Buckets, todo: seq<Piece>)
    ensures Remaining(second, seconds, [], 0, todo, seconds, Timed(second, todo))
  {
    hide OfSecond, Timed;
    forall t: nat
      ensures In(seconds, t) + Due([], 0, t) + OfSecond(second, Timed(second, todo), t) ==
        In(seconds, t) + OfSecond(second, Timed(second, todo), t)
    {
      AppendNothing(In(seconds, t));
    }
  }

  lemma Distributed(second: Clock, seconds: Buckets, before: Buckets, accepted: seq<Piece>, all: seq<Piece>)
    requires Remaining(second, seconds, [], 0, [], before, all)
    requires forall t: nat :: In(before, t) == OfSecond(second, accepted, t)
    ensures forall t: nat :: In(seconds, t) == OfSecond(second, accepted + all, t)
  {
    forall t: nat ensures In(seconds, t) == OfSecond(second, accepted + all, t) {
      OfSecondConcat(second, accepted, all, t);
      AppendNothing(In(seconds, t));
      assert In(seconds, t) + Due([], 0, t) + OfSecond(second, Timed(second, []), t) ==
        In(before, t) + OfSecond(second, all, t);
    }
  }

  lemma {:induction false} OfSecondNone(second: Clock, ps: seq<Piece>, s: nat)
    requires forall p <- ps :: second(p.time) != s
    ensures OfSecond(second, ps, s) == []
  {
    if ps != [] { OfSecondNone(second, ps[1..], s); }
  }

  lemma OfSecondOne(second: Clock, p: Piece, s: nat)
    ensures OfSecond(second, [p], s) == if second(p.time) == s then [p] else []
  {
  }

  // One more piece, as a multiset, wherever its second is.
  lemma {:induction false} GroupedMore(second: Clock, ps: seq<Piece>, p: Piece, keys: seq<nat>)
    requires Ascending(keys)
    ensures multiset(Grouped(second, ps + [p], keys)) ==
      multiset(Grouped(second, ps, keys)) + if second(p.time) in keys then multiset{p} else multiset{}
  {
    hide OfSecond;
    if keys != [] {
      var n := |keys| - 1;
      GroupedMore(second, ps, p, keys[..n]);
      OfSecondConcat(second, ps, [p], keys[n]);
      OfSecondOne(second, p, keys[n]);
      assert keys == keys[..n] + [keys[n]];
    }
  }

  // MAIN: nothing is lost and nothing invented: the output is the accepted
  // pieces, each as often as it was accepted.
  lemma {:induction false} Conserved(second: Clock, ps: seq<Piece>, keys: seq<nat>)
    requires Ascending(keys) && forall p <- ps :: second(p.time) in keys
    ensures multiset(Grouped(second, ps, keys)) == multiset(ps) && |Grouped(second, ps, keys)| == |ps|
  {
    hide OfSecond, Grouped;
    if ps == [] {
      GroupedEmpty(second, keys);
    } else {
      var n := |ps| - 1;
      Conserved(second, ps[..n], keys);
      GroupedMore(second, ps[..n], ps[n], keys);
      assert ps == ps[..n] + [ps[n]];
    }
    assert |multiset(Grouped(second, ps, keys))| == |multiset(ps)|;
  }

  lemma {:induction false} GroupedEmpty(second: Clock, keys: seq<nat>)
    ensures Grouped(second, [], keys) == []
  {
    if keys != [] { GroupedEmpty(second, keys[..|keys| - 1]); }
  }

  ghost predicate BySecond(second: Clock, ps: seq<Piece>) {
    forall i, j :: 0 <= i < j < |ps| ==> second(ps[i].time) <= second(ps[j].time)
  }

  // One more piece that is not earlier than the others goes to the end.
  lemma {:induction false} GroupedLast(second: Clock, ps: seq<Piece>, p: Piece, keys: seq<nat>)
    requires Ascending(keys) && forall q <- ps :: second(q.time) <= second(p.time)
    ensures Grouped(second, ps + [p], keys) == Grouped(second, ps, keys) + if second(p.time) in keys then [p] else []
  {
    hide OfSecond;
    if keys == [] {
      AppendNothing(Grouped(second, ps, keys));
    } else {
      var n := |keys| - 1;
      var front, last := Grouped(second, ps, keys[..n]), OfSecond(second, ps, keys[n]);
      GroupedLast(second, ps, p, keys[..n]);
      OfSecondConcat(second, ps, [p], keys[n]);
      OfSecondOne(second, p, keys[n]);
      assert keys == keys[..n] + [keys[n]];
      if keys[n] > second(p.time) { OfSecondNone(second, ps, keys[n]); }
      Reassociate(front, last, [p]);
      AppendNothing(last);
      AppendNothing(front);
      AppendNothing(front + last);
      AppendNothing(front + [p]);
    }
  }

  // Pieces already in the order of their seconds stay in that order.
  lemma {:induction false} GroupedSorted(second: Clock, ps: seq<Piece>, keys: seq<nat>)
    requires Ascending(keys) && BySecond(second, ps) && forall p <- ps :: second(p.time) in keys
    ensures Grouped(second, ps, keys) == ps
  {
    hide OfSecond, Grouped;
    if ps == [] {
      GroupedEmpty(second, keys);
    } else {
      var n := |ps| - 1;
      GroupedSorted(second, ps[..n], keys);
      GroupedLast(second, ps[..n], ps[n], keys);
      assert ps == ps[..n] + [ps[n]];
    }
  }

  lemma {:induction false} OfStreamConcat(a: seq<Piece>, b: seq<Piece>, j: nat)
    ensures OfStream(a + b, j) == OfStream(a, j) + OfStream(b, j)
  {
    if a == [] {
      AppendNothing(b);
    } else {
      OfStreamConcat(a[1..], b, j);
      TailOfConcat(a, b);
      Reassociate(if a[0].stream == j then [a[0]] else [], OfStream(a[1..], j), OfStream(b, j));
    }
  }

  lemma {:induction false} StreamOfSecond(second: Clock, ps: seq<Piece>, s: nat, j: nat)
    ensures OfStream(OfSecond(second, ps, s), j) == OfSecond(second, OfStream(ps, j), s)
  {
    if ps != [] {
      StreamOfSecond(second, ps[1..], s, j);
      OfStreamConcat(if second(ps[0].time) == s then [ps[0]] else [], OfSecond(second, ps[1..], s), j);
      OfSecondConcat(second, if ps[0].stream == j then [ps[0]] else [], OfStream(ps[1..], j), s);
    }
  }

  lemma {:induction false} StreamGrouped(second: Clock, ps: seq<Piece>, keys: seq<nat>, j: nat)
    ensures OfStream(Grouped(second, ps, keys), j) == Grouped(second, OfStream(ps, j), keys)
  {
    hide OfSecond, OfStream;
    if keys == [] {
      assert OfStream([], j) == [] by { NoStream(j); }
    } else {
      var n := |keys| - 1;
      StreamGrouped(second, ps, keys[..n], j);
      StreamOfSecond(second, ps, keys[n], j);
      OfStreamConcat(Grouped(second, ps, keys[..n]), OfSecond(second, ps, keys[n]), j);
    }
  }

  lemma NoStream(j: nat)
    ensures OfStream([], j) == []
  {
  }

  // MAIN: a stream whose accepted pieces are in the order of their seconds
  // keeps that order in the output.
  lemma StreamOrderKept(second: Clock, ps: seq<Piece>, keys: seq<nat>, j: nat)
    requires Ascending(keys) && forall p <- ps :: second(p.time) in keys
    requires BySecond(second, OfStream(ps, j))
    ensures OfStream(Grouped(second, ps, keys), j) == OfStream(ps, j)
  {
    StreamGrouped(second, ps, keys, j);
    forall p <- OfStream(ps, j) ensures p in ps {
      StreamPart(ps, j, p);
    }
    GroupedSorted(second, OfStream(ps, j), keys);
  }

  lemma {:induction false} StreamPart(ps: seq<Piece>, j: nat, p: Piece)
    requires p in OfStream(ps, j)
    ensures p in ps && p.stream == j
  {
    if p !in OfStream(ps[1..], j) {
      assert p == ps[0];
    } else {
      StreamPart(ps[1..], j, p);
    }
  }

  // The records of a second range.
  function Within(second: Clock, first: nat, last: nat, stream: nat, rs: seq<Record>): seq<Piece> {
    if rs == [] then []
    else
      (if first <= second(rs[0].time) <= last && second(rs[0].time) != 0 then [PieceOf(rs[0], stream)] else []) +
      Within(second, first, last, stream, rs[1..])
  }

  lemma {:induction false} WithinNone(second: Clock, first: nat, last: nat, stream: nat, rs: seq<Record>)
    requires forall r <- rs :: second(r.time) > last
    ensures Within(second, first, last, stream, rs) == []
  {
    if rs != [] { WithinNone(second, first, last, stream, rs[1..]); }
  }

  // MAIN: on a stream sorted by time the early end of addRecords loses
  // nothing: every record of the range is accepted, except in second 0.
  lemma {:induction false} SortedLosesNothing(second: Clock, first: nat, last: nat, stream: nat, rs: seq<Record>)
    requires MonotoneClock(second) && InOrder(rs)
    ensures Timed(second, Picked(second, first, last, stream, rs)) == Within(second, first, last, stream, rs)
  {
    if rs != [] {
      if first <= second(rs[0].time) && second(rs[0].time) > last {
        forall r <- rs[1..] ensures second(r.time) > last {
          assert rs[0].time <= r.time;
        }
        WithinNone(second, first, last, stream, rs[1..]);
      } else {
        SortedLosesNothing(second, first, last, stream, rs[1..]);
        AppendNothing(Within(second, first, last, stream, rs[1..]));
        if second(rs[0].time) >= first {
          var rest := Picked(second, first, last, stream, rs[1..]);
          assert ([PieceOf(rs[0], stream)] + rest)[1..] == rest;
        }
      }
    }
  }

  // ... and on any other stream those up to the first record beyond the range.
  lemma {:induction false} PickedUpTo(
    second: Clock, first: nat, last: nat, stream: nat, rs: seq<Record>, n: nat)
    requires n <= |rs| && forall i :: 0 <= i < n ==> second(rs[i].time) < first || second(rs[i].time) <= last
    requires n < |rs| ==> first <= second(rs[n].time) && last < second(rs[n].time)
    ensures Timed(second, Picked(second, first, last, stream, rs)) == Within(second, first, last, stream, rs[..n])
  {
    if n > 0 {
      PickedUpTo(second, first, last, stream, rs[1..], n - 1);
      assert rs[..n][1..] == rs[1..][..n - 1];
      AppendNothing(Within(second, first, last, stream, rs[1..][..n - 1]));
      if second(rs[0].time) >= first {
        var rest := Picked(second, first, last, stream, rs[1..]);
        assert ([PieceOf(rs[0], stream)] + rest)[1..] == rest;
      }
    }
  }

  // Field by field: each record of the range gives one piece with its time,
  // its data and the number of its stream.
  lemma {:induction false} WithinCounts(
    second: Clock, first: nat, last: nat, stream: nat, rs: seq<Record>, time: u64, data: seq<byte>, k: nat)
    ensures multiset(Within(second, first, last, stream, rs))[Piece(time, data, k)] ==
      if k == stream && first <= second(time) <= last && second(time) != 0 then multiset(rs)[Record(time, data)] else 0
  {
    if rs != [] {
      WithinCounts(second, first, last, stream, rs[1..], time, data, k);
      assert rs == [rs[0]] + rs[1..];
    }
  }

  // The seconds of the accepted pieces are the seconds there are buckets for.
  lemma {:induction false} HasSecond(second: Clock, ps: seq<Piece>, p: Piece)
    requires p in ps
    ensures p in OfSecond(second, ps, second(p.time))
  {
    if p != ps[0] { HasSecond(second, ps[1..], p); }
  }

  ghost predicate InTime(ps: seq<Piece>) {
    forall i, j :: 0 <= i < j < |ps| ==> ps[i].time <= ps[j].time
  }

  // The same for pieces of one second only, in the order they came in.
  ghost predicate InTimeWithin(second: Clock, ps: seq<Piece>) {
    forall i, j :: 0 <= i < j < |ps| && second(ps[i].time) == second(ps[j].time) ==> ps[i].time <= ps[j].time
  }

  ghost predicate InTimeAt(second: Clock, ps: seq<Piece>, s: nat) {
    forall i, j :: 0 <= i < j < |ps| && second(ps[i].time) == s && second(ps[j].time) == s ==> ps[i].time <= ps[j].time
  }

  ghost predicate NotBefore(a: seq<Piece>, b: seq<Piece>) {
    forall x <- a, y <- b :: x.time <= y.time
  }

  lemma InTimeConcat(a: seq<Piece>, b: seq<Piece>)
    ensures InTime(a + b) <==> InTime(a) && InTime(b) && NotBefore(a, b)
  {
    var c := a + b;
    if InTime(c) {
      assert forall i :: 0 <= i < |a| ==> c[i] == a[i];
      assert forall i :: 0 <= i < |b| ==> c[|a| + i] == b[i];
      forall x <- a, y <- b ensures x.time <= y.time {
        var i :| 0 <= i < |a| && a[i] == x;
        var j :| 0 <= j < |b| && b[j] == y;
        assert c[i].time <= c[|a| + j].time;
      }
    }
  }

  lemma {:induction false} OfSecondHas(second: Clock, ps: seq<Piece>, s: nat, p: Piece)
    ensures p in OfSecond(second, ps, s) <==> p in ps && second(p.time) == s
  {
    if ps != [] { OfSecondHas(second, ps[1..], s, p); }
  }

  lemma InTimeAtFirst(second: Clock, ps: seq<Piece>, s: nat)
    requires ps != []
    ensures InTimeAt(second, ps, s) <==>
      InTimeAt(second, ps[1..], s) &&
      (second(ps[0].time) == s ==> forall q <- ps[1..] :: second(q.time) == s ==> ps[0].time <= q.time)
  {
    if InTimeAt(second, ps, s) {
      forall q <- ps[1..] | second(ps[0].time) == s && second(q.time) == s ensures ps[0].time <= q.time {
        var j :| 0 <= j < |ps| - 1 && ps[1..][j] == q;
        assert ps[j + 1] == q;
      }
    } else {
      var i, j :| 0 <= i < j < |ps| && second(ps[i].time) == s && second(ps[j].time) == s && ps[i].time > ps[j].time;
      assert ps[j] == ps[1..][j - 1] && ps[j] in ps[1..];
      if i > 0 { assert ps[i] == ps[1..][i - 1]; }
    }
  }

  // The pieces of a second are in order of time as they came in.
  lemma {:induction false} OfSecondInTime(second: Clock, ps: seq<Piece>, s: nat)
    ensures InTime(OfSecond(second, ps, s)) <==> InTimeAt(second, ps, s)
  {
    hide InTime, InTimeAt;
    if ps == [] {
      assert InTime([]) && InTimeAt(second, [], s) by { NothingInTime(second, s); }
    } else {
      var rest := OfSecond(second, ps[1..], s);
      OfSecondInTime(second, ps[1..], s);
      InTimeAtFirst(second, ps, s);
      if second(ps[0].time) == s {
        InTimeConcat([ps[0]], rest);
        OneInTime(ps[0]);
        forall q: Piece ensures q in rest <==> q in ps[1..] && second(q.time) == s {
          OfSecondHas(second, ps[1..], s, q);
        }
      } else {
        AppendNothing(rest);
      }
    }
  }

  lemma NothingInTime(second: Clock, s: nat)
    ensures InTime([]) && InTimeAt(second, [], s)
  {
  }

  lemma OneInTime(p: Piece)
    ensures InTime([p])
  {
  }

  lemma {:induction false} GroupedHas(second: Clock, ps: seq<Piece>, keys: seq<nat>, p: Piece)
    requires p in Grouped(second, ps, keys)
    ensures p in ps && second(p.time) in keys
  {
    hide OfSecond;
    var n := |keys| - 1;
    if p in OfSecond(second, ps, keys[n]) {
      OfSecondHas(second, ps, keys[n], p);
    } else {
      GroupedHas(second, ps, keys[..n], p);
    }
  }

  // Earlier seconds come first, so only the order inside a second matters.
  lemma {:induction false} GroupedInTime(second: Clock, ps: seq<Piece>, keys: seq<nat>)
    requires MonotoneClock(second) && Ascending(keys)
    ensures InTime(Grouped(second, ps, keys)) <==> forall k <- keys :: InTimeAt(second, ps, k)
  {
    hide InTime, InTimeAt, OfSecond;
    if keys == [] {
      NothingInTime(second, 0);
    } else {
      var n := |keys| - 1;
      var front, last := Grouped(second, ps, keys[..n]), OfSecond(second, ps, keys[n]);
      GroupedInTime(second, ps, keys[..n]);
      OfSecondInTime(second, ps, keys[n]);
      InTimeConcat(front, last);
      forall x <- front, y <- last ensures x.time <= y.time {
        GroupedHas(second, ps, keys[..n], x);
        OfSecondHas(second, ps, keys[n], y);
        assert second(x.time) < second(y.time);
      }
      assert keys == keys[..n] + [keys[n]];
    }
  }

  // MAIN: the output is in the order of its time stamps if and only if, for
  // every second, the pieces of that second came in that order.
  lemma OutputInTimeIff(second: Clock, ps: seq<Piece>, keys: seq<nat>)
    requires MonotoneClock(second) && Ascending(keys) && forall p <- ps :: second(p.time) in keys
    ensures InTime(Grouped(second, ps, keys)) <==> InTimeWithin(second, ps)
  {
    GroupedInTime(second, ps, keys);
    if InTimeWithin(second, ps) {
      assert forall k <- keys :: InTimeAt(second, ps, k);
    } else {
      var i, j :| 0 <= i < j < |ps| && second(ps[i].time) == second(ps[j].time) && ps[i].time > ps[j].time;
      assert ps[i] in ps && !InTimeAt(second, ps, second(ps[i].time));
    }
  }

  // MAIN: what save has written after any number of addRecords calls.
  lemma SaveOutput(c: StreamsCombiner, batches: seq<seq<Piece>>, keys: seq<nat>)
    requires c.Valid() && Ascending(keys) && (forall k: nat :: k in keys <==> k in c.seconds)
    requires Flat(batches) == Grouped(c.second, c.accepted, keys)
    ensures multiset(Flat(batches)) == multiset(c.accepted) && |Flat(batches)| == |c.accepted|
    ensures forall j: nat :: BySecond(c.second, OfStream(c.accepted, j)) ==>
      OfStream(Flat(batches), j) == OfStream(c.accepted, j)
    ensures MonotoneClock(c.second) ==> (InTime(Flat(batches)) <==> InTimeWithin(c.second, c.accepted))
  {
    hide OfSecond, Numbered, Grouped, Flat, BySecond, OfStream, InTime, InTimeWithin, MonotoneClock;
    forall p <- c.accepted ensures c.second(p.time) in keys {
      HasSecond(c.second, c.accepted, p);
      assert In(c.seconds, c.second(p.time)) == OfSecond(c.second, c.accepted, c.second(p.time));
    }
    Conserved(c.second, c.accepted, keys);
    forall j: nat | BySecond(c.second, OfStream(c.accepted, j))
      ensures OfStream(Flat(batches), j) == OfStream(c.accepted, j)
    {
      StreamOrderKept(c.second, c.accepted, keys, j);
    }
    if MonotoneClock(c.second) { OutputInTimeIff(c.second, c.accepted, keys); }
  }

  // A stream as it comes from a query: its channel and its records.
  datatype Input = Input(channel: string, records: seq<Record>)

  // Channels are numbered in the order they first appear.
  function Numbering(inputs: seq<Input>): map<string, nat> {
    if inputs == [] then map[]
    else
      var before := Numbering(inputs[..|inputs| - 1]);
      var c := inputs[|inputs| - 1].channel;
      if c in before then before else before[c := |before|]
  }

  lemma {:induction false} NumberingHas(inputs: seq<Input>, i: nat)
    requires i < |inputs|
    ensures inputs[i].channel in Numbering(inputs)
  {
    var n := |inputs| - 1;
    if i < n { NumberingHas(inputs[..n], i); }
  }

  function AllWithin(second: Clock, first: nat, last: nat, inputs: seq<Input>): seq<Piece> {
    if inputs == [] then []
    else
      NumberingHas(inputs, |inputs| - 1);
      var x := inputs[|inputs| - 1];
      AllWithin(second, first, last, inputs[..|inputs| - 1]) +
        Within(second, first, last, Numbering(inputs)[x.channel], x.records)
  }

  // How often a record comes in under a channel.
  function Given(inputs: seq<Input>, channel: string, r: Record): nat {
    if inputs == [] then 0
    else
      var x := inputs[|inputs| - 1];
      Given(inputs[..|inputs| - 1], channel, r) + if x.channel == channel then multiset(x.records)[r] else 0
  }

  ghost predicate Extends(numbers: map<string, nat>, inputs: seq<Input>) {
    && (forall c <- Numbering(inputs) :: c in numbers && numbers[c] == Numbering(inputs)[c])
    && forall c <- numbers, d <- numbers :: numbers[c] == numbers[d] ==> c == d
  }

  function ChannelsOf(inputs: seq<Input>): set<string> {
    set x <- inputs :: x.channel
  }

  lemma {:induction false} NumberedChannels(inputs: seq<Input>)
    ensures Numbering(inputs).Keys == ChannelsOf(inputs)
    ensures |Numbering(inputs)| == |ChannelsOf(inputs)|
  {
    if inputs != [] {
      var n := |inputs| - 1;
      NumberedChannels(inputs[..n]);
      assert inputs == inputs[..n] + [inputs[n]];
      assert ChannelsOf(inputs) == ChannelsOf(inputs[..n]) + {inputs[n].channel};
    }
    assert |Numbering(inputs)| == |Numbering(inputs).Keys|;
  }

  // A channel gets its number when it first appears: how many there are
  // before it.
  lemma {:induction false} NumberingIs(inputs: seq<Input>, i: nat)
    requires i < |inputs| && inputs[i].channel !in ChannelsOf(inputs[..i])
    ensures inputs[i].channel in Numbering(inputs)
    ensures Numbering(inputs)[inputs[i].channel] == |ChannelsOf(inputs[..i])|
  {
    hide ChannelsOf;
    var n := |inputs| - 1;
    NumberedChannels(inputs[..n]);
    if i < n {
      assert inputs[..n][..i] == inputs[..i];
      NumberingIs(inputs[..n], i);
    }
  }

  lemma {:induction false} AllWithinCounts(
    second: Clock, first: nat, last: nat, inputs: seq<Input>, numbers: map<string, nat>, channel: string, r: Record)
    requires Extends(numbers, inputs) && channel in numbers
    ensures multiset(AllWithin(second, first, last, inputs))[Piece(r.time, r.payload, numbers[channel])] ==
      if first <= second(r.time) <= last && second(r.time) != 0 then Given(inputs, channel, r) else 0
  {
    if inputs != [] {
      var n := |inputs| - 1;
      var before, x := inputs[..n], inputs[n];
      NumberingHas(inputs, n);
      AllWithinCounts(second, first, last, before, numbers, channel, r);
      WithinCounts(second, first, last, Numbering(inputs)[x.channel], x.records, r.time, r.payload, numbers[channel]);
    }
  }

  lemma {:induction false} AllWithinNumbered(
    second: Clock, first: nat, last: nat, inputs: seq<Input>, numbers: map<string, nat>, p: Piece)
    requires Extends(numbers, inputs) && p in AllWithin(second, first, last, inputs)
    ensures exists c <- numbers :: numbers[c] == p.stream
  {
    var n := |inputs| - 1;
    var before, x := inputs[..n], inputs[n];
    NumberingHas(inputs, n);
    if p in AllWithin(second, first, last, before) {
      AllWithinNumbered(second, first, last, before, numbers, p);
    } else {
      var k := Numbering(inputs)[x.channel];
      WithinCounts(second, first, last, k, x.records, p.time, p.data, p.stream);
      assert p == Piece(p.time, p.data, p.stream) && numbers[x.channel] == k;
    }
  }

  // One addRecords call for each stream.
  method AddStreams(c: StreamsCombiner, inputs: seq<Input>)
    requires c.Valid() && c.indices == map[] && c.accepted == []
    requires MonotoneClock(c.second) && forall x <- inputs :: InOrder(x.records)
    modifies c
    ensures c.Valid() && c.indices == Numbering(inputs)
    ensures c.accepted == AllWithin(c.second, c.firstSecond, c.lastSecond, inputs)
  {
    hide Within, Picked, Timed, Numbered, MonotoneClock, OfSecond;
    var i := 0;
    while i < |inputs|
      invariant 0 <= i <= |inputs| && c.Valid()
      invariant c.indices == Numbering(inputs[..i])
      invariant c.accepted == AllWithin(c.second, c.firstSecond, c.lastSecond, inputs[..i])
    {
      var x := inputs[i];
      assert inputs[..i + 1][..i] == inputs[..i];
      c.AddRecords(x.channel, x.records);
      SortedLosesNothing(c.second, c.firstSecond, c.lastSecond, c.indices[x.channel], x.records);
      i := i + 1;
    }
    assert inputs[..|inputs|] == inputs;
  }

  // MAIN: combining streams that are each sorted by time: the batches are the
  // ascending seconds, they hold exactly the records of the range - those of
  // second 0 excepted - each as often as it came in, and size is their number.
  // The whole output is in the order of its time stamps exactly when the
  // records that fall into one second come in that order, stream after stream.
  method Combine(second: Clock, start: u64, end: u64, inputs: seq<Input>)
    returns (batches: seq<seq<Piece>>, size: nat, indices: map<string, nat>, ghost keys: seq<nat>)
    requires MonotoneClock(second) && forall x <- inputs :: InOrder(x.records)
    ensures indices == Numbering(inputs) && Numbered(indices)
    ensures multiset(Flat(batches)) == multiset(AllWithin(second, second(start), second(end), inputs))
    ensures forall c <- indices, r: Record ::
      multiset(Flat(batches))[Piece(r.time, r.payload, indices[c])] ==
      if second(start) <= second(r.time) <= second(end) && second(r.time) != 0 then Given(inputs, c, r) else 0
    ensures forall p <- Flat(batches) :: exists c <- indices :: indices[c] == p.stream
    ensures size == |AllWithin(second, second(start), second(end), inputs)| == |Flat(batches)|
    ensures Ascending(keys) && |batches| == |keys|
    ensures forall i :: 0 <= i < |keys| ==> forall p <- batches[i] :: second(p.time) == keys[i]
    ensures forall i :: 0 <= i < |keys| ==>
      batches[i] == OfSecond(second, AllWithin(second, second(start), second(end), inputs), keys[i])
    ensures InTime(Flat(batches)) <==> InTimeWithin(second, AllWithin(second, second(start), second(end), inputs))
  {
    hide InTime, InTimeWithin, OfSecond, Flat, Grouped, Within, Picked, Timed, Numbered, MonotoneClock, Given,
         Ascending;
    var c := new StreamsCombiner(second, start, end);
    AddStreams(c, inputs);
    indices := c.indices;
    batches, size, keys := c.Save();
    SaveOutput(c, batches, keys);
    CombinedPieces(second, second(start), second(end), inputs, Flat(batches));
    BatchSeconds(second, c.accepted, keys, batches);
  }

  lemma BatchSeconds(second: Clock, ps: seq<Piece>, keys: seq<nat>, batches: seq<seq<Piece>>)
    requires |batches| == |keys| && forall i :: 0 <= i < |keys| ==> batches[i] == OfSecond(second, ps, keys[i])
    ensures forall i :: 0 <= i < |keys| ==> forall p <- batches[i] :: second(p.time) == keys[i]
  {
    forall i | 0 <= i < |keys| ensures forall p <- batches[i] :: second(p.time) == keys[i] {
      forall p <- batches[i] ensures second(p.time) == keys[i] {
        OfSecondHas(second, ps, keys[i], p);
      }
    }
  }

  lemma CombinedPieces(second: Clock, first: nat, last: nat, inputs: seq<Input>, out: seq<Piece>)
    requires Numbered(Numbering(inputs)) && multiset(out) == multiset(AllWithin(second, first, last, inputs))
    ensures forall c <- Numbering(inputs), r: Record ::
      multiset(out)[Piece(r.time, r.payload, Numbering(inputs)[c])] ==
      if first <= second(r.time) <= last && second(r.time) != 0 then Given(inputs, c, r) else 0
    ensures forall p <- out :: exists c <- Numbering(inputs) :: Numbering(inputs)[c] == p.stream
  {
    hide AllWithin, Given;
    var numbers := Numbering(inputs);
    assert Extends(numbers, inputs);
    forall c <- numbers, r: Record
      ensures multiset(out)[Piece(r.time, r.payload, numbers[c])] ==
        if first <= second(r.time) <= last && second(r.time) != 0 then Given(inputs, c, r) else 0
    {
      AllWithinCounts(second, first, last, inputs, numbers, c, r);
    }
    forall p <- out ensures exists c <- numbers :: numbers[c] == p.stream {
      assert p in multiset(out);
      AllWithinNumbered(second, first, last, inputs, numbers, p);
    }
  }

  // Two streams of one record each, both in the same second, the later record
  // in the stream that is added first.
  function LaterFirst(early: Record, late: Record): seq<Input> {
    [Input("a", [late]), Input("b", [early])]
  }

  lemma LaterFirstPieces(second: Clock, a: nat, b: nat, early: Record, late: Record)
    requires a <= second(early.time) == second(late.time) <= b && second(early.time) != 0
    ensures AllWithin(second, a, b, LaterFirst(early, late)) == [PieceOf(late, 0), PieceOf(early, 1)]
  {
    var inputs := LaterFirst(early, late);
    assert inputs[..1] == [inputs[0]] && inputs[..1][..0] == [];
    assert Numbering([inputs[0]]) == map["a" := 0];
    assert Numbering(inputs) == map["a" := 0, "b" := 1];
    assert Within(second, a, b, 0, [late]) == [PieceOf(late, 0)] &&
      Within(second, a, b, 1, [early]) == [PieceOf(early, 1)];
    assert AllWithin(second, a, b, [inputs[0]]) == [PieceOf(late, 0)];
  }

  // Each stream is sorted, and what comes out is not.
  method CombinedOutOfTime(second: Clock, start: u64, end: u64, early: Record, late: Record)
    returns (batches: seq<seq<Piece>>, size: nat)
    requires MonotoneClock(second)
    requires start <= early.time < late.time <= end && second(early.time) == second(late.time) != 0
    ensures forall x <- LaterFirst(early, late) :: InOrder(x.records)
    ensures size == 2 && !InTime(Flat(batches))
    ensures multiset(Flat(batches)) ==
      multiset{Piece(late.time, late.payload, 0), Piece(early.time, early.payload, 1)}
  {
    ghost var keys;
    var indices;
    LaterFirstPieces(second, second(start), second(end), early, late);
    ghost var ps := AllWithin(second, second(start), second(end), LaterFirst(early, late));
    assert ps[0].time == late.time && ps[1].time == early.time;
    batches, size, indices, keys := Combine(second, start, end, LaterFirst(early, late));
  }
}
