// Names and times of stored segments: base names pair their files, and the
// records of a file are in order and never later than what is still to come.
module Punctuality {
  import opened Bytes
  import opened Layout
  import opened Segments
  import opened FileNames
  import opened FreshNames
  import opened WriterSpec
  import opened WriterRuns
  import opened StorageSpec
  import opened Ledgers

  // Requests within the limits of the format: a payload whose result fits an
  // int, a time stamp that is not the error value, a channel name that does
  // not break the pairing of files.
  ghost predicate Storable(q: Request) {
    Fits(q.data) && q.time != 0 && Plain(q.channel)
  }

  // Time stamps never decrease within a channel; across channels anything goes.
  ghost predicate Orderly(reqs: seq<Request>) {
    forall i, j :: 0 <= i < j < |reqs| && reqs[i].channel == reqs[j].channel ==> reqs[i].time <= reqs[j].time
  }

  ghost predicate PlainClock(clock: u64 -> string) {
    forall t: u64 :: '.' !in clock(t)
  }

  lemma {:induction false} DecimalPlain(n: nat)
    ensures '.' !in Decimal(n)
  {
    if n >= 10 { DecimalPlain(n / 10); }
  }

  lemma PlainBetween(a: string, c: string, z: string)
    requires '.' !in a && Plain(c) && '.' !in z
    ensures Plain(a + "_" + c + "_" + z)
  {
    var s := a + "_" + c + "_" + z;
    var m := |a| + 1;
    assert IDX[0] == '.' && forall k :: 0 <= k < 4 ==> IDX[k] != '_';
    forall i: nat ensures !Occurs(s, IDX, i) {
      if i + 4 <= |s| && s[i] == '.' {
        assert m <= i < m + |c|;
        if i + 4 <= m + |c| {
          assert s[i..i + 4] == c[i - m..i - m + 4];
          assert !Occurs(c, IDX, i - m);
        } else {
          var k := m + |c| - i;
          assert s[i..i + 4][k] == '_' && IDX[k] != '_';
        }
      } else if i + 4 <= |s| {
        assert s[i..i + 4][0] != '.';
      }
    }
  }

  // Base names of a plain channel pair their files.
  lemma NamedPlain(clock: u64 -> string, channel: string, b: string)
    requires PlainClock(clock) && Plain(channel) && NamedFor(clock, channel, b)
    ensures Plain(b) && b != ""
  {
    var time: u64, size: u32, suffix: nat :| b == Name(clock, channel, time, size, suffix);
    DecimalPlain(size);
    DecimalPlain(suffix);
    if suffix == 0 {
      PlainBetween(clock(time), channel, Decimal(size));
    } else {
      var z := Decimal(size) + "_" + Decimal(suffix);
      PlainBetween(clock(time), channel, z);
      assert clock(time) + "_" + channel + "_" + Decimal(size) + "_" + Decimal(suffix) ==
        clock(time) + "_" + channel + "_" + z;
    }
  }

  // The segment of base b on day d, with the requests of rest still to come.
  ghost predicate Punctual(cal: Calendar, d: nat, b: string, s: Segment, rest: seq<Request>) {
    && Plain(b) && b != ""
    && InOrder(s.records)
    && (forall r <- s.records :: r.time != 0 && cal.dayOf(r.time) == d)
    && (forall q <- rest, r <- s.records :: q.channel == s.channel ==> r.time <= q.time)
  }

  ghost predicate ShelfPunctual(cal: Calendar, d: nat, shelf: Shelf, rest: seq<Request>) {
    forall b <- shelf :: Punctual(cal, d, b, shelf[b], rest)
  }

  lemma PunctualRest(cal: Calendar, d: nat, b: string, s: Segment, req: Request, rest: seq<Request>)
    requires Punctual(cal, d, b, s, [req] + rest)
    ensures Punctual(cal, d, b, s, rest)
  {
    forall q <- rest ensures q in [req] + rest {}
  }

  // The next request of the segment's channel joins in order.
  lemma PunctualExtend(cal: Calendar, b: string, s: Segment, req: Request, rest: seq<Request>)
    requires Punctual(cal, cal.dayOf(req.time), b, s, [req] + rest)
    requires Orderly([req] + rest) && req.time != 0 && s.channel == req.channel
    ensures Punctual(cal, cal.dayOf(req.time), b, Extend(s, Record(req.time, req.data)), rest)
  {
    var all := [req] + rest;
    assert req in all;
    forall q <- rest ensures q in all && (q.channel == req.channel ==> req.time <= q.time) {
      var i :| 0 <= i < |rest| && rest[i] == q;
      assert all[0] == req && all[i + 1] == q;
    }
  }

  lemma PunctualStart(cal: Calendar, d: nat, b: string, channel: string, size: u32, time: u64, rest: seq<Request>)
    requires PlainClock(cal.clock) && Plain(channel) && NamedFor(cal.clock, channel, b)
    ensures Punctual(cal, d, b, Segment(channel, size, time, []), rest)
  {
    NamedPlain(cal.clock, channel, b);
  }

  lemma ShelfPunctualRest(cal: Calendar, d: nat, shelf: Shelf, req: Request, rest: seq<Request>)
    requires ShelfPunctual(cal, d, shelf, [req] + rest)
    ensures ShelfPunctual(cal, d, shelf, rest)
  {
    hide Punctual;
    forall b <- shelf ensures Punctual(cal, d, b, shelf[b], rest) {
      PunctualRest(cal, d, b, shelf[b], req, rest);
    }
  }

  lemma StartedPunctual(cal: Calendar, d: nat, shelf: Shelf, b: string, channel: string, size: u32, time: u64,
      rest: seq<Request>)
    requires PlainClock(cal.clock) && Plain(channel) && NamedFor(cal.clock, channel, b)
    requires ShelfPunctual(cal, d, shelf, rest)
    ensures ShelfPunctual(cal, d, Started(shelf, b, channel, size, time), rest)
  {
    hide Punctual;
    PunctualStart(cal, d, b, channel, size, time, rest);
  }

  lemma GrownPunctual(cal: Calendar, shelf: Shelf, b: string, req: Request, rest: seq<Request>)
    requires ShelfPunctual(cal, cal.dayOf(req.time), shelf, [req] + rest) && b in shelf &&
      shelf[b].channel == req.channel
    requires Orderly([req] + rest) && req.time != 0
    ensures ShelfPunctual(cal, cal.dayOf(req.time), Grown(shelf, b, Record(req.time, req.data)), rest)
  {
    hide Punctual, Extend;
    ShelfPunctualRest(cal, cal.dayOf(req.time), shelf, req, rest);
    assert Punctual(cal, cal.dayOf(req.time), b, shelf[b], [req] + rest);
    PunctualExtend(cal, b, shelf[b], req, rest);
  }

  // A request keeps the shelf of its day punctual.
  lemma NextPunctual(cal: Calendar, shelf: Shelf, w: WriterState, req: Request, rest: seq<Request>, result: int)
    requires ShelfPunctual(cal, cal.dayOf(req.time), shelf, [req] + rest)
    requires Orderly([req] + rest) && Storable(req) && PlainClock(cal.clock) && w.channel == req.channel
    requires result > 0 ==>
      if Place(w) in shelf then shelf[Place(w)].channel == req.channel else NamedFor(cal.clock, req.channel, Place(w))
    ensures ShelfPunctual(cal, cal.dayOf(req.time), NextShelf(shelf, w, req.time, req.data, result), rest)
  {
    hide ShelfPunctual, NamedFor, Orderly, Plain, PlainClock, Extend;
    var b := Place(w);
    ShelfPunctualRest(cal, cal.dayOf(req.time), shelf, req, rest);
    if result > 0 && b in shelf {
      GrownPunctual(cal, shelf, b, req, rest);
    } else if result > 0 {
      StartedPunctual(cal, cal.dayOf(req.time), shelf, b, w.channel, w.recordSize, req.time, [req] + rest);
      GrownPunctual(cal, Started(shelf, b, w.channel, w.recordSize, req.time), b, req, rest);
    }
  }
}
