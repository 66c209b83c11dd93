// TcpSocket's framing: a 32-bit length, then the payload, over calls that may
// transfer any part of a buffer, be interrupted, or fail.
module Framing {
  import opened Bytes
  import opened Sequences

  // What one send or recv call does: transfer up to n bytes (none: the peer
  // has closed), fail with EINTR, or fail otherwise.
  datatype Outcome = Transfer(n: nat) | Interrupted | Failed

  const HEAD: nat := 4
  const EINTR: int := 4
  const ECONNRESET: int := 104

  function Frame(p: seq<byte>): (f: seq<byte>)
    ensures |f| == HEAD + |p|
  {
    LE(|p|, HEAD) + p
  }

  function Least(a: nat, b: nat): nat {
    if a < b then a else b
  }

  // The outcomes of a connection, in order; past the end every call fails.
  function First(script: seq<Outcome>): Outcome {
    if script == [] then Failed else script[0]
  }

  function Rest(script: seq<Outcome>): seq<Outcome> {
    if script == [] then [] else script[1..]
  }

  // Sending b: how much of it gets out, whether that is all of it, and what
  // is left of the script.
  function Sending(script: seq<Outcome>, b: seq<byte>): (nat, bool, seq<Outcome>)
    decreases |script|
  {
    if b == [] then (0, true, script)
    else
      match First(script)
      case Interrupted => Sending(Rest(script), b)
      case Failed => (0, false, Rest(script))
      case Transfer(n) =>
        var k := Least(n, |b|);
        if k == 0 then (0, false, Rest(script))
        else
          var (m, ok, rest) := Sending(Rest(script), b[k..]);
          (k + m, ok, rest)
  }

  // Receiving exactly n bytes of what is coming in: what is delivered, and
  // whether that is all, and what is left of script and input.
  function Receiving(script: seq<Outcome>, coming: seq<byte>, n: nat): (seq<byte>, bool, seq<Outcome>, seq<byte>)
    decreases |script|
  {
    if n == 0 then ([], true, script, coming)
    else
      match First(script)
      case Interrupted => Receiving(Rest(script), coming, n)
      case Failed => ([], false, Rest(script), coming)
      case Transfer(x) =>
        var k := Least(Least(x, n), |coming|);
        if k == 0 then ([], false, Rest(script), coming)
        else
          var (b, ok, rest, left) := Receiving(Rest(script), coming[k..], n - k);
          (coming[..k] + b, ok, rest, left)
  }

  // One read of a frame; empty in case of any error.
  function ReadFrame(script: seq<Outcome>, coming: seq<byte>): (seq<byte>, seq<Outcome>, seq<byte>) {
    var (head, headed, rest, left) := Receiving(script, coming, HEAD);
    if !headed || |head| != HEAD then ([], rest, left)
    else
      var (body, ok, rest', left') := Receiving(rest, left, Load32(head));
      (if ok then body else [], rest', left')
  }

  class Connection {
    var script: seq<Outcome>
    var wire: seq<byte>               // sent and accepted by the network
    var coming: seq<byte>             // sent by the peer and not received yet
    var errno: int

    constructor (script: seq<Outcome>, coming: seq<byte>)
      ensures this.script == script && this.coming == coming && wire == []
    {
      this.script, this.coming, wire, errno := script, coming, [], 0;
    }

    // ::send; -1 on errors
    method Send(b: seq<byte>) returns (r: int)
      requires b != []
      modifies this`script, this`wire, this`errno
      ensures script == Rest(old(script))
      ensures match First(old(script))
        case Interrupted => r == -1 && errno == EINTR && wire == old(wire)
        case Failed => r == -1 && errno != EINTR && wire == old(wire)
        case Transfer(n) => r == Least(n, |b|) && wire == old(wire) + b[..r]
    {
      match First(script) {
        case Interrupted => r, errno := -1, EINTR;
        case Failed => r, errno := -1, ECONNRESET;
        case Transfer(n) =>
          r := Least(n, |b|);
          wire := wire + b[..r];
      }
      script := Rest(script);
    }

    // ::recv of at most n bytes
    method Recv(n: nat) returns (r: int, b: seq<byte>)
      requires n > 0
      modifies this`script, this`coming, this`errno
      ensures script == Rest(old(script))
      ensures match First(old(script))
        case Interrupted => r == -1 && errno == EINTR && coming == old(coming)
        case Failed => r == -1 && errno != EINTR && coming == old(coming)
        case Transfer(x) =>
          r == Least(Least(x, n), |old(coming)|) && b == old(coming)[..r] && coming == old(coming)[r..]
    {
      b := [];
      match First(script) {
        case Interrupted => r, errno := -1, EINTR;
        case Failed => r, errno := -1, ECONNRESET;
        case Transfer(x) =>
          r := Least(Least(x, n), |coming|);
          b, coming := coming[..r], coming[r..];
      }
      script := Rest(script);
    }

    method SendData(data: seq<byte>) returns (ok: bool)
      modifies this`script, this`wire, this`errno
      ensures |data| >= TWO32 ==> !ok && wire == old(wire) && script == old(script)
      ensures |data| < TWO32 ==>
        var (m, all, rest) := Sending(old(script), Frame(data));
        m <= |Frame(data)| && ok == all && script == rest && wire == old(wire) + Frame(data)[..m]
    {
      if |data| > TWO32 - 1 {
        return false;
      }
      hide Frame, LE;
      var buffer := Frame(data);
      var sent := 0;
      SendingBound(script, buffer);
      assert buffer[0..] == buffer && old(wire) + [] == old(wire);
      while sent < |buffer|
        invariant 0 <= sent <= |buffer| && wire == old(wire) + buffer[..sent]
        invariant var (m, all, rest) := Sending(script, buffer[sent..]);
          Sending(old(script), buffer) == (sent + m, all, rest)
        decreases |script|, |buffer| - sent
      {
        var left := buffer[sent..];
        var result := Send(left);
        if result > 0 {
          NextChunk(old(wire), buffer, sent, result);
          sent := sent + result;
          continue;
        }
        if result < 0 && errno == EINTR {
          continue;
        }
        return false;
      }
      assert buffer[sent..] == [];
      return true;
    }

    // Exactly n bytes, or fewer and !ok: the loop that readData runs for the
    // header and again for the payload.
    method Load(n: nat) returns (b: seq<byte>, ok: bool)
      modifies this`script, this`coming, this`errno
      ensures (b, ok, script, coming) == Receiving(old(script), old(coming), n)
      ensures ok ==> |b| == n
    {
      b, ok := [], true;
      AppendNothing(Receiving(script, coming, n).0);
      while |b| < n
        invariant |b| <= n
        invariant var (more, all, rest, left) := Receiving(script, coming, n - |b|);
          Receiving(old(script), old(coming), n) == (b + more, all, rest, left)
        decreases |script|, n - |b|
      {
        ghost var ahead := Receiving(script, coming, n - |b|);
        ghost var behind := b;
        var received, piece := Recv(n - |b|);
        if received > 0 {
          b := b + piece;
          Reassociate(behind, piece, Receiving(script, coming, n - |b|).0);
          continue;
        }
        if received < 0 && errno == EINTR {
          continue;
        }
        AppendNothing(b);
        return b, false;
      }
      AppendNothing(b);
    }

    method ReadData() returns (result: seq<byte>)
      modifies this`script, this`coming, this`errno
      ensures (result, script, coming) == ReadFrame(old(script), old(coming))
    {
      var header, headed := Load(HEAD);
      if !headed {
        return [];
      }
      var payloadSize := Load32(header);
      var buffer, loaded := Load(payloadSize);
      if !loaded {
        return [];
      }
      return buffer;
    }
  }

  lemma NextChunk(before: seq<byte>, b: seq<byte>, i: nat, k: nat)
    requires i + k <= |b|
    ensures before + b[..i] + b[i..][..k] == before + b[..i + k] && b[i..][k..] == b[i + k..]
  {
  }

  lemma {:induction false} SendingBound(script: seq<Outcome>, b: seq<byte>)
    ensures var (m, ok, _) := Sending(script, b); m <= |b| && (ok <==> m == |b|)
    decreases |script|
  {
    if b != [] && script != [] {
      match script[0] {
        case Interrupted => SendingBound(script[1..], b);
        case Failed =>
        case Transfer(n) =>
          if n > 0 { SendingBound(script[1..], b[Least(n, |b|)..]); }
      }
    }
  }

  // A call that ends a transfer: an error other than EINTR, or nothing moved.
  predicate Stops(o: Outcome) {
    o.Failed? || (o.Transfer? && o.n == 0)
  }

  // What the calls of a script could move.
  function Moved(script: seq<Outcome>): nat {
    if script == [] then 0
    else
      var n := |script| - 1;
      Moved(script[..n]) + match script[n] case Transfer(k) => k case _ => 0
  }

  lemma {:induction false} MovedFirst(script: seq<Outcome>)
    requires script != []
    ensures Moved(script) == Moved(script[1..]) + match script[0] case Transfer(k) => k case _ => 0
  {
    var n := |script| - 1;
    if n > 0 {
      MovedFirst(script[..n]);
      assert script[..n][1..] == script[1..][..n - 1];
    } else {
      assert script[1..] == [] && script[..0] == [];
    }
  }

  // A send that has used up n calls: all up to the first one that stops it,
  // or up to the last byte.
  ghost predicate SentBy(script: seq<Outcome>, b: seq<byte>, n: nat)
    requires n <= |script|
  {
    var (m, ok, rest) := Sending(script, b);
    && rest == script[n..]
    && m == Least(Moved(script[..n]), |b|)
    && (forall i :: 0 <= i < n - 1 ==> !Stops(script[i]))
    && (ok <==> |b| <= Moved(script[..n]))
    && (!ok ==> n == |script| || (n > 0 && Stops(script[n - 1])))
    && (n > 0 && Stops(script[n - 1]) ==> !ok)
  }

  lemma SentNext(script: seq<Outcome>, b: seq<byte>, k: nat, j: nat)
    requires script != [] && b != [] && !Stops(script[0]) && j <= |script| - 1
    requires k == if script[0].Transfer? then Least(script[0].n, |b|) else 0
    requires SentBy(script[1..], b[k..], j)
    ensures SentBy(script, b, j + 1)
  {
    var n := j + 1;
    MovedFirst(script[..n]);
    assert script[1..] == Rest(script) && b[0..] == b;
    assert script[..n][1..] == script[1..][..j] && script[1..][j..] == script[n..];
    assert forall i :: 0 < i < n ==> script[i] == script[1..][i - 1];
    hide Moved, Stops;
  }

  // MAIN: a send uses up the calls to the first one that stops it, or to the
  // last byte, and moves exactly what they let through.
  lemma {:induction false} SendingStops(script: seq<Outcome>, b: seq<byte>) returns (n: nat)
    ensures n <= |script| && SentBy(script, b, n)
    decreases |script|
  {
    n := 0;
    assert script[0..] == script && script[..0] == [];
    if b != [] && script != [] {
      n := 1;
      assert script[1..] == Rest(script) && script[..1] == [script[0]] && script[..1][..0] == [];
      if !Stops(script[0]) {
        var k := if script[0].Transfer? then Least(script[0].n, |b|) else 0;
        var j := SendingStops(script[1..], b[k..]);
        SentNext(script, b, k, j);
        n := j + 1;
      }
    }
  }

  // A receive that has used up n calls.
  ghost predicate ReceivedBy(script: seq<Outcome>, coming: seq<byte>, size: nat, n: nat)
    requires n <= |script|
  {
    var (got, ok, rest, _) := Receiving(script, coming, size);
    && rest == script[n..]
    && |got| == Least(Moved(script[..n]), Least(size, |coming|))
    && (forall i :: 0 <= i < n - 1 ==> !Stops(script[i]))
    && (ok <==> size <= Moved(script[..n]) && size <= |coming|)
    && (!ok ==> n == |script| || (n > 0 && Stops(script[n - 1])) || |got| == |coming|)
    && (n > 0 && Stops(script[n - 1]) ==> !ok)
  }

  lemma ReceivedNext(script: seq<Outcome>, coming: seq<byte>, size: nat, k: nat, j: nat)
    requires script != [] && size > 0 && !Stops(script[0]) && j <= |script| - 1
    requires k == if script[0].Transfer? then Least(Least(script[0].n, size), |coming|) else 0
    requires (script[0].Transfer? ==> k > 0) && ReceivedBy(script[1..], coming[k..], size - k, j)
    ensures ReceivedBy(script, coming, size, j + 1)
  {
    var n := j + 1;
    MovedFirst(script[..n]);
    assert script[1..] == Rest(script) && coming[0..] == coming;
    assert script[..n][1..] == script[1..][..j] && script[1..][j..] == script[n..];
    assert forall i :: 0 < i < n ==> script[i] == script[1..][i - 1];
    hide Moved, Stops;
  }

  // MAIN: the same for a receive, which also stops where nothing comes in.
  lemma {:induction false} ReceivingStops(script: seq<Outcome>, coming: seq<byte>, size: nat) returns (n: nat)
    ensures n <= |script| && ReceivedBy(script, coming, size, n)
    decreases |script|
  {
    n := 0;
    assert script[0..] == script && script[..0] == [];
    if size > 0 && script != [] {
      n := 1;
      assert script[1..] == Rest(script) && script[..1] == [script[0]] && script[..1][..0] == [];
      var k := if script[0].Transfer? then Least(Least(script[0].n, size), |coming|) else 0;
      if script[0].Interrupted? || k > 0 {
        var j := ReceivingStops(script[1..], coming[k..], size - k);
        ReceivedNext(script, coming, size, k, j);
        n := j + 1;
      }
    }
  }

  // A schedule on which things move: positive transfers and EINTR, with at
  // least n transfers left.
  ghost predicate Lively(script: seq<Outcome>, n: nat) {
    && (forall x <- script :: x.Interrupted? || (x.Transfer? && x.n > 0))
    && n <= Transfers(script)
  }

  function Transfers(script: seq<Outcome>): nat {
    if script == [] then 0 else (if script[0].Transfer? then 1 else 0) + Transfers(script[1..])
  }

  lemma {:induction false} LivelySend(script: seq<Outcome>, b: seq<byte>, extra: nat)
    requires Lively(script, |b| + extra)
    ensures var (m, ok, rest) := Sending(script, b); ok && m == |b| && Lively(rest, extra)
    decreases |script|
  {
    if b != [] {
      match script[0] {
        case Interrupted => LivelySend(script[1..], b, extra);
        case Transfer(n) => LivelySend(script[1..], b[Least(n, |b|)..], extra);
      }
    }
  }

  lemma {:induction false} LivelyReceive(script: seq<Outcome>, b: seq<byte>, tail: seq<byte>, extra: nat)
    requires Lively(script, |b| + extra)
    ensures var (got, ok, rest, left) := Receiving(script, b + tail, |b|);
      got == b && ok && left == tail && Lively(rest, extra)
    decreases |script|
  {
    if b != [] {
      match script[0] {
        case Interrupted => LivelyReceive(script[1..], b, tail, extra);
        case Transfer(x) =>
          var k := Least(x, |b|);
          LivelyReceive(script[1..], b[k..], tail, extra);
          assert (b + tail)[k..] == b[k..] + tail && (b + tail)[..k] == b[..k];
          assert b[..k] + b[k..] == b;
      }
    } else {
      assert b + tail == tail;
    }
  }

  lemma LivelyFrame(script: seq<Outcome>, p: seq<byte>, tail: seq<byte>, extra: nat)
    requires |p| < TWO32 && Lively(script, |Frame(p)| + extra)
    ensures var (got, rest, left) := ReadFrame(script, Frame(p) + tail);
      got == p && left == tail && Lively(rest, extra)
  {
    hide Lively;
    var head := LE(|p|, HEAD);
    LoadStored32(|p|);
    LivelyReceive(script, head, p + tail, |p| + extra);
    Reassociate(head, p, tail);
    LivelyReceive(Receiving(script, head + (p + tail), HEAD).2, p, tail, extra);
  }

  function Frames(ps: seq<seq<byte>>): seq<byte> {
    if ps == [] then [] else Frame(ps[0]) + Frames(ps[1..])
  }

  // Sending ps one after the other until one fails: how many went out, and
  // what is on the wire.
  function SendMany(script: seq<Outcome>, ps: seq<seq<byte>>): (nat, seq<byte>)
    decreases |ps|
  {
    if ps == [] || |ps[0]| >= TWO32 then (0, [])
    else
      var (m, ok, rest) := Sending(script, Frame(ps[0]));
      if !ok then (0, if m <= |Frame(ps[0])| then Frame(ps[0])[..m] else [])
      else
        var (n, wire) := SendMany(rest, ps[1..]);
        (1 + n, Frame(ps[0]) + wire)
  }

  function ReadMany(script: seq<Outcome>, coming: seq<byte>, n: nat): seq<seq<byte>>
    decreases n
  {
    if n == 0 then []
    else
      var (got, rest, left) := ReadFrame(script, coming);
      [got] + ReadMany(rest, left, n - 1)
  }

  lemma {:induction false} LivelySendMany(script: seq<Outcome>, ps: seq<seq<byte>>)
    requires Lively(script, |Frames(ps)|) && forall p <- ps :: |p| < TWO32
    ensures SendMany(script, ps) == (|ps|, Frames(ps))
    decreases |ps|
  {
    if ps != [] {
      LivelySend(script, Frame(ps[0]), |Frames(ps[1..])|);
      LivelySendMany(Sending(script, Frame(ps[0])).2, ps[1..]);
    }
  }

  lemma {:induction false} LivelyReadMany(script: seq<Outcome>, ps: seq<seq<byte>>, tail: seq<byte>)
    requires Lively(script, |Frames(ps)|) && forall p <- ps :: |p| < TWO32
    ensures ReadMany(script, Frames(ps) + tail, |ps|) == ps
    decreases |ps|
  {
    if ps != [] {
      var more := Frames(ps[1..]);
      Reassociate(Frame(ps[0]), more, tail);
      LivelyFrame(script, ps[0], more + tail, |more|);
      LivelyReadMany(ReadFrame(script, Frame(ps[0]) + (more + tail)).1, ps[1..], tail);
      HeadAndTail(ps);
    }
  }

  // MAIN: under every schedule of partial and interrupted calls on both ends,
  // as many reads as sends return the payloads that were sent, in order.
  lemma FramingRoundTrip(ps: seq<seq<byte>>, sending: seq<Outcome>, receiving: seq<Outcome>)
    requires forall p <- ps :: |p| < TWO32
    requires Lively(sending, |Frames(ps)|) && Lively(receiving, |Frames(ps)|)
    ensures var (n, wire) := SendMany(sending, ps); n == |ps| && ReadMany(receiving, wire, n) == ps
  {
    LivelySendMany(sending, ps);
    LivelyReadMany(receiving, ps, []);
    AppendNothing(Frames(ps));
  }

  // A read of part of a frame yields nothing, whatever the schedule.
  lemma {:induction false} ShortReceive(script: seq<Outcome>, coming: seq<byte>, n: nat)
    ensures var (got, ok, rest, left) := Receiving(script, coming, n);
      got + left == coming && |got| <= n && (ok ==> |got| == n)
    decreases |script|
  {
    if n > 0 && script != [] {
      match script[0] {
        case Interrupted => ShortReceive(script[1..], coming, n);
        case Failed => AppendNothing(coming);
        case Transfer(x) =>
          var k := Least(Least(x, n), |coming|);
          ShortReceive(script[1..], coming[k..], n - k);
          var (b, _, _, left) := Receiving(script[1..], coming[k..], n - k);
          Reassociate(coming[..k], b, left);
          assert coming[..k] + coming[k..] == coming;
          AppendNothing(coming);
      }
    } else {
      AppendNothing(coming);
    }
  }

  // MAIN: a read that is cut short returns empty, never part of a payload:
  // under any schedule, with less than a whole frame coming in.
  lemma CutReadIsEmpty(script: seq<Outcome>, p: seq<byte>, m: nat)
    requires |p| < TWO32 && m < |Frame(p)|
    ensures ReadFrame(script, Frame(p)[..m]).0 == []
  {
    var coming := Frame(p)[..m];
    var (head, headed, rest, left) := Receiving(script, coming, HEAD);
    ShortReceive(script, coming, HEAD);
    if headed {
      assert head == coming[..HEAD] == LE(|p|, HEAD) by { assert (head + left)[..HEAD] == head; }
      LoadStored32(|p|);
      ShortReceive(rest, left, |p|);
    }
  }

  // MAIN: whatever happens on the sending side, the wire carries the frames
  // of the payloads sent and at most a strict prefix of the next one; a
  // reader that gets all of it sees exactly those payloads, then nothing.
  lemma {:induction false} CutConnection(sending: seq<Outcome>, ps: seq<seq<byte>>)
    ensures var (n, wire) := SendMany(sending, ps);
      n <= |ps| && Frames(ps[..n]) <= wire && (forall p <- ps[..n] :: |p| < TWO32) &&
      (n == |ps| ==> wire == Frames(ps)) &&
      (n < |ps| ==> |wire| - |Frames(ps[..n])| < |Frame(ps[n])| && wire[|Frames(ps[..n])|..] <= Frame(ps[n])) &&
      (n < |ps| && |ps[n]| >= TWO32 ==> wire == Frames(ps[..n]))
    decreases |ps|
  {
    if ps != [] && |ps[0]| < TWO32 {
      hide Frame;
      SendingBound(sending, Frame(ps[0]));
      var (m, ok, rest) := Sending(sending, Frame(ps[0]));
      if ok {
        CutConnection(rest, ps[1..]);
        var (k, wire) := SendMany(rest, ps[1..]);
        assert ps[..k + 1][0] == ps[0] && ps[..k + 1][1..] == ps[1..][..k];
        assert Frames(ps[..k + 1]) == Frame(ps[0]) + Frames(ps[1..][..k]);
        forall p <- ps[..k + 1] ensures |p| < TWO32 {
          assert p == ps[0] || p in ps[1..][..k];
        }
        assert ps[..|ps|] == ps;
      }
    }
  }

  // Reading goes on behind ps with whatever is there.
  lemma {:induction false} ReadOneMore(script: seq<Outcome>, ps: seq<seq<byte>>, tail: seq<byte>)
    requires Lively(script, |Frames(ps)|) && forall p <- ps :: |p| < TWO32
    requires forall x: seq<Outcome> :: ReadFrame(x, tail).0 == []
    ensures ReadMany(script, Frames(ps) + tail, |ps| + 1) == ps + [[]]
    decreases |ps|
  {
    hide Frame, ReadFrame;
    if ps == [] {
      AppendNothing(tail);
      assert ReadMany(script, tail, 1) == [[]] + ReadMany(ReadFrame(script, tail).1, ReadFrame(script, tail).2, 0);
    } else {
      var more := Frames(ps[1..]);
      Reassociate(Frame(ps[0]), more, tail);
      LivelyFrame(script, ps[0], more + tail, |more|);
      ReadOneMore(ReadFrame(script, Frame(ps[0]) + (more + tail)).1, ps[1..], tail);
      HeadAndTail(ps);
      Reassociate([ps[0]], ps[1..], [[]]);
    }
  }

  lemma ReadAfterCut(sending: seq<Outcome>, ps: seq<seq<byte>>, receiving: seq<Outcome>)
    requires var (n, wire) := SendMany(sending, ps); n < |ps| && Lively(receiving, |Frames(ps[..n])|)
    ensures var (n, wire) := SendMany(sending, ps);
      ReadMany(receiving, wire, n + 1) == ps[..n] + [[]]
  {
    hide Lively;
    CutConnection(sending, ps);
    var (n, wire) := SendMany(sending, ps);
    var tail := wire[|Frames(ps[..n])|..];
    assert wire == Frames(ps[..n]) + tail;
    forall x: seq<Outcome> ensures ReadFrame(x, tail).0 == [] {
      var p := if |ps[n]| < TWO32 then ps[n] else [];
      assert tail == Frame(p)[..|tail|];
      CutReadIsEmpty(x, p, |tail|);
    }
    ReadOneMore(receiving, ps[..n], tail);
  }
}
