// The stream writer class along whole histories of calls, failures included.
module WriterHistories {
  import opened Bytes
  import opened Sequences
  import opened Layout
  import opened FileSystems
  import opened WriterSpec
  import opened StreamWriters
  import opened WriterRuns

  lemma {:induction false} RunContinues(fs: Fs, w: WriterState, clock: u64 -> string, calls: seq<Call>, c: Call)
    requires IsRun(fs, w, clock, calls) && StepOf(EndFs(fs, calls), EndWriter(w, calls), clock, c)
    ensures IsRun(fs, w, clock, calls + [c]) && EndFs(fs, calls + [c]) == c.fs && EndWriter(w, calls + [c]) == c.w
    decreases |calls|
  {
    hide StepOf;
    if calls == [] {
      AppendNothing([c]);
    } else {
      RestOfRun(fs, w, calls);
      RunContinues(calls[0].fs, calls[0].w, clock, calls[1..], c);
      assert (calls + [c])[0] == calls[0] && (calls + [c])[1..] == calls[1..] + [c];
    }
  }

  // MAIN: whatever fails on the way, a writer that is asked to write rs goes
  // through a run in the sense of WriterRuns, and stays ready for more.
  method WriteAll(writer: StreamWriter, rs: seq<Record>) returns (ghost calls: seq<Call>)
    requires writer.Valid() && forall r <- rs :: Fits(r.payload)
    modifies writer, writer.fs
    ensures writer.Valid() && |calls| == |rs|
    ensures forall i :: 0 <= i < |rs| ==> Record(calls[i].time, calls[i].payload) == rs[i]
    ensures IsRun(old(writer.fs.state), old(writer.View()), writer.clock, calls)
    ensures writer.fs.state == EndFs(old(writer.fs.state), calls) &&
      writer.View() == EndWriter(old(writer.View()), calls)
  {
    hide WriteStep, IsRun, Paired;
    calls := [];
    assert IsRun(writer.fs.state, writer.View(), writer.clock, [])
      by { NoCalls(writer.fs.state, writer.View(), writer.clock); }
    var i := 0;
    while i < |rs|
      invariant 0 <= i <= |rs| && writer.Valid() && |calls| == i
      invariant forall k :: 0 <= k < i ==> Record(calls[k].time, calls[k].payload) == rs[k]
      invariant IsRun(old(writer.fs.state), old(writer.View()), writer.clock, calls)
      invariant writer.fs.state == EndFs(old(writer.fs.state), calls)
      invariant writer.View() == EndWriter(old(writer.View()), calls)
    {
      var result := writer.Write(rs[i].time, rs[i].payload);
      ghost var c := Call(rs[i].time, rs[i].payload, writer.fs.state, writer.View(), result);
      RunContinues(old(writer.fs.state), old(writer.View()), writer.clock, calls, c);
      calls := calls + [c];
      i := i + 1;
    }
  }

  lemma NoCalls(fs: Fs, w: WriterState, clock: u64 -> string)
    ensures IsRun(fs, w, clock, []) && EndFs(fs, []) == fs && EndWriter(w, []) == w
  {
  }
}
