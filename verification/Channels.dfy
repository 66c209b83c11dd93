// What a client gets for one channel: all streams listed under its name,
// taken together.
module Channels {
  import opened Bytes
  import opened Sequences
  import opened Layout
  import opened FileNames
  import opened FileSystems
  import opened StorageSpec
  import opened ScannerSpec
  import opened Ledgers
  import opened Catalogs
  import opened WholeRun
  import opened Queries
  import opened Losses
  import opened Punctuality

  // The answers of all streams of a name to an unlimited query.
  function Gathered(fs: Fs, streams: seq<StreamInfo>, name: seq<byte>, from: u64, to: u64): seq<Record> {
    if streams == [] then []
    else
      var s := streams[|streams| - 1];
      Gathered(fs, streams[..|streams| - 1], name, from, to) +
      if s.name == name then DataOf(fs, s.day, s.file, from, to, 0, TWO32 - 1).records else []
  }

  // The same according to the log.
  function Pooled(log: seq<Entry>, streams: seq<StreamInfo>, name: seq<byte>, from: u64, to: u64): seq<Record> {
    if streams == [] then []
    else
      var s := streams[|streams| - 1];
      Pooled(log, streams[..|streams| - 1], name, from, to) +
      if s.name == name then Filter(OnFile(log, s.day, BaseOf(s.file)), from, to) else []
  }

  // The records of one channel, wherever they are kept.
  function OfChannel(log: seq<Entry>, channel: string): seq<Record> {
    if log == [] then []
    else
      var e := log[|log| - 1];
      OfChannel(log[..|log| - 1], channel) + if e.channel == channel then [e.record] else []
  }

  // The unlimited answer of file f is what the log has for it.
  ghost predicate Tells(fs: Fs, log: seq<Entry>, from: u64, to: u64, d: nat, f: string) {
    && f == IndexName(BaseOf(f))
    && DataOf(fs, d, f, from, to, 0, TWO32 - 1).records == Filter(OnFile(log, d, BaseOf(f)), from, to)
  }

  lemma AnswersTell(fs: Fs, log: seq<Entry>, from: u64, to: u64, d: nat, f: string)
    requires Answers(fs, log, from, to, d, f)
    ensures Tells(fs, log, from, to, d, f)
  {
    hide DataOf, Filter, OnFile, BaseOf, Describe, NameBytes;
    var max: u32 := TWO32 - 1;
    var rs := OnFile(log, d, BaseOf(f));
    assert From(rs, 0) == rs;
    assert DataOf(fs, d, f, from, to, 0, max) == DataResponse(Take(Filter(From(rs, 0), from, to), max), NoErrors);
  }

  // How many entries of the log are this record of this channel.
  ghost function Times(log: seq<Entry>, channel: string, r: Record): nat {
    |set i: nat | i < |log| && log[i].channel == channel && log[i].record == r|
  }

  lemma TimesMore(log: seq<Entry>, channel: string, r: Record)
    requires log != []
    ensures var n := |log| - 1;
      Times(log, channel, r) ==
        Times(log[..n], channel, r) + if log[n].channel == channel && log[n].record == r then 1 else 0
  {
    var n := |log| - 1;
    var before := set i: nat | i < n && log[..n][i].channel == channel && log[..n][i].record == r;
    var all := set i: nat | i < |log| && log[i].channel == channel && log[i].record == r;
    assert all == before + if log[n].channel == channel && log[n].record == r then {n} else {};
  }

  lemma {:induction false} ChannelCounts(log: seq<Entry>, channel: string, r: Record)
    ensures multiset(OfChannel(log, channel))[r] == Times(log, channel, r)
  {
    hide Times;
    if log != [] {
      ChannelCounts(log[..|log| - 1], channel, r);
      TimesMore(log, channel, r);
    } else {
      TimesNothing(channel, r);
    }
  }

  lemma TimesNothing(channel: string, r: Record)
    ensures Times([], channel, r) == 0
  {
  }

  // A query answered with what is in range of a channel, record by record.
  lemma AnsweredRecords(records: seq<Record>, log: seq<Entry>, channel: string, from: u64, to: u64)
    requires multiset(records) == multiset(Filter(OfChannel(log, channel), from, to))
    ensures forall r: Record :: multiset(records)[r] == if from <= r.time <= to then Times(log, channel, r) else 0
  {
    hide Filter, OfChannel, Times;
    forall r: Record ensures multiset(records)[r] == if from <= r.time <= to then Times(log, channel, r) else 0 {
      FilterCounts(OfChannel(log, channel), from, to, r);
      ChannelCounts(log, channel, r);
    }
  }

  lemma {:induction false} GatheredIsPooled(
    fs: Fs, log: seq<Entry>, streams: seq<StreamInfo>, name: seq<byte>, from: u64, to: u64)
    requires forall s <- streams :: Tells(fs, log, from, to, s.day, s.file)
    ensures Gathered(fs, streams, name, from, to) == Pooled(log, streams, name, from, to)
  {
    hide DataOf, Filter, OnFile;
    if streams != [] {
      var s := streams[|streams| - 1];
      GatheredIsPooled(fs, log, streams[..|streams| - 1], name, from, to);
      assert Tells(fs, log, from, to, s.day, s.file);
    }
  }

  lemma {:induction false} FilterConcat(a: seq<Record>, b: seq<Record>, from: u64, to: u64)
    ensures Filter(a + b, from, to) == Filter(a, from, to) + Filter(b, from, to)
  {
    if a == [] {
      AppendNothing(b);
      AppendNothing(Filter(b, from, to));
    } else {
      FilterConcat(a[1..], b, from, to);
      assert (a + b)[0] == a[0] && (a + b)[1..] == a[1..] + b;
      Reassociate(if InRange(a[0], from, to) then [a[0]] else [], Filter(a[1..], from, to), Filter(b, from, to));
    }
  }

  lemma FilterOne(r: Record, from: u64, to: u64)
    ensures Filter([r], from, to) == if InRange(r, from, to) then [r] else []
  {
  }

  // The stream an entry is asked from.
  predicate Selects(s: StreamInfo, name: seq<byte>, e: Entry) {
    s.name == name && s.day == e.day && BaseOf(s.file) == e.base
  }

  ghost predicate Selected(streams: seq<StreamInfo>, name: seq<byte>, e: Entry) {
    exists s <- streams :: Selects(s, name, e)
  }

  ghost predicate Apart(streams: seq<StreamInfo>) {
    forall i, j :: 0 <= i < j < |streams| ==>
      streams[i].day != streams[j].day || BaseOf(streams[i].file) != BaseOf(streams[j].file)
  }

  function Once(r: Record, b: bool): multiset<Record> {
    if b then multiset{r} else multiset{}
  }

  lemma OnFileMore(log: seq<Entry>, e: Entry, day: nat, base: string)
    ensures OnFile(log + [e], day, base) == OnFile(log, day, base) + if IsOn(e, day, base) then [e.record] else []
  {
    AppendOne(log, e);
  }

  // One more entry shows in the answer of its own stream only.
  lemma {:induction false} PooledMore(
    log: seq<Entry>, e: Entry, streams: seq<StreamInfo>, name: seq<byte>, from: u64, to: u64)
    requires Apart(streams)
    ensures multiset(Pooled(log + [e], streams, name, from, to)) ==
      multiset(Pooled(log, streams, name, from, to)) +
      Once(e.record, InRange(e.record, from, to) && Selected(streams, name, e))
  {
    hide Filter, OnFile, InRange, BaseOf;
    if streams != [] {
      var n := |streams| - 1;
      var s := streams[n];
      PooledMore(log, e, streams[..n], name, from, to);
      StreamMore(log, e, s.day, BaseOf(s.file), from, to);
      SelectedLast(streams, name, e);
    }
  }

  lemma StreamMore(log: seq<Entry>, e: Entry, day: nat, base: string, from: u64, to: u64)
    ensures multiset(Filter(OnFile(log + [e], day, base), from, to)) ==
      multiset(Filter(OnFile(log, day, base), from, to)) +
      Once(e.record, InRange(e.record, from, to) && IsOn(e, day, base))
  {
    hide Filter, OnFile, InRange;
    OnFileMore(log, e, day, base);
    FilterConcat(OnFile(log, day, base), [e.record], from, to);
    FilterOne(e.record, from, to);
    AppendNothing(OnFile(log, day, base));
  }

  lemma SelectedLast(streams: seq<StreamInfo>, name: seq<byte>, e: Entry)
    requires streams != [] && Apart(streams)
    ensures var n := |streams| - 1;
      && (Selected(streams, name, e) <==> Selected(streams[..n], name, e) || Selects(streams[n], name, e))
      && !(Selected(streams[..n], name, e) && Selects(streams[n], name, e))
      && Apart(streams[..n])
  {
    var n := |streams| - 1;
    assert streams == streams[..n] + [streams[n]];
  }

  lemma {:induction false} PooledIsChannel(
    log: seq<Entry>, streams: seq<StreamInfo>, name: seq<byte>, channel: string, from: u64, to: u64)
    requires Apart(streams)
    requires forall e <- log :: InRange(e.record, from, to) ==> (Selected(streams, name, e) <==> e.channel == channel)
    ensures multiset(Pooled(log, streams, name, from, to)) == multiset(Filter(OfChannel(log, channel), from, to))
  {
    hide Filter, InRange, Selected, Apart, Pooled;
    if log == [] {
      PooledNothing(streams, name, from, to);
      assert Filter([], from, to) == [] by { FilterEmpty(from, to); }
    } else {
      var n := |log| - 1;
      var before, e := log[..n], log[n];
      assert log == before + [e];
      PooledIsChannel(before, streams, name, channel, from, to);
      PooledMore(before, e, streams, name, from, to);
      FilterConcat(OfChannel(before, channel), [e.record], from, to);
      FilterOne(e.record, from, to);
      AppendNothing(OfChannel(before, channel));
    }
  }

  lemma {:induction false} PooledNothing(streams: seq<StreamInfo>, name: seq<byte>, from: u64, to: u64)
    ensures Pooled([], streams, name, from, to) == []
  {
    if streams != [] {
      PooledNothing(streams[..|streams| - 1], name, from, to);
      FilterEmpty(from, to);
    }
  }

  // Streams that getStreams returns have different files.
  lemma ListedApart(fs: Fs, cal: Calendar, log: seq<Entry>, from: u64, to: u64, streams: seq<StreamInfo>)
    requires AllStreams(fs, cal, from, to, streams)
    requires forall s <- streams :: Tells(fs, log, from, to, s.day, s.file)
    ensures Apart(streams)
  {
    hide Listed, Describe, BaseOf, DataOf, Filter, OnFile;
    forall i, j | 0 <= i < j < |streams|
      ensures streams[i].day != streams[j].day || BaseOf(streams[i].file) != BaseOf(streams[j].file)
    {
      assert Tells(fs, log, from, to, streams[i].day, streams[i].file);
      assert Tells(fs, log, from, to, streams[j].day, streams[j].file);
    }
  }

  // A kept record in range is asked for under its own channel's name only.
  lemma SelectedByName(
    fs: Fs, cal: Calendar, log: seq<Entry>, from: u64, to: u64, streams: seq<StreamInfo>, channel: string, e: Entry)
    requires AllStreams(fs, cal, from, to, streams)
    requires forall s <- streams :: Tells(fs, log, from, to, s.day, s.file)
    requires Named(e.channel) && Named(channel)
    requires Listed(fs, cal, from, to, e.day, IndexName(e.base))
    requires Describe(fs, e.day, IndexName(e.base)).name == NameBytes(e.channel)
    ensures Selected(streams, NameBytes(channel), e) <==> e.channel == channel
  {
    hide Listed, Named, NameBytes, DataOf, Filter, OnFile;
    var own := Describe(fs, e.day, IndexName(e.base));
    BaseOfIndex(e.base);
    if e.channel == channel {
      assert Selects(own, NameBytes(channel), e);
    }
    if Selected(streams, NameBytes(channel), e) {
      var s :| s in streams && Selects(s, NameBytes(channel), e);
      assert Tells(fs, log, from, to, s.day, s.file);
      assert s == own;
      NamesTell(channel, e.channel);
    }
  }

  // A record on its way in: what a request asks for, wherever it ends up.
  datatype Sending = Sending(day: nat, channel: string, record: Record)

  function Sent(cal: Calendar, reqs: seq<Request>): seq<Sending> {
    if reqs == [] then []
    else
      var q := reqs[|reqs| - 1];
      Sent(cal, reqs[..|reqs| - 1]) + [Sending(cal.dayOf(q.time), q.channel, Record(q.time, q.data))]
  }

  function Erased(log: seq<Entry>): seq<Sending> {
    if log == [] then []
    else
      var e := log[|log| - 1];
      Erased(log[..|log| - 1]) + [Erase(e)]
  }

  ghost predicate Subsequence<T(!new)>(a: seq<T>, b: seq<T>)
    decreases |b|
  {
    if a == [] then true
    else
      b != [] &&
      var n, m := |a| - 1, |b| - 1;
      (a[n] == b[m] && Subsequence(a[..n], b[..m])) || Subsequence(a, b[..m])
  }

  lemma SubsequenceSkips<T(!new)>(a: seq<T>, b: seq<T>, x: T)
    requires Subsequence(a, b)
    ensures Subsequence(a, b + [x])
  {
    AppendOne(b, x);
  }

  lemma SubsequenceTakes<T(!new)>(a: seq<T>, b: seq<T>, x: T)
    requires Subsequence(a, b)
    ensures Subsequence(a + [x], b + [x])
  {
    AppendOne(a, x);
    AppendOne(b, x);
  }

  lemma {:induction false} SubsequenceMember<T(!new)>(a: seq<T>, b: seq<T>, x: T)
    requires Subsequence(a, b) && x in a
    ensures x in b
    decreases |b|
  {
    var n, m := |a| - 1, |b| - 1;
    if a[n] == b[m] && Subsequence(a[..n], b[..m]) {
      if x in a[..n] {
        SubsequenceMember(a[..n], b[..m], x);
      } else {
        assert x == a[n];
      }
    } else {
      SubsequenceMember(a, b[..m], x);
    }
  }

  function Erase(e: Entry): Sending {
    Sending(e.day, e.channel, e.record)
  }

  lemma LastErased(log: seq<Entry>, e: Entry, days: set<nat>)
    ensures Erased(log + [e]) == Erased(log) + [Erase(e)]
    ensures Survivors(log + [e], days) == Survivors(log, days) + if e.day in days then [e] else []
  {
    AppendOne(log, e);
  }

  lemma SubsequenceLast<T(!new)>(a: seq<T>, x: T, b: seq<T>, y: T)
    requires Subsequence(a + [x], b + [y])
    ensures (x == y && Subsequence(a, b)) || Subsequence(a + [x], b)
  {
    AppendOne(a, x);
    AppendOne(b, y);
  }

  // Dropping evicted days keeps a subsequence one.
  lemma {:induction false} SurvivorsErased(log: seq<Entry>, days: set<nat>, b: seq<Sending>)
    requires Subsequence(Erased(log), b)
    ensures Subsequence(Erased(Survivors(log, days)), b)
    decreases |b|
  {
    hide Erase;
    if log != [] {
      ErasedLength(log);
      var n, m := |log| - 1, |b| - 1;
      assert log == log[..n] + [log[n]] && b == b[..m] + [b[m]];
      LastErased(log[..n], log[n], days);
      hide Subsequence, Erased, Survivors;
      SubsequenceLast(Erased(log[..n]), Erase(log[n]), b[..m], b[m]);
      if Subsequence(Erased(log), b[..m]) {
        SurvivorsErased(log, days, b[..m]);
        SubsequenceSkips(Erased(Survivors(log, days)), b[..m], b[m]);
      } else {
        SurvivorsErased(log[..n], days, b[..m]);
        var kept := Survivors(log[..n], days);
        LastErased(kept, log[n], days);
        SubsequenceTakes(Erased(kept), b[..m], b[m]);
        SubsequenceSkips(Erased(kept), b[..m], b[m]);
        AppendNothing(kept);
      }
    }
  }

  lemma {:induction false} ErasedLength(log: seq<Entry>)
    ensures |Erased(log)| == |log|
  {
    if log != [] { ErasedLength(log[..|log| - 1]); }
  }

  // What a log keeps is a part of what was requested, in the same order.
  ghost predicate Requested(cal: Calendar, log: seq<Entry>, reqs: seq<Request>) {
    Subsequence(Erased(log), Sent(cal, reqs))
  }

  lemma StoredDay(st: Store, cal: Calendar, req: Request)
    requires ValidCalendar(cal) && StoreWritten(st, cal, req).1 > 0
    ensures StoreWritten(st, cal, req).0.folder.day == cal.dayOf(req.time)
  {
    hide Evicted, ReadyWritten;
    var fs1 := Evicted(st.fs, st.available, MaxRecordSize(|req.data|)).0;
    var (fs2, ready) := FolderReady(fs1, FolderFor(st, cal, req), cal, req.time);
    ReadyDays(fs2, ready, cal, req);
  }

  lemma NextRequested(st: Store, cal: Calendar, req: Request, before: seq<Request>, log: seq<Entry>)
    requires ValidCalendar(cal) && Requested(cal, log, before)
    ensures Requested(cal, NextLog(log, st, cal, req), before + [req])
  {
    hide Evicted, StoreWritten, Subsequence;
    var days := Evicted(st.fs, st.available, MaxRecordSize(|req.data|)).0.days.Keys;
    var kept, x := Survivors(log, days), Sending(cal.dayOf(req.time), req.channel, Record(req.time, req.data));
    SurvivorsErased(log, days, Sent(cal, before));
    AppendOne(before, req);
    var (st', r) := StoreWritten(st, cal, req);
    if r > 0 && st'.folder.day in st'.fs.days {
      StoredDay(st, cal, req);
      AppendOne(kept, Entry(st'.folder.day, Place(WriterOf(st'.folder, req)), req.channel, Record(req.time, req.data)));
      SubsequenceTakes(Erased(kept), Sent(cal, before), x);
    } else {
      SubsequenceSkips(Erased(kept), Sent(cal, before), x);
    }
  }

  lemma {:induction false} RunRequested(
    st: Store, cal: Calendar, reqs: seq<Request>, before: seq<Request>, log: seq<Entry>)
    requires ValidCalendar(cal) && Requested(cal, log, before)
    ensures Requested(cal, RunLog(log, st, cal, reqs), before + reqs)
    decreases |reqs|
  {
    hide Requested, NextLog, StoreWritten;
    if reqs == [] {
      AppendNothing(before);
    } else {
      var q := reqs[0];
      NextRequested(st, cal, q, before, log);
      RunRequested(StoreWritten(st, cal, q).0, cal, reqs[1..], before + [q], NextLog(log, st, cal, q));
      HeadAndTail(reqs);
      Reassociate(before, [q], reqs[1..]);
    }
  }

  lemma SessionRequested(fs: Fs, cal: Calendar, s: Session, before: seq<Request>, log: seq<Entry>)
    requires ValidCalendar(cal) && Requested(cal, log, before)
    ensures Requested(cal, SessionLog(log, fs, cal, s), before + s.requests)
  {
    hide Constructed;
    var st := Constructed(fs, s.maxSize);
    SurvivorsErased(log, st.fs.days.Keys, Sent(cal, before));
    RunRequested(st, cal, s.requests, before, Survivors(log, st.fs.days.Keys));
  }

  // MAIN: over any number of processes the log is a part of the requests, in
  // the order they came in: nothing is in it twice that was requested once.
  lemma {:induction false} SessionsRequested(
    fs: Fs, cal: Calendar, sessions: seq<Session>, before: seq<Request>, log: seq<Entry>)
    requires ValidCalendar(cal) && Requested(cal, log, before)
    ensures Requested(cal, SessionsLog(log, fs, cal, sessions), before + Requests(sessions))
    decreases |sessions|
  {
    hide AfterSession, Constructed;
    if sessions == [] {
      AppendNothing(before);
    } else {
      var s := sessions[0];
      SessionRequested(fs, cal, s, before, log);
      SessionsRequested(AfterSession(fs, cal, s), cal, sessions[1..], before + s.requests, SessionLog(log, fs, cal, s));
      Reassociate(before, s.requests, Requests(sessions[1..]));
    }
  }

  lemma {:induction false} ErasedHas(log: seq<Entry>, e: Entry)
    requires e in log
    ensures Sending(e.day, e.channel, e.record) in Erased(log)
  {
    var n := |log| - 1;
    if e != log[n] {
      assert e in log[..n];
      ErasedHas(log[..n], e);
    }
  }

  lemma {:induction false} SentBy(cal: Calendar, reqs: seq<Request>, x: Sending) returns (q: Request)
    requires x in Sent(cal, reqs)
    ensures q in reqs && x == Sending(cal.dayOf(q.time), q.channel, Record(q.time, q.data))
  {
    var n := |reqs| - 1;
    if x in Sent(cal, reqs[..n]) {
      q := SentBy(cal, reqs[..n], x);
    } else {
      q := reqs[n];
    }
  }

  lemma RequestedEntry(cal: Calendar, log: seq<Entry>, reqs: seq<Request>, e: Entry) returns (q: Request)
    requires Requested(cal, log, reqs) && e in log
    ensures q in reqs
    ensures q.channel == e.channel && e.record == Record(q.time, q.data) && e.day == cal.dayOf(q.time)
  {
    hide Subsequence;
    ErasedHas(log, e);
    SubsequenceMember(Erased(log), Sent(cal, reqs), Sending(e.day, e.channel, e.record));
    q := SentBy(cal, reqs, Sending(e.day, e.channel, e.record));
  }

  // An entry comes from a request for its channel.
  lemma LogRequested(fs: Fs, cal: Calendar, sessions: seq<Session>, e: Entry) returns (q: Request)
    requires ValidCalendar(cal) && e in SessionsLog([], fs, cal, sessions)
    ensures q in Requests(sessions)
    ensures q.channel == e.channel && e.record == Record(q.time, q.data) && e.day == cal.dayOf(q.time)
  {
    hide SessionsLog, Requested;
    NothingRequested(cal);
    SessionsRequested(fs, cal, sessions, [], []);
    AppendNothing(Requests(sessions));
    q := RequestedEntry(cal, SessionsLog([], fs, cal, sessions), Requests(sessions), e);
  }

  lemma NothingRequested(cal: Calendar)
    ensures Requested(cal, [], [])
  {
  }

  // MAIN: after any number of processes and any requests, asking getStreams
  // for a range and getData, without limit, for every stream it lists under
  // the name of a channel returns exactly the records the storage keeps of
  // that channel in that range, each as often as it was written.
  lemma PerChannel(
    fs: Fs, cal: Calendar, sessions: seq<Session>, from: u64, to: u64, end: Fs, log: seq<Entry>,
    streams: seq<StreamInfo>, channel: string)
    requires fs.days == map[] && Wellbehaved(cal, Requests(sessions))
    requires end == AfterSessions(fs, cal, sessions) && log == SessionsLog([], fs, cal, sessions)
    requires SmallFiles(end) && AllStreams(end, cal, from, to, streams)
    requires Named(channel) && forall q <- Requests(sessions) :: Named(q.channel)
    ensures multiset(Gathered(end, streams, NameBytes(channel), from, to)) ==
      multiset(Filter(OfChannel(log, channel), from, to))
    ensures forall r: Record ::
      multiset(Gathered(end, streams, NameBytes(channel), from, to))[r] ==
      if from <= r.time <= to then Times(log, channel, r) else 0
  {
    hide ValidCalendar, Monotone, PlainClock, Orderly, Storable, AfterSessions, SessionsLog, SmallFiles, Answers, Tells,
         Gathered, Pooled, Filter, OfChannel, InRange, Listed, Describe, Named, NameBytes, Selected, Apart, Times,
         Reaches;
    WholeRunRefinement(fs, cal, sessions, from, to, end, log);
    forall s <- streams ensures Tells(end, log, from, to, s.day, s.file) {
      assert Answers(end, log, from, to, s.day, s.file);
      AnswersTell(end, log, from, to, s.day, s.file);
    }
    GatheredIsPooled(end, log, streams, NameBytes(channel), from, to);
    ListedApart(end, cal, log, from, to, streams);
    forall e <- log | InRange(e.record, from, to)
      ensures Selected(streams, NameBytes(channel), e) <==> e.channel == channel
    {
      assert Named(e.channel) by { var q := LogRequested(fs, cal, sessions, e); }
      SelectedByName(end, cal, log, from, to, streams, channel, e);
    }
    PooledIsChannel(log, streams, NameBytes(channel), channel, from, to);
    AnsweredRecords(Gathered(end, streams, NameBytes(channel), from, to), log, channel, from, to);
  }
}
