/** Every run of the stream table: conservation of bytes, give-up, pairing and what a TLS parser's state depends on;
    first over logs of calls, then over runs of the whole reassembler (src/cdpi_stream.cpp, src/cdpi_tcp.cpp). */
module StreamRuns {
  import opened Bytes
  import opened FlowId
  import H = HttpSpec
  import HttpPairing
  import S = SslSpec
  import SslTheorems
  import opened TcpTable
  import opened TcpSystem
  import TcpWakeup
  import opened TcpSafety
  import opened TcpStreams
  import opened StreamSpec
  import opened StreamTheorems

  /** Calls name real directions, and a stream is created only while it is not open. */
  ghost predicate WellFormed(log: seq<Call>) {
    forall n :: 0 <= n < |log| ==>
      log[n].k.dir != FromNone && (log[n].Created? ==> log[n].k !in Streams(log[..n]))
  }

  // ------------------------------------------------------------ bytes in, bytes left

  /** What the unparsed bytes and the TLS state of an entry are, in terms of all bytes it was given. */
  predicate Accounted(i: Info, fed: bytes) {
    && i.total <= |fed|
    && (i.status == Running ==>
          && i.total == |fed| && IsSuffix(Flat(i.segs), fed)
          && (i.kind == Undetected ==> Flat(i.segs) == fed)
          && (i.proto.Tls? ==>
                var r := S.Parse(S.FRESH, fed);
                r.stop.None? && r.s == i.proto.s && r.rest == Flat(i.segs)))
  }

  lemma SuffixOfSuffix(a: bytes, b: bytes, fed: bytes, data: bytes)
    requires IsSuffix(b, fed) && IsSuffix(a, b + data)
    ensures IsSuffix(a, fed + data)
  {
    assert b + data == (fed + data)[|fed| - |b|..];
  }

  lemma TlsAccounted(i: Info, fed: bytes, data: bytes)
    requires i.proto.Tls? && i.status == Running && (i.kind == SslClient || i.kind == SslServer)
    requires var r := S.Parse(S.FRESH, fed); r.stop.None? && r.s == i.proto.s
    requires Flat(i.segs) == S.Parse(S.FRESH, fed).rest + data
    ensures var r := S.Parse(i.proto.s, Flat(i.segs));
            var i' := AfterTls(i, r);
            i'.status == Running ==>
              var q := S.Parse(S.FRESH, fed + data);
              q.stop.None? && q.s == r.s && q.rest == r.rest && i'.proto == Tls(r.s) && Flat(i'.segs) == r.rest
  {
    SslTheorems.RecordCutsDoNotMatter(S.FRESH, fed, data);
    var r := S.Parse(i.proto.s, Flat(i.segs));
    TlsSettles(i, r);
    FlatLeft(r.rest);
    hide S.Parse;
    hide Flat;
  }

  /** The TLS part of `Accounted`. */
  predicate TlsFollows(i: Info, fed: bytes) {
    i.status == Running && i.proto.Tls? ==>
      var r := S.Parse(S.FRESH, fed);
      r.stop.None? && r.s == i.proto.s && r.rest == Flat(i.segs)
  }

  /** The TLS part of `Accounted`, for the entry of k. */
  predicate TlsFollowsAt(t: Table, k: IdDir, fed: bytes) {
    k in t ==> TlsFollows(t[k], fed)
  }

  lemma {:induction false} InDataTls(d: Detectors, t: Table, k: IdDir, data: bytes, fed: bytes)
    requires Fits(t) && k.dir != FromNone && k in t && Accounted(t[k], fed)
    ensures TlsFollowsAt(InData(d, t, k, data).0, k, fed + data)
  {
    assert EntryFits(t[k]);
    if t[k].status == Running {
      ReceivedFits(t[k], data);
      assert fed + [] == fed;
      hide RunParser, Received, Detect, Flat, S.Parse, Fits, EntryFits;
      var i := Received(t[k], data);
      if i.kind == HttpProxy {
        assert i.proto.Http?;
      } else if i.kind == Undetected {
        UndetectedTls(d, t, k, i, fed + data);
      } else {
        DetectedTls(t, k, i, fed, data);
      }
    }
  }

  lemma DetectedTls(t: Table, k: IdDir, i: Info, fed: bytes, data: bytes)
    requires k in t && k.dir != FromNone && i.status == Running && KindFits(i)
    requires i.kind != Undetected && i.kind != HttpProxy
    requires i.proto.Tls? ==>
               var r := S.Parse(S.FRESH, fed); r.stop.None? && r.s == i.proto.s && Flat(i.segs) == r.rest + data
    ensures TlsFollowsAt(RunParser(t[k := i], k).0, k, fed + data)
  {
    if i.proto.Tls? {
      TlsAccounted(i, fed, data);
      hide S.Parse, AfterTls, Flat;
    } else {
      HttpStaysHttp(t[k := i], k);
      hide RunParser, S.Parse, Flat;
    }
  }

  lemma HttpStaysHttp(t: Table, k: IdDir)
    requires k in t && t[k].proto.Http? && k.dir != FromNone
    ensures k in RunParser(t, k).0 && RunParser(t, k).0[k].proto.Http?
  {
    OtherOther(k);
    hide H.Parse;
    hide Flat;
  }

  lemma UndetectedTls(d: Detectors, t: Table, k: IdDir, i: Info, fed: bytes)
    requires k in t && k.dir != FromNone && i.status == Running && Flat(i.segs) == fed
    ensures match Detect(d, t, k, i.segs)
            case None => true
            case Some((kind, proto)) => TlsFollowsAt(RunParser(t[k := i.(kind := kind, proto := proto)], k).0, k, fed)
  {
    match Detect(d, t, k, i.segs) {
      case None =>
      case Some((kind, proto)) =>
        var j := i.(kind := kind, proto := proto);
        DetectedEntryFits(d, t, k, i);
        FreshTls(d, t, k, i);
        assert S.Parse(S.FRESH, []) == S.Result(None, S.FRESH, [], []) && [] + fed == fed;
        hide Detect, RunParser, S.Parse, Flat;
        DetectedTls(t, k, j, [], fed);
    }
  }

  lemma FreshTls(d: Detectors, t: Table, k: IdDir, i: Info)
    ensures var r := Detect(d, t, k, i.segs);
            && (r.Some? && r.value.1.Tls? ==> r.value.1.s == S.FRESH)
            && (r.Some? ==> r.value.0 != HttpProxy)
  {
  }

  lemma DataAccounted(d: Detectors, t: Table, k: IdDir, data: bytes, fed: bytes)
    requires Fits(t) && k.dir != FromNone && k in t && Accounted(t[k], fed)
    ensures k in InData(d, t, k, data).0 && Accounted(InData(d, t, k, data).0[k], fed + data)
  {
    hide InData, S.Parse, Flat, Fits;
    DataTaken(d, t, k, data);
    InDataTls(d, t, k, data, fed);
    if t[k].status == Running {
      UndetectedKeepsAll(d, t, k, data);
      var t' := InData(d, t, k, data).0;
      if t'[k].status == Running {
        SuffixOfSuffix(Flat(t'[k].segs), Flat(t[k].segs), fed, data);
      }
    }
  }

  lemma RunStaysDetected(t: Table, k: IdDir)
    requires k in t && k.dir != FromNone && t[k].kind != Undetected
    ensures k in RunParser(t, k).0 && RunParser(t, k).0[k].kind != Undetected
  {
    OtherOther(k);
    hide H.Parse;
    hide S.Parse;
    hide Flat;
  }

  lemma UndetectedKeepsAll(d: Detectors, t: Table, k: IdDir, data: bytes)
    requires Fits(t) && k.dir != FromNone && k in t && t[k].status == Running
    ensures var i := InData(d, t, k, data).0[k];
            i.status == Running && i.kind == Undetected ==>
              t[k].kind == Undetected && Flat(i.segs) == Flat(t[k].segs) + data
  {
    OtherOther(k);
    FlatAppend(t[k].segs, data);
    assert Flat(t[k].segs) + [] == Flat(t[k].segs);
    var i := Received(t[k], data);
    assert Flat(i.segs) == Flat(t[k].segs) + data;
    hide Flat;
    if i.kind == Undetected {
      match Detect(d, t, k, i.segs) {
        case None =>
        case Some((kind, proto)) => RunStaysDetected(t[k := i.(kind := kind, proto := proto)], k);
      }
    } else if i.kind != HttpProxy {
      RunStaysDetected(t[k := i], k);
    }
    hide RunParser;
  }

  // --------------------------------------------------------------------- logs

  ghost predicate Consistent(d: Detectors, log: seq<Call>) {
    var t := Replay(d, log);
    && Fits(t) && AllSettled(t) && t.Keys == Streams(log)
    && forall k :: k in t ==> Accounted(t[k], Fed(log, k))
  }

  lemma SameButQueueAccounted(i: Info, j: Info, fed: bytes)
    requires SameButQueue(i, j) && Accounted(j, fed)
    ensures Accounted(i, fed)
  {
  }

  lemma {:induction false} DataInAccounted(d: Detectors, t: Table, k: IdDir, data: bytes, j: IdDir, fed: bytes)
    requires Fits(t) && k.dir != FromNone && j in t && Accounted(t[j], fed)
    ensures var t1 := InData(d, t, k, data).0;
            var t2 := InData(d, t1, Other(k), []).0;
            j in t2 && Accounted(t2[j], if j == k then fed + data else fed)
  {
    var o := Other(k);
    var t1 := InData(d, t, k, data).0;
    OtherOther(k);
    DataTaken(d, t, k, data);
    DataTaken(d, t1, o, []);
    var t2 := InData(d, t1, o, []).0;
    if j == k {
      DataAccounted(d, t, k, data, fed);
      SameButQueueAccounted(t2[k], t1[k], fed + data);
    } else if j == o {
      SameButQueueAccounted(t1[o], t[o], fed);
      DataAccounted(d, t1, o, [], fed);
      assert fed + [] == fed;
    }
    hide InData;
    hide Accounted;
    hide Fits;
  }

  lemma {:induction false} LogsConsistent(d: Detectors, log: seq<Call>)
    requires WellFormed(log)
    ensures Consistent(d, log)
    decreases |log|
  {
    hide Consistent, Streams, Replay;
    if |log| == 0 {
      EmptyConsistent(d);
    } else {
      var n := |log| - 1;
      var before := log[..n];
      PrefixWellFormed(log, n);
      CallAllowed(log, n);
      hide WellFormed;
      LogsConsistent(d, before);
      CallConsistent(d, before, log[n]);
      assert before + [log[n]] == log;
    }
  }

  lemma EmptyConsistent(d: Detectors)
    ensures Consistent(d, [])
  {
  }

  lemma CallAllowed(log: seq<Call>, n: nat)
    requires WellFormed(log) && n < |log|
    ensures log[n].k.dir != FromNone && (log[n].Created? ==> log[n].k !in Streams(log[..n]))
  {
  }

  lemma PrefixWellFormed(log: seq<Call>, n: nat)
    requires WellFormed(log) && n <= |log|
    ensures WellFormed(log[..n])
  {
    var before := log[..n];
    assert forall m :: 0 <= m < |before| ==> before[m] == log[m] && before[..m] == log[..m];
  }

  lemma {:induction false} CallConsistent(d: Detectors, before: seq<Call>, c: Call)
    requires Consistent(d, before) && c.k.dir != FromNone && (c.Created? ==> c.k !in Streams(before))
    ensures Consistent(d, before + [c])
  {
    var log := before + [c];
    var t := Replay(d, before);
    assert log[..|log| - 1] == before;
    match c {
      case Created(k) => CreatedConsistent(d, before, k);
      case DataIn(k, data) =>
        DataInSettles(d, t, k, data);
        forall j | j in Replay(d, log) ensures Accounted(Replay(d, log)[j], Fed(log, j)) {
          DataInKeys(d, t, k, data);
          DataInAccounted(d, t, k, data, j, Fed(before, j));
        }
        DataInKeys(d, t, k, data);
      case Destroyed(k) => DestroyedConsistent(d, before, c);
      case Error(k) => DestroyedConsistent(d, before, c);
    }
  }

  lemma {:induction false} DataInKeys(d: Detectors, t: Table, k: IdDir, data: bytes)
    requires Fits(t) && k.dir != FromNone
    ensures var t1 := InData(d, t, k, data).0;
            InData(d, t1, Other(k), []).0.Keys == t.Keys
  {
    OtherOther(k);
    DataTaken(d, t, k, data);
    DataTaken(d, InData(d, t, k, data).0, Other(k), []);
    hide InData;
  }

  lemma CreatedLog(before: seq<Call>, k: IdDir, j: IdDir)
    ensures Streams(before + [Created(k)]) == Streams(before) + {k}
    ensures Fed(before + [Created(k)], j) == if j == k then [] else Fed(before, j)
  {
    Append1(before, Created(k));
  }

  lemma NewInfoAccounted()
    ensures Accounted(NEW_INFO, [])
  {
  }

  lemma CreatedReplay(d: Detectors, before: seq<Call>, k: IdDir)
    requires k !in Replay(d, before)
    ensures Replay(d, before + [Created(k)]) == Replay(d, before)[k := NEW_INFO]
  {
    Append1(before, Created(k));
  }

  lemma CreatedConsistent(d: Detectors, before: seq<Call>, k: IdDir)
    requires Consistent(d, before) && k.dir != FromNone && k !in Streams(before)
    ensures Consistent(d, before + [Created(k)])
  {
    hide Replay, Streams, Fed, Fits, AllSettled, Accounted, WellFormed;
    var log := before + [Created(k)];
    var t, t' := Replay(d, before), Replay(d, log);
    CreatedReplay(d, before, k);
    CreatedLog(before, k, k);
    NewEntryFits(t, k);
    forall j | j in t' ensures Accounted(t'[j], Fed(log, j)) {
      CreatedAccounted(d, before, k, j);
    }
  }

  lemma CreatedAccounted(d: Detectors, before: seq<Call>, k: IdDir, j: IdDir)
    requires Consistent(d, before) && k !in Streams(before) && j in Replay(d, before + [Created(k)])
    ensures Accounted(Replay(d, before + [Created(k)])[j], Fed(before + [Created(k)], j))
  {
    hide Replay, Streams, Fed, Fits, AllSettled, Accounted;
    CreatedReplay(d, before, k);
    CreatedLog(before, k, j);
    NewInfoAccounted();
  }

  lemma NewEntryFits(t: Table, k: IdDir)
    requires Fits(t) && AllSettled(t) && k !in t && k.dir != FromNone
    ensures Fits(t[k := NEW_INFO]) && AllSettled(t[k := NEW_INFO])
  {
    var t' := t[k := NEW_INFO];
    forall j | j in t' ensures j.dir != FromNone && EntryFits(t'[j]) && LinkFits(t', j) && Settled(t', j) {
      if j != k {
        OtherOther(j);
        assert EntryFits(t[j]) && LinkFits(t, j) && Settled(t, j);
        assert QueueUnchanged(t, t', j);
      }
    }
  }

  predicate QueueUnchanged(t: Table, t': Table, j: IdDir)
    requires j in t && j in t'
  {
    t[j].proto.Http? && t'[j].proto.Http? && t[j].proto.link.Some? ==> QueueFor(t, j) == QueueFor(t', j)
  }

  lemma DestroyedLog(d: Detectors, before: seq<Call>, c: Call, j: IdDir)
    requires c.Destroyed? || c.Error?
    ensures Replay(d, before + [c]) == DestroyStream(Replay(d, before), c.k)
    ensures Streams(before + [c]) == Streams(before) - {c.k} && Fed(before + [c], j) == Fed(before, j)
  {
    Append1(before, c);
    hide DestroyStream;
  }

  lemma DestroyKeeps(t: Table, k: IdDir, j: IdDir, fed: bytes)
    requires j in DestroyStream(t, k) && Accounted(t[j], fed)
    ensures Accounted(DestroyStream(t, k)[j], fed)
  {
    hide S.Parse, Flat;
  }

  lemma DestroyKeys(t: Table, k: IdDir)
    ensures DestroyStream(t, k).Keys == t.Keys - {k}
  {
  }

  lemma {:induction false} DestroyedConsistent(d: Detectors, before: seq<Call>, c: Call)
    requires Consistent(d, before) && (c.Destroyed? || c.Error?) && c.k.dir != FromNone
    ensures Consistent(d, before + [c])
  {
    hide Replay, Streams, Fed, Fits, AllSettled, DestroyStream, Accounted;
    var log, t := before + [c], Replay(d, before);
    DestroyedLog(d, before, c, c.k);
    DestroyFits(t, c.k);
    DestroyKeys(t, c.k);
    forall j | j in Replay(d, log) ensures Accounted(Replay(d, log)[j], Fed(log, j)) {
      DestroyedLog(d, before, c, j);
      assert Accounted(t[j], Fed(before, j));
      DestroyKeeps(t, c.k, j, Fed(before, j));
    }
  }

  // ------------------------------------------------------------------- give-up

  /** A stream that was given up. */
  predicate Abandoned(t: Table, k: IdDir, total: nat) {
    k in t && t[k].status == GaveUp && t[k].segs == [] && t[k].total == total
  }

  lemma {:induction false} GaveUpStays(d: Detectors, t: Table, k: IdDir, c: Call)
    requires Fits(t) && k in t && t[k].status == GaveUp
    requires c.k.dir != FromNone && !Closes(c, k) && (c.Created? ==> c.k !in t)
    ensures Abandoned(OnCall(d, t, c).0, k, t[k].total)
  {
    assert EntryFits(t[k]);
    hide InData, Fits, KindFits, QueueIsTail;
    if c.DataIn? { GaveUpTakesNoData(d, t, k, c.k, c.data, t[k].total); }
  }

  lemma {:induction false} GaveUpTakesNoData(d: Detectors, t: Table, k: IdDir, j: IdDir, data: bytes, total: nat)
    requires Fits(t) && Abandoned(t, k, total) && j.dir != FromNone
    ensures Abandoned(InData(d, InData(d, t, j, data).0, Other(j), []).0, k, total)
  {
    hide InData, Fits, Abandoned;
    OtherOther(j);
    StaysAbandoned(d, t, k, j, data, total);
    StaysAbandoned(d, InData(d, t, j, data).0, k, Other(j), [], total);
  }

  lemma {:induction false} StaysAbandoned(d: Detectors, t: Table, k: IdDir, j: IdDir, data: bytes, total: nat)
    requires Fits(t) && Abandoned(t, k, total) && j.dir != FromNone
    ensures Fits(InData(d, t, j, data).0) && Abandoned(InData(d, t, j, data).0, k, total)
  {
    hide InData, Fits, Settled, Flat, IsSuffix, Other;
    DataTaken(d, t, j, data);
  }

  /** Give-up is absorbing: whatever calls follow, only closing the stream ends it. */
  lemma {:induction false} GiveUpIsAbsorbing(d: Detectors, log: seq<Call>, more: seq<Call>, k: IdDir)
    requires WellFormed(log + more)
    requires k in Replay(d, log) && Replay(d, log)[k].status == GaveUp
    requires forall n :: 0 <= n < |more| ==> !Closes(more[n], k)
    ensures Abandoned(Replay(d, log + more), k, Replay(d, log)[k].total)
    decreases |more|
  {
    hide Replay;
    if |more| == 0 {
      assert log + more == log;
      LogsConsistent(d, log);
      hide LinkFits, KindFits, QueueIsTail, AllSettled, Accounted;
      assert EntryFits(Replay(d, log)[k]);
    } else {
      var n := |more| - 1;
      var m, c := more[..n], more[n];
      assert log + more == log + m + [c] && (log + more)[..|log + m|] == log + m;
      PrefixWellFormed(log + more, |log + m|);
      CallAllowed(log + more, |log + m|);
      GiveUpIsAbsorbing(d, log, m, k);
      hide WellFormed;
      LogsConsistent(d, log + m);
      ReplayOne(d, log + m, c);
      hide OnCall, Fits, AllSettled, Streams, Accounted;
      GaveUpStays(d, Replay(d, log + m), k, c);
    }
  }

  lemma ReplayOne(d: Detectors, before: seq<Call>, c: Call)
    ensures Replay(d, before + [c]) == OnCall(d, Replay(d, before), c).0
  {
    Append1(before, c);
    hide OnCall;
  }

  // ------------------------------------------------------------------- pairing

  /** The parser of k, a server linked to the client parser of the other direction, has popped, in order, the first n
      of the methods its client pushed since the link, n being its header ends plus its trailers, and the client's
      queue is exactly the rest. */
  predicate PairedInOrder(t: Table, k: IdDir) {
    && k in t && t[k].proto.Http? && t[k].proto.link.Some?
    && Other(k) in t && t[Other(k)].proto.Http?
    && var base, marks := t[k].proto.link.value, t[k].proto.marks;
    && var n := HttpPairing.HeadPops(marks) + HttpPairing.TrailerPops(marks);
    && var pushed := HttpPairing.Pushes(t[Other(k)].proto.marks);
    && base + n <= |pushed|
    && HttpPairing.Pops(marks) == pushed[base..base + n]
    && t[Other(k)].proto.h.methods == pushed[base + n..]
  }

  predicate HasLink(t: Table, k: IdDir) {
    k in t && t[k].proto.Http? && t[k].proto.link.Some?
  }

  /** Over every log of calls, and for every link in the table. */
  lemma MethodsArePairedInOrder(d: Detectors, log: seq<Call>, k: IdDir)
    requires WellFormed(log) && HasLink(Replay(d, log), k)
    ensures PairedInOrder(Replay(d, log), k)
  {
    LogsConsistent(d, log);
    assert LinkFits(Replay(d, log), k);
    LinkCounts(Replay(d, log), k);
    hide *;
  }

  lemma LinkCounts(t: Table, k: IdDir)
    requires HasLink(t, k) && LinkFits(t, k)
    ensures PairedInOrder(t, k)
  {
    HttpPairing.PopCount(t[k].proto.marks);
    var base := t[k].proto.link.value;
    var pushed, popped := HttpPairing.Pushes(t[Other(k)].proto.marks), HttpPairing.Pops(t[k].proto.marks);
    var n := |popped|;
    hide HttpPairing.Pushes, HttpPairing.Pops, Other;
    assert pushed[base..][..n] == popped;
    assert pushed[base..][n..] == t[Other(k)].proto.h.methods;
    assert pushed[base..][..n] == pushed[base..base + n];
    assert pushed[base..][n..] == pushed[base + n..];
  }

  /** Mark i in the trace of k's parser is a header end that saw the method its client pushed as number base + n since
      the link, n counting the header ends and trailers before it: its own request's exactly when none was a trailer. */
  predicate PairedAt(t: Table, k: IdDir, i: nat) {
    && HasLink(t, k) && Other(k) in t && t[Other(k)].proto.Http?
    && var base, marks := t[k].proto.link.value, t[k].proto.marks;
    && var pushed := HttpPairing.Pushes(t[Other(k)].proto.marks);
    && i < |marks|
    && var n := HttpPairing.PopsBefore(marks, i);
    && base + n < |pushed| && marks[i] == H.PoppedAtHead(pushed[base + n])
    && (n == HttpPairing.HeadPops(marks[..i]) <==> HttpPairing.NoTrailerBefore(marks, i))
  }

  /** Over every log of calls, for every linked server parser and every response header it has read. */
  lemma {:induction false} EveryResponseIsPaired(d: Detectors, log: seq<Call>, k: IdDir, i: nat)
    requires WellFormed(log) && HasLink(Replay(d, log), k)
    requires i < |Replay(d, log)[k].proto.marks| && Replay(d, log)[k].proto.marks[i].PoppedAtHead?
    ensures PairedAt(Replay(d, log), k, i)
  {
    MethodsArePairedInOrder(d, log, k);
    PairsOne(Replay(d, log), k, i);
    hide *;
  }

  lemma PairsOne(t: Table, k: IdDir, i: nat)
    requires PairedInOrder(t, k) && i < |t[k].proto.marks| && t[k].proto.marks[i].PoppedAtHead?
    ensures PairedAt(t, k, i)
  {
    hide HttpPairing.Pushes, HttpPairing.Pops, HttpPairing.HeadPops, HttpPairing.TrailerPops, Other;
    hide HttpPairing.PopsBefore, HttpPairing.NoTrailerBefore;
    HttpPairing.PairIndex(t[k].proto.marks, i);
    HttpPairing.PopCount(t[k].proto.marks);
  }

  // ---------------------------------------------------------------------- runs

  /** An open stream was created and has not been closed since. */
  lemma {:induction false} OpenWasCreated(log: seq<Call>, k: IdDir) returns (i: nat)
    requires k in Streams(log)
    ensures i < |log| && log[i] == Created(k) && forall m :: i < m < |log| ==> !Closes(log[m], k)
    decreases |log|
  {
    var n := |log| - 1;
    if log[n] == Created(k) {
      i := n;
    } else {
      i := OpenWasCreated(log[..n], k);
      forall m | i < m < |log| ensures !Closes(log[m], k) {
        if m < n { assert log[..n][m] == log[m]; }
      }
    }
  }

  lemma OpenIsNotClosed(log: seq<Call>, n: nat, k: IdDir) returns (i: nat)
    requires n <= |log| && k in Streams(log[..n])
    ensures i < n && log[i] == Created(k) && !ClosedBetween(log, i, n, k)
  {
    i := OpenWasCreated(log[..n], k);
    assert forall m :: 0 <= m < n ==> log[..n][m] == log[m];
  }

  /** Creation of an open stream never happens in a log whose opens and closes alternate. */
  lemma AlternatingIsWellFormed(log: seq<Call>)
    requires Alternates(log) && forall n :: 0 <= n < |log| ==> log[n].k.dir != FromNone
    ensures WellFormed(log)
  {
    forall n | 0 <= n < |log| && log[n].Created? ensures log[n].k !in Streams(log[..n]) {
      if log[n].k in Streams(log[..n]) {
        var i := OpenIsNotClosed(log, n, log[n].k);
      }
    }
  }

  lemma {:induction false} CallsNameDirections(acts: seq<Action>)
    ensures forall n :: 0 <= n < |Exec(acts).log| ==> Exec(acts).log[n].k.dir != FromNone
    decreases |acts|
  {
    if |acts| > 0 {
      var before, a := acts[..|acts| - 1], acts[|acts| - 1];
      assert Exec(acts) == Step(Exec(before), a);
      hide Step, Exec, TcpWakeup.Awake;
      CallsNameDirections(before);
      TcpWakeup.AlwaysAwake(before);
      StepNamesDirections(Exec(before), a);
      SplitAt(Exec(before).log, Exec(acts).log);
    }
  }

  lemma SplitAt(log: seq<Call>, log': seq<Call>)
    requires |log| <= |log'| && log == log'[..|log|]
    ensures forall n :: 0 <= n < |log| ==> log'[n] == log[n]
  {
  }

  lemma StepNamesDirections(s: System, a: Action)
    requires TcpWakeup.Awake(s)
    ensures |s.log| <= |Step(s, a).log| && s.log == Step(s, a).log[..|s.log|]
    ensures forall n :: |s.log| <= n < |Step(s, a).log| ==> Step(s, a).log[n].k.dir != FromNone
  {
    hide TcpWakeup.Attention, Reserve, Deposit, Recorded, Collect, Take, RecvFin, RmFlow, NumPackets;
    if a.Consume? && s.consumer.Drain? && GetPacket(s.shared, s.consumer.id, s.consumer.dir).1.Some? {
      DrainStepLog(s);
      assert s.consumer.dir == Focus(s.consumer).value.dir;
      hide ConsumeStep, GetPacket, PassedOn, IsReset, Has;
    }
  }

  /** Every run of producer, collector and consumer, in any interleaving, leads the stream table through a log that
      is well formed; so its keys are the open streams, its entries account for all bytes they were given, and no
      parser is left with work it could do. */
  lemma {:induction false} EveryRunIsConsistent(d: Detectors, acts: seq<Action>)
    ensures WellFormed(Exec(acts).log) && Consistent(d, Exec(acts).log)
  {
    AlwaysAgrees(acts);
    CallsNameDirections(acts);
    assert Alternates(Exec(acts).log);
    hide Exec;
    AlternatingIsWellFormed(Exec(acts).log);
    hide WellFormed;
    LogsConsistent(d, Exec(acts).log);
    hide Consistent;
  }

  predicate RunsTls(t: Table, k: IdDir) {
    k in t && t[k].status == Running && t[k].proto.Tls?
  }

  /** The parser of entry i is where parsing the first i.total of the bytes sent, in one piece, would leave it. */
  predicate FollowsSender(i: Info, sent: bytes) {
    i.proto.Tls? && i.total <= |sent|
    && var r := S.Parse(S.FRESH, sent[..i.total]);
       r.s == i.proto.s && r.rest == Flat(i.segs)
  }

  /** End to end: in an honest world a running TLS stream has consumed, from the bytes its sender sent, a prefix,
      and its parser is where parsing that prefix in one piece would have left it. Only a FIN with data breaks the
      prefix. */
  lemma {:induction false} TlsFollowsTheSender(d: Detectors, acts: seq<Action>, w: World, k: IdDir)
    requires Honest(acts, w)
    requires Exec(acts).consumer != Closing(k.id) && RunsTls(Replay(d, Exec(acts).log), k)
    ensures var s := Exec(acts);
            && k in Replay(d, s.log) && k.id in s.shared.flow
            && var r := s.shared.flow[k.id];
            && var returned := HistOf(s.hist[r], k.dir).returned;
            && ((exists n :: 0 <= n < |returned| && FinWithData(returned[n]))
                || FollowsSender(Replay(d, s.log)[k], w(r, k.dir).data))
  {
    hide Exec, Replay, Streams, Fed;
    var s := Exec(acts);
    EveryRunIsConsistent(d, acts);
    RunningTls(d, s.log, k);
    hide RunsTls;
    StreamsAreFedPrefixes(acts, w, k);
    var fed, sent := Fed(s.log, k), w(s.shared.flow[k.id], k.dir).data;
    assert fed <= sent ==> sent[..|fed|] == fed;
    hide FinWithData, S.Parse, Flat, Honest, Consistent, WellFormed, HistOf, Joined, Plain;
  }

  lemma {:induction false} RunningTls(d: Detectors, log: seq<Call>, k: IdDir)
    requires Consistent(d, log) && RunsTls(Replay(d, log), k)
    ensures k in Streams(log) && k in Replay(d, log)
    ensures FollowsSender(Replay(d, log)[k], Fed(log, k)) && Replay(d, log)[k].total == |Fed(log, k)|
  {
    hide Replay, Streams, Fed;
    var fed := Fed(log, k);
    assert Accounted(Replay(d, log)[k], fed);
    assert fed[..|fed|] == fed;
    hide Fits, AllSettled;
  }
}
