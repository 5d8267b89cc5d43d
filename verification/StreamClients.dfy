/** What an HTTP client stream did, over any run, in terms of the bytes of its stream alone
    (src/cdpi_stream.cpp, src/cdpi_http.cpp). */
module StreamClients {
  import opened Bytes
  import opened FlowId
  import H = HttpSpec
  import HttpPairing
  import HttpSegmentation
  import HttpShadow
  import S = SslSpec
  import opened TcpSystem
  import opened TcpSafety
  import opened TcpStreams
  import opened StreamSpec
  import opened StreamTheorems
  import opened StreamRuns

  /** The parse in one piece, by a parser nobody pops methods from. */
  function Alone(fed: bytes): H.Result { H.Parse(FreshHttp(H.Client), None, fed) }

  /** The parser did what parsing r's input in one piece does, and is in the same state but for popped methods. */
  predicate DidTheSame(p: Proto, r: H.Result, rest: bytes) {
    && p.Http? && p.link.None? && r.stop.None? && r.rest == rest && r.marks == p.marks
    && r.h == p.h.(methods := HttpPairing.Pushes(p.marks))
  }

  predicate ClientFollows(i: Info, fed: bytes) {
    i.status == Running && i.kind == HttpClient ==> DidTheSame(i.proto, Alone(fed), Flat(i.segs))
  }

  lemma SeenByNobody(fed: bytes)
    ensures Alone(fed).peer == None && Alone(fed).h.methods == HttpPairing.Pushes(Alone(fed).marks)
  {
    HttpPairing.ParseQueue(FreshHttp(H.Client), None, fed);
    assert [] + HttpPairing.Pushes(Alone(fed).marks) == HttpPairing.Pushes(Alone(fed).marks);
    hide H.Parse;
  }

  lemma {:induction false} ClientParses(p: Proto, fed: bytes, data: bytes, rest: bytes)
    requires DidTheSame(p, Alone(fed), rest) && QueueIsTail(p)
    requires H.Parse(p.h, None, rest + data).stop.None?
    ensures var r := H.Parse(p.h, None, rest + data);
            DidTheSame(Http(r.h, p.link, p.marks + r.marks), Alone(fed + data), r.rest)
  {
    hide H.Parse, HttpPairing.Pushes, HttpPairing.RoleFits, HttpSegmentation.AtPartOfSizeLine;
    var s := Alone(fed);
    SeenByNobody(fed);
    SeenByNobody(fed + data);
    HttpSegmentation.SegmentationDoesNotMatter(FreshHttp(H.Client), None, fed, data);
    HttpShadow.PoppingDoesNotMatter(p.h, s.h, None, rest + data);
    hide FreshHttp;
  }

  lemma {:induction false} ClientTakes(t: Table, k: IdDir, fed: bytes, data: bytes)
    requires Fits(t) && ReadyForHttp(t, k) && t[k].kind == HttpClient && k.dir != FromNone
    requires var s := Alone(fed); Flat(t[k].segs) == s.rest + data && DidTheSame(t[k].proto, s, s.rest)
    ensures k in ParseHttp(t, k).0 && ClientFollows(ParseHttp(t, k).0[k], fed + data)
  {
    var i := t[k];
    var r := H.Parse(i.proto.h, None, Flat(i.segs));
    assert EntryFits(i);
    hide Alone, Flat, DidTheSame;
    assert i.proto.link.None? by { DidTheSameHasNoLink(i.proto, Alone(fed), Alone(fed).rest); }
    assert QueueFor(t, k) == None;
    HttpPairing.ParseQueue(i.proto.h, None, Flat(i.segs));
    hide H.Parse;
    ApplyHttpShape(t, k, r);
    FlatLeft(r.rest);
    if r.stop.None? { ClientParses(i.proto, fed, data, Alone(fed).rest); }
    hide ApplyHttp;
  }

  lemma DidTheSameHasNoLink(p: Proto, r: H.Result, rest: bytes)
    requires DidTheSame(p, r, rest)
    ensures p.link.None?
  {
  }

  lemma FreshFollows()
    ensures DidTheSame(Http(FreshHttp(H.Client), None, []), Alone([]), Alone([]).rest) && Alone([]).rest == []
  {
    assert UpTo([], H.METHOD_CAP, LF) == [];
    assert H.Step(FreshHttp(H.Client), None, []) == H.Wait;
  }

  // ------------------------------------------------------------------ one call

  lemma KindStays(t: Table, k: IdDir)
    requires k in t && k.dir != FromNone
    ensures k in RunParser(t, k).0
    ensures RunParser(t, k).0[k].kind == t[k].kind || RunParser(t, k).0[k].kind == HttpProxy
  {
    OtherOther(k);
    hide H.Parse, S.Parse, Flat;
  }

  lemma {:induction false} InDataClient(d: Detectors, t: Table, k: IdDir, data: bytes, fed: bytes)
    requires Fits(t) && k.dir != FromNone && k in t && Accounted(t[k], fed) && ClientFollows(t[k], fed)
    ensures k in InData(d, t, k, data).0 && ClientFollows(InData(d, t, k, data).0[k], fed + data)
  {
    if t[k].status == Running {
      var i := Received(t[k], data);
      FlatAppend(t[k].segs, data);
      assert Flat(t[k].segs) + [] == Flat(t[k].segs);
      assert EntryFits(t[k]);
      hide Flat, Alone, S.Parse;
      if i.kind == HttpProxy {
      } else if i.kind == Undetected {
        DetectedClient(d, t, k, i, fed + data);
        hide RunParser, Detect;
      } else {
        SameProto(t, k, i);
        KindStays(t[k := i], k);
        if i.kind == HttpClient { ClientTakes(t[k := i], k, fed, data); }
        hide ParseHttp, ParseTls, DidTheSame;
      }
    }
  }

  lemma {:induction false} DetectedClient(d: Detectors, t: Table, k: IdDir, i: Info, fed: bytes)
    requires Fits(t) && k in t && k.dir != FromNone && t[k].kind == Undetected && t[k].status == Running
    requires i == t[k].(segs := i.segs, total := i.total) && Flat(i.segs) == fed
    ensures match Detect(d, t, k, i.segs)
            case None => true
            case Some((kind, proto)) =>
              var t' := RunParser(t[k := i.(kind := kind, proto := proto)], k).0;
              k in t' && ClientFollows(t'[k], fed)
  {
    hide Detect, Alone, Flat, DidTheSame, ParseHttp, ParseTls, Fits, S.Parse, RunParser, FreshHttp;
    var found := Detect(d, t, k, i.segs);
    if found.Some? {
      var (kind, proto) := found.value;
      var t1 := t[k := i.(kind := kind, proto := proto)];
      NewProtoFits(t, d, k, i);
      KindStays(t1, k);
      if kind == HttpClient {
        DetectedAsClient(d, t, k, i.segs);
        FreshFollows();
        assert [] + fed == fed;
        ClientTakes(t1, k, [], fed);
        ClientRuns(t1, k);
      }
    }
  }

  lemma ClientRuns(t: Table, k: IdDir)
    requires k in t && t[k].kind == HttpClient && t[k].proto.Http?
    ensures RunParser(t, k) == ParseHttp(t, k)
  {
    hide ParseHttp;
  }

  lemma DetectedAsClient(d: Detectors, t: Table, k: IdDir, segs: seq<bytes>)
    ensures var r := Detect(d, t, k, segs);
            r.Some? && r.value.0 == HttpClient ==> r.value.1 == Http(FreshHttp(H.Client), None, [])
  {
    hide FreshHttp;
  }

  lemma SameButQueueFollows(i: Info, j: Info, fed: bytes)
    requires SameButQueue(i, j) && ClientFollows(j, fed)
    ensures ClientFollows(i, fed)
  {
    hide Alone, Flat;
    if i.proto.Http? {
      assert j.proto.h.(methods := HttpPairing.Pushes(j.proto.marks))
          == i.proto.h.(methods := HttpPairing.Pushes(i.proto.marks));
    }
  }

  lemma {:induction false} DataInClient(d: Detectors, t: Table, k: IdDir, data: bytes, j: IdDir, fed: bytes)
    requires Fits(t) && k.dir != FromNone && j in t && Accounted(t[j], fed) && ClientFollows(t[j], fed)
    ensures var t1 := InData(d, t, k, data).0;
            var t2 := InData(d, t1, Other(k), []).0;
            j in t2 && ClientFollows(t2[j], if j == k then fed + data else fed)
  {
    hide InData, Accounted, Fits, ClientFollows, SameButQueue;
    var o := Other(k);
    var t1 := InData(d, t, k, data).0;
    OtherOther(k);
    DataTaken(d, t, k, data);
    DataTaken(d, t1, o, []);
    var t2 := InData(d, t1, o, []).0;
    if j == k {
      InDataClient(d, t, k, data, fed);
      SameButQueueFollows(t2[k], t1[k], fed + data);
    } else if j == o {
      SameButQueueFollows(t1[o], t[o], fed);
      SameButQueueAccounted(t1[o], t[o], fed);
      InDataClient(d, t1, o, [], fed);
      assert fed + [] == fed;
    }
  }

  // ---------------------------------------------------------------------- logs

  ghost predicate ClientsFollow(t: Table, log: seq<Call>) {
    forall k :: k in t ==> ClientFollows(t[k], Fed(log, k))
  }

  lemma DestroyedFollows(t: Table, k: IdDir, j: IdDir, fed: bytes)
    requires j in DestroyStream(t, k) && (j in t ==> ClientFollows(t[j], fed))
    ensures ClientFollows(DestroyStream(t, k)[j], fed)
  {
    hide Alone, Flat;
  }

  lemma {:induction false} CallFollows(d: Detectors, before: seq<Call>, c: Call, j: IdDir)
    requires Consistent(d, before) && c.k.dir != FromNone && (c.Created? ==> c.k !in Streams(before))
    requires ClientsFollow(Replay(d, before), before) && j in Replay(d, before + [c])
    ensures ClientFollows(Replay(d, before + [c])[j], Fed(before + [c], j))
  {
    Append1(before, c);
    var t := Replay(d, before);
    assert j in t ==> Accounted(t[j], Fed(before, j)) && ClientFollows(t[j], Fed(before, j));
    match c {
      case Created(k) =>
      case DataIn(k, data) =>
        DataInKeys(d, t, k, data);
        DataInClient(d, t, k, data, j, Fed(before, j));
      case Destroyed(k) => DestroyedFollows(t, k, j, Fed(before, j));
      case Error(k) => DestroyedFollows(t, k, j, Fed(before, j));
    }
    hide InData, DestroyStream, Accounted, Fits, AllSettled, Alone;
  }

  lemma {:induction false} LogsFollow(d: Detectors, log: seq<Call>)
    requires WellFormed(log)
    ensures ClientsFollow(Replay(d, log), log)
    decreases |log|
  {
    if |log| > 0 {
      var n := |log| - 1;
      var before := log[..n];
      PrefixWellFormed(log, n);
      assert log[n].k.dir != FromNone && (log[n].Created? ==> log[n].k !in Streams(before));
      LogsFollow(d, before);
      LogsConsistent(d, before);
      hide Replay, Streams, Fed, Consistent, ClientFollows;
      assert before + [log[n]] == log;
      forall j | j in Replay(d, log) ensures ClientFollows(Replay(d, log)[j], Fed(log, j)) {
        CallFollows(d, before, log[n], j);
      }
    }
  }

  // ---------------------------------------------------------------------- runs

  predicate RunsHttpClient(t: Table, k: IdDir) {
    k in t && t[k].status == Running && t[k].kind == HttpClient
  }

  /** End to end: in an honest world a running HTTP client stream has produced exactly the trace, and left exactly
      the bytes, that parsing a prefix of what its sender sent produces and leaves in one piece, with the server's
      pops invisible. Only a FIN with data breaks the prefix. */
  lemma {:induction false} HttpClientFollowsTheSender(d: Detectors, acts: seq<Action>, w: World, k: IdDir)
    requires Honest(acts, w)
    requires Exec(acts).consumer != Closing(k.id) && RunsHttpClient(Replay(d, Exec(acts).log), k)
    ensures var s := Exec(acts);
            && k in Replay(d, s.log) && k.id in s.shared.flow
            && var r := s.shared.flow[k.id];
            && var returned := HistOf(s.hist[r], k.dir).returned;
            && ((exists n :: 0 <= n < |returned| && FinWithData(returned[n]))
                || ClientFollowsSender(Replay(d, s.log)[k], w(r, k.dir).data))
  {
    hide Exec, Replay, Streams, Fed;
    var s := Exec(acts);
    EveryRunIsConsistent(d, acts);
    RunningClient(d, s.log, k);
    hide RunsHttpClient;
    StreamsAreFedPrefixes(acts, w, k);
    hide FinWithData, ClientFollowsSender, Honest, Consistent, WellFormed, HistOf, Joined, Plain;
    var fed, sent := Fed(s.log, k), w(s.shared.flow[k.id], k.dir).data;
    if fed <= sent { PrefixOfSent(Replay(d, s.log)[k], fed, sent); }
  }

  lemma {:induction false} PrefixOfSent(i: Info, fed: bytes, sent: bytes)
    requires ClientFollowsSender(i, fed) && i.total == |fed| && fed <= sent
    ensures ClientFollowsSender(i, sent)
  {
    assert sent[..|fed|] == fed == fed[..|fed|];
    hide Alone, DidTheSame, Flat;
  }

  predicate ClientFollowsSender(i: Info, sent: bytes) {
    i.total <= |sent| && DidTheSame(i.proto, Alone(sent[..i.total]), Flat(i.segs))
  }

  lemma RunningClient(d: Detectors, log: seq<Call>, k: IdDir)
    requires WellFormed(log) && Consistent(d, log) && RunsHttpClient(Replay(d, log), k)
    ensures k in Streams(log) && k in Replay(d, log)
    ensures ClientFollowsSender(Replay(d, log)[k], Fed(log, k)) && Replay(d, log)[k].total == |Fed(log, k)|
  {
    hide Replay, Streams, Fed;
    LogsFollow(d, log);
    var fed := Fed(log, k);
    assert Accounted(Replay(d, log)[k], fed) && ClientFollows(Replay(d, log)[k], fed);
    assert fed[..|fed|] == fed;
    hide Fits, AllSettled, WellFormed, Alone, DidTheSame, Flat;
  }
}
