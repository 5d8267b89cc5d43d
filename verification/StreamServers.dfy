/** What a linked HTTP server stream did, over any run, in terms of the bytes of its stream and the methods its client
    pushed (src/cdpi_stream.cpp, src/cdpi_http.cpp). */
module StreamServers {
  import opened Bytes
  import opened FlowId
  import H = HttpSpec
  import HttpPairing
  import HttpSegmentation
  import S = SslSpec
  import opened TcpSystem
  import opened TcpSafety
  import opened TcpStreams
  import opened StreamSpec
  import opened StreamTheorems
  import opened StreamRuns

  /** The parse in one piece, with all the client's methods there from the start. */
  function Served(given: seq<bytes>, fed: bytes): H.Result { H.Parse(FreshHttp(H.Server), Some(given), fed) }

  /** The parser is where that parse ends, and so is its client's queue. */
  predicate ServedSame(p: Proto, given: seq<bytes>, left: seq<bytes>, rest: bytes, fed: bytes) {
    p.Http? && Served(given, fed) == H.Result(None, p.h, Some(left), rest, p.marks)
  }

  /** The methods the client of k pushed since the link. */
  function GivenTo(t: Table, k: IdDir): seq<bytes>
    requires HasLink(t, k) && LinkFits(t, k)
  {
    HttpPairing.Pushes(t[Other(k)].proto.marks)[t[k].proto.link.value..]
  }

  predicate RunsHttpServer(t: Table, k: IdDir) {
    HasLink(t, k) && t[k].status == Running && t[k].kind == HttpServer
  }

  predicate ServerFollows(t: Table, k: IdDir, fed: bytes) {
    RunsHttpServer(t, k) ==>
      LinkFits(t, k) && ServedSame(t[k].proto, GivenTo(t, k), t[Other(k)].proto.h.methods, Flat(t[k].segs), fed)
  }

  // ---------------------------------------------------------------- one parser run

  /** More bytes, or more methods. */
  lemma {:induction false} ServerParses(p: Proto, given: seq<bytes>, left: seq<bytes>, rest: bytes, fed: bytes,
                                        x: seq<bytes>, data: bytes)
    requires ServedSame(p, given, left, rest, fed) && (x == [] || data == [])
    requires H.Parse(p.h, Some(left + x), rest + data).stop.None?
    ensures var r := H.Parse(p.h, Some(left + x), rest + data);
            && r.peer.Some?
            && ServedSame(Http(r.h, p.link, p.marks + r.marks), given + x, r.peer.value, r.rest, fed + data)
  {
    hide H.Parse, FreshHttp, HttpSegmentation.AtPartOfSizeLine;
    var f := FreshHttp(H.Server);
    HttpPairing.LateMethodsDoNotMatter(p.h, left + x, [], rest + data);
    if data == [] {
      HttpPairing.LateMethodsDoNotMatter(f, given, x, fed);
      assert rest + data == rest && fed + data == fed;
    } else {
      HttpSegmentation.SegmentationDoesNotMatter(f, Some(given), fed, data);
      assert left + x == left && given + x == given;
    }
  }

  /** The entry of a linked server after its parser ran. */
  lemma {:induction false} ServerTakes(t: Table, k: IdDir, given: seq<bytes>, left: seq<bytes>, rest: bytes, fed: bytes,
                                       x: seq<bytes>, data: bytes)
    requires Fits(t) && RunsHttpServer(t, k) && (x == [] || data == [])
    requires ServedSame(t[k].proto, given, left, rest, fed) && Flat(t[k].segs) == rest + data
    requires LinkFits(t, k) && t[Other(k)].proto.h.methods == left + x && GivenTo(t, k) == given + x
    ensures ServerFollows(ParseHttp(t, k).0, k, fed + data)
  {
    hide ServedSame, Flat, GivenTo, EntryFits, HttpPairing.Pushes, HttpPairing.Pops, HttpPairing.QueueMoved, Other;
    var t', q := ParseHttp(t, k).0, QueueFor(t, k);
    var r := H.Parse(t[k].proto.h, q, Flat(t[k].segs));
    assert q == Some(left + x);
    ReadyFits(t, k);
    HttpPairing.ParseQueue(t[k].proto.h, q, Flat(t[k].segs));
    RunStays(t, k, r);
    hide H.Parse, ApplyHttp, Fits;
    FlatLeft(r.rest);
    if RunsHttpServer(t', k) {
      hide LinkFits;
      SameGiven(t, t', k);
      ServerParses(t[k].proto, given, left, rest, fed, x, data);
    }
  }

  /** The shape of the table after the parser of a linked server ran. */
  lemma RunStays(t: Table, k: IdDir, r: H.Result)
    requires Fits(t) && RunsHttpServer(t, k) && LinkFits(t, k)
    requires HttpPairing.QueueMoved(t[k].proto.h, QueueFor(t, k), r)
    ensures var t' := ApplyHttp(t, k, r);
            && k in t' && t'[k].proto == Http(r.h, t[k].proto.link, t[k].proto.marks + r.marks) && LinkFits(t', k)
            && Other(k) in t' && t'[Other(k)].proto.Http? && SameButQueue(t'[Other(k)], t[Other(k)])
            && r.peer.Some? && t'[Other(k)].proto.h.methods == r.peer.value
            && (RunsHttpServer(t', k) ==> r.stop.None? && t'[k].segs == Left(r.rest))
  {
    assert k.dir != FromNone;
    MovedBoth(t, k, r);
    ApplyHttpShape(t, k, r);
    hide ApplyHttp, Fits, EntryFits, LinkFits, HttpPairing.QueueMoved;
  }

  lemma SameGiven(t: Table, t': Table, k: IdDir)
    requires HasLink(t, k) && HasLink(t', k) && LinkFits(t, k) && LinkFits(t', k)
    requires t'[k].proto.link == t[k].proto.link && SameButQueue(t'[Other(k)], t[Other(k)])
    ensures GivenTo(t', k) == GivenTo(t, k)
  {
    hide HttpPairing.Pushes, HttpPairing.Pops, Other;
  }

  // --------------------------------------------------------------- the client's run

  /** What the run of a client does to its own entry, and that it leaves its server alone. */
  lemma {:induction false} ClientPushes(d: Detectors, t: Table, k: IdDir, data: bytes) returns (m: seq<H.Mark>)
    requires Fits(t) && k in t && k.dir != FromNone && t[k].proto.Http? && t[k].proto.link.None?
    ensures var t' := InData(d, t, k, data).0;
            && k in t' && t'[k].proto.Http? && t'[k].proto.link.None? && t'[k].proto.marks == t[k].proto.marks + m
            && t'[k].proto.h.methods == t[k].proto.h.methods + HttpPairing.Pushes(m)
            && (Other(k) in t ==> Other(k) in t' && t'[Other(k)] == t[Other(k)])
  {
    OtherOther(k);
    ClientFits(t, k);
    var i := Received(t[k], data);
    assert i.proto == t[k].proto && i.kind == t[k].kind && i.status == t[k].status;
    hide Received, Flat, Other, HttpPairing.RoleFits, HttpPairing.Pushes, ApplyHttp, H.Parse, Fits, Detect;
    if t[k].status == Running && (i.kind == HttpClient || i.kind == HttpServer) {
      var u := t[k := i];
      var r := H.Parse(i.proto.h, None, Flat(i.segs));
      HttpPairing.ParseQueue(i.proto.h, None, Flat(i.segs));
      ApplyHttpShape(u, k, r);
      m := r.marks;
    } else {
      m := [];
      assert t[k].proto.marks + [] == t[k].proto.marks && HttpPairing.Pushes([]) == [] by { NoPushes(); }
      assert t[k].proto.h.methods + [] == t[k].proto.h.methods;
    }
  }

  lemma NoPushes()
    ensures HttpPairing.Pushes([]) == []
  {
  }

  lemma ClientFits(t: Table, k: IdDir)
    requires Fits(t) && k in t && t[k].proto.Http?
    ensures KindFits(t[k]) && HttpPairing.RoleFits(t[k].proto.h)
  {
    assert EntryFits(t[k]);
  }

  // ------------------------------------------------------------------- one segment

  lemma FreshServes(q: seq<bytes>, link: Option<nat>)
    ensures ServedSame(Http(FreshHttp(H.Server), link, []), q, q, [], [])
  {
    assert UpTo([], H.METHOD_CAP, LF) == [];
    assert H.Step(FreshHttp(H.Server), Some(q), []) == H.Wait;
  }

  lemma DetectedServer(d: Detectors, t: Table, k: IdDir, i: Info, fed: bytes)
    requires Fits(t) && k in t && k.dir != FromNone && t[k].kind == Undetected && t[k].status == Running
    requires i == t[k].(segs := i.segs, total := i.total) && Flat(i.segs) == fed
    ensures match Detect(d, t, k, i.segs)
            case None => true
            case Some((kind, proto)) =>
              ServerFollows(RunParser(t[k := i.(kind := kind, proto := proto)], k).0, k, fed)
  {
    hide Detect, Flat, ParseHttp, ParseTls, Fits, ServedSame, RunParser, FreshHttp, ServerFollows, GivenTo;
    match Detect(d, t, k, i.segs) {
      case None =>
      case Some((kind, proto)) =>
        var t1 := t[k := i.(kind := kind, proto := proto)];
        NewProtoFits(t, d, k, i);
        if RunsHttpServer(t1, k) {
          DetectedAsServer(d, t, k, i.segs);
          var q := NewLinkGives(t1, k);
          FreshServes(q, proto.link);
          assert [] + fed == fed && q + [] == q;
          ServerTakes(t1, k, q, q, [], [], [], fed);
          ServerRuns(t1, k);
        } else {
          NoServerNoFollow(t1, k, fed);
        }
    }
  }

  lemma ServerRuns(t: Table, k: IdDir)
    requires k in t && t[k].kind == HttpServer && t[k].proto.Http?
    ensures RunParser(t, k) == ParseHttp(t, k)
  {
    hide ParseHttp;
  }

  lemma DetectedAsServer(d: Detectors, t: Table, k: IdDir, segs: seq<bytes>)
    ensures var r := Detect(d, t, k, segs);
            r.Some? && r.value.0 == HttpServer ==> r.value.1 == Http(FreshHttp(H.Server), LinkFor(t, k), [])
  {
    hide FreshHttp, LinkFor;
  }

  /** A new link starts with the client's queue. */
  lemma NewLinkGives(t: Table, k: IdDir) returns (q: seq<bytes>)
    requires Fits(t) && HasLink(t, k) && t[k].proto.marks == []
    ensures LinkFits(t, k) && q == t[Other(k)].proto.h.methods && GivenTo(t, k) == q
  {
    assert LinkFits(t, k) && HttpPairing.Pops([]) == [];
    q := t[Other(k)].proto.h.methods;
    assert [] + q == q;
    hide HttpPairing.Pushes, Other;
  }

  /** What is no linked running server before its run is none after it. */
  lemma NoServerNoFollow(t: Table, k: IdDir, fed: bytes)
    requires k in t && k.dir != FromNone && !RunsHttpServer(t, k)
    ensures ServerFollows(RunParser(t, k).0, k, fed)
  {
    OtherOther(k);
    hide H.Parse, S.Parse, Flat, LinkFits, ServedSame, GivenTo;
  }

  lemma {:induction false} InDataServer(d: Detectors, t: Table, k: IdDir, data: bytes, fed: bytes)
    requires Fits(t) && k.dir != FromNone && k in t && Accounted(t[k], fed) && ServerFollows(t, k, fed)
    ensures ServerFollows(InData(d, t, k, data).0, k, fed + data)
  {
    if t[k].status == Running {
      var i := Received(t[k], data);
      ReceivedSame(t[k], data);
      assert EntryFits(t[k]);
      hide Flat, Received, RunParser, Detect, S.Parse, EntryFits, ServedSame, GivenTo;
      if i.kind == HttpProxy {
      } else if i.kind == Undetected {
        DetectedServer(d, t, k, i, fed + data);
      } else if RunsHttpServer(t, k) {
        ServerGoesOn(t, k, i, fed, data);
      } else {
        NoServerNoFollow(t[k := i], k, fed + data);
      }
    }
  }

  lemma ReceivedSame(i: Info, data: bytes)
    ensures var j := Received(i, data);
            && j == i.(segs := j.segs, total := j.total) && Flat(j.segs) == Flat(i.segs) + data
  {
    FlatAppend(i.segs, data);
    assert Flat(i.segs) + [] == Flat(i.segs);
    hide Flat;
  }

  lemma ServerGoesOn(t: Table, k: IdDir, i: Info, fed: bytes, data: bytes)
    requires Fits(t) && k.dir != FromNone && RunsHttpServer(t, k) && ServerFollows(t, k, fed)
    requires i == t[k].(segs := i.segs, total := i.total) && Flat(i.segs) == Flat(t[k].segs) + data
    ensures ServerFollows(RunParser(t[k := i], k).0, k, fed + data)
  {
    assert EntryFits(t[k]) && LinkFits(t, k);
    OtherOther(k);
    hide Flat, RunParser, ParseHttp, ServedSame, Fits, HttpPairing.Pushes, HttpPairing.Pops;
    var u, left := t[k := i], t[Other(k)].proto.h.methods;
    SameProto(t, k, i);
    ServerRuns(u, k);
    assert left + [] == left && GivenTo(t, k) + [] == GivenTo(t, k) && GivenTo(u, k) == GivenTo(t, k);
    ServerTakes(u, k, GivenTo(t, k), left, Flat(t[k].segs), fed, [], data);
  }

  /** The client pushed some methods, and the server runs again on what it has. */
  lemma {:induction false} ServerCatchesUp(d: Detectors, t: Table, u: Table, k: IdDir, m: seq<H.Mark>, fed: bytes)
    requires Fits(u) && k.dir != FromNone && RunsHttpServer(t, k) && ServerFollows(t, k, fed)
    requires k in u && u[k] == t[k] && Other(k) in u && u[Other(k)].proto.Http? && u[Other(k)].proto.link.None?
    requires u[Other(k)].proto.marks == t[Other(k)].proto.marks + m
    requires u[Other(k)].proto.h.methods == t[Other(k)].proto.h.methods + HttpPairing.Pushes(m)
    ensures ServerFollows(InData(d, u, k, []).0, k, fed)
  {
    var x, left := HttpPairing.Pushes(m), t[Other(k)].proto.h.methods;
    assert LinkFits(u, k) && LinkFits(t, k);
    hide HttpPairing.Pushes, HttpPairing.Pops, Flat, ParseHttp, ServedSame, Fits, Other, InData, RunParser, GivenTo,
      LinkFits;
    GivenGrows(t, u, k, m);
    NoNewData(d, u, k);
    assert Flat(u[k].segs) + [] == Flat(u[k].segs) && fed + [] == fed;
    ServerTakes(u, k, GivenTo(t, k), left, Flat(u[k].segs), fed, x, []);
    ServerRuns(u, k);
  }

  lemma GivenGrows(t: Table, u: Table, k: IdDir, m: seq<H.Mark>)
    requires HasLink(t, k) && LinkFits(t, k) && HasLink(u, k) && LinkFits(u, k)
    requires u[k].proto.link == t[k].proto.link && u[Other(k)].proto.marks == t[Other(k)].proto.marks + m
    ensures GivenTo(u, k) == GivenTo(t, k) + HttpPairing.Pushes(m)
  {
    var x, pushed := HttpPairing.Pushes(m), HttpPairing.Pushes(t[Other(k)].proto.marks);
    var base := t[k].proto.link.value;
    HttpPairing.TracesConcat(t[Other(k)].proto.marks, m);
    hide HttpPairing.Pushes, HttpPairing.Pops, Other;
    assert (pushed + x)[base..] == pushed[base..] + x;
  }

  /** A second look at a detected stream is a run of its parser. */
  lemma NoNewData(d: Detectors, t: Table, k: IdDir)
    requires k in t && t[k].status == Running && t[k].kind == HttpServer
    ensures InData(d, t, k, []).0 == RunParser(t, k).0
  {
    assert t[k := t[k]] == t && Received(t[k], []) == t[k];
    hide RunParser, Detect;
  }

  // ----------------------------------------------------------------------- one call

  /** The table after STREAM_DATA_IN. */
  function BothParsed(d: Detectors, t: Table, k: IdDir, data: bytes): Table {
    InData(d, InData(d, t, k, data).0, Other(k), []).0
  }

  lemma OwnDataServer(d: Detectors, t: Table, k: IdDir, data: bytes, fed: bytes)
    requires Fits(t) && AllSettled(t) && k.dir != FromNone && k in t && Accounted(t[k], fed) && ServerFollows(t, k, fed)
    ensures ServerFollows(BothParsed(d, t, k, data), k, fed + data)
  {
    var t1, o := InData(d, t, k, data).0, Other(k);
    OtherOther(k);
    DataTaken(d, t, k, data);
    InDataServer(d, t, k, data, fed);
    hide InData, ServedSame, Settled, Flat, EntryFits, IsSuffix, HttpPairing.Pushes, HttpPairing.Pops;
    DataTaken(d, t1, o, []);
    var t2 := InData(d, t1, o, []).0;
    assert Took(t, t1, k, data) && Took(t1, t2, o, []);
    if RunsHttpServer(t1, k) {
      ClientStays(d, t, t1, k, data);
    } else {
      StillNoServer(t1, t2, k);
    }
  }

  lemma StillNoServer(t: Table, t': Table, k: IdDir)
    requires k in t && k in t' && SameButQueue(t'[k], t[k]) && !RunsHttpServer(t, k)
    ensures !RunsHttpServer(t', k)
  {
  }

  /** A settled client that gets nothing changes nothing. */
  lemma ClientStays(d: Detectors, t: Table, t1: Table, k: IdDir, data: bytes)
    requires Fits(t) && AllSettled(t) && k.dir != FromNone && k in t && t1 == InData(d, t, k, data).0
    requires Took(t, t1, k, data) && HasLink(t1, k)
    ensures var t2 := InData(d, t1, Other(k), []).0;
            && k in t2 && t2[k] == t1[k] && Other(k) in t2 && t2[Other(k)].proto == t1[Other(k)].proto
  {
    var o := Other(k);
    OtherOther(k);
    assert LinkFits(t1, k);
    hide InData, EntryFits, HttpPairing.Pushes, HttpPairing.Pops, Settled;
    assert Settled(t, o) && SameButQueue(t1[o], t[o]);
    assert t[o].proto.Http? && t[o].proto.link.None?;
    SameNoQueue(t, t1, o);
    SettledUpToQueue(t, t1, o);
    NothingNew(d, t1, o);
    var m := ClientPushes(d, t1, o, []);
  }

  lemma SameNoQueue(t: Table, t': Table, o: IdDir)
    requires o in t && o in t' && t[o].proto.Http? && t'[o].proto.Http?
    requires t[o].proto.link.None? && t'[o].proto.link.None?
    ensures QueueFor(t', o) == QueueFor(t, o)
  {
  }

  lemma PeerDataServer(d: Detectors, t: Table, k: IdDir, data: bytes, fed: bytes)
    requires Fits(t) && k.dir != FromNone && Other(k) in t
    requires Accounted(t[Other(k)], fed) && ServerFollows(t, Other(k), fed)
    ensures ServerFollows(BothParsed(d, t, k, data), Other(k), fed)
  {
    var t1, o := InData(d, t, k, data).0, Other(k);
    OtherOther(k);
    DataTaken(d, t, k, data);
    assert fed + [] == fed;
    hide ServedSame, Settled, Flat, EntryFits, IsSuffix, GivenTo, Accounted, Received, Detect, RunParser;
    if RunsHttpServer(t, o) {
      assert LinkFits(t, o);
      var m := ClientPushes(d, t, k, data);
      ServerCatchesUp(d, t, t1, o, m, fed);
    } else {
      assert SameButQueue(t1[o], t[o]);
      StillNoServer(t, t1, o);
      SameButQueueAccounted(t1[o], t[o], fed);
      InDataServer(d, t1, o, [], fed);
    }
    hide InData;
  }

  lemma OtherDataServer(d: Detectors, t: Table, k: IdDir, data: bytes, j: IdDir, fed: bytes)
    requires Fits(t) && k.dir != FromNone && j in t && j != k && j != Other(k) && ServerFollows(t, j, fed)
    ensures ServerFollows(BothParsed(d, t, k, data), j, fed)
  {
    assert j.dir != FromNone;
    OtherOther(k);
    OtherOther(j);
    assert Other(j) != k && Other(j) != Other(k);
    hide InData, ServedSame, Settled, Flat, EntryFits, HttpPairing.Pushes, HttpPairing.Pops, Other;
    var t1 := InData(d, t, k, data).0;
    DataTaken(d, t, k, data);
    DataTaken(d, t1, Other(k), []);
    SameServer(t, BothParsed(d, t, k, data), j, fed);
  }

  lemma SameServer(t: Table, t': Table, j: IdDir, fed: bytes)
    requires j in t && j in t' && t'[j] == t[j] && ServerFollows(t, j, fed)
    requires Other(j) in t ==> Other(j) in t' && t'[Other(j)] == t[Other(j)]
    ensures ServerFollows(t', j, fed)
  {
    hide ServedSame, Flat, HttpPairing.Pushes, HttpPairing.Pops, Other;
  }

  // --------------------------------------------------------------------------- logs

  ghost predicate ServersFollow(t: Table, log: seq<Call>) {
    forall k :: k in t ==> ServerFollows(t, k, Fed(log, k))
  }

  lemma CreatedServer(t: Table, k: IdDir, j: IdDir, fed: bytes)
    requires k !in t && (j == k || (j in t && ServerFollows(t, j, fed)))
    ensures ServerFollows(t[k := NEW_INFO], j, fed)
  {
    hide ServedSame, Flat, HttpPairing.Pushes, HttpPairing.Pops, Other;
  }

  lemma DestroyedServer(t: Table, k: IdDir, j: IdDir, fed: bytes)
    requires k.dir != FromNone && j.dir != FromNone && j in DestroyStream(t, k) && j in t && ServerFollows(t, j, fed)
    ensures ServerFollows(DestroyStream(t, k), j, fed)
  {
    OtherOther(k);
    OtherOther(j);
    hide ServedSame, Flat, HttpPairing.Pushes, HttpPairing.Pops, Other;
    if j != Other(k) { SameServer(t, DestroyStream(t, k), j, fed); }
  }

  lemma {:induction false} CallServer(d: Detectors, before: seq<Call>, c: Call, j: IdDir)
    requires Consistent(d, before) && c.k.dir != FromNone && (c.Created? ==> c.k !in Streams(before))
    requires ServersFollow(Replay(d, before), before) && j in Replay(d, before + [c])
    ensures ServerFollows(Replay(d, before + [c]), j, Fed(before + [c], j))
  {
    hide Replay, Streams, InData, DestroyStream, Accounted, Settled, EntryFits, LinkFits, ServerFollows;
    ReplayOne(d, before, c);
    Append1(before, c);
    var t, fed := Replay(d, before), Fed(before, j);
    assert j in t ==> j.dir != FromNone && Accounted(t[j], fed) && ServerFollows(t, j, fed);
    match c {
      case Created(k) => CreatedServer(t, k, j, Fed(before + [c], j));
      case DataIn(k, data) =>
        DataInKeys(d, t, k, data);
        if j == k {
          OwnDataServer(d, t, k, data, fed);
        } else if j == Other(k) {
          PeerDataServer(d, t, k, data, fed);
        } else {
          OtherDataServer(d, t, k, data, j, fed);
        }
      case Destroyed(k) =>
        DestroyKeys(t, k);
        DestroyedServer(t, k, j, fed);
      case Error(k) =>
        DestroyKeys(t, k);
        DestroyedServer(t, k, j, fed);
    }
  }

  /** After every log, a linked running server has the trace and the state of parsing all its bytes in one piece with
      all the methods its client pushed since the link, and the client's queue is what that parse leaves. */
  lemma {:induction false} LogsServe(d: Detectors, log: seq<Call>)
    requires WellFormed(log)
    ensures ServersFollow(Replay(d, log), log)
    decreases |log|
  {
    if |log| > 0 {
      hide Replay, Streams, Fed, Consistent, ServerFollows;
      var n := |log| - 1;
      var before := log[..n];
      PrefixWellFormed(log, n);
      CallAllowed(log, n);
      hide WellFormed;
      LogsServe(d, before);
      LogsConsistent(d, before);
      assert before + [log[n]] == log;
      forall j | j in Replay(d, log) ensures ServerFollows(Replay(d, log), j, Fed(log, j)) {
        CallServer(d, before, log[n], j);
      }
    }
  }

  // --------------------------------------------------------------------------- runs

  /** The parser of k is where parsing the first total bytes of what was sent, in one piece and with all the client's
      methods there from the start, would leave it. */
  predicate ServerFollowsSender(t: Table, k: IdDir, sent: bytes) {
    && HasLink(t, k) && LinkFits(t, k) && t[k].total <= |sent|
    && ServedSame(t[k].proto, GivenTo(t, k), t[Other(k)].proto.h.methods, Flat(t[k].segs), sent[..t[k].total])
  }

  lemma RunningServer(d: Detectors, log: seq<Call>, k: IdDir)
    requires WellFormed(log) && Consistent(d, log) && RunsHttpServer(Replay(d, log), k)
    ensures k in Streams(log) && k in Replay(d, log)
    ensures ServerFollowsSender(Replay(d, log), k, Fed(log, k)) && Replay(d, log)[k].total == |Fed(log, k)|
  {
    hide Replay, Streams, Fed, LinkFits, ServedSame, Flat, GivenTo;
    LogsServe(d, log);
    var fed := Fed(log, k);
    assert Accounted(Replay(d, log)[k], fed) && ServerFollows(Replay(d, log), k, fed);
    assert fed[..|fed|] == fed;
    hide Fits, AllSettled, WellFormed;
  }

  lemma ServedPrefix(t: Table, k: IdDir, fed: bytes, sent: bytes)
    requires ServerFollowsSender(t, k, fed) && t[k].total == |fed| && fed <= sent
    ensures ServerFollowsSender(t, k, sent)
  {
    assert sent[..|fed|] == fed == fed[..|fed|];
    hide ServedSame, Flat, LinkFits;
  }

  /** End to end: in an honest world a linked running HTTP server stream has produced exactly the trace, and left
      exactly the bytes, that parsing a prefix of what its sender sent produces and leaves in one piece, whenever its
      client's methods arrived. Only a FIN with data breaks the prefix. */
  lemma {:induction false} HttpServerFollowsTheSender(d: Detectors, acts: seq<Action>, w: World, k: IdDir)
    requires Honest(acts, w)
    requires Exec(acts).consumer != Closing(k.id) && RunsHttpServer(Replay(d, Exec(acts).log), k)
    ensures var s := Exec(acts);
            && k in Replay(d, s.log) && k.id in s.shared.flow
            && var r := s.shared.flow[k.id];
            && var returned := HistOf(s.hist[r], k.dir).returned;
            && ((exists n :: 0 <= n < |returned| && FinWithData(returned[n]))
                || ServerFollowsSender(Replay(d, s.log), k, w(r, k.dir).data))
  {
    hide Exec, Replay, Streams, Fed;
    var s := Exec(acts);
    EveryRunIsConsistent(d, acts);
    RunningServer(d, s.log, k);
    hide RunsHttpServer;
    StreamsAreFedPrefixes(acts, w, k);
    hide FinWithData, ServerFollowsSender, Honest, Consistent, WellFormed, HistOf, Joined, Plain;
    var fed, sent := Fed(s.log, k), w(s.shared.flow[k.id], k.dir).data;
    if fed <= sent { ServedPrefix(Replay(d, s.log), k, fed, sent); }
  }
}
