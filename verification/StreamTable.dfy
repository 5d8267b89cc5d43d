/** `cdpi_stream` as an object over a map of entries updated in place, proved against the value-level stream table
    (src/cdpi_stream.hpp, src/cdpi_stream.cpp). */
module StreamTable {
  import opened Bytes
  import opened FlowId
  import H = HttpSpec
  import S = SslSpec
  import opened TcpSystem
  import opened StreamSpec

  /** `cdpi_stream_info`. */
  class Entry {
    var segs: seq<bytes>
    var kind: Kind
    var proto: Proto
    var total: nat
    var status: Status

    constructor ()
      ensures Value() == NEW_INFO
    {
      segs, kind, proto, total, status := [], Undetected, NoProto, 0, Running;
    }

    ghost function Value(): Info
      reads this
    {
      Info(segs, kind, proto, total, status)
    }

    method Receive(data: bytes)
      modifies this
      ensures Value() == Received(old(Value()), data)
    {
      if data != [] {
        segs := segs + [data];
        total := total + |data|;
      }
    }

    /** The catch clauses of `in_data` and the normal return. */
    method SettleWith(rest: bytes, error: bool, proxied: bool, broken: bool)
      modifies this
      ensures Value() == Settle(old(Value()), rest, error, proxied, broken)
    {
      if error {
        status, segs := GaveUp, [];
      } else if broken {
        status := Broken;
      } else if proxied {
        kind, segs := HttpProxy, Left(rest);
      } else {
        segs := Left(rest);
      }
    }
  }

  class Streams {
    var info: map<IdDir, Entry>
    /** Listener events so far. */
    var events: seq<StreamEvent>

    constructor ()
      ensures Valid() && View() == map[] && events == []
    {
      info, events := map[], [];
    }

    ghost predicate Valid()
      reads this`info
    {
      forall j, k :: j in info && k in info && j != k ==> info[j] != info[k]
    }

    ghost function View(): Table
      reads this`info, info.Values
    {
      map k | k in info :: info[k].Value()
    }

    method CreateStream(k: IdDir)
      requires Valid()
      modifies this`info
      ensures Valid() && fresh(info.Values - old(info.Values))
      ensures View() == if k in old(View()) then old(View()) else old(View())[k := NEW_INFO]
    {
      if k !in info {
        var e := new Entry();
        info := info[k := e];
      }
    }

    method UnlinkPeer(o: IdDir)
      requires Valid()
      modifies info.Values
      ensures View() == Unlinked(old(View()), o)
    {
      if o in info && info[o].proto.Http? {
        info[o].proto := info[o].proto.(link := None);
      }
    }

    method DestroyEntry(k: IdDir)
      requires Valid()
      modifies this`info, info.Values
      ensures Valid() && info == old(info) - {k}
      ensures View() == DestroyStream(old(View()), k)
    {
      hide Other;
      info := info - {k};
      assert View() == old(View()) - {k};
      UnlinkPeer(Other(k));
    }

    /** `set_peer`'s argument. */
    method FindPeer(k: IdDir) returns (link: Option<nat>)
      ensures link == LinkFor(View(), k)
    {
      var o := Other(k);
      link := None;
      if o in info {
        var e := info[o];
        if (e.kind == HttpClient || e.kind == HttpProxy) && e.proto.Http? {
          link := Some(PoppedFrom(e.proto));
        }
      }
    }

    /** The detection branches of `in_data`. */
    method DetectProtocol(d: Detectors, k: IdDir, e: Entry) returns (found: bool)
      requires Valid() && k in info && info[k] == e
      modifies e`kind, e`proto, this`events
      ensures var r := Detect(d, old(View()), k, old(e.segs));
              && found == r.Some?
              && events == old(events) + (if found then [Detected(k)] else [])
              && e.kind == (if found then r.value.0 else old(e.kind))
              && e.proto == (if found then r.value.1 else old(e.proto))
    {
      found := |e.segs| > 0;
      if found {
        var front := e.segs[0];
        if d.httpClient(front) {
          e.kind, e.proto := HttpClient, Http(FreshHttp(H.Client), None, []);
        } else if d.httpServer(front) {
          var link := FindPeer(k);
          e.kind, e.proto := HttpServer, Http(FreshHttp(H.Server), link, []);
        } else if d.sslClient(front) {
          e.kind, e.proto := SslClient, Tls(S.FRESH);
        } else if d.sslServer(front) {
          e.kind, e.proto := SslServer, Tls(S.FRESH);
        } else {
          found := false;
        }
      }
      if found { events := events + [Detected(k)]; }
    }

    /** After one entry changed in place. */
    twostate lemma OneChanged(k: IdDir, new e: Entry)
      requires Valid() && old(Valid()) && info == old(info) && k in info && info[k] == e
      requires forall j :: j in info && j != k ==> unchanged(info[j])
      ensures View() == old(View())[k := e.Value()]
    {
    }

    /** The queue the parser of k finds at its peer. */
    method PeerQueue(k: IdDir, e: Entry) returns (queue: H.Peer)
      requires k in info && info[k] == e && e.proto.Http?
      ensures queue == QueueFor(View(), k)
    {
      var o := Other(k);
      queue := None;
      if e.proto.link.Some? && o in info && info[o].proto.Http? {
        queue := Some(info[o].proto.h.methods);
      }
    }

    /** The queue the parser left at its peer. */
    method StoreQueue(o: IdDir, queue: H.Peer)
      requires Valid()
      modifies info.Values
      ensures View() == WithQueue(old(View()), o, queue)
    {
      if queue.Some? && o in info && info[o].proto.Http? {
        info[o].proto := info[o].proto.(h := info[o].proto.h.(methods := queue.value));
      }
    }

    /** What the parser changed in the entry and in its peer's queue. */
    method StoreHttp(k: IdDir, e: Entry, r: H.Result)
      requires Valid() && k in info && info[k] == e && e.proto.Http?
      modifies info.Values
      ensures View() == ApplyHttp(old(View()), k, r)
    {
      hide WithQueue, Settle;
      e.proto := Http(r.h, e.proto.link, e.proto.marks + r.marks);
      e.SettleWith(r.rest, r.stop == Some(H.BadSyntax) || r.stop == Some(H.SplitSizeLine),
                   r.stop == Some(H.Proxied), r.stop == Some(H.Undefined));
      OneChanged(k, e);
      StoreQueue(Other(k), r.peer);
    }

    /** A call of `parse`. The parser is `HttpParser.Parser`, here used through its specification. */
    method RunHttp(k: IdDir, e: Entry)
      requires Valid() && k in info && info[k] == e && e.proto.Http?
      modifies this`events, info.Values
      ensures Valid() && info == old(info)
      ensures View() == ParseHttp(old(View()), k).0
      ensures events == old(events) + ParseHttp(old(View()), k).1
    {
      hide H.Parse, Flat, HttpEvents, ApplyHttp, QueueFor;
      var queue := PeerQueue(k, e);
      var r := H.Parse(e.proto.h, queue, Flat(e.segs));
      StoreHttp(k, e, r);
      events := events + HttpEvents(k, r.marks);
    }

    method RunTls(k: IdDir, e: Entry)
      requires Valid() && k in info && info[k] == e && e.proto.Tls?
      modifies this`events, e
      ensures Valid() && info == old(info)
      ensures View() == ParseTls(old(View()), k).0
      ensures events == old(events) + ParseTls(old(View()), k).1
    {
      hide S.Parse, Flat, TlsEvents, Settle;
      var r := S.Parse(e.proto.s, Flat(e.segs));
      events := events + TlsEvents(k, r.events);
      e.proto := Tls(r.s);
      e.SettleWith(r.rest, r.stop == Some(S.BadRecord), false, r.stop == Some(S.Undefined));
      OneChanged(k, e);
    }

    /** The switch at the end of `in_data`. */
    method Run(k: IdDir, e: Entry)
      requires Valid() && k in info && info[k] == e
      modifies this`events, info.Values
      ensures Valid() && info == old(info)
      ensures View() == RunParser(old(View()), k).0
      ensures events == old(events) + RunParser(old(View()), k).1
    {
      hide ParseHttp, ParseTls;
      if (e.kind == HttpClient || e.kind == HttpServer) && e.proto.Http? {
        RunHttp(k, e);
      } else if (e.kind == SslClient || e.kind == SslServer) && e.proto.Tls? {
        RunTls(k, e);
      }
    }

    /** Detection, and giving up without it. */
    method TryDetect(d: Detectors, k: IdDir, e: Entry) returns (found: bool)
      requires Valid() && k in info && info[k] == e
      modifies e, this`events
      ensures Valid() && info == old(info)
      ensures var r := Detect(d, old(View()), k, old(e.segs));
              && found == r.Some?
              && events == old(events) + (if found then [Detected(k)] else [])
              && View() == old(View())[k := AfterDetect(old(e.Value()), r)]
    {
      hide Detect;
      found := DetectProtocol(d, k, e);
      if !found && |e.segs| > GIVE_UP_SEGMENTS {
        e.status, e.segs := GaveUp, [];
      }
      OneChanged(k, e);
    }

    /** `in_data`. */
    method TakeData(d: Detectors, k: IdDir, data: bytes)
      requires Valid()
      modifies this`events, info.Values
      ensures Valid() && info == old(info)
      ensures View() == InData(d, old(View()), k, data).0
      ensures events == old(events) + InData(d, old(View()), k, data).1
    {
      hide RunParser, Detect, Received, InData;
      ghost var t0, events0 := View(), events;
      InDataCases(d, t0, k, data);
      assert events0 + [] == events0;
      if k !in info || info[k].status != Running {
        return;
      }
      var e := info[k];
      e.Receive(data);
      OneChanged(k, e);
      if e.kind == HttpProxy {
        return;
      }
      if e.kind == Undetected {
        DetectElsewhere(d, t0, k, e.Value(), e.segs);
        ghost var i := e.Value();
        var found := TryDetect(d, k, e);
        hide AfterDetect;
        assert View() == t0[k := AfterDetect(i, Detect(d, t0, k, i.segs))];
        if !found {
          return;
        }
      }
      ghost var t := View();
      Run(k, e);
      EventsInOrder(events0, [Detected(k)], RunParser(t, k).1);
    }

    /** `in_stream_event`. */
    method InStreamEvent(d: Detectors, c: Call)
      requires Valid()
      modifies this, info.Values
      ensures Valid() && fresh(info.Values - old(info.Values))
      ensures View() == OnCall(d, old(View()), c).0
      ensures events == old(events) + OnCall(d, old(View()), c).1
    {
      hide InData, DestroyStream;
      match c {
        case Created(k) =>
          CreateStream(k);
          events := events + [Opened(k)];
        case DataIn(k, data) =>
          TakeData(d, k, data);
          TakeData(d, Other(k), []);
        case Destroyed(k) =>
          events := events + [Closed(k)];
          DestroyEntry(k);
        case Error(k) =>
          events := events + [Closed(k)];
          DestroyEntry(k);
      }
    }
  }

  lemma EventsInOrder(a: seq<StreamEvent>, b: seq<StreamEvent>, c: seq<StreamEvent>)
    ensures a + b + c == a + (b + c)
  {
  }

  /** An undetected entry after detection. */
  function AfterDetect(i: Info, r: Option<(Kind, Proto)>): Info {
    match r
    case None => if |i.segs| > GIVE_UP_SEGMENTS then i.(status := GaveUp, segs := []) else i
    case Some((kind, proto)) => i.(kind := kind, proto := proto)
  }

  /** The ways through `in_data`. */
  lemma InDataCases(d: Detectors, t: Table, k: IdDir, data: bytes)
    ensures var r := InData(d, t, k, data);
            if k !in t || t[k].status != Running then r == (t, [])
            else
              var i := Received(t[k], data);
              var found := Detect(d, t, k, i.segs);
              var t1 := t[k := AfterDetect(i, found)];
              && (i.kind == HttpProxy ==> r == (t[k := i], []))
              && (i.kind == Undetected && found.None? ==> r == (t1, []))
              && (i.kind == Undetected && found.Some? ==>
                    r.0 == RunParser(t1, k).0 && r.1 == [Detected(k)] + RunParser(t1, k).1)
              && (i.kind != Undetected && i.kind != HttpProxy ==> r == RunParser(t[k := i], k))
  {
    hide RunParser, Detect, Received;
  }

  /** Detection looks at no other entry than the peer's. */
  lemma DetectElsewhere(d: Detectors, t: Table, k: IdDir, i: Info, segs: seq<bytes>)
    ensures Detect(d, t[k := i], k, segs) == Detect(d, t, k, segs)
  {
    hide PoppedFrom, FreshHttp;
  }
}
