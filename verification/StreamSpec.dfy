/** The stream table: which protocol a stream speaks, its unparsed bytes and its parser
    (src/cdpi_stream.hpp, src/cdpi_stream.cpp). */
module StreamSpec {
  import opened Bytes
  import opened FlowId
  import H = HttpSpec
  import S = SslSpec
  import opened TcpSystem

  datatype Kind = Undetected | HttpClient | HttpServer | HttpProxy | SslClient | SslServer

  /** `Broken` marks the point from which the C++ program's behaviour is undefined. */
  datatype Status = Running | GaveUp | Broken

  /** The parser of a stream. A server parser may be linked to the client parser of the other direction;
      base is how many of that client's methods had been popped before the link was made. */
  datatype Proto =
    | NoProto
    | Http(h: H.Http, link: Option<nat>, marks: seq<H.Mark>)
    | Tls(s: S.Ssl)

  /** `cdpi_stream_info`. */
  datatype Info = Info(segs: seq<bytes>, kind: Kind, proto: Proto, total: nat, status: Status)

  datatype StreamEvent =
    | Opened(k: IdDir)
    | Closed(k: IdDir)
    | Detected(k: IdDir)
    | OnHttp(k: IdDir, http: H.Event)
    | OnTls(k: IdDir, tls: S.Event)

  type Table = map<IdDir, Info>

  /** The four detection patterns, as predicates on the first segment. */
  datatype Detectors = Detectors(httpClient: bytes -> bool, httpServer: bytes -> bool,
                                 sslClient: bytes -> bool, sslServer: bytes -> bool)

  const GIVE_UP_SEGMENTS := 8

  const NEW_INFO := Info([], Undetected, NoProto, 0, Running)

  function Other(k: IdDir): IdDir { IdDir(k.id, Opposite(k.dir)) }

  /** What is left in the list after parsing. */
  function Left(rest: bytes): seq<bytes> {
    if rest == [] then [] else [rest]
  }

  lemma FlatLeft(rest: bytes)
    ensures Flat(Left(rest)) == rest
  {
    if rest != [] {
      var one := [rest];
      assert one[1..] == [] && Flat(one) == rest + Flat(one[1..]);
    }
  }

  lemma {:induction false} FlatAppend(segs: seq<bytes>, x: bytes)
    ensures Flat(segs + [x]) == Flat(segs) + x
    decreases |segs|
  {
    if |segs| == 0 {
      assert segs + [x] == [x] && [x][0] == x;
      var one := [x];
      assert one[1..] == [] && Flat(one) == x + Flat(one[1..]);
    } else {
      assert (segs + [x])[1..] == segs[1..] + [x];
      FlatAppend(segs[1..], x);
    }
  }

  function FreshHttp(role: H.Role): H.Http {
    H.Http(role, if role == H.Client then H.Method else H.Response, [], [], [], [], [], map[], {}, 0, 0, [], [])
  }

  // --------------------------------------------------------------- detection

  /** `set_peer` happens when the other direction is an HTTP client, or a client that turned into a proxy. */
  function LinkFor(t: Table, k: IdDir): Option<nat> {
    var o := Other(k);
    if o in t && (t[o].kind == HttpClient || t[o].kind == HttpProxy) && t[o].proto.Http? then
      Some(PoppedFrom(t[o].proto))
    else None
  }

  /** How many of its methods are gone from a parser's queue. */
  function PoppedFrom(p: Proto): nat
    requires p.Http?
  {
    var pushed := CountPushes(p.marks);
    if pushed >= |p.h.methods| then pushed - |p.h.methods| else 0
  }

  function CountPushes(t: seq<H.Mark>): nat {
    if |t| == 0 then 0 else CountPushes(t[..|t| - 1]) + (if t[|t| - 1].Pushed? then 1 else 0)
  }

  /** The protocol of the first segment, with its new parser; None while nothing matches. */
  function Detect(d: Detectors, t: Table, k: IdDir, segs: seq<bytes>): Option<(Kind, Proto)> {
    if |segs| == 0 then None
    else if d.httpClient(segs[0]) then Some((HttpClient, Http(FreshHttp(H.Client), None, [])))
    else if d.httpServer(segs[0]) then Some((HttpServer, Http(FreshHttp(H.Server), LinkFor(t, k), [])))
    else if d.sslClient(segs[0]) then Some((SslClient, Tls(S.FRESH)))
    else if d.sslServer(segs[0]) then Some((SslServer, Tls(S.FRESH)))
    else None
  }

  // ----------------------------------------------------------------- parsing

  /** The method queue the parser of k sees at its peer. */
  function QueueFor(t: Table, k: IdDir): H.Peer
    requires k in t && t[k].proto.Http?
  {
    var o := Other(k);
    if t[k].proto.link.Some? && o in t && t[o].proto.Http? then Some(t[o].proto.h.methods) else None
  }

  function WithQueue(t: Table, k: IdDir, q: H.Peer): Table {
    if q.Some? && k in t && t[k].proto.Http? then
      t[k := t[k].(proto := t[k].proto.(h := t[k].proto.h.(methods := q.value)))]
    else t
  }

  function HttpEvents(k: IdDir, marks: seq<H.Mark>): seq<StreamEvent> {
    if |marks| == 0 then []
    else
      HttpEvents(k, marks[..|marks| - 1])
      + (if marks[|marks| - 1].Ev? then [OnHttp(k, marks[|marks| - 1].e)] else [])
  }

  function TlsEvents(k: IdDir, es: seq<S.Event>): seq<StreamEvent> {
    seq(|es|, i requires 0 <= i < |es| => OnTls(k, es[i]))
  }

  /** The entry after its parser returned or threw. */
  function Settle(i: Info, rest: bytes, error: bool, proxied: bool, broken: bool): Info {
    if error then i.(status := GaveUp, segs := [])
    else if broken then i.(status := Broken)
    else if proxied then i.(kind := HttpProxy, segs := Left(rest))
    else i.(segs := Left(rest))
  }

  /** The table after the HTTP parser of k came back with r. */
  function ApplyHttp(t: Table, k: IdDir, r: H.Result): Table
    requires k in t && t[k].proto.Http?
  {
    var i := t[k];
    var error := r.stop == Some(H.BadSyntax) || r.stop == Some(H.SplitSizeLine);
    var i' := Settle(i.(proto := Http(r.h, i.proto.link, i.proto.marks + r.marks)), r.rest,
                     error, r.stop == Some(H.Proxied), r.stop == Some(H.Undefined));
    WithQueue(t[k := i'], Other(k), r.peer)
  }

  function ParseHttp(t: Table, k: IdDir): (Table, seq<StreamEvent>)
    requires k in t && t[k].proto.Http?
  {
    var r := H.Parse(t[k].proto.h, QueueFor(t, k), Flat(t[k].segs));
    (ApplyHttp(t, k, r), HttpEvents(k, r.marks))
  }

  /** The entry after the TLS parser came back with r. */
  function AfterTls(i: Info, r: S.Result): Info {
    Settle(i.(proto := Tls(r.s)), r.rest, r.stop == Some(S.BadRecord), false, r.stop == Some(S.Undefined))
  }

  function ParseTls(t: Table, k: IdDir): (Table, seq<StreamEvent>)
    requires k in t && t[k].proto.Tls?
  {
    var r := S.Parse(t[k].proto.s, Flat(t[k].segs));
    (t[k := AfterTls(t[k], r)], TlsEvents(k, r.events))
  }

  /** The switch at the end of `in_data`. */
  function RunParser(t: Table, k: IdDir): (Table, seq<StreamEvent>)
    requires k in t
  {
    match t[k].kind
    case HttpClient => if t[k].proto.Http? then ParseHttp(t, k) else (t, [])
    case HttpServer => if t[k].proto.Http? then ParseHttp(t, k) else (t, [])
    case SslClient => if t[k].proto.Tls? then ParseTls(t, k) else (t, [])
    case SslServer => if t[k].proto.Tls? then ParseTls(t, k) else (t, [])
    case _ => (t, [])
  }

  /** A segment arrives, unless the list element is empty. */
  function Received(i: Info, data: bytes): Info {
    if data == [] then i else i.(segs := i.segs + [data], total := i.total + |data|)
  }

  /** `in_data`. A stream that turned into a proxy is not detected again. */
  function InData(d: Detectors, t: Table, k: IdDir, data: bytes): (Table, seq<StreamEvent>) {
    if k !in t || t[k].status != Running then (t, [])
    else
      var i := Received(t[k], data);
      if i.kind == HttpProxy then (t[k := i], [])
      else if i.kind == Undetected then
        match Detect(d, t, k, i.segs)
        case None =>
          (t[k := if |i.segs| > GIVE_UP_SEGMENTS then i.(status := GaveUp, segs := []) else i], [])
        case Some((kind, proto)) =>
          var (t', es) := RunParser(t[k := i.(kind := kind, proto := proto)], k);
          (t', [Detected(k)] + es)
      else RunParser(t[k := i], k)
  }

  /** An erased parser is no longer anybody's peer. */
  function Unlinked(t: Table, k: IdDir): Table {
    if k in t && t[k].proto.Http? then t[k := t[k].(proto := t[k].proto.(link := None))] else t
  }

  function DestroyStream(t: Table, k: IdDir): Table {
    Unlinked(t - {k}, Other(k))
  }

  /** `in_stream_event`. */
  function OnCall(d: Detectors, t: Table, c: Call): (Table, seq<StreamEvent>) {
    match c
    case Created(k) => (if k in t then t else t[k := NEW_INFO], [Opened(k)])
    case DataIn(k, data) =>
      var (t1, es1) := InData(d, t, k, data);
      var (t2, es2) := InData(d, t1, Other(k), []);
      (t2, es1 + es2)
    case Destroyed(k) => (DestroyStream(t, k), [Closed(k)])
    case Error(k) => (DestroyStream(t, k), [Closed(k)])
  }

  /** The table after a log of calls. */
  function Replay(d: Detectors, log: seq<Call>): Table {
    if |log| == 0 then map[]
    else OnCall(d, Replay(d, log[..|log| - 1]), log[|log| - 1]).0
  }
}
