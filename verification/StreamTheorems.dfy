/** What every log of calls keeps true of the stream table (src/cdpi_stream.cpp). */
module StreamTheorems {
  import opened Bytes
  import opened FlowId
  import H = HttpSpec
  import HttpPairing
  import HttpSegmentation
  import S = SslSpec
  import SslTheorems
  import opened TcpSystem
  import opened StreamSpec

  // ----------------------------------------------------------- the invariant

  /** The queue of a client parser is what it pushed, less a first part that was popped. */
  predicate QueueIsTail(p: Proto) {
    p.Http? ==>
      var pushed := HttpPairing.Pushes(p.marks);
      && HttpPairing.RoleFits(p.h)
      && |p.h.methods| <= |pushed| && p.h.methods == pushed[|pushed| - |p.h.methods|..]
  }

  predicate KindFits(i: Info) {
    match i.kind
    case Undetected => i.proto.NoProto?
    case HttpClient => i.proto.Http? && i.proto.h.role == H.Client
    case HttpServer => i.proto.Http? && i.proto.h.role == H.Server
    case HttpProxy => i.proto.Http?
    case SslClient => i.proto.Tls?
    case SslServer => i.proto.Tls?
  }

  predicate EntryFits(i: Info) {
    KindFits(i) && QueueIsTail(i.proto) && (i.status == GaveUp ==> i.segs == [])
  }

  /** A linked parser popped, in order, a first part of what its peer pushed since the link, and the peer's
      queue is the rest. */
  predicate LinkFits(t: Table, k: IdDir)
    requires k in t
  {
    t[k].proto.Http? && t[k].proto.link.Some? ==>
      && Other(k) in t && t[Other(k)].proto.Http? && t[Other(k)].proto.link.None?
      && var pushed, base := HttpPairing.Pushes(t[Other(k)].proto.marks), t[k].proto.link.value;
      && base <= |pushed|
      && pushed[base..] == HttpPairing.Pops(t[k].proto.marks) + t[Other(k)].proto.h.methods
  }

  /** A running parser has nothing left to do with what it has: HTTP no step, TLS no complete record. */
  predicate Settled(t: Table, k: IdDir)
    requires k in t
  {
    && (t[k].status == Running && (t[k].kind == HttpClient || t[k].kind == HttpServer) && t[k].proto.Http? ==>
          HttpSegmentation.Quiet(t[k].proto.h, QueueFor(t, k), Flat(t[k].segs)))
    && (t[k].status == Running && (t[k].kind == SslClient || t[k].kind == SslServer) && t[k].proto.Tls? ==>
          !S.HasRecord(Flat(t[k].segs)))
  }

  ghost predicate Fits(t: Table) {
    forall k :: k in t ==> k.dir != FromNone && EntryFits(t[k]) && LinkFits(t, k)
  }

  ghost predicate AllSettled(t: Table) {
    forall k :: k in t ==> Settled(t, k)
  }

  // ----------------------------------------------------------- one parser run

  lemma OtherOther(k: IdDir)
    requires k.dir != FromNone
    ensures Other(Other(k)) == k && Other(k) != k && Other(k).dir != FromNone
    ensures forall j :: Other(j) == k && j.dir != FromNone ==> j == Other(k)
  {
  }

  lemma {:induction false} CountIsLength(t: seq<H.Mark>)
    ensures CountPushes(t) == |HttpPairing.Pushes(t)|
    decreases |t|
  {
    if |t| > 0 { CountIsLength(t[..|t| - 1]); }
  }

  /** Quietness does not depend on the parser's own queue. */
  lemma {:induction false} QuietIgnoresMethods(h: H.Http, q: H.Peer, rest: bytes, m: seq<bytes>)
    requires HttpSegmentation.Quiet(h, q, rest)
    ensures HttpSegmentation.Quiet(h.(methods := m), q, rest)
  {
    match h.phase {
      case Method => LineIgnoresMethods(h, q, rest, m);
      case Response => LineIgnoresMethods(h, q, rest, m);
      case Head => HeadIgnoresMethods(h, q, rest, m);
      case ChunkTrailer => HeadIgnoresMethods(h, q, rest, m);
      case Body => BodyIgnoresMethods(h, q, rest, m);
      case ChunkBody => BodyIgnoresMethods(h, q, rest, m);
      case ChunkLen => ChunkIgnoresMethods(h, q, rest, m);
      case ChunkEl => ChunkIgnoresMethods(h, q, rest, m);
    }
    hide H.StepMethod, H.StepResponse, H.StepHead, H.StepBody, H.StepChunkBody, H.StepChunkLen, H.StepChunkEl;
  }

  lemma LineIgnoresMethods(h: H.Http, q: H.Peer, rest: bytes, m: seq<bytes>)
    ensures H.StepMethod(h, q, rest) == H.Wait ==> H.StepMethod(h.(methods := m), q, rest) == H.Wait
    ensures H.StepResponse(h, q, rest) == H.Wait ==> H.StepResponse(h.(methods := m), q, rest) == H.Wait
  {
    hide H.FieldsOf, UpTo;
  }

  lemma BodyIgnoresMethods(h: H.Http, q: H.Peer, rest: bytes, m: seq<bytes>)
    ensures H.StepBody(h, q, rest) == H.Wait ==> H.StepBody(h.(methods := m), q, rest) == H.Wait
    ensures H.StepChunkBody(h, q, rest) == H.Wait ==> H.StepChunkBody(h.(methods := m), q, rest) == H.Wait
  {
    assert H.ContentLength(h.(methods := m)) == H.ContentLength(h);
    hide H.ContentLength, H.WantsBody, H.WithChunkByte;
  }

  lemma ChunkIgnoresMethods(h: H.Http, q: H.Peer, rest: bytes, m: seq<bytes>)
    ensures H.StepChunkLen(h, q, rest) == H.Wait ==> H.StepChunkLen(h.(methods := m), q, rest) == H.Wait
    ensures H.StepChunkEl(h, q, rest) == H.Wait ==> H.StepChunkEl(h.(methods := m), q, rest) == H.Wait
  {
    hide H.ReadHex, UpTo, H.WantsBody, H.Blank;
  }

  lemma HeadIgnoresMethods(h: H.Http, q: H.Peer, rest: bytes, m: seq<bytes>)
    requires H.StepHead(h, q, rest) == H.Wait
    ensures H.StepHead(h.(methods := m), q, rest) == H.Wait
  {
    hide UpTo;
    hide H.GetHeader;
    hide H.Lower;
    hide H.WithHeaderLine;
  }

  lemma TailOfTail(a: seq<bytes>, b: seq<bytes>, c: seq<bytes>)
    requires |b| <= |a| && b == a[|a| - |b|..] && |c| <= |b| && c == b[|b| - |c|..]
    ensures c == a[|a| - |c|..]
  {
  }

  lemma TailAppend(a: seq<bytes>, b: seq<bytes>, x: seq<bytes>)
    requires |b| <= |a| && b == a[|a| - |b|..]
    ensures b + x == (a + x)[|a + x| - |b + x|..]
  {
  }

  /** Two entries that differ in the method queue of their parser at most. */
  predicate SameButQueue(i: Info, j: Info) {
    || i == j
    || (i.proto.Http? && j.proto.Http? && i == j.(proto := j.proto.(h := j.proto.h.(methods := i.proto.h.methods))))
  }

  /** How a call may touch entries other than k: only the other direction's queue. */
  ghost predicate OnlyTouches(t: Table, t': Table, k: IdDir) {
    && t'.Keys == t.Keys
    && (forall j :: j in t && j != k && j != Other(k) ==> t'[j] == t[j])
    && (Other(k) in t ==> SameButQueue(t'[Other(k)], t[Other(k)]))
  }

  predicate ReadyForHttp(t: Table, k: IdDir) {
    k in t && t[k].proto.Http? && t[k].status == Running && (t[k].kind == HttpClient || t[k].kind == HttpServer)
  }

  /** The entries of k and its peer after the HTTP parser of k came back with r. */
  lemma ApplyHttpShape(t: Table, k: IdDir, r: H.Result)
    requires k.dir != FromNone && ReadyForHttp(t, k) && r.peer.Some? == QueueFor(t, k).Some?
    ensures var i := t[k];
            var t' := ApplyHttp(t, k, r);
            && OnlyTouches(t, t', k)
            && t'[k].proto == Http(r.h, i.proto.link, i.proto.marks + r.marks)
            && t'[k].total == i.total
            && (t'[k].status == Running ==> t'[k].segs == Left(r.rest))
            && (t'[k].status == GaveUp ==> t'[k].segs == [])
            && (t'[k].kind == i.kind || t'[k].kind == HttpProxy)
            && (t'[k].status == Running && t'[k].kind == i.kind ==> r.stop.None?)
            && (r.peer.Some? ==>
                  Other(k) in t && t'[Other(k)].proto.Http? && t'[Other(k)].proto.h.methods == r.peer.value)
            && (r.peer.None? && Other(k) in t ==> t'[Other(k)] == t[Other(k)])
  {
    OtherOther(k);
    hide Flat;
    if r.stop.Some? {
      assert r.stop == Some(r.stop.value);
      match r.stop.value {
        case BadSyntax =>
        case SplitSizeLine =>
        case Proxied =>
        case Undefined =>
      }
    }
  }

  /** Both ends of a link after a run that moved the queue. */
  lemma MovedLink(t: Table, k: IdDir, r: H.Result)
    requires Fits(t) && ReadyForHttp(t, k)
    requires HttpPairing.QueueMoved(t[k].proto.h, QueueFor(t, k), r)
    ensures Fits(ApplyHttp(t, k, r))
  {
    hide ApplyHttp, EntryFits, LinkFits, Other;
    var t' := ApplyHttp(t, k, r);
    OtherOther(k);
    MovedBoth(t, k, r);
    forall j | j in t'
      ensures j.dir != FromNone && EntryFits(t'[j]) && LinkFits(t', j)
    {
      if j != k && j != Other(k) {
        OtherOther(j);
        UntouchedFits(t, t', k, j);
      }
    }
  }

  /** The two directions of the stream itself. */
  lemma MovedBoth(t: Table, k: IdDir, r: H.Result)
    requires Fits(t) && ReadyForHttp(t, k)
    requires HttpPairing.QueueMoved(t[k].proto.h, QueueFor(t, k), r)
    ensures var t' := ApplyHttp(t, k, r);
            && k.dir != FromNone && OnlyTouches(t, t', k) && EntryFits(t'[k]) && LinkFits(t', k)
            && (Other(k) in t ==> EntryFits(t'[Other(k)]) && LinkFits(t', Other(k)))
  {
    assert k.dir != FromNone && r.peer.Some? == QueueFor(t, k).Some?;
    hide ApplyHttp, HttpPairing.QueueMoved, QueueFor, EntryFits, LinkFits, Other;
    var t' := ApplyHttp(t, k, r);
    ApplyHttpShape(t, k, r);
    assert EntryFits(t[k]) && LinkFits(t, k);
    MovedEntryFits(t[k], t'[k], QueueFor(t, k), r);
    OwnLinkStillFits(t, t', k, r);
    if Other(k) in t {
      assert EntryFits(t[Other(k)]) && LinkFits(t, Other(k));
      PeerStillFits(t, t', k, r);
    }
  }

  /** Entries of other streams. */
  lemma UntouchedFits(t: Table, t': Table, k: IdDir, j: IdDir)
    requires Fits(t) && OnlyTouches(t, t', k) && j in t && j != k && j != Other(k) && k.dir != FromNone
    ensures j.dir != FromNone && EntryFits(t'[j]) && LinkFits(t', j)
  {
    assert j.dir != FromNone && EntryFits(t[j]) && LinkFits(t, j);
    OtherOther(k);
    OtherOther(j);
    assert Other(j) != k && Other(j) != Other(k);
    hide EntryFits, Fits, Other, HttpPairing.Pushes, HttpPairing.Pops;
  }

  lemma MovedEntryFits(i: Info, j: Info, q: H.Peer, r: H.Result)
    requires EntryFits(i) && i.proto.Http? && (i.kind == HttpClient || i.kind == HttpServer)
    requires HttpPairing.QueueMoved(i.proto.h, q, r)
    requires j.proto == Http(r.h, i.proto.link, i.proto.marks + r.marks)
    requires (j.kind == i.kind || j.kind == HttpProxy) && (j.status == GaveUp ==> j.segs == [])
    ensures EntryFits(j)
  {
    HttpPairing.TracesConcat(i.proto.marks, r.marks);
    TailAppend(HttpPairing.Pushes(i.proto.marks), i.proto.h.methods, HttpPairing.Pushes(r.marks));
  }

  predicate Applied(t: Table, t': Table, k: IdDir, r: H.Result)
    requires ReadyForHttp(t, k)
  {
    && t'.Keys == t.Keys
    && t'[k].proto == Http(r.h, t[k].proto.link, t[k].proto.marks + r.marks)
    && (Other(k) in t ==> SameButQueue(t'[Other(k)], t[Other(k)]))
    && (r.peer.Some? ==> Other(k) in t && t'[Other(k)].proto.Http? && t'[Other(k)].proto.h.methods == r.peer.value)
    && (r.peer.None? && Other(k) in t ==> t'[Other(k)] == t[Other(k)])
  }

  lemma OwnLinkStillFits(t: Table, t': Table, k: IdDir, r: H.Result)
    requires k.dir != FromNone && ReadyForHttp(t, k) && LinkFits(t, k) && Applied(t, t', k, r)
    requires HttpPairing.QueueMoved(t[k].proto.h, QueueFor(t, k), r)
    ensures LinkFits(t', k)
  {
    HttpPairing.TracesConcat(t[k].proto.marks, r.marks);
    if t[k].proto.link.Some? {
      var p, n := HttpPairing.Pops(t[k].proto.marks), HttpPairing.Pops(r.marks);
      assert p + (n + r.peer.value) == p + n + r.peer.value;
    }
  }

  lemma PeerStillFits(t: Table, t': Table, k: IdDir, r: H.Result)
    requires k.dir != FromNone && ReadyForHttp(t, k) && Applied(t, t', k, r)
    requires Other(k) in t && EntryFits(t[Other(k)]) && LinkFits(t, Other(k))
    requires HttpPairing.QueueMoved(t[k].proto.h, QueueFor(t, k), r)
    ensures EntryFits(t'[Other(k)]) && LinkFits(t', Other(k))
  {
    var o := Other(k);
    OtherOther(k);
    HttpPairing.TracesConcat(t[k].proto.marks, r.marks);
    if r.peer.Some? {
      assert t[o].proto.h.methods == HttpPairing.Pops(r.marks) + r.peer.value;
      PoppedEntryFits(t[o], t'[o], HttpPairing.Pops(r.marks));
    }
    hide EntryFits, KindFits;
    if t[o].proto.Http? && t[o].proto.link.Some? {
      var a, x, base := HttpPairing.Pushes(t[k].proto.marks), HttpPairing.Pushes(r.marks), t[o].proto.link.value;
      assert (a + x)[base..] == a[base..] + x;
    }
  }

  /** Popping from the front leaves a tail. */
  lemma PoppedEntryFits(i: Info, j: Info, popped: seq<bytes>)
    requires EntryFits(i) && SameButQueue(j, i) && i.proto.Http? && i.proto.h.methods == popped + j.proto.h.methods
    ensures EntryFits(j)
  {
    TailOfTail(HttpPairing.Pushes(i.proto.marks), i.proto.h.methods, j.proto.h.methods);
  }

  // ------------------------------------------------------------- one segment

  /** The parser of k has run: what is left of its bytes, and that it has nothing to do. */
  ghost predicate Ran(t: Table, t': Table, k: IdDir)
    requires k in t
  {
    && Fits(t') && OnlyTouches(t, t', k) && Settled(t', k)
    && t'[k].total == t[k].total
    && (t'[k].status == Running ==> IsSuffix(Flat(t'[k].segs), Flat(t[k].segs)))
  }

  predicate IsSuffix(a: bytes, b: bytes) {
    |a| <= |b| && a == b[|b| - |a|..]
  }

  /** After the run the parser would find the queue it left. */
  lemma QueueAfter(t: Table, k: IdDir, r: H.Result)
    requires k.dir != FromNone && ReadyForHttp(t, k) && r.peer.Some? == QueueFor(t, k).Some?
    requires LinkFits(t, k)
    ensures QueueFor(ApplyHttp(t, k, r), k) == r.peer
  {
    ApplyHttpShape(t, k, r);
    OtherOther(k);
    hide ApplyHttp;
  }

  lemma ReadyFits(t: Table, k: IdDir)
    requires Fits(t) && ReadyForHttp(t, k)
    ensures HttpPairing.RoleFits(t[k].proto.h) && LinkFits(t, k) && k.dir != FromNone
  {
    assert EntryFits(t[k]) && LinkFits(t, k);
  }

  /** What a parser that left r has left in its entry. */
  lemma QuietAfter(t: Table, k: IdDir, r: H.Result)
    requires k.dir != FromNone && ReadyForHttp(t, k) && r.peer.Some? == QueueFor(t, k).Some? && LinkFits(t, k)
    requires r.stop.None? ==> HttpSegmentation.Quiet(r.h, r.peer, r.rest)
    ensures k in ApplyHttp(t, k, r) && Settled(ApplyHttp(t, k, r), k)
    ensures var i := ApplyHttp(t, k, r)[k]; i.status == Running ==> Flat(i.segs) == r.rest
  {
    ApplyHttpShape(t, k, r);
    QueueAfter(t, k, r);
    FlatLeft(r.rest);
    hide ApplyHttp, HttpSegmentation.Quiet, QueueFor, LinkFits, OnlyTouches, Flat, Left;
  }

  lemma {:induction false} HttpRan(t: Table, k: IdDir)
    requires Fits(t) && ReadyForHttp(t, k)
    ensures Ran(t, ParseHttp(t, k).0, k)
  {
    hide H.Parse, ApplyHttp, HttpSegmentation.Quiet, Settled, Fits, Flat, LinkFits, QueueFor, OnlyTouches;
    ReadyFits(t, k);
    var i := t[k];
    var q := QueueFor(t, k);
    var r := H.Parse(i.proto.h, q, Flat(i.segs));
    HttpPairing.ParseQueue(i.proto.h, q, Flat(i.segs));
    HttpSegmentation.ParseEndsQuiet(i.proto.h, q, Flat(i.segs));
    MovedLink(t, k, r);
    ApplyHttpShape(t, k, r);
    QuietAfter(t, k, r);
  }

  lemma TlsRan(t: Table, k: IdDir)
    requires Fits(t) && k in t && t[k].proto.Tls? && t[k].status == Running
    requires t[k].kind == SslClient || t[k].kind == SslServer
    ensures Ran(t, ParseTls(t, k).0, k)
  {
    hide S.Parse, AfterTls, Flat, Left, Fits, EntryFits;
    var i := t[k];
    var r := S.Parse(i.proto.s, Flat(i.segs));
    SslTheorems.OnlyWholeRecordsConsumed(i.proto.s, Flat(i.segs));
    TlsSettles(i, r);
    EntryReplaced(t, k, AfterTls(i, r));
    FlatLeft(r.rest);
  }

  lemma TlsSettles(i: Info, r: S.Result)
    requires i.proto.Tls? && i.status == Running && (i.kind == SslClient || i.kind == SslServer)
    ensures var i' := AfterTls(i, r);
            && EntryFits(i') && i'.proto == Tls(r.s) && i'.total == i.total && i'.kind == i.kind
            && (i'.status == Running ==> r.stop.None? && i'.segs == Left(r.rest))
  {
    if r.stop.Some? {
      assert r.stop == Some(r.stop.value);
      match r.stop.value {
        case BadRecord =>
        case Undefined =>
      }
    }
  }

  /** An entry nobody is linked to, or one that keeps its parser, can be replaced without harm to other links. */
  lemma KeepsLink(t: Table, k: IdDir, i: Info, j: IdDir)
    requires k in t && j in t && j != k && LinkFits(t, j)
    requires !t[k].proto.Http? || i.proto == t[k].proto
    ensures LinkFits(t[k := i], j)
  {
    hide HttpPairing.Pushes, HttpPairing.Pops, Other;
  }

  lemma ReplacedFits(t: Table, k: IdDir, i: Info)
    requires Fits(t) && k in t && EntryFits(i) && LinkFits(t[k := i], k)
    requires !t[k].proto.Http? || i.proto == t[k].proto
    ensures Fits(t[k := i]) && OnlyTouches(t, t[k := i], k)
  {
    var t' := t[k := i];
    assert k.dir != FromNone;
    OtherOther(k);
    hide EntryFits, LinkFits, Other;
    forall j | j in t' ensures j.dir != FromNone && EntryFits(t'[j]) && LinkFits(t', j) {
      assert EntryFits(t[j]) && LinkFits(t, j);
      if j != k { KeepsLink(t, k, i, j); }
    }
  }

  /** Replacing an entry that is not HTTP, before and after, disturbs no link. */
  lemma EntryReplaced(t: Table, k: IdDir, i: Info)
    requires Fits(t) && k in t && !t[k].proto.Http? && EntryFits(i) && !i.proto.Http?
    ensures Fits(t[k := i]) && OnlyTouches(t, t[k := i], k)
  {
    assert LinkFits(t[k := i], k);
    hide Fits, EntryFits, LinkFits;
    ReplacedFits(t, k, i);
  }

  /** Changing bytes, size and status of an entry disturbs no link. */
  lemma SameProto(t: Table, k: IdDir, i: Info)
    requires Fits(t) && k in t && i.proto == t[k].proto && EntryFits(i)
    ensures Fits(t[k := i]) && OnlyTouches(t, t[k := i], k)
  {
    assert k.dir != FromNone && LinkFits(t, k);
    OtherOther(k);
    assert LinkFits(t[k := i], k);
    hide Fits, EntryFits, LinkFits;
    ReplacedFits(t, k, i);
  }

  /** The entry a detection makes. */
  lemma DetectedEntryFits(d: Detectors, t: Table, k: IdDir, i: Info)
    requires Detect(d, t, k, i.segs).Some? && i.status == Running
    ensures var (kind, proto) := Detect(d, t, k, i.segs).value;
            && EntryFits(i.(kind := kind, proto := proto)) && kind != Undetected
            && (proto.Http? ==> kind == HttpClient || kind == HttpServer)
            && (proto.Tls? ==> kind == SslClient || kind == SslServer)
            && (proto.Http? ==> proto.marks == [] && (proto.link.Some? ==> proto.link == LinkFor(t, k)))
  {
    assert HttpPairing.Pushes([]) == [];
    hide LinkFor;
  }

  /** A new link starts at what the peer's queue has left. */
  lemma NewLinkFits(t: Table, k: IdDir, i: Info)
    requires Fits(t) && k.dir != FromNone && k in t && !t[k].proto.Http?
    requires i.proto.Http? && i.proto.marks == [] && (i.proto.link.Some? ==> i.proto.link == LinkFor(t, k))
    ensures LinkFits(t[k := i], k)
  {
    var o := Other(k);
    OtherOther(k);
    assert HttpPairing.Pops([]) == [];
    if i.proto.link.Some? {
      assert QueueIsTail(t[o].proto) && LinkFits(t, o) by { assert EntryFits(t[o]) && LinkFits(t, o); }
      CountIsLength(t[o].proto.marks);
      assert [] + t[o].proto.h.methods == t[o].proto.h.methods;
    }
    hide Fits, EntryFits, HttpPairing.Pushes, HttpPairing.Pops, CountPushes;
  }

  lemma NewProtoFits(t: Table, d: Detectors, k: IdDir, i: Info)
    requires Fits(t) && k in t && t[k].kind == Undetected && Detect(d, t, k, i.segs).Some? && i.status == Running
    ensures var (kind, proto) := Detect(d, t, k, i.segs).value;
            var t' := t[k := i.(kind := kind, proto := proto)];
            && Fits(t') && kind != Undetected && OnlyTouches(t, t', k)
            && (proto.Http? ==> ReadyForHttp(t', k))
            && (proto.Tls? ==> kind == SslClient || kind == SslServer)
  {
    var (kind, proto) := Detect(d, t, k, i.segs).value;
    var i' := i.(kind := kind, proto := proto);
    assert t[k].proto.NoProto? by { assert EntryFits(t[k]); }
    DetectedEntryFits(d, t, k, i);
    hide Detect;
    EntryAdded(t, k, i');
  }

  /** An entry whose parser is new disturbs no other link. */
  lemma EntryAdded(t: Table, k: IdDir, i: Info)
    requires Fits(t) && k in t && t[k].proto.NoProto? && EntryFits(i)
    requires i.proto.Http? ==> i.proto.marks == [] && (i.proto.link.Some? ==> i.proto.link == LinkFor(t, k))
    ensures Fits(t[k := i]) && OnlyTouches(t, t[k := i], k)
  {
    assert k.dir != FromNone;
    if i.proto.Http? { NewLinkFits(t, k, i); } else { assert LinkFits(t[k := i], k); }
    hide Fits, EntryFits, LinkFits, LinkFor;
    ReplacedFits(t, k, i);
  }

  lemma {:induction false} ParserRan(t: Table, k: IdDir)
    requires Fits(t) && k in t && t[k].status == Running && t[k].kind != Undetected && t[k].kind != HttpProxy
    ensures Ran(t, RunParser(t, k).0, k)
  {
    assert EntryFits(t[k]);
    if t[k].proto.Http? { HttpRan(t, k); } else { TlsRan(t, k); }
  }

  /** What `in_data` does to its own entry, and how little to the others. */
  ghost predicate Took(t: Table, t': Table, k: IdDir, data: bytes) {
    && Fits(t') && OnlyTouches(t, t', k)
    && (k in t ==>
          && Settled(t', k)
          && (t[k].status == Running ==>
                && t'[k].total == t[k].total + |data|
                && (t'[k].status == Running ==> IsSuffix(Flat(t'[k].segs), Flat(t[k].segs) + data)))
          && (t[k].status != Running ==> t'[k] == t[k]))
  }

  /** A first change that took the bytes in, and a parser run on it. */
  lemma RanTook(t: Table, t1: Table, t2: Table, k: IdDir, data: bytes)
    requires k in t && k.dir != FromNone && t[k].status == Running
    requires OnlyTouches(t, t1, k) && Ran(t1, t2, k)
    requires t1[k].total == t[k].total + |data| && Flat(t1[k].segs) == Flat(t[k].segs) + data
    ensures Took(t, t2, k, data)
  {
    OtherOther(k);
    hide Fits, Settled, Flat, IsSuffix, Other;
    TouchesTwice(t, t1, t2, k);
    hide OnlyTouches;
  }

  lemma SameTwice(i: Info, j: Info, l: Info)
    requires SameButQueue(j, i) && SameButQueue(l, j)
    ensures SameButQueue(l, i)
  {
  }

  lemma TouchesTwice(t: Table, t1: Table, t2: Table, k: IdDir)
    requires OnlyTouches(t, t1, k) && OnlyTouches(t1, t2, k)
    ensures OnlyTouches(t, t2, k)
  {
    hide Other, SameButQueue;
    if Other(k) in t { SameTwice(t[Other(k)], t1[Other(k)], t2[Other(k)]); }
  }

  lemma NotTaken(t: Table, k: IdDir, data: bytes)
    requires Fits(t) && (k in t ==> t[k].status != Running)
    ensures Took(t, t, k, data)
  {
    hide Fits, Flat, IsSuffix;
  }

  /** Bytes that stay in the list unparsed. */
  lemma KeptTook(t: Table, k: IdDir, i: Info, data: bytes)
    requires Fits(t) && k.dir != FromNone && k in t && t[k].status == Running && EntryFits(i)
    requires i.proto == t[k].proto && i.total == t[k].total + |data|
    requires i.kind == Undetected || i.kind == HttpProxy
    requires i.status == Running ==> Flat(i.segs) == Flat(t[k].segs) + data
    ensures Took(t, t[k := i], k, data)
  {
    SameProto(t, k, i);
    hide Fits, Flat, EntryFits;
  }

  lemma ReceivedFits(i: Info, data: bytes)
    requires EntryFits(i) && i.status == Running
    ensures var j := Received(i, data);
            && EntryFits(j) && j.proto == i.proto && j.status == Running && j.kind == i.kind
            && j.total == i.total + |data| && Flat(j.segs) == Flat(i.segs) + data
  {
    FlatAppend(i.segs, data);
    assert Flat(i.segs) + [] == Flat(i.segs);
    hide Flat, QueueIsTail;
  }

  lemma {:induction false} DataTaken(d: Detectors, t: Table, k: IdDir, data: bytes)
    requires Fits(t) && k.dir != FromNone
    ensures Took(t, InData(d, t, k, data).0, k, data)
  {
    hide Took, RunParser, Detect, Flat, EntryFits, LinkFits, Received;
    if k in t && t[k].status == Running {
      var i := Received(t[k], data);
      ReceivedFits(t[k], data);
      if i.kind == HttpProxy {
        KeptTook(t, k, i, data);
      } else if i.kind == Undetected {
        UndetectedTook(d, t, k, data);
      } else {
        SameProto(t, k, i);
        ParserRan(t[k := i], k);
        RanTook(t, t[k := i], RunParser(t[k := i], k).0, k, data);
      }
    } else {
      NotTaken(t, k, data);
    }
  }

  lemma {:induction false} UndetectedTook(d: Detectors, t: Table, k: IdDir, data: bytes)
    requires Fits(t) && k.dir != FromNone && k in t && t[k].status == Running && t[k].kind == Undetected
    ensures Took(t, InData(d, t, k, data).0, k, data)
  {
    var i := Received(t[k], data);
    assert EntryFits(t[k]);
    ReceivedFits(t[k], data);
    hide Took, RunParser, Flat, LinkFits, Received;
    match Detect(d, t, k, i.segs) {
      case None =>
        hide Detect;
        KeptTook(t, k, if |i.segs| > GIVE_UP_SEGMENTS then i.(status := GaveUp, segs := []) else i, data);
      case Some((kind, proto)) =>
        NewProtoFits(t, d, k, i);
        hide Detect, EntryFits;
        var t1 := t[k := i.(kind := kind, proto := proto)];
        ParserRan(t1, k);
        RanTook(t, t1, RunParser(t1, k).0, k, data);
    }
  }

  // --------------------------------------------------------------- one call

  lemma {:induction false} QuietParsesNothing(h: H.Http, q: H.Peer, rest: bytes)
    requires HttpSegmentation.Quiet(h, q, rest)
    ensures H.Parse(h, q, rest) == H.Result(None, h, q, rest, [])
  {
    hide H.Step;
  }

  /** A settled stream that gets no new bytes keeps its parser. */
  lemma NothingNew(d: Detectors, t: Table, k: IdDir)
    requires Fits(t) && k in t && Settled(t, k) && t[k].proto.Http?
    ensures var t' := InData(d, t, k, []).0;
            t'[k].proto == t[k].proto
  {
    assert k.dir != FromNone && KindFits(t[k]) by { assert EntryFits(t[k]); }
    hide ParseHttp, HttpSegmentation.Quiet, Flat, Fits, QueueFor, Detect;
    if ReadyForHttp(t, k) {
      NothingParsed(t, k);
      assert Received(t[k], []) == t[k] && t[k := t[k]] == t;
    }
  }

  lemma NothingParsed(t: Table, k: IdDir)
    requires ReadyForHttp(t, k) && k.dir != FromNone && Settled(t, k)
    ensures k in ParseHttp(t, k).0 && ParseHttp(t, k).0[k].proto == t[k].proto
  {
    var q := QueueFor(t, k);
    QuietParsesNothing(t[k].proto.h, q, Flat(t[k].segs));
    hide H.Parse, HttpSegmentation.Quiet, Flat, QueueFor, ApplyHttp;
    ApplyHttpShape(t, k, H.Result(None, t[k].proto.h, q, Flat(t[k].segs), []));
  }

  lemma {:induction false} SettledUpToQueue(t: Table, t': Table, k: IdDir)
    requires k in t && k in t' && Settled(t, k) && SameButQueue(t'[k], t[k])
    requires t[k].proto.Http? ==> QueueFor(t', k) == QueueFor(t, k)
    ensures Settled(t', k)
  {
    if ReadyForHttp(t, k) {
      QuietIgnoresMethods(t[k].proto.h, QueueFor(t, k), Flat(t[k].segs), t'[k].proto.h.methods);
    }
  }

  /** After STREAM_DATA_IN both directions have been parsed as far as they go: re-parsing the peer is enough. */
  lemma {:induction false} DataInSettles(d: Detectors, t: Table, k: IdDir, data: bytes)
    requires Fits(t) && AllSettled(t) && k.dir != FromNone
    ensures var t1 := InData(d, t, k, data).0;
            var t2 := InData(d, t1, Other(k), []).0;
            Fits(t2) && AllSettled(t2)
  {
    var o := Other(k);
    var t1 := InData(d, t, k, data).0;
    var t2 := InData(d, t1, o, []).0;
    OtherOther(k);
    hide InData, Settled, EntryFits, LinkFits, Flat, IsSuffix, Other;
    DataTaken(d, t, k, data);
    DataTaken(d, t1, o, []);
    forall j | j in t2 ensures Settled(t2, j) {
      if j != k && j != o {
        assert Settled(t, j);
        OtherOther(j);
        SameSettled(t, t2, j);
      } else if j == k {
        FirstStaysSettled(d, t, t1, t2, k, data);
      }
    }
  }

  lemma SameSettled(t: Table, t': Table, j: IdDir)
    requires j in t && j in t' && t'[j] == t[j] && Settled(t, j)
    requires Other(j) in t <==> Other(j) in t'
    requires Other(j) in t ==> t'[Other(j)] == t[Other(j)]
    ensures Settled(t', j)
  {
    hide HttpSegmentation.Quiet, Other, Flat;
  }

  lemma {:induction false} FirstStaysSettled(d: Detectors, t: Table, t1: Table, t2: Table, k: IdDir, data: bytes)
    requires Fits(t) && AllSettled(t) && k.dir != FromNone && k in t
    requires t1 == InData(d, t, k, data).0 && t2 == InData(d, t1, Other(k), []).0
    requires Took(t, t1, k, data) && Took(t1, t2, Other(k), [])
    ensures k in t2 && Settled(t2, k)
  {
    hide InData, Settled, EntryFits, HttpPairing.Pushes, HttpPairing.Pops;
    var o := Other(k);
    OtherOther(k);
    assert Settled(t1, k) && SameButQueue(t2[k], t1[k]);
    assert LinkFits(t1, k);
    if t1[k].proto.Http? && t1[k].proto.link.Some? {
      assert Settled(t, o) && SameButQueue(t1[o], t[o]);
      assert t[o].proto.Http? ==> t[o].proto.link.None? by { assert t1[o].proto.link.None?; }
      SettledUpToQueue(t, t1, o);
      NothingNew(d, t1, o);
      SameQueueSeen(t1, t2, k);
    }
    hide LinkFits, Fits, Took, OnlyTouches;
    SettledUpToQueue(t1, t2, k);
  }

  /** The queue a parser sees is that of the other direction. */
  lemma SameQueueSeen(t: Table, t': Table, k: IdDir)
    requires k in t && k in t' && t[k].proto.Http? && SameButQueue(t'[k], t[k])
    requires Other(k) in t && Other(k) in t' && t[Other(k)].proto.Http? && t'[Other(k)].proto.Http?
    requires t'[Other(k)].proto.h == t[Other(k)].proto.h
    ensures t'[k].proto.Http? && QueueFor(t', k) == QueueFor(t, k)
  {
  }

  /** Without a peer there is no more to do than with one. */
  lemma QuietWithoutPeer(h: H.Http, q: H.Peer, rest: bytes)
    requires HttpSegmentation.Quiet(h, q, rest)
    ensures HttpSegmentation.Quiet(h, None, rest)
  {
    hide UpTo;
    hide H.FieldsOf;
    hide H.GetHeader;
    hide H.Lower;
    hide H.WithHeaderLine;
    hide H.ReadHex;
    hide H.ContentLength;
  }

  lemma {:induction false} UnlinkedSettled(t: Table, t': Table, o: IdDir)
    requires o in t && o in t' && Settled(t, o) && Other(o) !in t'
    requires t'[o] == t[o] || (t[o].proto.Http? && t'[o] == t[o].(proto := t[o].proto.(link := None)))
    ensures Settled(t', o)
  {
    if ReadyForHttp(t, o) {
      QuietWithoutPeer(t[o].proto.h, QueueFor(t, o), Flat(t[o].segs));
    }
  }

  /** An entry that stays as it is, and so does its peer's. */
  lemma SameFits(t: Table, t': Table, j: IdDir)
    requires j in t && EntryFits(t[j]) && LinkFits(t, j) && Settled(t, j)
    requires j in t' && t'[j] == t[j] && (Other(j) in t <==> Other(j) in t')
    requires Other(j) in t ==> t'[Other(j)] == t[Other(j)]
    ensures EntryFits(t'[j]) && LinkFits(t', j) && Settled(t', j)
  {
    hide EntryFits, HttpSegmentation.Quiet, Other, Flat;
  }

  lemma UnlinkedFits(t: Table, t': Table, o: IdDir)
    requires o in t && EntryFits(t[o]) && Settled(t, o)
    requires o in t' && Other(o) !in t'
    requires t'[o] == if t[o].proto.Http? then t[o].(proto := t[o].proto.(link := None)) else t[o]
    ensures EntryFits(t'[o]) && LinkFits(t', o) && Settled(t', o)
  {
    UnlinkedSettled(t, t', o);
    hide Settled, Other;
  }

  /** One of the entries left after its peer, or another stream, was closed. */
  lemma {:induction false} LeftEntryFits(t: Table, k: IdDir, j: IdDir)
    requires Fits(t) && AllSettled(t) && k.dir != FromNone && j in DestroyStream(t, k)
    ensures var t' := DestroyStream(t, k);
            j.dir != FromNone && EntryFits(t'[j]) && LinkFits(t', j) && Settled(t', j)
  {
    var t' := DestroyStream(t, k);
    var o := Other(k);
    OtherOther(k);
    assert EntryFits(t[j]) && LinkFits(t, j) && Settled(t, j);
    OtherOther(j);
    hide EntryFits, LinkFits, Settled, Fits, AllSettled;
    if j == o {
      UnlinkedFits(t, t', o);
    } else {
      SameFits(t, t', j);
    }
  }

  lemma {:induction false} DestroyFits(t: Table, k: IdDir)
    requires Fits(t) && AllSettled(t) && k.dir != FromNone
    ensures Fits(DestroyStream(t, k)) && AllSettled(DestroyStream(t, k))
  {
    hide DestroyStream, EntryFits, LinkFits, Settled;
    var t' := DestroyStream(t, k);
    forall j | j in t'
      ensures j.dir != FromNone && EntryFits(t'[j]) && LinkFits(t', j) && Settled(t', j)
    {
      LeftEntryFits(t, k, j);
    }
  }
}
