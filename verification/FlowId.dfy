/** Canonical flow identifiers (src/cdpi_id.hpp, src/cdpi_id.cpp). */
module FlowId {
  import opened Bytes

  datatype Direction = FromAddr1 | FromAddr2 | FromNone

  /** The other direction of a stream, as `in_stream_event` computes it. */
  function Opposite(d: Direction): Direction {
    if d == FromAddr1 then FromAddr2 else FromAddr1
  }

  /** `cdpi_peer`: a 16-byte address union and a port in network order; the padding stays zero. */
  datatype RawPeer = RawPeer(addr: bytes, port: bytes)

  type Peer = p: RawPeer | |p.addr| == 16 && |p.port| == 2
    witness RawPeer([0, 0, 0, 0, 0, 0, 0, 0, 0, 0, 0, 0, 0, 0, 0, 0], [0, 0])

  datatype Id = Id(addr1: Peer, addr2: Peer, l3: byte, l4: byte)

  datatype IdDir = IdDir(id: Id, dir: Direction)

  const IPPROTO_IP: byte := 0
  const IPPROTO_TCP: byte := 6
  const IPPROTO_UDP: byte := 17

  // ------------------------------------------------------------ comparisons

  /** The 20 bytes `memcmp` sees. */
  function Image(p: Peer): (m: bytes)
    ensures |m| == 20
  {
    p.addr + p.port + [0, 0]
  }

  predicate PeerLess(a: Peer, b: Peer) {
    Memcmp(Image(a), Image(b)) < 0
  }

  predicate IdLess(a: Id, b: Id) {
    if a.l3 == b.l3 then
      if a.l4 == b.l4 then
        var n := Memcmp(Image(a.addr1), Image(b.addr1));
        if n == 0 then PeerLess(a.addr2, b.addr2) else n < 0
      else a.l4 < b.l4
    else a.l3 < b.l3
  }

  function Rank(d: Direction): nat {
    match d
    case FromAddr1 => 0
    case FromAddr2 => 1
    case FromNone => 2
  }

  predicate IdDirLess(a: IdDir, b: IdDir) {
    if a.dir == b.dir then IdLess(a.id, b.id) else Rank(a.dir) < Rank(b.dir)
  }

  lemma ImageInjective(a: Peer, b: Peer)
    ensures Image(a) == Image(b) <==> a == b
  {
    assert a.addr == Image(a)[..16] && a.port == Image(a)[16..18];
    assert b.addr == Image(b)[..16] && b.port == Image(b)[16..18];
  }

  /** One law for one triple: irreflexive, transitive, total and antisymmetric, with
      "neither is less" meaning equal. */
  lemma PeerOrder(a: Peer, b: Peer, c: Peer)
    ensures !PeerLess(a, a)
    ensures PeerLess(a, b) && PeerLess(b, c) ==> PeerLess(a, c)
    ensures !(PeerLess(a, b) && PeerLess(b, a))
    ensures !PeerLess(a, b) && !PeerLess(b, a) <==> a == b
    ensures Memcmp(Image(a), Image(b)) == 0 <==> a == b
  {
    LessIsStrictTotalOrder(Image(a), Image(b), Image(c));
    ImageInjective(a, b);
    MemcmpFirstDifference(Image(a), Image(b));
    MemcmpFirstDifference(Image(a), Image(a));
  }

  lemma IdOrder(a: Id, b: Id, c: Id)
    ensures !IdLess(a, a)
    ensures IdLess(a, b) && IdLess(b, c) ==> IdLess(a, c)
    ensures !(IdLess(a, b) && IdLess(b, a))
    ensures !IdLess(a, b) && !IdLess(b, a) <==> a == b
  {
    PeerOrder(a.addr1, b.addr1, c.addr1);
    PeerOrder(a.addr2, b.addr2, c.addr2);
    PeerOrder(b.addr1, c.addr1, a.addr1);
    PeerOrder(b.addr1, a.addr1, a.addr1);
    PeerOrder(a.addr1, a.addr1, a.addr1);
    PeerOrder(a.addr1, c.addr1, c.addr1);
  }

  /** The keys of `m_events` and `m_info` are strictly and totally ordered,
      and order-equivalence is `operator==`. */
  lemma IdDirOrder(a: IdDir, b: IdDir, c: IdDir)
    ensures !IdDirLess(a, a)
    ensures IdDirLess(a, b) && IdDirLess(b, c) ==> IdDirLess(a, c)
    ensures !(IdDirLess(a, b) && IdDirLess(b, a))
    ensures !IdDirLess(a, b) && !IdDirLess(b, a) <==> a == b
  {
    IdOrder(a.id, b.id, c.id);
  }

  // ------------------------------------------------------- IPv4 header to id

  /** The part of the IPv4 header that holds its length. */
  function HeaderLen(h: bytes): nat
    requires |h| > 0
  {
    (h[0] % 16) * 4
  }

  predicate HasPorts(h: bytes)
    requires |h| > 9
  {
    h[9] == IPPROTO_TCP || h[9] == IPPROTO_UDP
  }

  /** The bytes that are read of an IPv4 header and of the transport header it says comes behind. */
  predicate IsIpv4(h: bytes) {
    |h| >= 20 && (HasPorts(h) ==> HeaderLen(h) + 4 <= |h|)
  }

  /** The ports do not lie inside the addresses. */
  predicate PortsBehind(h: bytes)
    requires IsIpv4(h)
  {
    HasPorts(h) ==> HeaderLen(h) >= 20
  }

  function Zeros(n: nat): (z: bytes)
    ensures |z| == n
  {
    seq(n, _ => 0)
  }

  function SrcPeer(h: bytes): Peer
    requires IsIpv4(h)
  {
    RawPeer(h[12..16] + Zeros(12), if HasPorts(h) then h[HeaderLen(h)..HeaderLen(h) + 2] else [0, 0])
  }

  function DstPeer(h: bytes): Peer
    requires IsIpv4(h)
  {
    RawPeer(h[16..20] + Zeros(12), if HasPorts(h) then h[HeaderLen(h) + 2..HeaderLen(h) + 4] else [0, 0])
  }

  /** The same header with its two end points exchanged. */
  function Reverse(h: bytes): (r: bytes)
    requires IsIpv4(h) && PortsBehind(h)
    ensures |r| == |h|
  {
    var n := HeaderLen(h);
    if HasPorts(h) then
      h[..12] + h[16..20] + h[12..16] + h[20..n] + h[n + 2..n + 4] + h[n..n + 2] + h[n + 4..]
    else
      h[..12] + h[16..20] + h[12..16] + h[20..]
  }

  /** Fields of `cdpi_id`, filled in place by `set_iph`. */
  class CdpiId {
    var addr1: Peer
    var addr2: Peer
    var l3: byte
    var l4: byte

    function Value(): Id
      reads this
    {
      Id(addr1, addr2, l3, l4)
    }

    constructor ()
    {
      addr1 := RawPeer(Zeros(16), Zeros(2));
      addr2 := RawPeer(Zeros(16), Zeros(2));
      l3, l4 := 0, 0;
    }

    /** The IPPROTO_IP branch of `set_iph`. */
    method SetIph(iph: bytes) returns (dir: Direction, l4hdr: Option<nat>)
      requires IsIpv4(iph)
      modifies this
      ensures dir == FromAddr1 || dir == FromAddr2
      ensures Source(Value(), dir) == SrcPeer(iph) && Destination(Value(), dir) == DstPeer(iph)
      ensures l3 == IPPROTO_IP && l4 == iph[9]
      ensures dir == FromAddr1 ==> PeerLess(addr1, addr2)
      ensures dir == FromAddr2 ==> !PeerLess(addr2, addr1)
      ensures l4hdr == if HasPorts(iph) then Some(HeaderLen(iph)) else None
    {
      l4hdr := None;
      var a1, a2 := iph[12..16] + Zeros(12), iph[16..20] + Zeros(12);
      var p1: bytes, p2: bytes := [0, 0], [0, 0];
      if iph[9] == IPPROTO_TCP || iph[9] == IPPROTO_UDP {
        var tcph := (iph[0] % 16) * 4;
        p1, p2 := iph[tcph..tcph + 2], iph[tcph + 2..tcph + 4];
        l4hdr := Some(tcph);
      }
      var src: Peer, dst: Peer := RawPeer(a1, p1), RawPeer(a2, p2);
      l3, l4 := IPPROTO_IP, iph[9];
      if PeerLess(src, dst) {
        addr1, addr2 := src, dst;
        return FromAddr1, l4hdr;
      } else {
        addr1, addr2 := dst, src;
        return FromAddr2, l4hdr;
      }
    }
  }

  /** `get_addr_src`/`get_port_src` and their destination twins. */
  function Source(id: Id, dir: Direction): Peer {
    if dir == FromAddr1 then id.addr1 else id.addr2
  }

  function Destination(id: Id, dir: Direction): Peer {
    if dir == FromAddr1 then id.addr2 else id.addr1
  }

  /** What `SetIph` guarantees of the id and direction of a header. */
  ghost predicate Identifies(h: bytes, id: Id, dir: Direction)
    requires IsIpv4(h)
  {
    && (dir == FromAddr1 || dir == FromAddr2)
    && Source(id, dir) == SrcPeer(h) && Destination(id, dir) == DstPeer(h)
    && id.l3 == IPPROTO_IP && id.l4 == h[9]
    && (dir == FromAddr1 ==> PeerLess(id.addr1, id.addr2))
    && (dir == FromAddr2 ==> !PeerLess(id.addr2, id.addr1))
  }

  /** g belongs to the same conversation and travels the other way. */
  predicate Answers(g: bytes, h: bytes)
    requires IsIpv4(g) && IsIpv4(h)
  {
    g[9] == h[9] && SrcPeer(g) == DstPeer(h) && DstPeer(g) == SrcPeer(h)
  }

  lemma {:induction false} ReverseExchangesPeers(h: bytes)
    requires IsIpv4(h) && PortsBehind(h)
    ensures IsIpv4(Reverse(h)) && Answers(Reverse(h), h)
  {
    var r := Reverse(h);
    var n := HeaderLen(h);
    assert r[0] == h[0] && r[9] == h[9];
    assert r[12..16] == h[16..20] && r[16..20] == h[12..16];
    if HasPorts(h) {
      assert r[n..n + 2] == h[n + 2..n + 4] && r[n + 2..n + 4] == h[n..n + 2];
    }
  }

  /** Both directions of a conversation get one id; the direction flips exactly when the peers differ. */
  lemma SameIdBothWays(h: bytes, g: bytes, id: Id, dir: Direction, id': Id, dir': Direction)
    requires IsIpv4(h) && Identifies(h, id, dir)
    requires IsIpv4(g) && Answers(g, h) && Identifies(g, id', dir')
    ensures id == id'
    ensures dir' == Opposite(dir) <==> SrcPeer(h) != DstPeer(h)
    ensures SrcPeer(h) == DstPeer(h) ==> dir == dir' == FromAddr2
  {
    PeerOrder(SrcPeer(h), DstPeer(h), SrcPeer(h));
    PeerOrder(DstPeer(h), SrcPeer(h), SrcPeer(h));
  }

  /** Packets of one id that travel the same way have the same end points. */
  lemma {:induction false} IdDeterminesConversation(h: bytes, g: bytes, id: Id, dir: Direction, dir': Direction)
    requires IsIpv4(h) && Identifies(h, id, dir)
    requires IsIpv4(g) && Identifies(g, id, dir')
    ensures dir == dir' <==> SrcPeer(g) == SrcPeer(h) && DstPeer(g) == DstPeer(h)
    ensures dir != dir' ==> SrcPeer(g) == DstPeer(h) && DstPeer(g) == SrcPeer(h)
  {
    PeerOrder(SrcPeer(h), DstPeer(h), SrcPeer(h));
    PeerOrder(id.addr1, id.addr2, id.addr1);
  }
}
