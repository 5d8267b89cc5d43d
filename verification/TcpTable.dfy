/** The flow table and event queue that producer, consumer and collector share,
    one function and one method per critical section (src/cdpi_tcp.hpp, src/cdpi_tcp.cpp). */
module TcpTable {
  import opened Bytes
  import opened FlowId

  type uint32 = x: int | 0 <= x < 0x1_0000_0000

  const MAX_PACKETS: nat := 32
  const TCP_GC_TIMER: nat := 120

  const TH_FIN: bv8 := 1
  const TH_SYN: bv8 := 2
  const TH_RST: bv8 := 4

  predicate Has(flags: bv8, bit: bv8) { flags & bit != 0 }

  /** Sequence numbers wrap at 2^32. */
  function Add32(a: uint32, n: int): uint32 {
    (a + n) % 0x1_0000_0000
  }

  function Signed32(a: uint32): int {
    if a < 0x8000_0000 then a else a - 0x1_0000_0000
  }

  datatype Packet = Packet(seqno: uint32, nxt: uint32, flags: bv8, payload: bytes)

  /** `input_tcp` before it looks at the flow: nxt_seq = seq + data_len. */
  function FromWire(seqno: uint32, flags: bv8, payload: bytes): Packet {
    Packet(seqno, Add32(seqno, |payload|), flags, payload)
  }

  datatype Uniflow = Uniflow(packets: map<uint32, Packet>, time: int, minSeq: uint32,
                             isSyn: bool, isFin: bool, isRm: bool)

  const EMPTY_UNIFLOW := Uniflow(map[], 0, 0, false, false, false)

  datatype Flow = Flow(flow1: Uniflow, flow2: Uniflow)

  function Uni(f: Flow, dir: Direction): Uniflow {
    if dir == FromAddr1 then f.flow1 else f.flow2
  }

  function SetUni(f: Flow, dir: Direction, u: Uniflow): Flow {
    if dir == FromAddr1 then f.(flow1 := u) else f.(flow2 := u)
  }

  // ------------------------------------------------------ one flow direction

  /** `! flags & TH_RST`, which C++ reads as `(! flags) & TH_RST`. */
  predicate DropGuard(flags: bv8) {
    (if flags == 0 then 1 else 0) & TH_RST != 0
  }

  /** The test that was meant to drop segments behind the cursor. */
  predicate DroppedAsStale(u: Uniflow, p: Packet) {
    DropGuard(p.flags) && Signed32(p.seqno) - Signed32(u.minSeq) < 0
  }

  /** No flags byte makes the guard fire, so nothing is ever dropped as stale. */
  lemma {:induction false} StaleTestIsDead(u: Uniflow, p: Packet)
    ensures !DroppedAsStale(u, p)
  {
    assert forall f: bv8 :: !DropGuard(f);
  }

  function Store(u: Uniflow, p: Packet, now: int): Uniflow {
    if Has(p.flags, TH_SYN) || Has(p.flags, TH_FIN) || |p.payload| > 0 then
      u.(packets := u.packets[p.seqno := p], time := now)
    else if Has(p.flags, TH_RST) then
      u.(packets := u.packets[u.minSeq := p], time := now)
    else
      u.(time := now)
  }

  /** The second critical section of `input_tcp` on its flow direction; None when it returns early. */
  function Admit(u: Uniflow, p: Packet, now: int): Option<Uniflow> {
    if Has(p.flags, TH_SYN) then
      if u.isSyn then None
      else Some(Store(u.(minSeq := p.seqno, isSyn := true), p.(nxt := Add32(p.seqno, 1)), now))
    else if DroppedAsStale(u, p) then None
    else Some(Store(u, p, now))
  }

  /** `get_packet` on its flow direction. */
  function Take(u: Uniflow): Option<(Packet, Uniflow)> {
    if u.minSeq !in u.packets then None
    else
      var p := u.packets[u.minSeq];
      Some((p, u.(packets := u.packets - {u.minSeq},
                  isFin := u.isFin || Has(p.flags, TH_FIN),
                  minSeq := p.nxt)))
  }

  lemma TakeShrinks(u: Uniflow)
    requires Take(u).Some?
    ensures |Take(u).value.1.packets| == |u.packets| - 1
  {
    assert u.packets.Keys == (u.packets - {u.minSeq}).Keys + {u.minSeq};
  }

  // ------------------------------------------------------------ shared state

  /** A `shared_ptr<cdpi_tcp_flow>`: an index into the store. A flow erased from the
      table stays in the store, where a producer may still hold it. */
  type Ref = nat

  datatype SharedState = SharedState(flow: map<Id, Ref>, store: seq<Flow>, events: seq<IdDir>)

  type Shared = s: SharedState | forall id :: id in s.flow ==> s.flow[id] < |s.store|
    witness SharedState(map[], [], [])

  function Live(s: Shared, id: Id, dir: Direction): Uniflow
    requires id in s.flow
  {
    Uni(s.store[s.flow[id]], dir)
  }

  /** `m_events` is a sequence with a uniqueness index. */
  function Enqueue(events: seq<IdDir>, k: IdDir): seq<IdDir> {
    if k in events then events else events + [k]
  }

  function WithUni(s: Shared, r: Ref, dir: Direction, u: Uniflow): Shared
    requires r < |s.store|
  {
    s.(store := s.store[r := SetUni(s.store[r], dir, u)])
  }

  /** First critical section of `input_tcp`. */
  function Reserve(s: Shared, id: Id, flags: bv8): (Shared, Option<Ref>) {
    if Has(flags, TH_SYN) && id !in s.flow then
      (s.(flow := s.flow[id := |s.store|], store := s.store + [Flow(EMPTY_UNIFLOW, EMPTY_UNIFLOW)]),
       Some(|s.store|))
    else if id !in s.flow then (s, None)
    else (s, Some(s.flow[id]))
  }

  /** Second critical section of `input_tcp`. */
  function Deposit(s: Shared, r: Ref, id: Id, dir: Direction, p: Packet, now: int): Shared
    requires r < |s.store|
  {
    if dir == FromNone then s
    else
      match Admit(Uni(s.store[r], dir), p, now)
      case None => s
      case Some(u) => WithUni(s, r, dir, u).(events := Enqueue(s.events, IdDir(id, dir)))
  }

  predicate HalfOpen(mine: Uniflow, other: Uniflow) {
    (mine.isSyn && !other.isSyn) || (mine.isFin && !other.isFin)
  }

  predicate Expired(u: Uniflow, now: int) { now - u.time > TCP_GC_TIMER }

  /** The collector's verdict on one flow: the direction it marks, if any. */
  function Doomed(f: Flow, now: int): Option<Direction> {
    if HalfOpen(f.flow1, f.flow2) && Expired(f.flow1, now) then Some(FromAddr1)
    else if HalfOpen(f.flow2, f.flow1) && Expired(f.flow2, now) then Some(FromAddr2)
    else None
  }

  function CollectOne(s: Shared, id: Id, now: int): Shared
    requires id in s.flow
  {
    var r := s.flow[id];
    match Doomed(s.store[r], now)
    case None => s
    case Some(dir) =>
      WithUni(s, r, dir, Uni(s.store[r], dir).(isRm := true))
        .(events := Enqueue(s.events, IdDir(id, dir)))
  }

  /** The collector's critical section, over the flows in iteration order. */
  function Collect(s: Shared, order: seq<Id>, now: int): (s': Shared)
    ensures s'.flow == s.flow && |s'.store| == |s.store|
    decreases |order|
  {
    if |order| == 0 then s
    else
      var n := |order| - 1;
      var t := Collect(s, order[..n], now);
      if order[n] in t.flow then CollectOne(t, order[n], now) else t
  }

  /** `get_packet`. */
  function GetPacket(s: Shared, id: Id, dir: Direction): (Shared, Option<Packet>) {
    if id !in s.flow then (s, None)
    else
      match Take(Live(s, id, dir))
      case None => (s, None)
      case Some((p, u)) => (WithUni(s, s.flow[id], dir, u), Some(p))
  }

  /** `recv_fin`: erases the flow once both directions have finished. */
  function RecvFin(s: Shared, id: Id, dir: Direction): (Shared, bool) {
    if id !in s.flow then (s, false)
    else
      var peer := if dir == FromAddr1 then s.store[s.flow[id]].flow2 else s.store[s.flow[id]].flow1;
      if peer.isFin then (s.(flow := s.flow - {id}), true) else (s, false)
  }

  /** `rm_flow`. */
  function RmFlow(s: Shared, id: Id): Shared {
    s.(flow := s.flow - {id})
  }

  /** `num_packets`. */
  function NumPackets(s: Shared, id: Id, dir: Direction): nat {
    if id in s.flow then |Live(s, id, dir).packets| else 0
  }

  /** The fields of `cdpi_tcp`, changed only inside critical sections. */
  class Tcp {
    var flow: map<Id, Ref>
    var store: seq<Flow>
    var events: seq<IdDir>

    ghost predicate Valid()
      reads this
    {
      forall id :: id in flow ==> flow[id] < |store|
    }

    ghost function State(): Shared
      reads this
      requires Valid()
    {
      SharedState(flow, store, events)
    }

    constructor ()
      ensures Valid() && State() == SharedState(map[], [], [])
    {
      flow, store, events := map[], [], [];
    }

    method ReserveFlow(id: Id, flags: bv8) returns (r: Option<Ref>)
      requires Valid()
      modifies this
      ensures Valid() && (State(), r) == Reserve(old(State()), id, flags)
    {
      if Has(flags, TH_SYN) && id !in flow {
        r := Some(|store|);
        store := store + [Flow(EMPTY_UNIFLOW, EMPTY_UNIFLOW)];
        flow := flow[id := |store| - 1];
      } else if id !in flow {
        return None;
      } else {
        r := Some(flow[id]);
      }
    }

    /** A wire segment becomes a packet and is put into the flow held since `ReserveFlow`. */
    method DepositSegment(r: Ref, id: Id, dir: Direction, seqno: uint32, flags: bv8, payload: bytes, now: int)
      requires Valid() && r < |store|
      modifies this
      ensures Valid() && State() == Deposit(old(State()), r, id, dir, FromWire(seqno, flags, payload), now)
    {
      var packet := Packet(seqno, Add32(seqno, |payload|), flags, payload);
      if dir == FromNone { return; }
      var u := Uni(store[r], dir);
      if Has(packet.flags, TH_SYN) {
        if !u.isSyn {
          u := u.(minSeq := packet.seqno, isSyn := true);
          packet := packet.(nxt := Add32(packet.seqno, 1));
        } else {
          return;
        }
      } else {
        var stale := DropGuard(packet.flags) && Signed32(packet.seqno) - Signed32(u.minSeq) < 0;
        if stale { return; }
      }
      if Has(packet.flags, TH_SYN) || Has(packet.flags, TH_FIN) || |packet.payload| > 0 {
        u := u.(packets := u.packets[packet.seqno := packet]);
      } else if Has(packet.flags, TH_RST) {
        u := u.(packets := u.packets[u.minSeq := packet]);
      }
      u := u.(time := now);
      assert Some(u) == Admit(Uni(store[r], dir), FromWire(seqno, flags, payload), now);
      hide Admit, Store, FromWire, Has, DropGuard, Add32, Uni, SetUni;
      store := store[r := SetUni(store[r], dir, u)];
      var event := IdDir(id, dir);
      if event !in events {
        events := events + [event];
      }
    }

    /** The body of the collector's loop. */
    method CollectFlow(id: Id, now: int)
      requires Valid() && id in flow
      modifies this`store, this`events
      ensures Valid() && State() == CollectOne(old(State()), id, now)
    {
      var r := flow[id];
      var f := store[r];
      if ((f.flow1.isSyn && !f.flow2.isSyn) || (f.flow1.isFin && !f.flow2.isFin))
        && now - f.flow1.time > TCP_GC_TIMER
      {
        store := store[r := f.(flow1 := f.flow1.(isRm := true))];
        InsertEvent(IdDir(id, FromAddr1));
      } else if ((!f.flow1.isSyn && f.flow2.isSyn) || (!f.flow1.isFin && f.flow2.isFin))
        && now - f.flow2.time > TCP_GC_TIMER
      {
        store := store[r := f.(flow2 := f.flow2.(isRm := true))];
        InsertEvent(IdDir(id, FromAddr2));
      }
    }

    /** One pass of `garbage_collector` over the table. */
    method GarbageCollect(order: seq<Id>, now: int)
      requires Valid()
      requires forall id :: id in order <==> id in flow
      modifies this`store, this`events
      ensures Valid() && State() == Collect(old(State()), order, now)
    {
      ghost var s := State();
      var i := 0;
      while i < |order|
        invariant 0 <= i <= |order| && Valid() && flow == old(flow)
        invariant State() == Collect(s, order[..i], now)
      {
        assert order[..i + 1][..i] == order[..i];
        CollectFlow(order[i], now);
        i := i + 1;
      }
      assert order[..i] == order;
    }

    method InsertEvent(k: IdDir)
      modifies this`events
      ensures events == Enqueue(old(events), k)
    {
      if k !in events {
        events := events + [k];
      }
    }

    /** Takes the oldest event; the consumer only calls it on a non-empty queue. */
    method PopEvent() returns (k: IdDir)
      requires events != []
      modifies this`events
      ensures [k] + events == old(events)
    {
      k := events[0];
      events := events[1..];
    }

    method TakePacket(id: Id, dir: Direction) returns (p: Option<Packet>)
      requires Valid()
      modifies this`store
      ensures Valid() && (State(), p) == GetPacket(old(State()), id, dir)
    {
      if id !in flow { return None; }
      var u := Uni(store[flow[id]], dir);
      if u.minSeq !in u.packets { return None; }
      var packet := u.packets[u.minSeq];
      u := u.(packets := u.packets - {u.minSeq});
      if Has(packet.flags, TH_FIN) {
        u := u.(isFin := true);
      }
      u := u.(minSeq := packet.nxt);
      store := store[flow[id] := SetUni(store[flow[id]], dir, u)];
      p := Some(packet);
    }

    method FinReceived(id: Id, dir: Direction) returns (erased: bool)
      requires Valid()
      modifies this`flow
      ensures Valid() && (State(), erased) == RecvFin(old(State()), id, dir)
    {
      if id !in flow { return false; }
      var peer := if dir == FromAddr1 then store[flow[id]].flow2 else store[flow[id]].flow1;
      if peer.isFin {
        flow := flow - {id};
        return true;
      }
      return false;
    }

    method RemoveFlow(id: Id)
      requires Valid()
      modifies this`flow
      ensures Valid() && State() == RmFlow(old(State()), id)
    {
      if id !in flow {
        assert flow - {id} == flow;
        return;
      }
      flow := flow - {id};
    }

    method CountPackets(id: Id, dir: Direction) returns (n: nat)
      requires Valid()
      ensures n == NumPackets(State(), id, dir)
    {
      if id !in flow { return 0; }
      return |Uni(store[flow[id]], dir).packets|;
    }
  }
}
