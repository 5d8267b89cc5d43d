/** The steps of the machine while its table holds a single flow (src/cdpi_tcp.cpp). */
module TcpOneFlow {
  import opened Bytes
  import opened FlowId
  import opened TcpTable
  import opened TcpSystem

  /** One flow, whose second direction saw nothing. */
  function OneFlow(id: Id, u: Uniflow, events: seq<IdDir>, p: Producer, c: Consumer, log: seq<Call>,
                   h: DirHistory): System
    requires p.Holding? ==> p.r == 0
  {
    SystemState(SharedState(map[id := 0], [Flow(u, EMPTY_UNIFLOW)], events), p, c, log,
                [FlowHistory(id, h, NO_HISTORY)])
  }

  /** The SYN that makes the flow. */
  lemma FirstArrives(id: Id, isn: uint32)
    ensures Step(INIT, Arrive(id, FromAddr1, isn, TH_SYN, [])) ==
              OneFlow(id, EMPTY_UNIFLOW, [], Holding(0, id, FromAddr1, FromWire(isn, TH_SYN, [])), Top, [], NO_HISTORY)
  {
    assert Has(TH_SYN, TH_SYN);
    hide Has, FromWire;
  }

  lemma NextArrives(id: Id, u: Uniflow, events: seq<IdDir>, c: Consumer, log: seq<Call>, h: DirHistory, seqno: uint32,
                    flags: bv8, payload: bytes)
    ensures Step(OneFlow(id, u, events, Idle, c, log, h), Arrive(id, FromAddr1, seqno, flags, payload)) ==
              OneFlow(id, u, events, Holding(0, id, FromAddr1, FromWire(seqno, flags, payload)), c, log, h)
  {
    hide Has, FromWire;
  }

  lemma PutOne(id: Id, u: Uniflow, v: Uniflow, events: seq<IdDir>, p: Packet, c: Consumer, log: seq<Call>,
               h: DirHistory, now: int)
    requires Admit(u, p, now) == Some(v)
    ensures Step(OneFlow(id, u, events, Holding(0, id, FromAddr1, p), c, log, h), Put(now)) ==
              OneFlow(id, v, Enqueue(events, IdDir(id, FromAddr1)), Idle, c, log, Recorded(h, u, p))
  {
    hide Admit, Recorded, Enqueue;
  }

  lemma PopOne(id: Id, u: Uniflow, p: Producer, log: seq<Call>, h: DirHistory)
    requires p.Holding? ==> p.r == 0
    ensures !u.isRm ==>
              Step(OneFlow(id, u, [IdDir(id, FromAddr1)], p, Top, log, h), Consume) ==
                OneFlow(id, u, [], p, Drain(id, FromAddr1), log, h)
  {
  }

  /** A SYN or a FIN at the cursor. */
  lemma TakeOne(id: Id, u: Uniflow, v: Uniflow, events: seq<IdDir>, pkt: Packet, log: seq<Call>, h: DirHistory)
    requires Take(u) == Some((pkt, v)) && (Has(pkt.flags, TH_SYN) || Has(pkt.flags, TH_FIN))
    ensures var k := IdDir(id, FromAddr1);
            Step(OneFlow(id, u, events, Idle, Drain(id, FromAddr1), log, h), Consume) ==
              OneFlow(id, v, events, Idle,
                      if Has(pkt.flags, TH_SYN) then Drain(id, FromAddr1) else FinSeen(id, FromAddr1),
                      log + [if Has(pkt.flags, TH_SYN) then Created(k) else DataIn(k, [])],
                      h.(returned := h.returned + [pkt]))
  {
    hide Take, Has;
  }

  /** Nothing at the cursor, and few packets behind it. */
  lemma NothingTaken(id: Id, u: Uniflow, events: seq<IdDir>, log: seq<Call>, h: DirHistory)
    requires Take(u) == None && |u.packets| <= MAX_PACKETS
    ensures Step(Step(OneFlow(id, u, events, Idle, Drain(id, FromAddr1), log, h), Consume), Consume) ==
              OneFlow(id, u, events, Idle, Top, log, h)
  {
    NothingAtCursor(id, u, events, log, h);
    hide Take;
  }

  lemma NothingAtCursor(id: Id, u: Uniflow, events: seq<IdDir>, log: seq<Call>, h: DirHistory)
    requires Take(u) == None
    ensures Step(OneFlow(id, u, events, Idle, Drain(id, FromAddr1), log, h), Consume) ==
              OneFlow(id, u, events, Idle, Counting(id, FromAddr1), log, h)
  {
    hide Take;
  }

  /** The collector finds the flow half open and out of time. */
  lemma SweepOne(id: Id, u: Uniflow, p: Producer, c: Consumer, log: seq<Call>, h: DirHistory, now: int)
    requires (p.Holding? ==> p.r == 0) && u.isSyn && now - u.time > TCP_GC_TIMER
    ensures Step(OneFlow(id, u, [], p, c, log, h), Sweep([id], now)) ==
              OneFlow(id, u.(isRm := true), [IdDir(id, FromAddr1)], p, c, log, h)
  {
    var s := OneFlow(id, u, [], p, c, log, h);
    assert [id][..0] == [] && Collect(s.shared, [], now) == s.shared;
    assert Collect(s.shared, [id], now) == CollectOne(s.shared, id, now);
    assert Doomed(s.shared.store[0], now) == Some(FromAddr1);
    var f := s.shared.store[0];
    assert [f][0 := SetUni(f, FromAddr1, u.(isRm := true))] == [SetUni(f, FromAddr1, u.(isRm := true))];
    assert [] + [IdDir(id, FromAddr1)] == [IdDir(id, FromAddr1)];
  }
}
