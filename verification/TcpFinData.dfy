/** A run in which reassembled bytes never reach the stream: those of a FIN (src/cdpi_tcp.cpp). */
module TcpFinData {
  import opened Bytes
  import opened FlowId
  import opened TcpTable
  import opened TcpSystem
  import opened TcpSafety
  import opened TcpStreams
  import opened TcpOneFlow

  function Syn(isn: uint32): Packet { Packet(isn, Add32(isn, 1), TH_SYN, []) }

  function Fin(isn: uint32, data: bytes): Packet { FromWire(Add32(isn, 1), TH_FIN, data) }

  /** The direction with its SYN, with both packets, after the SYN and after the FIN was taken. */
  function Opened(isn: uint32): Uniflow { Uniflow(map[isn := Syn(isn)], 0, isn, true, false, false) }

  function Filled(isn: uint32, data: bytes): Uniflow {
    Uniflow(map[isn := Syn(isn), Add32(isn, 1) := Fin(isn, data)], 0, isn, true, false, false)
  }

  function SynTaken(isn: uint32, data: bytes): Uniflow {
    Uniflow(map[Add32(isn, 1) := Fin(isn, data)], 0, Add32(isn, 1), true, false, false)
  }

  function FinTaken(isn: uint32, data: bytes): Uniflow {
    Uniflow(map[], 0, Fin(isn, data).nxt, true, true, false)
  }

  lemma SynAdmitted(isn: uint32)
    ensures Admit(EMPTY_UNIFLOW, FromWire(isn, TH_SYN, []), 0) == Some(Opened(isn))
    ensures Recorded(NO_HISTORY, EMPTY_UNIFLOW, FromWire(isn, TH_SYN, [])) == NO_HISTORY
  {
    assert Has(TH_SYN, TH_SYN);
    hide Has;
  }

  lemma FinAdmitted(isn: uint32, data: bytes)
    ensures Admit(Opened(isn), Fin(isn, data), 0) == Some(Filled(isn, data))
    ensures Recorded(NO_HISTORY, Opened(isn), Fin(isn, data)) == DirHistory([Fin(isn, data)], [])
  {
    assert Has(TH_FIN, TH_FIN) && !Has(TH_FIN, TH_SYN);
    StaleTestIsDead(Opened(isn), Fin(isn, data));
    hide Has, DroppedAsStale, Add32;
    assert [] + [Fin(isn, data)] == [Fin(isn, data)];
  }

  lemma TakenInTurn(isn: uint32, data: bytes)
    ensures Take(Filled(isn, data)) == Some((Syn(isn), SynTaken(isn, data)))
    ensures Take(SynTaken(isn, data)) == Some((Fin(isn, data), FinTaken(isn, data)))
    ensures Has(Syn(isn).flags, TH_SYN) && !Has(Fin(isn, data).flags, TH_SYN) && Has(Fin(isn, data).flags, TH_FIN)
  {
    assert Has(TH_SYN, TH_SYN) && Has(TH_FIN, TH_FIN) && !Has(TH_FIN, TH_SYN);
    assert Add32(isn, 1) != isn;
    hide Has, Add32;
    assert Filled(isn, data).packets - {isn} == SynTaken(isn, data).packets;
  }

  // ------------------------------------------------------------------- the run

  function SynArrives(id: Id, isn: uint32): Action { Arrive(id, FromAddr1, isn, TH_SYN, []) }

  function FinArrives(id: Id, isn: uint32, data: bytes): Action {
    Arrive(id, FromAddr1, Add32(isn, 1), TH_FIN, data)
  }

  /** A SYN and a FIN with data arrive. */
  function Sending(id: Id, isn: uint32, data: bytes): seq<Action> {
    [] + [SynArrives(id, isn)] + [Put(0)] + [FinArrives(id, isn, data)] + [Put(0)]
  }

  /** And the consumer looks at both. */
  function FinRun(id: Id, isn: uint32, data: bytes): seq<Action> {
    Sending(id, isn, data) + [Consume] + [Consume] + [Consume]
  }

  lemma SynSent(id: Id, isn: uint32)
    ensures Exec([] + [SynArrives(id, isn)]) ==
              OneFlow(id, EMPTY_UNIFLOW, [], Holding(0, id, FromAddr1, FromWire(isn, TH_SYN, [])), Top, [], NO_HISTORY)
    ensures Exec([] + [SynArrives(id, isn)] + [Put(0)]) ==
              OneFlow(id, Opened(isn), [IdDir(id, FromAddr1)], Idle, Top, [], NO_HISTORY)
  {
    var syn := SynArrives(id, isn);
    ExecOne([], syn);
    ExecOne([] + [syn], Put(0));
    FirstArrives(id, isn);
    SynAdmitted(isn);
    hide OneFlow, Admit, Recorded, Step, Opened, FromWire, Has;
    PutOne(id, EMPTY_UNIFLOW, Opened(isn), [], FromWire(isn, TH_SYN, []), Top, [], NO_HISTORY, 0);
    assert Enqueue([], IdDir(id, FromAddr1)) == [IdDir(id, FromAddr1)];
  }

  lemma FinSent(id: Id, isn: uint32, data: bytes)
    ensures Exec([] + [SynArrives(id, isn)] + [Put(0)] + [FinArrives(id, isn, data)]) ==
              OneFlow(id, Opened(isn), [IdDir(id, FromAddr1)], Holding(0, id, FromAddr1, Fin(isn, data)), Top, [],
                      NO_HISTORY)
    ensures Exec(Sending(id, isn, data)) ==
              OneFlow(id, Filled(isn, data), [IdDir(id, FromAddr1)], Idle, Top, [], DirHistory([Fin(isn, data)], []))
  {
    var acts, k := [] + [SynArrives(id, isn)] + [Put(0)], IdDir(id, FromAddr1);
    SynSent(id, isn);
    ExecOne(acts, FinArrives(id, isn, data));
    ExecOne(acts + [FinArrives(id, isn, data)], Put(0));
    FinAdmitted(isn, data);
    assert Enqueue([k], k) == [k];
    hide OneFlow, Admit, Recorded, Step, Exec, Opened, Filled, FromWire, Has, Enqueue, Add32;
    NextArrives(id, Opened(isn), [k], Top, [], NO_HISTORY, Add32(isn, 1), TH_FIN, data);
    PutOne(id, Opened(isn), Filled(isn, data), [k], Fin(isn, data), Top, [], NO_HISTORY, 0);
  }

  lemma FinRunEnds(id: Id, isn: uint32, data: bytes)
    ensures var k := IdDir(id, FromAddr1);
            Exec(FinRun(id, isn, data)) ==
              OneFlow(id, FinTaken(isn, data), [], Idle, FinSeen(id, FromAddr1), [] + [Created(k)] + [DataIn(k, [])],
                      DirHistory([Fin(isn, data)], [] + [Syn(isn)] + [Fin(isn, data)]))
  {
    var acts, k, h := Sending(id, isn, data), IdDir(id, FromAddr1), DirHistory([Fin(isn, data)], []);
    FinSent(id, isn, data);
    TakenInTurn(isn, data);
    ExecOne(acts, Consume);
    ExecOne(acts + [Consume], Consume);
    ExecOne(acts + [Consume] + [Consume], Consume);
    assert !Filled(isn, data).isRm;
    hide OneFlow, Take, Step, Exec, Sending, Filled, SynTaken, FinTaken, Syn, Fin, Has;
    PopOne(id, Filled(isn, data), Idle, [], h);
    TakeOne(id, Filled(isn, data), SynTaken(isn, data), [], Syn(isn), [], h);
    TakeOne(id, SynTaken(isn, data), FinTaken(isn, data), [], Fin(isn, data), [] + [Created(k)],
            h.(returned := [] + [Syn(isn)]));
  }

  /** For every flow id, sequence number and payload of the FIN: the whole payload was reassembled, and the stream,
      which is open, was fed nothing of it. */
  lemma {:induction false} FinDataIsLost(id: Id, isn: uint32, data: bytes)
    ensures var s, k := Exec(FinRun(id, isn, data)), IdDir(id, FromAddr1);
            && id in s.shared.flow && k in Streams(s.log)
            && Fed(s.log, k) == [] && Joined(HistOf(s.hist[s.shared.flow[id]], FromAddr1).returned) == data
  {
    FinRunEnds(id, isn, data);
    TakenInTurn(isn, data);
    var k := IdDir(id, FromAddr1);
    hide Exec, FinRun, Take, Filled, SynTaken, FinTaken, Has;
    OpenedAndFed(k);
    JoinedTwo(Syn(isn), Fin(isn, data));
  }

  lemma OpenedAndFed(k: IdDir)
    ensures var log := [] + [Created(k)] + [DataIn(k, [])]; k in Streams(log) && Fed(log, k) == []
  {
    Append1([], Created(k));
    Append1([] + [Created(k)], DataIn(k, []));
  }

  lemma JoinedTwo(syn: Packet, fin: Packet)
    requires Has(syn.flags, TH_SYN) && !Has(fin.flags, TH_SYN) && Has(fin.flags, TH_FIN)
    ensures Joined([] + [syn] + [fin]) == fin.payload
  {
    hide Has;
    assert ([] + [syn] + [fin])[..1] == [syn] && [syn][..0] == [];
    assert Joined([syn]) == [];
  }

  lemma HonestOne(id: Id, u: Uniflow, events: seq<IdDir>, p: Packet, w: World)
    requires Truthful(p, w(0, FromAddr1)) && (Has(p.flags, TH_SYN) ==> p.seqno == w(0, FromAddr1).isn)
    ensures HonestPut(OneFlow(id, u, events, Holding(0, id, FromAddr1, p), Top, [], NO_HISTORY), w)
  {
    hide Truthful, Has;
  }

  /** And the sender is honest. */
  lemma FinRunIsHonest(id: Id, isn: uint32, data: bytes, w: World)
    requires |data| < 0xFFFF_FFFF && w(0, FromAddr1) == Sent(isn, data)
    ensures Honest(FinRun(id, isn, data), w)
  {
    hide Exec, Has, Truthful, OneFlow, HonestPut, FromWire, Fin, Opened, Filled, Honest;
    SynSent(id, isn);
    FinSent(id, isn, data);
    FinIsPiece(isn, data);
    HonestOne(id, EMPTY_UNIFLOW, [], FromWire(isn, TH_SYN, []), w);
    HonestOne(id, Opened(isn), [IdDir(id, FromAddr1)], Fin(isn, data), w);
    var one := [] + [SynArrives(id, isn)];
    var three := one + [Put(0)] + [FinArrives(id, isn, data)];
    NothingIsHonest(w);
    HonestThen([], SynArrives(id, isn), w);
    HonestThen(one, Put(0), w);
    HonestThen(one + [Put(0)], FinArrives(id, isn, data), w);
    HonestThen(three, Put(0), w);
    HonestThen(three + [Put(0)], Consume, w);
    HonestThen(three + [Put(0)] + [Consume], Consume, w);
    HonestThen(three + [Put(0)] + [Consume] + [Consume], Consume, w);
  }

  lemma NothingIsHonest(w: World)
    ensures Honest([], w)
  {
  }

  lemma HonestThen(acts: seq<Action>, a: Action, w: World)
    requires Honest(acts, w) && (a.Put? ==> HonestPut(Exec(acts), w))
    ensures Honest(acts + [a], w)
  {
    hide Exec, HonestPut;
    var more := acts + [a];
    forall n | 0 <= n < |more| && more[n].Put? ensures HonestPut(Exec(more[..n]), w) {
      assert more[..n] == if n < |acts| then acts[..n] else acts;
    }
  }

  lemma FinIsPiece(isn: uint32, data: bytes)
    requires |data| < 0xFFFF_FFFF
    ensures Truthful(Fin(isn, data), Sent(isn, data)) && Truthful(FromWire(isn, TH_SYN, []), Sent(isn, data))
    ensures !Has(Fin(isn, data).flags, TH_SYN) && FromWire(isn, TH_SYN, []).seqno == isn
  {
    assert Has(TH_SYN, TH_SYN) && !Has(TH_FIN, TH_SYN);
    assert PieceAt(Fin(isn, data), Sent(isn, data), 0);
  }
}
