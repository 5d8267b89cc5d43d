/** The three threads of the reassembler as one state machine: every critical section is
    an atomic step, and a run is any interleaving of producer, collector and consumer steps
    (src/cdpi_tcp.cpp). */
module TcpSystem {
  import opened Bytes
  import opened FlowId
  import opened TcpTable

  /** Calls of `cdpi_stream::in_stream_event`. */
  datatype Call = Created(k: IdDir) | DataIn(k: IdDir, data: bytes) | Destroyed(k: IdDir) | Error(k: IdDir)

  /** `input_tcp` between its two critical sections keeps its `p_tcp_flow`. */
  datatype Producer = Idle | Holding(r: Ref, id: Id, dir: Direction, p: Packet)

  /** Where `run` is between two critical sections. */
  datatype Consumer =
    | Top
    | Collected(id: Id)
    | Drain(id: Id, dir: Direction)
    | FinSeen(id: Id, dir: Direction)
    | RstSeen(id: Id)
    | Closing(id: Id)
    | Counting(id: Id, dir: Direction)
    | OverLimit(id: Id)

  /** Bookkeeping that no step reads: what one flow direction was given and gave back since
      its SYN was accepted, and the id the flow was created for. */
  datatype DirHistory = DirHistory(arrived: seq<Packet>, returned: seq<Packet>)
  datatype FlowHistory = FlowHistory(owner: Id, hist1: DirHistory, hist2: DirHistory)

  const NO_HISTORY := DirHistory([], [])

  function HistOf(f: FlowHistory, dir: Direction): DirHistory {
    if dir == FromAddr1 then f.hist1 else f.hist2
  }

  function SetHist(f: FlowHistory, dir: Direction, h: DirHistory): FlowHistory {
    if dir == FromAddr1 then f.(hist1 := h) else f.(hist2 := h)
  }

  datatype SystemState = SystemState(shared: Shared, producer: Producer, consumer: Consumer,
                                     log: seq<Call>, hist: seq<FlowHistory>)

  type System = s: SystemState |
    |s.hist| == |s.shared.store| && (s.producer.Holding? ==> s.producer.r < |s.shared.store|)
    witness SystemState(SharedState(map[], [], []), Idle, Top, [], [])

  const INIT: System := SystemState(SharedState(map[], [], []), Idle, Top, [], [])

  datatype Action =
    | Arrive(id: Id, dir: Direction, seqno: uint32, flags: bv8, payload: bytes)
    | Put(now: int)
    | Sweep(order: seq<Id>, now: int)
    | Consume

  // ------------------------------------------------------------------- steps

  function ArriveStep(s: System, id: Id, dir: Direction, seqno: uint32, flags: bv8, payload: bytes): System {
    if s.producer.Holding? then s
    else
      var (sh, r) := Reserve(s.shared, id, flags);
      match r
      case None => s
      case Some(ref) =>
        s.(shared := sh,
           producer := Holding(ref, id, dir, FromWire(seqno, flags, payload)),
           hist := if |sh.store| == |s.hist| then s.hist
                   else s.hist + [FlowHistory(id, NO_HISTORY, NO_HISTORY)])
  }

  /** What a deposit adds to the bookkeeping: an accepted SYN starts it afresh. */
  function Recorded(h: DirHistory, u: Uniflow, p: Packet): DirHistory {
    if Has(p.flags, TH_SYN) then
      if u.isSyn then h else NO_HISTORY
    else
      h.(arrived := h.arrived + [p])
  }

  function PutStep(s: System, now: int): System {
    match s.producer
    case Idle => s
    case Holding(r, id, dir, p) =>
      s.(shared := Deposit(s.shared, r, id, dir, p, now),
         producer := Idle,
         hist := if dir == FromNone then s.hist
                 else s.hist[r := SetHist(s.hist[r], dir,
                                          Recorded(HistOf(s.hist[r], dir), Uni(s.shared.store[r], dir), p))])
  }

  /** A deposit changes one direction of one flow and its bookkeeping. */
  lemma {:induction false} PutStepEffect(s: System, now: int)
    requires s.producer.Holding? && s.producer.dir != FromNone
    ensures var Holding(r, id, dir, p) := s.producer;
            var t := PutStep(s, now);
            var u := Uni(s.shared.store[r], dir);
            && t.shared.flow == s.shared.flow && |t.shared.store| == |s.shared.store|
            && t.consumer == s.consumer && t.log == s.log && t.producer == Idle
            && Uni(t.shared.store[r], dir) == (if Admit(u, p, now).Some? then Admit(u, p, now).value else u)
            && HistOf(t.hist[r], dir) == Recorded(HistOf(s.hist[r], dir), u, p)
            && forall q, d :: 0 <= q < |s.shared.store| && d != FromNone && (q != r || d != dir) ==>
                 Uni(t.shared.store[q], d) == Uni(s.shared.store[q], d) && HistOf(t.hist[q], d) == HistOf(s.hist[q], d)
  {
    hide Admit;
    hide Recorded;
  }

  function ConsumeStep(s: System): System {
    match s.consumer
    case Top =>
      if s.shared.events == [] then s
      else
        var k := s.shared.events[0];
        var s' := s.(shared := s.shared.(events := s.shared.events[1..]));
        if k.id !in s.shared.flow then s'
        else if Live(s.shared, k.id, k.dir).isRm then
          s'.(log := s.log + [Error(IdDir(k.id, FromAddr1)), Error(IdDir(k.id, FromAddr2))],
              consumer := Collected(k.id))
        else s'.(consumer := Drain(k.id, k.dir))
    case Collected(id) =>
      s.(shared := RmFlow(s.shared, id), consumer := Drain(id, FromAddr2))
    case Drain(id, dir) =>
      var (sh, p) := GetPacket(s.shared, id, dir);
      (match p
       case None => s.(consumer := Counting(id, dir))
       case Some(pkt) =>
         var r := s.shared.flow[id];
         var h := HistOf(s.hist[r], dir);
         var s' := s.(shared := sh,
                      hist := s.hist[r := SetHist(s.hist[r], dir, h.(returned := h.returned + [pkt]))]);
         var k := IdDir(id, dir);
         if Has(pkt.flags, TH_SYN) then s'.(log := s.log + [Created(k)])
         else if Has(pkt.flags, TH_FIN) then s'.(log := s.log + [DataIn(k, [])], consumer := FinSeen(id, dir))
         else if Has(pkt.flags, TH_RST) then s'.(consumer := RstSeen(id))
         else s'.(log := s.log + [DataIn(k, pkt.payload)]))
    case FinSeen(id, dir) =>
      var (sh, erased) := RecvFin(s.shared, id, dir);
      s.(shared := sh, consumer := if erased then Closing(id) else Drain(id, dir))
    case RstSeen(id) =>
      s.(shared := RmFlow(s.shared, id), consumer := Closing(id))
    case Closing(id) =>
      s.(log := s.log + [Destroyed(IdDir(id, FromAddr1)), Destroyed(IdDir(id, FromAddr2))],
         consumer := Drain(id, FromAddr2))
    case Counting(id, dir) =>
      if NumPackets(s.shared, id, dir) > MAX_PACKETS then
        s.(log := s.log + [Error(IdDir(id, FromAddr1)), Error(IdDir(id, FromAddr2))],
           consumer := OverLimit(id))
      else s.(consumer := Top)
    case OverLimit(id) =>
      s.(shared := RmFlow(s.shared, id), consumer := Top)
  }

  function Step(s: System, a: Action): System {
    match a
    case Arrive(id, dir, seqno, flags, payload) => ArriveStep(s, id, dir, seqno, flags, payload)
    case Put(now) => PutStep(s, now)
    case Sweep(order, now) => s.(shared := Collect(s.shared, order, now))
    case Consume => ConsumeStep(s)
  }

  /** The state after a run. Every interleaving is some sequence of actions. */
  function Exec(acts: seq<Action>): System {
    if |acts| == 0 then INIT
    else
      var n := |acts| - 1;
      Step(Exec(acts[..n]), acts[n])
  }

  lemma ExecOne(acts: seq<Action>, a: Action)
    ensures Exec(acts + [a]) == Step(Exec(acts), a)
  {
    assert (acts + [a])[..|acts|] == acts;
    hide Step;
  }

  // ----------------------------------------------------- the loop of the consumer

  /** The direction whose packets the consumer will still look at. */
  function Focus(c: Consumer): Option<IdDir> {
    match c
    case Top => None
    case Collected(id) => Some(IdDir(id, FromAddr2))
    case Drain(id, dir) => Some(IdDir(id, dir))
    case FinSeen(id, dir) => Some(IdDir(id, dir))
    case RstSeen(id) => Some(IdDir(id, FromAddr2))
    case Closing(id) => Some(IdDir(id, FromAddr2))
    case Counting(id, dir) => Some(IdDir(id, dir))
    case OverLimit(id) => Some(IdDir(id, FromAddr2))
  }

  /** Decreasing measures of one iteration of `run`: the flow is still there, packets left in it,
      position in the loop. */
  function FlowLeft(s: System): nat {
    var f := Focus(s.consumer);
    if f.Some? && f.value.id in s.shared.flow then 1 else 0
  }

  function PacketsLeft(s: System): nat {
    var f := Focus(s.consumer);
    if f.Some? && !s.consumer.RstSeen? && !s.consumer.Collected? && !s.consumer.OverLimit? then
      NumPackets(s.shared, f.value.id, f.value.dir)
    else 0
  }

  function PcLeft(c: Consumer): nat {
    match c
    case Top => 0
    case OverLimit(_) => 1
    case Counting(_, _) => 2
    case Drain(_, _) => 3
    case Closing(_) => 4
    case FinSeen(_, _) => 5
    case RstSeen(_) => 5
    case Collected(_) => 5
  }

  /** t is nearer to the top of the loop than s. */
  predicate Closer(t: System, s: System) {
    FlowLeft(t) < FlowLeft(s)
    || (FlowLeft(t) == FlowLeft(s) &&
        (PacketsLeft(t) < PacketsLeft(s)
         || (PacketsLeft(t) == PacketsLeft(s) && PcLeft(t.consumer) < PcLeft(s.consumer))))
  }

  /** One more consumer step makes progress: the drain ends because every packet that
      `get_packet` returns leaves the map. */
  lemma {:induction false} ConsumerProgress(s: System)
    requires s.consumer != Top
    ensures Closer(ConsumeStep(s), s)
  {
    if s.consumer.Drain? && GetPacket(s.shared, s.consumer.id, s.consumer.dir).1.Some? {
      DrainShrinks(s);
    }
  }

  lemma DrainShrinks(s: System)
    requires s.consumer.Drain? && GetPacket(s.shared, s.consumer.id, s.consumer.dir).1.Some?
    ensures var t := ConsumeStep(s);
            FlowLeft(t) == FlowLeft(s) && PacketsLeft(t) < PacketsLeft(s)
  {
    var id, dir := s.consumer.id, s.consumer.dir;
    var t := ConsumeStep(s);
    assert t.shared == GetPacket(s.shared, id, dir).0;
    assert Focus(t.consumer).Some? && Focus(t.consumer).value.id == id;
    assert t.consumer == RstSeen(id) || Focus(t.consumer).value.dir == dir;
    GetPacketShrinks(s.shared, id, dir);
    hide ConsumeStep, GetPacket, NumPackets;
  }

  lemma GetPacketShrinks(s: Shared, id: Id, dir: Direction)
    requires GetPacket(s, id, dir).1.Some?
    ensures GetPacket(s, id, dir).0.flow == s.flow
    ensures NumPackets(GetPacket(s, id, dir).0, id, dir) < NumPackets(s, id, dir)
  {
    TakeShrinks(Live(s, id, dir));
    assert Live(GetPacket(s, id, dir).0, id, dir) == Take(Live(s, id, dir)).value.1;
  }

  /** The consumer running alone from inside an iteration until it is back at the top. */
  function ToTop(s: System): System
    decreases FlowLeft(s), PacketsLeft(s), PcLeft(s.consumer)
  {
    if s.consumer == Top then s
    else
      ConsumerProgress(s);
      ToTop(ConsumeStep(s))
  }
}
