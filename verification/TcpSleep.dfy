/** When the consumer sleeps: it waits on an empty queue and only a producer wakes it, while the collector queues its
    events without a notification (src/cdpi_tcp.cpp). */
module TcpSleep {
  import opened Bytes
  import opened FlowId
  import opened TcpTable
  import opened TcpSystem
  import opened TcpWakeup
  import opened TcpSafety
  import opened TcpOneFlow
  import opened TcpFinData

  /** A deposit that gets to the end of `input_tcp`, where it notifies. */
  predicate Notifies(s: System, now: int) {
    s.producer.Holding? && s.producer.dir != FromNone
    && Admit(Uni(s.shared.store[s.producer.r], s.producer.dir), s.producer.p, now).Some?
  }

  /** The consumer is inside its wait after the run. It begins to wait when it finds the queue empty, also after waking
      up for no reason. */
  predicate Waiting(acts: seq<Action>) {
    if |acts| == 0 then false
    else
      var before := acts[..|acts| - 1];
      match acts[|acts| - 1]
      case Consume => Exec(before).consumer == Top && Exec(before).shared.events == []
      case Put(now) => Waiting(before) && !Notifies(Exec(before), now)
      case _ => Waiting(before)
  }

  // -------------------------------------------------------------------- while it sleeps

  /** Nothing that a packet could make the consumer do. */
  predicate NoWork(u: Uniflow) {
    u.minSeq !in u.packets && |u.packets| <= MAX_PACKETS
  }

  ghost predicate AllQuiet(sh: Shared) {
    && (forall id, dir :: id in sh.flow && dir != FromNone ==> NoWork(Live(sh, id, dir)))
    && (forall k :: k in sh.events ==> k.dir != FromNone && k.id in sh.flow && Live(sh, k.id, k.dir).isRm)
  }

  lemma ArriveKeepsQuiet(s: System, id: Id, dir: Direction, seqno: uint32, flags: bv8, payload: bytes)
    requires AllQuiet(s.shared)
    ensures AllQuiet(ArriveStep(s, id, dir, seqno, flags, payload).shared)
  {
    var t := ArriveStep(s, id, dir, seqno, flags, payload);
    hide Has, FromWire;
    forall i, d | i in t.shared.flow && d != FromNone ensures NoWork(Live(t.shared, i, d)) {
      if i in s.shared.flow {
        assert Live(t.shared, i, d) == Live(s.shared, i, d);
      } else {
        assert Live(t.shared, i, d) == EMPTY_UNIFLOW;
      }
    }
  }

  predicate OneFlowEach(sh: Shared) {
    forall i, j :: i in sh.flow && j in sh.flow && i != j ==> sh.flow[i] != sh.flow[j]
  }

  lemma CollectOneKeepsQuiet(sh: Shared, id: Id, now: int)
    requires AllQuiet(sh) && id in sh.flow && OneFlowEach(sh)
    ensures AllQuiet(CollectOne(sh, id, now))
  {
    var t := CollectOne(sh, id, now);
    hide Doomed;
    forall i, d | i in t.flow && d != FromNone
      ensures NoWork(Live(t, i, d)) && (Live(sh, i, d).isRm ==> Live(t, i, d).isRm)
    {
      assert NoWork(Live(sh, i, d));
    }
  }

  lemma OwnersDiffer(sh: Shared, hist: seq<FlowHistory>)
    requires |hist| == |sh.store| && Owned(sh, hist)
    ensures OneFlowEach(sh)
  {
    assert forall i, j :: i in sh.flow && j in sh.flow && i != j ==>
             hist[sh.flow[i]].owner != hist[sh.flow[j]].owner;
  }

  lemma {:induction false} CollectKeepsQuiet(sh: Shared, hist: seq<FlowHistory>, order: seq<Id>, now: int)
    requires |hist| == |sh.store| && Owned(sh, hist) && AllQuiet(sh)
    ensures AllQuiet(Collect(sh, order, now))
    decreases |order|
  {
    if |order| > 0 {
      var n := |order| - 1;
      CollectKeepsQuiet(sh, hist, order[..n], now);
      var t := Collect(sh, order[..n], now);
      hide AllQuiet;
      if order[n] in t.flow {
        assert OneFlowEach(t) by { OwnersDiffer(t, hist); }
        CollectOneKeepsQuiet(t, order[n], now);
      }
    }
  }

  lemma {:induction false} SleepIsQuiet(acts: seq<Action>)
    requires Waiting(acts)
    ensures Exec(acts).consumer == Top && AllQuiet(Exec(acts).shared)
    decreases |acts|
  {
    var before, a := acts[..|acts| - 1], acts[|acts| - 1];
    var s := Exec(before);
    assert Exec(acts) == Step(s, a);
    AlwaysAwake(before);
    hide Exec, AllQuiet;
    match a {
      case Consume => EmptyQueueIsQuiet(before);
      case Arrive(id, dir, seqno, flags, payload) =>
        SleepIsQuiet(before);
        ArriveKeepsQuiet(s, id, dir, seqno, flags, payload);
      case Put(now) =>
        SleepIsQuiet(before);
        hide Admit;
      case Sweep(order, now) =>
        SleepIsQuiet(before);
        CollectKeepsQuiet(s.shared, s.hist, order, now);
    }
  }

  lemma EmptyQueueIsQuiet(acts: seq<Action>)
    requires Exec(acts).consumer == Top && Exec(acts).shared.events == []
    ensures AllQuiet(Exec(acts).shared)
  {
    var sh := Exec(acts).shared;
    hide Exec;
    forall id, dir | id in sh.flow && dir != FromNone ensures NoWork(Live(sh, id, dir)) {
      IdleMeansDrained(acts, id, dir);
    }
  }

  /** For every interleaving, wake-ups for no reason included: while the consumer sleeps, no live direction has a packet
      at its cursor or more than MAX_PACKETS packets, and what is queued is exactly the directions that the collector
      has marked. */
  lemma {:induction false} SleepMissesOnlyCollections(acts: seq<Action>, id: Id, dir: Direction)
    requires Waiting(acts) && dir != FromNone
    ensures var s := Exec(acts);
            && s.consumer == Top
            && (id in s.shared.flow ==> NoWork(Live(s.shared, id, dir)))
            && (IdDir(id, dir) in s.shared.events <==> id in s.shared.flow && Live(s.shared, id, dir).isRm)
  {
    SleepIsQuiet(acts);
    hide Waiting, Exec, NoWork;
    if id in Exec(acts).shared.flow { NoLostWakeup(acts, id, dir); }
  }

  // ----------------------------------------------------------- it does miss them

  /** The collector's verdict depends on nothing that its own pass changes. */
  lemma SameVerdict(sh: Shared, order: seq<Id>, now: int, r: Ref)
    requires r < |sh.store|
    ensures Doomed(Collect(sh, order, now).store[r], now) == Doomed(sh.store[r], now)
  {
    CollectOnlyMarks(sh, order, now, r, FromAddr1);
    CollectOnlyMarks(sh, order, now, r, FromAddr2);
    hide Collect;
  }

  predicate Condemned(sh: Shared, id: Id, dir: Direction) {
    IdDir(id, dir) in sh.events && id in sh.flow && Live(sh, id, dir).isRm
  }

  lemma CollectOneCondemns(sh: Shared, i: Id, now: int, id: Id, dir: Direction)
    requires i in sh.flow && id in sh.flow
    requires Condemned(sh, id, dir) || (i == id && Doomed(sh.store[sh.flow[id]], now) == Some(dir))
    ensures Condemned(CollectOne(sh, i, now), id, dir)
  {
    hide Doomed;
  }

  /** A pass over the flows marks each one that is doomed, and queues it. */
  lemma {:induction false} CollectCondemns(sh: Shared, order: seq<Id>, now: int, id: Id, dir: Direction)
    requires id in order && id in sh.flow && Doomed(sh.store[sh.flow[id]], now) == Some(dir)
    ensures Condemned(Collect(sh, order, now), id, dir)
    decreases |order|
  {
    var n := |order| - 1;
    var t := Collect(sh, order[..n], now);
    SameVerdict(sh, order[..n], now, sh.flow[id]);
    hide Condemned, Doomed, CollectOne;
    if id in order[..n] { CollectCondemns(sh, order[..n], now, id, dir); }
    if order[n] in t.flow { CollectOneCondemns(t, order[n], now, id, dir); }
  }

  /** A consumer does sleep on collections: whenever it waits and the collector comes by, it goes on waiting, with every
      doomed flow marked and queued. */
  lemma {:induction false} SleepsThroughSweep(acts: seq<Action>, order: seq<Id>, now: int, id: Id, dir: Direction)
    requires Waiting(acts) && id in order && id in Exec(acts).shared.flow
    requires Doomed(Exec(acts).shared.store[Exec(acts).shared.flow[id]], now) == Some(dir)
    ensures Waiting(acts + [Sweep(order, now)])
    ensures Condemned(Exec(acts + [Sweep(order, now)]).shared, id, dir)
  {
    var more := acts + [Sweep(order, now)];
    assert more[..|acts|] == acts;
    ExecOne(acts, Sweep(order, now));
    hide Exec, Condemned, Doomed, Collect;
    CollectCondemns(Exec(acts).shared, order, now, id, dir);
  }

  function Drained(isn: uint32): Uniflow { Uniflow(map[], 0, Add32(isn, 1), true, false, false) }

  /** A SYN arrives and is processed, the consumer goes to sleep, and the collector comes by two minutes later. */
  function HalfOpenRun(id: Id, isn: uint32): seq<Action> {
    [] + [SynArrives(id, isn)] + [Put(0)] + [Consume] + [Consume] + [Consume] + [Consume] + [Consume]
    + [Sweep([id], TCP_GC_TIMER + 1)]
  }

  lemma SynTakenAlone(isn: uint32)
    ensures Take(Opened(isn)) == Some((Syn(isn), Drained(isn))) && Take(Drained(isn)) == None
    ensures Has(Syn(isn).flags, TH_SYN) && !Opened(isn).isRm && |Drained(isn).packets| == 0
  {
    assert Has(TH_SYN, TH_SYN);
    hide Has, Add32;
    assert Opened(isn).packets - {isn} == map[];
  }

  lemma SynProcessed(id: Id, isn: uint32)
    ensures var acts := [] + [SynArrives(id, isn)] + [Put(0)] + [Consume] + [Consume] + [Consume] + [Consume];
            Exec(acts) == OneFlow(id, Drained(isn), [], Idle, Top, [] + [Created(IdDir(id, FromAddr1))],
                                  DirHistory([], [] + [Syn(isn)]))
  {
    var acts, log := [] + [SynArrives(id, isn)] + [Put(0)], [] + [Created(IdDir(id, FromAddr1))];
    SynSent(id, isn);
    SynTakenAlone(isn);
    ExecOne(acts, Consume);
    ExecOne(acts + [Consume], Consume);
    ExecOne(acts + [Consume] + [Consume], Consume);
    ExecOne(acts + [Consume] + [Consume] + [Consume], Consume);
    hide OneFlow, Take, Step, Exec, Opened, Drained, Syn, Has;
    PopOne(id, Opened(isn), Idle, [], NO_HISTORY);
    TakeOne(id, Opened(isn), Drained(isn), [], Syn(isn), [], NO_HISTORY);
    NothingTaken(id, Drained(isn), [], log, DirHistory([], [] + [Syn(isn)]));
  }

  /** For instance in this run. */
  lemma {:induction false} SleepsOnCollection(id: Id, isn: uint32)
    ensures var s := Exec(HalfOpenRun(id, isn));
            && Waiting(HalfOpenRun(id, isn)) && s.shared.events == [IdDir(id, FromAddr1)]
            && id in s.shared.flow && Live(s.shared, id, FromAddr1).isRm
  {
    var acts := [] + [SynArrives(id, isn)] + [Put(0)] + [Consume] + [Consume] + [Consume] + [Consume];
    var log, h := [] + [Created(IdDir(id, FromAddr1))], DirHistory([], [] + [Syn(isn)]);
    SynProcessed(id, isn);
    assert (acts + [Consume])[..|acts|] == acts;
    ExecOne(acts, Consume);
    ExecOne(acts + [Consume], Sweep([id], TCP_GC_TIMER + 1));
    assert Waiting(acts + [Consume]);
    hide Exec, Collect, Waiting;
    SleepsThroughSweep(acts + [Consume], [id], TCP_GC_TIMER + 1, id, FromAddr1);
    SweepOne(id, Drained(isn), Idle, Top, log, h, TCP_GC_TIMER + 1);
  }
}
