/** No lost wakeup: whatever the interleaving, a flow direction the consumer could make progress on
    has its event queued or is the one being processed (src/cdpi_tcp.cpp). */
module TcpWakeup {
  import opened Bytes
  import opened FlowId
  import opened TcpTable
  import opened TcpSystem

  /** The consumer will call `get_packet` on (id, dir) again, or remove id, before it sleeps. */
  predicate BeingDrained(c: Consumer, id: Id, dir: Direction) {
    match c
    case Drain(i, d) => i == id && d == dir
    case FinSeen(i, d) => i == id && d == dir
    case RstSeen(i) => i == id
    case Collected(i) => i == id
    case _ => false
  }

  /** The consumer will still compare the packet count of (id, dir) with the limit, or remove id. */
  predicate BeingProcessed(c: Consumer, id: Id, dir: Direction) {
    BeingDrained(c, id, dir)
    || (c.Counting? && c.id == id && c.dir == dir)
    || (c.OverLimit? && c.id == id)
  }

  /** What a live direction may look like. */
  predicate Attended(sh: Shared, c: Consumer, id: Id, dir: Direction)
    requires id in sh.flow
  {
    var u := Live(sh, id, dir);
    var queued := IdDir(id, dir) in sh.events;
    && (u.minSeq in u.packets ==> queued || BeingDrained(c, id, dir))
    && (|u.packets| > MAX_PACKETS ==> queued || BeingProcessed(c, id, dir))
    && (u.isRm ==> queued || c == Collected(id))
  }

  predicate EventsUnique(events: seq<IdDir>) {
    && (forall i :: 0 <= i < |events| ==> events[i].dir != FromNone)
    && (forall i, j :: 0 <= i < j < |events| ==> events[i] != events[j])
  }

  /** Every flow is listed under the id it was made for, so no two ids share one. */
  predicate Owned(sh: Shared, hist: seq<FlowHistory>)
    requires |hist| == |sh.store|
  {
    forall id :: id in sh.flow ==> hist[sh.flow[id]].owner == id
  }

  ghost predicate Attention(sh: Shared, hist: seq<FlowHistory>, c: Consumer)
    requires |hist| == |sh.store|
  {
    && EventsUnique(sh.events)
    && Owned(sh, hist)
    && forall id, dir :: id in sh.flow && dir != FromNone ==> Attended(sh, c, id, dir)
  }

  ghost predicate Awake(s: System) {
    && Attention(s.shared, s.hist, s.consumer)
    && (s.producer.Holding? ==> s.hist[s.producer.r].owner == s.producer.id)
    && (Focus(s.consumer).Some? ==> Focus(s.consumer).value.dir != FromNone)
  }

  lemma EnqueueKeepsUnique(events: seq<IdDir>, k: IdDir)
    requires EventsUnique(events) && k.dir != FromNone
    ensures EventsUnique(Enqueue(events, k))
    ensures k in Enqueue(events, k)
    ensures forall j :: j in events ==> j in Enqueue(events, k)
  {
  }

  /** Writing one direction of one flow and queueing its event keeps everything attended. */
  lemma WriteAndQueue(sh: Shared, hist: seq<FlowHistory>, c: Consumer, r: Ref, id: Id, dir: Direction, u: Uniflow)
    requires |hist| == |sh.store| && r < |sh.store| && hist[r].owner == id && dir != FromNone
    requires Attention(sh, hist, c)
    ensures Attention(WithUni(sh, r, dir, u).(events := Enqueue(sh.events, IdDir(id, dir))), hist, c)
  {
    EnqueueKeepsUnique(sh.events, IdDir(id, dir));
    var sh': Shared := WithUni(sh, r, dir, u).(events := Enqueue(sh.events, IdDir(id, dir)));
    forall i, d | i in sh'.flow && d != FromNone
      ensures Attended(sh', c, i, d)
    {
      assert Attended(sh, c, i, d);
      if sh.flow[i] == r && d == dir {
        assert i == id;
      } else {
        assert Live(sh', i, d) == Live(sh, i, d);
      }
    }
  }

  lemma {:induction false} CollectKeepsAttention(sh: Shared, hist: seq<FlowHistory>, c: Consumer, order: seq<Id>,
                                                 now: int)
    requires |hist| == |sh.store| && Attention(sh, hist, c)
    ensures Attention(Collect(sh, order, now), hist, c)
    decreases |order|
  {
    if |order| > 0 {
      var n := |order| - 1;
      CollectKeepsAttention(sh, hist, c, order[..n], now);
      var t := Collect(sh, order[..n], now);
      var id := order[n];
      if id in t.flow && Doomed(t.store[t.flow[id]], now).Some? {
        var r := t.flow[id];
        var dir := Doomed(t.store[r], now).value;
        WriteAndQueue(t, hist, c, r, id, dir, Uni(t.store[r], dir).(isRm := true));
      }
    }
  }

  lemma ArriveKeepsAwake(s: System, id: Id, dir: Direction, seqno: uint32, flags: bv8, payload: bytes)
    requires Awake(s)
    ensures Awake(ArriveStep(s, id, dir, seqno, flags, payload))
  {
    var t := ArriveStep(s, id, dir, seqno, flags, payload);
    forall i, d | i in t.shared.flow && d != FromNone
      ensures Attended(t.shared, t.consumer, i, d)
    {
      if i in s.shared.flow {
        assert Attended(s.shared, s.consumer, i, d);
        assert Live(t.shared, i, d) == Live(s.shared, i, d);
      } else {
        assert Live(t.shared, i, d) == EMPTY_UNIFLOW;
      }
    }
  }

  lemma PutKeepsAwake(s: System, now: int)
    requires Awake(s)
    ensures Awake(PutStep(s, now))
  {
    if s.producer.Holding? && s.producer.dir != FromNone {
      var Holding(r, id, dir, p) := s.producer;
      var t := PutStep(s, now);
      var u := Admit(Uni(s.shared.store[r], dir), p, now);
      if u.Some? {
        WriteAndQueue(s.shared, s.hist, s.consumer, r, id, dir, u.value);
      }
      SameOwners(t.shared, s.hist, t.hist, t.consumer);
    }
  }

  /** Only the owners of the bookkeeping matter here. */
  lemma SameOwners(sh: Shared, hist: seq<FlowHistory>, hist': seq<FlowHistory>, c: Consumer)
    requires |hist| == |hist'| == |sh.store|
    requires forall r :: 0 <= r < |hist| ==> hist'[r].owner == hist[r].owner
    requires Attention(sh, hist, c)
    ensures Attention(sh, hist', c)
  {
  }

  /** Removing a flow leaves the rest attended under any consumer position that looks after
      no less, the removed id aside. */
  lemma RemoveKeepsAttention(s: System, id: Id, c: Consumer)
    requires Awake(s)
    requires forall i, d :: BeingDrained(s.consumer, i, d) ==> i == id
    requires forall i, d :: BeingProcessed(s.consumer, i, d) ==> i == id
    ensures Attention(RmFlow(s.shared, id), s.hist, c)
  {
    var sh := RmFlow(s.shared, id);
    forall i, d | i in sh.flow && d != FromNone
      ensures Attended(sh, c, i, d)
    {
      assert Attended(s.shared, s.consumer, i, d);
      assert Live(sh, i, d) == Live(s.shared, i, d);
      assert !BeingDrained(s.consumer, i, d) && !BeingProcessed(s.consumer, i, d);
    }
  }

  lemma PopKeepsUnique(events: seq<IdDir>)
    requires EventsUnique(events) && events != []
    ensures EventsUnique(events[1..]) && events[0].dir != FromNone
    ensures forall j :: j in events ==> j == events[0] || j in events[1..]
  {
    assert events == [events[0]] + events[1..];
  }

  lemma PopKeepsAttention(sh: Shared, hist: seq<FlowHistory>, c: Consumer)
    requires |hist| == |sh.store| && sh.events != [] && Attention(sh, hist, Top)
    requires var k := sh.events[0];
             k.id in sh.flow ==> BeingDrained(c, k.id, k.dir) && (Live(sh, k.id, k.dir).isRm ==> c == Collected(k.id))
    ensures Attention(sh.(events := sh.events[1..]), hist, c)
  {
    var k := sh.events[0];
    var t: Shared := sh.(events := sh.events[1..]);
    PopKeepsUnique(sh.events);
    forall i, d | i in t.flow && d != FromNone
      ensures Attended(t, c, i, d)
    {
      assert Attended(sh, Top, i, d);
      assert Live(t, i, d) == Live(sh, i, d);
      assert IdDir(i, d) in sh.events ==> IdDir(i, d) == k || IdDir(i, d) in t.events;
    }
  }

  lemma PopKeepsAwake(s: System)
    requires Awake(s) && s.consumer == Top && s.shared.events != []
    ensures Awake(ConsumeStep(s))
  {
    PopKeepsUnique(s.shared.events);
    PopKeepsAttention(s.shared, s.hist, ConsumeStep(s).consumer);
  }

  /** A packet leaves the direction being drained. */
  lemma TakeKeepsAttention(sh: Shared, hist: seq<FlowHistory>, id: Id, dir: Direction, c: Consumer)
    requires |hist| == |sh.store| && dir != FromNone && id in sh.flow
    requires Attention(sh, hist, Drain(id, dir))
    requires Take(Live(sh, id, dir)).Some? && BeingDrained(c, id, dir)
    ensures Attention(GetPacket(sh, id, dir).0, hist, c)
  {
    var t := GetPacket(sh, id, dir).0;
    assert t.flow == sh.flow && t.events == sh.events;
    hide EventsUnique, GetPacket, Attended;
    forall i, d | i in t.flow && d != FromNone
      ensures Attended(t, c, i, d)
    {
      assert Attended(sh, Drain(id, dir), i, d);
      assert sh.flow[i] == sh.flow[id] ==> i == id by { assert hist[sh.flow[i]].owner == i; }
      TakeAttended(sh, id, dir, c, i, d);
    }
  }

  lemma TakeAttended(sh: Shared, id: Id, dir: Direction, c: Consumer, i: Id, d: Direction)
    requires id in sh.flow && i in sh.flow && dir != FromNone && d != FromNone
    requires sh.flow[i] == sh.flow[id] ==> i == id
    requires Take(Live(sh, id, dir)).Some? && BeingDrained(c, id, dir) && Attended(sh, Drain(id, dir), i, d)
    ensures i in GetPacket(sh, id, dir).0.flow && Attended(GetPacket(sh, id, dir).0, c, i, d)
  {
    var t := GetPacket(sh, id, dir).0;
    if i != id || d != dir {
      assert Live(t, i, d) == Live(sh, i, d);
    } else {
      TakeShrinks(Live(sh, id, dir));
      assert Live(t, id, dir) == Take(Live(sh, id, dir)).value.1;
    }
  }

  /** The shape of a drain step that finds a packet. */
  lemma DrainStepShape(s: System)
    requires s.consumer.Drain?
    requires GetPacket(s.shared, s.consumer.id, s.consumer.dir).1.Some?
    ensures var t := ConsumeStep(s);
            && t.shared == GetPacket(s.shared, s.consumer.id, s.consumer.dir).0
            && t.producer == s.producer
            && BeingDrained(t.consumer, s.consumer.id, s.consumer.dir)
            && (s.consumer.dir != FromNone ==> Focus(t.consumer).Some? && Focus(t.consumer).value.dir != FromNone)
            && |t.hist| == |s.hist|
            && forall r :: 0 <= r < |s.hist| ==> t.hist[r].owner == s.hist[r].owner
  {
  }

  lemma DrainKeepsAwake(s: System)
    requires Awake(s) && s.consumer.Drain?
    ensures Awake(ConsumeStep(s))
  {
    var id, dir := s.consumer.id, s.consumer.dir;
    var t := ConsumeStep(s);
    if GetPacket(s.shared, id, dir).1.Some? {
      DrainStepShape(s);
      TakeKeepsAttention(s.shared, s.hist, id, dir, t.consumer);
      SameOwners(t.shared, s.hist, t.hist, t.consumer);
    } else {
      assert t.shared == s.shared && t.hist == s.hist;
      EmptyDrainKeepsAttention(s.shared, s.hist, id, dir);
    }
  }

  lemma EmptyDrainKeepsAttention(sh: Shared, hist: seq<FlowHistory>, id: Id, dir: Direction)
    requires |hist| == |sh.store| && GetPacket(sh, id, dir).1.None?
    requires Attention(sh, hist, Drain(id, dir))
    ensures Attention(sh, hist, Counting(id, dir))
  {
    forall i, d | i in sh.flow && d != FromNone
      ensures Attended(sh, Counting(id, dir), i, d)
    {
      assert Attended(sh, Drain(id, dir), i, d);
    }
  }

  lemma ConsumeKeepsAwake(s: System)
    requires Awake(s)
    ensures Awake(ConsumeStep(s))
  {
    match s.consumer {
      case Top =>
        if s.shared.events != [] { PopKeepsAwake(s); }
      case Drain(_, _) =>
        DrainKeepsAwake(s);
      case Collected(id) =>
        RemoveKeepsAttention(s, id, ConsumeStep(s).consumer);
      case RstSeen(id) =>
        RemoveKeepsAttention(s, id, ConsumeStep(s).consumer);
      case OverLimit(id) =>
        RemoveKeepsAttention(s, id, Top);
      case FinSeen(id, dir) =>
        if RecvFin(s.shared, id, dir).1 {
          RemoveKeepsAttention(s, id, Closing(id));
        } else {
          StillKeepsAttention(s, Drain(id, dir));
        }
      case Closing(id) =>
        StillKeepsAttention(s, Drain(id, FromAddr2));
      case Counting(id, dir) =>
        CountKeepsAwake(s);
    }
  }

  /** A consumer step that touches nothing shared. */
  lemma StillKeepsAttention(s: System, c: Consumer)
    requires Awake(s)
    requires forall i, d :: BeingDrained(s.consumer, i, d) ==> BeingDrained(c, i, d)
    requires forall i, d :: BeingProcessed(s.consumer, i, d) ==> BeingProcessed(c, i, d)
    requires !s.consumer.Collected?
    ensures Attention(s.shared, s.hist, c)
  {
    forall i, d | i in s.shared.flow && d != FromNone
      ensures Attended(s.shared, c, i, d)
    {
      assert Attended(s.shared, s.consumer, i, d);
    }
  }

  lemma CountKeepsAwake(s: System)
    requires Awake(s) && s.consumer.Counting?
    ensures Awake(ConsumeStep(s))
  {
    var Counting(id, dir) := s.consumer;
    if NumPackets(s.shared, id, dir) > MAX_PACKETS {
      StillKeepsAttention(s, OverLimit(id));
    } else {
      UnderLimitKeepsAttention(s);
    }
    hide Attention;
  }

  lemma UnderLimitKeepsAttention(s: System)
    requires Awake(s) && s.consumer.Counting? && NumPackets(s.shared, s.consumer.id, s.consumer.dir) <= MAX_PACKETS
    ensures Attention(s.shared, s.hist, Top)
  {
    hide EventsUnique, Owned;
    forall i, d | i in s.shared.flow && d != FromNone
      ensures Attended(s.shared, Top, i, d)
    {
      assert Attended(s.shared, s.consumer, i, d);
    }
  }

  lemma {:induction false} StepKeepsAwake(s: System, a: Action)
    requires Awake(s)
    ensures Awake(Step(s, a))
  {
    match a {
      case Arrive(id, dir, seqno, flags, payload) => ArriveKeepsAwake(s, id, dir, seqno, flags, payload);
      case Put(now) => PutKeepsAwake(s, now);
      case Sweep(order, now) => CollectKeepsAttention(s.shared, s.hist, s.consumer, order, now);
      case Consume => ConsumeKeepsAwake(s);
    }
  }

  lemma {:induction false} AlwaysAwake(acts: seq<Action>)
    ensures Awake(Exec(acts))
    decreases |acts|
  {
    if |acts| > 0 {
      AlwaysAwake(acts[..|acts| - 1]);
      StepKeepsAwake(Exec(acts[..|acts| - 1]), acts[|acts| - 1]);
    }
  }

  /** In every reachable state, a live direction with a packet at its cursor is queued or being drained,
      one over the packet limit is queued or being processed, and a collected one is queued or about to
      be removed. */
  lemma {:induction false} NoLostWakeup(acts: seq<Action>, id: Id, dir: Direction)
    requires id in Exec(acts).shared.flow && dir != FromNone
    ensures var s := Exec(acts);
            var u := Live(s.shared, id, dir);
            var queued := IdDir(id, dir) in s.shared.events;
            && (u.minSeq in u.packets ==> queued || BeingDrained(s.consumer, id, dir))
            && (|u.packets| > MAX_PACKETS ==> queued || BeingProcessed(s.consumer, id, dir))
            && (u.isRm ==> queued || s.consumer == Collected(id))
  {
    AlwaysAwake(acts);
    assert Attended(Exec(acts).shared, Exec(acts).consumer, id, dir);
  }

  /** At the top of the loop with an empty queue the consumer has nothing left to do: no live direction holds a packet
      at its cursor, more than MAX_PACKETS packets, or a removal mark. (Asleep it may have: see TcpSleep.) */
  lemma {:induction false} IdleMeansDrained(acts: seq<Action>, id: Id, dir: Direction)
    requires Exec(acts).consumer == Top && Exec(acts).shared.events == []
    requires id in Exec(acts).shared.flow && dir != FromNone
    ensures var u := Live(Exec(acts).shared, id, dir);
            u.minSeq !in u.packets && |u.packets| <= MAX_PACKETS && !u.isRm
  {
    NoLostWakeup(acts, id, dir);
  }

  /** The uniqueness index of `m_events` holds in every reachable state. */
  lemma EventsStayUnique(acts: seq<Action>)
    ensures EventsUnique(Exec(acts).shared.events)
  {
    AlwaysAwake(acts);
  }
}
