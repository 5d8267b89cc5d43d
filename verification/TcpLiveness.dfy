/** The consumer empties its queue: from every reachable state it gets to the top of its loop with nothing queued by its
    own steps alone, and has then delivered whatever had arrived (src/cdpi_tcp.cpp). */
module TcpLiveness {
  import opened FlowId
  import opened TcpTable
  import opened TcpSystem
  import opened TcpWakeup
  import opened TcpSafety
  import opened TcpDelivery

  predicate AtRest(s: System) { s.consumer == Top && s.shared.events == [] }

  /** A consumer step queues nothing, and at the top it takes one event off the queue. */
  lemma QueueShrinks(s: System)
    ensures ConsumeStep(s).shared.events == if s.consumer == Top && s.shared.events != [] then s.shared.events[1..]
                                            else s.shared.events
  {
    hide Take, NumPackets, Live;
  }

  /** So every step of a consumer that is not at rest brings it nearer to being so. */
  lemma RestComesNearer(s: System)
    requires !AtRest(s)
    ensures var t := ConsumeStep(s);
            || |t.shared.events| < |s.shared.events|
            || (|t.shared.events| == |s.shared.events| && Closer(t, s))
  {
    QueueShrinks(s);
    hide ConsumeStep, Closer;
    if s.consumer != Top { ConsumerProgress(s); }
  }

  function Consumes(n: nat): seq<Action> {
    if n == 0 then [] else [Consume] + Consumes(n - 1)
  }

  /** The state n consumer steps later. */
  function Later(s: System, n: nat): System
    decreases n
  {
    if n == 0 then s else Later(ConsumeStep(s), n - 1)
  }

  lemma {:induction false} RestIsReached(s: System) returns (n: nat)
    ensures AtRest(Later(s, n))
    decreases |s.shared.events|, FlowLeft(s), PacketsLeft(s), PcLeft(s.consumer)
  {
    hide ConsumeStep, AtRest, FlowLeft, PacketsLeft, PcLeft;
    if AtRest(s) {
      n := 0;
    } else {
      RestComesNearer(s);
      var m := RestIsReached(ConsumeStep(s));
      n := m + 1;
    }
  }

  lemma ConsumesFirst(acts: seq<Action>, n: nat)
    ensures acts + Consumes(0) == acts
    ensures acts + [Consume] + Consumes(n) == acts + Consumes(n + 1)
  {
  }

  lemma ConsumeOne(acts: seq<Action>)
    ensures Exec(acts + [Consume]) == ConsumeStep(Exec(acts))
  {
    ExecOne(acts, Consume);
    hide Exec, ConsumeStep;
  }

  lemma {:induction false} ConsumesLead(acts: seq<Action>, n: nat)
    ensures Exec(acts + Consumes(n)) == Later(Exec(acts), n)
    decreases n
  {
    hide Exec, ConsumeStep, Consumes;
    ConsumesFirst(acts, if n == 0 then 0 else n - 1);
    if n > 0 {
      ConsumeOne(acts);
      ConsumesLead(acts + [Consume], n - 1);
    }
  }

  /** After any run of the three threads, the consumer alone comes to rest. */
  lemma {:induction false} QueueIsEmptied(acts: seq<Action>) returns (n: nat)
    ensures AtRest(Exec(acts + Consumes(n)))
  {
    n := RestIsReached(Exec(acts));
    ConsumesLead(acts, n);
    hide Exec, Later, AtRest, Consumes;
  }

  // ------------------------------------------------------------------ delivery

  /** What the consumer leaves as it is: flows keep their place while they are in the table, and their directions the
      SYN and all that arrived. */
  predicate Persists(s: System, t: System, dir: Direction) {
    && |t.shared.store| == |s.shared.store|
    && (forall id :: id in t.shared.flow ==> id in s.shared.flow && t.shared.flow[id] == s.shared.flow[id])
    && (forall r :: 0 <= r < |s.shared.store| ==>
          && Uni(t.shared.store[r], dir).isSyn == Uni(s.shared.store[r], dir).isSyn
          && HistOf(t.hist[r], dir).arrived == HistOf(s.hist[r], dir).arrived)
  }

  lemma ConsumePersists(s: System, dir: Direction)
    requires Awake(s) && dir != FromNone
    ensures Persists(s, ConsumeStep(s), dir)
  {
    if s.consumer.Drain? && GetPacket(s.shared, s.consumer.id, s.consumer.dir).1.Some? {
      TakePersists(s, dir);
    } else {
      ConsumeElsewhere(s);
    }
    hide ConsumeStep, Awake, GetPacket;
  }

  lemma TakePersists(s: System, dir: Direction)
    requires Awake(s) && dir != FromNone && s.consumer.Drain?
    requires GetPacket(s.shared, s.consumer.id, s.consumer.dir).1.Some?
    ensures Persists(s, ConsumeStep(s), dir)
  {
    DrainStepEffect(s);
    assert s.consumer.dir == Focus(s.consumer).value.dir != FromNone;
    hide ConsumeStep, IsReset, Awake, Focus;
  }

  lemma PersistsOn(s: System, t: System, u: System, dir: Direction)
    requires Persists(s, t, dir) && Persists(t, u, dir)
    ensures Persists(s, u, dir)
  {
    hide HistOf, Uni;
  }

  lemma {:induction false} LaterPersists(s: System, n: nat, dir: Direction)
    requires Awake(s) && dir != FromNone
    ensures Persists(s, Later(s, n), dir)
    decreases n
  {
    if n == 0 {
      hide Awake;
    } else {
      ConsumePersists(s, dir);
      ConsumeKeepsAwake(s);
      hide Awake, ConsumeStep, Persists;
      LaterPersists(ConsumeStep(s), n - 1, dir);
      PersistsOn(s, ConsumeStep(s), Later(s, n), dir);
    }
  }

  lemma {:induction false} ConsumesFollow(acts: seq<Action>, n: nat, r: Ref, dir: Direction, p: Plan)
    requires Follows(acts, r, dir, p)
    ensures Follows(acts + Consumes(n), r, dir, p)
    decreases n
  {
    ConsumesFirst(acts, if n == 0 then 0 else n - 1);
    if n > 0 {
      FollowsStep(acts, r, dir, p);
      hide Follows, Consumes;
      ConsumesFollow(acts + [Consume], n - 1, r, dir, p);
    }
  }

  lemma FollowsStep(acts: seq<Action>, r: Ref, dir: Direction, p: Plan)
    requires Follows(acts, r, dir, p)
    ensures Follows(acts + [Consume], r, dir, p)
  {
    hide Exec, PlannedPut;
    var more := acts + [Consume];
    forall n | 0 <= n < |more| && more[n].Put? ensures PlannedPut(Exec(more[..n]), r, dir, p) {
      assert more[..n] == acts[..n];
    }
  }

  /** Every segment of the cutting has arrived at the flow of id, since its SYN. */
  ghost predicate AllArrived(s: System, r: Ref, dir: Direction, p: Plan) {
    && r < |s.shared.store| && Uni(s.shared.store[r], dir).isSyn
    && forall i: nat :: i < |p.cuts| ==> HasArrived(HistOf(s.hist[r], dir).arrived, p, i)
  }

  /** Delivery: after any run in which every segment of the cutting has arrived, the consumer alone comes to rest, and
      unless the flow was removed on the way it has then returned exactly the cutting, in order. */
  lemma {:induction false} ArrivedIsDelivered(acts: seq<Action>, id: Id, dir: Direction, p: Plan) returns (n: nat)
    requires dir != FromNone && id in Exec(acts).shared.flow
    requires Follows(acts, Exec(acts).shared.flow[id], dir, p)
    requires AllArrived(Exec(acts), Exec(acts).shared.flow[id], dir, p)
    ensures var r, s := Exec(acts).shared.flow[id], Exec(acts + Consumes(n));
            && AtRest(s)
            && (id in s.shared.flow ==> s.shared.flow[id] == r && Delivered(HistOf(s.hist[r], dir).returned) == p.cuts)
  {
    n := QueueIsEmptied(acts);
    var r := Exec(acts).shared.flow[id];
    AlwaysAwake(acts);
    LaterPersists(Exec(acts), n, dir);
    ConsumesLead(acts, n);
    ConsumesFollow(acts, n, r, dir, p);
    hide Exec, Follows, HasArrived, Delivered, Consumes, Later, Awake;
    if id in Exec(acts + Consumes(n)).shared.flow { QuiescentDelivery(acts + Consumes(n), id, dir, p); }
  }

  // ------------------------------------------------- when the flow is kept, and when not

  /** No packet of the direction makes the consumer remove the flow, nor does their number. */
  ghost predicate Harmless(u: Uniflow) {
    && !u.isRm && |u.packets| <= MAX_PACKETS
    && forall k :: k in u.packets ==> !IsReset(u.packets[k])
  }

  /** The direction has not finished, and has no FIN stored. */
  ghost predicate Unfinished(u: Uniflow) {
    !u.isFin && forall k :: k in u.packets ==> !Has(u.packets[k].flags, TH_FIN)
  }

  /** The consumer is not about to remove the flow of id. */
  predicate NotLeaving(c: Consumer, id: Id, open: Direction) {
    c != Collected(id) && c != RstSeen(id) && c != OverLimit(id) && c != FinSeen(id, open)
  }

  ghost predicate FlowKept(sh: Shared, id: Id, open: Direction) {
    && id in sh.flow && open != FromNone
    && Harmless(Live(sh, id, FromAddr1)) && Harmless(Live(sh, id, FromAddr2)) && Unfinished(Live(sh, id, open))
  }

  /** Nothing in the flow of id, whose direction open is unfinished, makes the consumer remove it. */
  ghost predicate Keeps(s: System, id: Id, open: Direction) {
    FlowKept(s.shared, id, open) && NotLeaving(s.consumer, id, open)
  }

  lemma TakeKeepsHarmless(u: Uniflow)
    requires Take(u).Some?
    ensures Harmless(u) ==> Harmless(Take(u).value.1) && !IsReset(Take(u).value.0)
    ensures Unfinished(u) ==> Unfinished(Take(u).value.1) && !Has(Take(u).value.0.flags, TH_FIN)
  {
    TakeShrinks(u);
    hide IsReset, Has;
  }

  lemma TakeKeepsFlow(sh: Shared, i: Id, d: Direction, id: Id, open: Direction)
    requires FlowKept(sh, id, open) && d != FromNone && GetPacket(sh, i, d).1.Some?
    requires i != id ==> sh.flow[i] != sh.flow[id]
    ensures FlowKept(GetPacket(sh, i, d).0, id, open)
    ensures i == id ==> !IsReset(GetPacket(sh, i, d).1.value)
    ensures i == id && d == open ==> !Has(GetPacket(sh, i, d).1.value.flags, TH_FIN)
  {
    if i == id { TakeKeepsHarmless(Live(sh, id, d)); }
    hide Take, Harmless, Unfinished, IsReset, Has;
  }

  lemma TakeKeeps(s: System, id: Id, open: Direction)
    requires Awake(s) && Keeps(s, id, open) && s.consumer.Drain?
    requires GetPacket(s.shared, s.consumer.id, s.consumer.dir).1.Some?
    ensures Keeps(ConsumeStep(s), id, open)
  {
    hide ConsumeStep, Awake, FlowKept, IsReset, Has, GetPacket;
    var Drain(i, d) := s.consumer;
    DrainsRealDirection(s);
    DrainLeads(s);
    KeptIsThere(s.shared, id, open);
    if i != id { OwnersApart(s, i, id); }
    TakeKeepsFlow(s.shared, i, d, id, open);
  }

  lemma DrainsRealDirection(s: System)
    requires Awake(s) && s.consumer.Drain?
    ensures s.consumer.dir != FromNone
  {
    assert Focus(s.consumer).value.dir == s.consumer.dir;
  }

  lemma KeptIsThere(sh: Shared, id: Id, open: Direction)
    requires FlowKept(sh, id, open)
    ensures id in sh.flow
  {
  }

  lemma OwnersApart(s: System, i: Id, j: Id)
    requires Awake(s) && i in s.shared.flow && j in s.shared.flow && i != j
    ensures s.shared.flow[i] != s.shared.flow[j]
  {
    assert s.hist[s.shared.flow[i]].owner == i && s.hist[s.shared.flow[j]].owner == j;
  }

  /** Where a drain step that finds a packet leads. */
  lemma DrainLeads(s: System)
    requires s.consumer.Drain? && GetPacket(s.shared, s.consumer.id, s.consumer.dir).1.Some?
    ensures var Drain(i, d) := s.consumer;
            var (sh, p) := GetPacket(s.shared, i, d);
            var t := ConsumeStep(s);
            && i in s.shared.flow && t.shared == sh
            && (t.consumer == s.consumer || t.consumer == FinSeen(i, d) || t.consumer == RstSeen(i))
            && (t.consumer == FinSeen(i, d) ==> Has(p.value.flags, TH_FIN))
            && (t.consumer == RstSeen(i) ==> IsReset(p.value))
  {
    hide Take, Has;
  }

  /** Every other step leaves the flow where it is. */
  lemma OtherStays(s: System, id: Id, open: Direction)
    requires Keeps(s, id, open) && s.consumer != Top
    requires Focus(s.consumer).value.dir != FromNone
    requires !(s.consumer.Drain? && GetPacket(s.shared, s.consumer.id, s.consumer.dir).1.Some?)
    ensures id in ConsumeStep(s).shared.flow && NotLeaving(ConsumeStep(s).consumer, id, open)
  {
    hide Take, IsReset, Has;
  }

  lemma PopStays(s: System, id: Id, open: Direction)
    requires Keeps(s, id, open) && s.consumer == Top
    ensures id in ConsumeStep(s).shared.flow && NotLeaving(ConsumeStep(s).consumer, id, open)
  {
    hide Take, IsReset, Has;
  }

  lemma OtherKeeps(s: System, id: Id, open: Direction)
    requires Awake(s) && Keeps(s, id, open)
    requires !(s.consumer.Drain? && GetPacket(s.shared, s.consumer.id, s.consumer.dir).1.Some?)
    ensures Keeps(ConsumeStep(s), id, open)
  {
    ConsumeElsewhere(s);
    assert s.consumer != Top ==> Focus(s.consumer).Some?;
    hide ConsumeStep, Harmless, Unfinished, GetPacket, NotLeaving;
    if s.consumer == Top { PopStays(s, id, open); } else { OtherStays(s, id, open); }
    hide Awake;
  }

  lemma ConsumeKeeps(s: System, id: Id, open: Direction)
    requires Awake(s) && Keeps(s, id, open)
    ensures Keeps(ConsumeStep(s), id, open) && Awake(ConsumeStep(s))
  {
    hide Awake, ConsumeStep, Keeps;
    ConsumeKeepsAwake(s);
    if s.consumer.Drain? && GetPacket(s.shared, s.consumer.id, s.consumer.dir).1.Some? {
      TakeKeeps(s, id, open);
    } else {
      OtherKeeps(s, id, open);
    }
  }

  lemma {:induction false} LaterKeeps(s: System, n: nat, id: Id, open: Direction)
    requires Awake(s) && Keeps(s, id, open)
    ensures Keeps(Later(s, n), id, open)
    decreases n
  {
    hide Awake, ConsumeStep, Keeps;
    if n > 0 {
      ConsumeKeeps(s, id, open);
      LaterKeeps(ConsumeStep(s), n - 1, id, open);
    }
  }

  /** Delivery without a condition on what the consumer does: if neither direction of the flow is marked, stores a reset
      or more than MAX_PACKETS packets, and one of them is unfinished, the flow is kept and the cutting returned, in
      order. */
  lemma {:induction false} KeptIsDelivered(acts: seq<Action>, id: Id, dir: Direction, p: Plan, open: Direction)
    returns (n: nat)
    requires dir != FromNone && Keeps(Exec(acts), id, open)
    requires Follows(acts, Exec(acts).shared.flow[id], dir, p)
    requires AllArrived(Exec(acts), Exec(acts).shared.flow[id], dir, p)
    ensures var r, s := Exec(acts).shared.flow[id], Exec(acts + Consumes(n));
            && AtRest(s) && Keeps(s, id, open) && s.shared.flow[id] == r
            && Delivered(HistOf(s.hist[r], dir).returned) == p.cuts
  {
    hide Exec, Follows, AllArrived, Delivered, Consumes, Later, Awake, Harmless, Unfinished, NotLeaving, AtRest;
    n := ArrivedIsDelivered(acts, id, dir, p);
    AlwaysAwake(acts);
    LaterKeeps(Exec(acts), n, id, open);
    ConsumesLead(acts, n);
  }

  /** Keys of packets behind the cursor. */
  ghost predicate AllStale(s: System, t: Truth, r: Ref, dir: Direction, keys: set<uint32>) {
    forall k :: k in keys ==> exists o: nat :: k == Add32(t.isn, 1 + o) && Stale(s, t, r, dir, o)
  }

  lemma {:induction false} HonestConsumes(acts: seq<Action>, n: nat, w: World)
    requires Honest(acts, w)
    ensures Honest(acts + Consumes(n), w)
    decreases n
  {
    ConsumesFirst(acts, if n == 0 then 0 else n - 1);
    if n > 0 {
      HonestAnd(acts, w);
      hide Honest, Consumes;
      HonestConsumes(acts + [Consume], n - 1, w);
    }
  }

  lemma HonestAnd(acts: seq<Action>, w: World)
    requires Honest(acts, w)
    ensures Honest(acts + [Consume], w)
  {
    hide Exec, HonestPut;
    var more := acts + [Consume];
    forall n | 0 <= n < |more| && more[n].Put? ensures HonestPut(Exec(more[..n]), w) {
      assert more[..n] == acts[..n];
    }
  }

  /** The other way round: more than MAX_PACKETS packets behind the cursor never go away, so the consumer, once at rest,
      has removed the flow. */
  lemma {:induction false} StaleKeysRemoveFlow(acts: seq<Action>, w: World, id: Id, dir: Direction, keys: set<uint32>)
    returns (n: nat)
    requires Honest(acts, w) && dir != FromNone && id in Exec(acts).shared.flow && |keys| > MAX_PACKETS
    requires var r := Exec(acts).shared.flow[id]; AllStale(Exec(acts), w(r, dir), r, dir, keys)
    ensures AtRest(Exec(acts + Consumes(n))) && id !in Exec(acts + Consumes(n)).shared.flow
  {
    n := QueueIsEmptied(acts);
    var r, more := Exec(acts).shared.flow[id], acts + Consumes(n);
    AlwaysAwake(acts);
    LaterPersists(Exec(acts), n, dir);
    ConsumesLead(acts, n);
    HonestConsumes(acts, n, w);
    hide Exec, Honest, Consumes, Later, Awake, Stale;
    if id in Exec(more).shared.flow {
      var stored := Uni(Exec(more).shared.store[r], dir).packets;
      forall k | k in keys ensures k in stored.Keys {
        var o: nat :| k == Add32(w(r, dir).isn, 1 + o) && Stale(Exec(acts), w(r, dir), r, dir, o);
        StaleKeyStays(acts, Consumes(n), w, r, dir, o);
        StaleIsStored(Exec(more), w(r, dir), r, dir, o);
      }
      SubsetSize(keys, stored.Keys);
      assert |stored| == |stored.Keys| > MAX_PACKETS;
      IdleMeansDrained(more, id, dir);
    }
  }

  lemma StaleIsStored(s: System, t: Truth, r: Ref, dir: Direction, o: nat)
    requires Stale(s, t, r, dir, o)
    ensures r < |s.shared.store| && Add32(t.isn, 1 + o) in Uni(s.shared.store[r], dir).packets
  {
  }

  lemma SubsetSize<T>(a: set<T>, b: set<T>)
    requires a <= b
    ensures |a| <= |b|
  {
    assert b == a + (b - a) && a !! (b - a);
  }
}
