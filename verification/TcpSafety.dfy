/** Reassembly safety: under any interleaving, loss, duplication, reordering and re-segmentation of
    truthful packets, what `get_packet` returned since the SYN spells a prefix of the stream
    (src/cdpi_tcp.cpp; sequence numbers as in section 3.3 of RFC 793). */
module TcpSafety {
  import opened Bytes
  import opened FlowId
  import opened TcpTable
  import opened TcpSystem
  import opened TcpWakeup

  /** What the sender of one flow direction really sent: its initial sequence number and its bytes.
      A longer stream would reuse sequence numbers. */
  datatype Sent = Sent(isn: uint32, data: bytes)
  type Truth = t: Sent | |t.data| < 0xFFFF_FFFF witness Sent(0, [])

  /** The reset branch of `run`. */
  predicate IsReset(p: Packet) {
    !Has(p.flags, TH_SYN) && !Has(p.flags, TH_FIN) && Has(p.flags, TH_RST)
  }

  /** The stream bytes a returned packet stands for. A SYN's payload is skipped over. */
  function Carried(p: Packet): bytes {
    if Has(p.flags, TH_SYN) || IsReset(p) then [] else p.payload
  }

  function Joined(ps: seq<Packet>): bytes {
    if |ps| == 0 then [] else Joined(ps[..|ps| - 1]) + Carried(ps[|ps| - 1])
  }

  /** p carries the bytes of the stream at offset o. */
  predicate PieceAt(p: Packet, t: Truth, o: nat) {
    && o + |p.payload| <= |t.data|
    && p.seqno == Add32(t.isn, 1 + o)
    && p.payload == t.data[o..o + |p.payload|]
  }

  /** Nothing is asked of resets, pure acknowledgements or repeated SYNs. */
  ghost predicate Truthful(p: Packet, t: Truth) {
    (!Has(p.flags, TH_SYN) && !IsReset(p) && (Has(p.flags, TH_FIN) || |p.payload| > 0)) ==>
      exists o: nat :: PieceAt(p, t, o)
  }

  // ------------------------------------------------------ one flow direction

  ghost predicate GoodEntry(u: Uniflow, k: uint32, p: Packet, t: Truth) {
    if Has(p.flags, TH_SYN) then
      u.isSyn && k == t.isn && p.nxt == Add32(t.isn, 1)
    else
      IsReset(p)
      || (p.seqno == k && p.nxt == Add32(k, |p.payload|) && exists o: nat :: PieceAt(p, t, o))
  }

  ghost predicate GoodMap(u: Uniflow, t: Truth) {
    forall k :: k in u.packets ==> GoodEntry(u, k, u.packets[k], t)
  }

  predicate NoReset(ps: seq<Packet>) {
    forall i :: 0 <= i < |ps| ==> !IsReset(ps[i])
  }

  /** The cursor is at the SYN until it is returned, and right after the returned bytes from then on. */
  predicate CursorAt(u: Uniflow, returned: seq<Packet>, t: Truth) {
    if returned == [] then u.minSeq == t.isn
    else u.minSeq == Add32(t.isn, 1 + |Joined(returned)|)
  }

  ghost predicate DirSafe(u: Uniflow, h: DirHistory, t: Truth) {
    && GoodMap(u, t)
    && (u.isSyn ==> Joined(h.returned) <= t.data)
    && (u.isSyn && NoReset(h.returned) ==> CursorAt(u, h.returned, t))
  }

  lemma AdmitKeepsDirSafe(u: Uniflow, h: DirHistory, p: Packet, t: Truth, now: int)
    requires DirSafe(u, h, t) && Truthful(p, t)
    requires p.nxt == Add32(p.seqno, |p.payload|)
    requires Has(p.flags, TH_SYN) && !u.isSyn ==> p.seqno == t.isn
    requires Admit(u, p, now).Some?
    ensures DirSafe(Admit(u, p, now).value, Recorded(h, u, p), t)
  {
    var v := Admit(u, p, now).value;
    forall k | k in v.packets
      ensures GoodEntry(v, k, v.packets[k], t)
    {
      if k in u.packets && v.packets[k] == u.packets[k] {
        assert GoodEntry(u, k, u.packets[k], t);
      }
    }
  }

  /** A stored piece at the cursor is the next piece. */
  lemma CursorFindsOffset(t: Truth, o: nat, k: nat)
    requires o <= |t.data| && k <= |t.data|
    ensures Add32(t.isn, 1 + o) == Add32(t.isn, 1 + k) <==> o == k
    ensures Add32(t.isn, 1 + o) != t.isn
  {
  }

  lemma {:induction false} TakeKeepsDirSafe(u: Uniflow, h: DirHistory, t: Truth)
    requires DirSafe(u, h, t) && NoReset(h.returned) && Take(u).Some?
    ensures var (p, v) := Take(u).value;
            DirSafe(v, h.(returned := h.returned + [p]), t)
  {
    var (p, v) := Take(u).value;
    var returned' := h.returned + [p];
    assert returned'[..|returned'| - 1] == h.returned;
    forall k | k in v.packets
      ensures GoodEntry(v, k, v.packets[k], t)
    {
      assert GoodEntry(u, k, u.packets[k], t);
    }
    assert GoodEntry(u, u.minSeq, p, t);
    if NoReset(returned') {
      assert NoReset(h.returned) && !IsReset(returned'[|h.returned|]);
    }
    if u.isSyn {
      NextPiece(u, h.returned, p, t);
    }
  }

  lemma {:induction false} NextPiece(u: Uniflow, returned: seq<Packet>, p: Packet, t: Truth)
    requires u.isSyn && CursorAt(u, returned, t) && Joined(returned) <= t.data
    requires GoodEntry(u, u.minSeq, p, t)
    ensures Joined(returned) + Carried(p) <= t.data
    ensures !IsReset(p) ==> p.nxt == Add32(t.isn, 1 + |Joined(returned)| + |Carried(p)|)
  {
    var k := |Joined(returned)|;
    CursorFindsOffset(t, k, k);
    if Has(p.flags, TH_SYN) {
      assert Joined(returned) + [] == Joined(returned);
    } else if IsReset(p) {
      assert Joined(returned) + [] == Joined(returned);
    } else {
      var o: nat :| PieceAt(p, t, o);
      CursorFindsOffset(t, o, k);
      assert o == k;
      WrapAdd(t.isn, 1 + k, |p.payload|);
      AppendSlice(t.data, Joined(returned), p.payload);
    }
  }

  lemma WrapAdd(a: uint32, m: nat, n: nat)
    ensures Add32(Add32(a, m), n) == Add32(a, m + n)
  {
  }

  lemma AppendSlice(data: bytes, done: bytes, more: bytes)
    requires done <= data && |done| + |more| <= |data| && more == data[|done|..|done| + |more|]
    ensures done + more <= data
  {
    assert done == data[..|done|];
    assert done + more == data[..|done| + |more|];
  }

  /** A key behind the cursor: `get_packet` neither returns its packet nor takes it away. */
  lemma {:induction false} TakePassesStale(u: Uniflow, h: DirHistory, t: Truth, o: nat)
    requires DirSafe(u, h, t) && u.isSyn && NoReset(h.returned)
    requires o < |Joined(h.returned)| && Add32(t.isn, 1 + o) in u.packets && Take(u).Some?
    ensures var (p, v) := Take(u).value;
            && u.minSeq != Add32(t.isn, 1 + o) && v.isSyn
            && Add32(t.isn, 1 + o) in v.packets && o < |Joined(h.returned + [p])|
  {
    var p := Take(u).value.0;
    CursorFindsOffset(t, o, |Joined(h.returned)|);
    assert (h.returned + [p])[..|h.returned|] == h.returned;
  }

  lemma AdmitKeepsKeys(u: Uniflow, h: DirHistory, p: Packet, now: int)
    requires u.isSyn
    ensures var v := if Admit(u, p, now).Some? then Admit(u, p, now).value else u;
            v.isSyn && Recorded(h, u, p).returned == h.returned && forall k :: k in u.packets ==> k in v.packets
  {
    hide DroppedAsStale, Has;
  }

  // ----------------------------------------------------------- all the flows

  /** The stream behind each direction of each flow ever created. */
  type World = (Ref, Direction) -> Truth

  ghost predicate HonestPut(s: System, w: World) {
    s.producer.Holding? && s.producer.dir != FromNone ==>
      var Holding(r, id, dir, p) := s.producer;
      && Truthful(p, w(r, dir))
      && (Has(p.flags, TH_SYN) && !Uni(s.shared.store[r], dir).isSyn ==> p.seqno == w(r, dir).isn)
  }

  /** Every packet the run deposits is truthful. */
  ghost predicate Honest(acts: seq<Action>, w: World) {
    forall n :: 0 <= n < |acts| && acts[n].Put? ==> HonestPut(Exec(acts[..n]), w)
  }

  ghost predicate Safe(s: System, w: World) {
    && (forall r, dir :: 0 <= r < |s.shared.store| && dir != FromNone ==>
          DirSafe(Uni(s.shared.store[r], dir), HistOf(s.hist[r], dir), w(r, dir)))
    && (forall id, dir :: id in s.shared.flow && dir != FromNone && s.consumer != RstSeen(id) ==>
          NoReset(HistOf(s.hist[s.shared.flow[id]], dir).returned))
    && (s.producer.Holding? ==> s.producer.p.nxt == Add32(s.producer.p.seqno, |s.producer.p.payload|))
  }

  lemma ArriveKeepsSafe(s: System, w: World, id: Id, dir: Direction, seqno: uint32, flags: bv8, payload: bytes)
    requires Safe(s, w)
    ensures Safe(ArriveStep(s, id, dir, seqno, flags, payload), w)
  {
    var t := ArriveStep(s, id, dir, seqno, flags, payload);
    forall r, d | 0 <= r < |t.shared.store| && d != FromNone
      ensures DirSafe(Uni(t.shared.store[r], d), HistOf(t.hist[r], d), w(r, d))
    {
      if r < |s.shared.store| {
        assert DirSafe(Uni(s.shared.store[r], d), HistOf(s.hist[r], d), w(r, d));
      }
    }
    forall i, d | i in t.shared.flow && d != FromNone && t.consumer != RstSeen(i)
      ensures NoReset(HistOf(t.hist[t.shared.flow[i]], d).returned)
    {
      if i in s.shared.flow {
        assert NoReset(HistOf(s.hist[s.shared.flow[i]], d).returned);
      }
    }
  }

  lemma PutKeepsSafe(s: System, w: World, now: int)
    requires Safe(s, w) && HonestPut(s, w)
    ensures Safe(PutStep(s, now), w)
  {
    if s.producer.Holding? && s.producer.dir != FromNone {
      var Holding(r, id, dir, p) := s.producer;
      var t := PutStep(s, now);
      var u, h := Uni(s.shared.store[r], dir), HistOf(s.hist[r], dir);
      DepositKeepsDirSafe(u, h, p, w(r, dir), now);
      PutStepEffect(s, now);
      hide PutStep;
      hide DirSafe;
      hide Admit;
      forall q, d | 0 <= q < |t.shared.store| && d != FromNone
        ensures DirSafe(Uni(t.shared.store[q], d), HistOf(t.hist[q], d), w(q, d))
      {
        assert DirSafe(Uni(s.shared.store[q], d), HistOf(s.hist[q], d), w(q, d));
      }
      forall i, d | i in t.shared.flow && d != FromNone && t.consumer != RstSeen(i)
        ensures NoReset(HistOf(t.hist[t.shared.flow[i]], d).returned)
      {
        assert NoReset(HistOf(s.hist[s.shared.flow[i]], d).returned);
      }
    }
  }

  lemma DepositKeepsDirSafe(u: Uniflow, h: DirHistory, p: Packet, t: Truth, now: int)
    requires DirSafe(u, h, t) && Truthful(p, t)
    requires p.nxt == Add32(p.seqno, |p.payload|)
    requires Has(p.flags, TH_SYN) && !u.isSyn ==> p.seqno == t.isn
    ensures DirSafe(if Admit(u, p, now).Some? then Admit(u, p, now).value else u, Recorded(h, u, p), t)
  {
    if Admit(u, p, now).Some? {
      AdmitKeepsDirSafe(u, h, p, t, now);
    } else {
      StaleTestIsDead(u, p);
    }
  }

  /** The collector changes nothing but removal marks. */
  lemma {:induction false} CollectOnlyMarks(s: Shared, order: seq<Id>, now: int, r: Ref, dir: Direction)
    requires r < |s.store|
    ensures var u, v := Uni(s.store[r], dir), Uni(Collect(s, order, now).store[r], dir);
            v == u.(isRm := v.isRm) && (u.isRm ==> v.isRm)
    decreases |order|
  {
    if |order| > 0 {
      CollectOnlyMarks(s, order[..|order| - 1], now, r, dir);
    }
  }

  lemma SweepKeepsSafe(s: System, w: World, order: seq<Id>, now: int)
    requires Safe(s, w)
    ensures Safe(s.(shared := Collect(s.shared, order, now)), w)
  {
    var t: System := s.(shared := Collect(s.shared, order, now));
    forall r, d | 0 <= r < |t.shared.store| && d != FromNone
      ensures DirSafe(Uni(t.shared.store[r], d), HistOf(t.hist[r], d), w(r, d))
    {
      var u, v := Uni(s.shared.store[r], d), Uni(t.shared.store[r], d);
      CollectOnlyMarks(s.shared, order, now, r, d);
      assert DirSafe(u, HistOf(s.hist[r], d), w(r, d));
      forall k | k in v.packets ensures GoodEntry(v, k, v.packets[k], w(r, d)) {
        assert GoodEntry(u, k, u.packets[k], w(r, d));
      }
    }
  }

  lemma {:induction false} DrainKeepsSafe(s: System, w: World)
    requires Awake(s) && Safe(s, w) && s.consumer.Drain?
    requires GetPacket(s.shared, s.consumer.id, s.consumer.dir).1.Some?
    ensures Safe(ConsumeStep(s), w)
  {
    var Drain(id, dir) := s.consumer;
    var t := ConsumeStep(s);
    var r := s.shared.flow[id];
    var u, h := Uni(s.shared.store[r], dir), HistOf(s.hist[r], dir);
    var (p, v) := Take(u).value;
    assert dir == Focus(s.consumer).value.dir != FromNone;
    assert DirSafe(u, h, w(r, dir)) && NoReset(h.returned);
    TakeKeepsDirSafe(u, h, w(r, dir));
    var h' := h.(returned := h.returned + [p]);
    DrainStepEffect(s);
    hide ConsumeStep, DirSafe, Take, NoReset, GetPacket, IsReset, Attention, Focus, Carried, Joined;
    forall q, d | 0 <= q < |t.shared.store| && d != FromNone
      ensures DirSafe(Uni(t.shared.store[q], d), HistOf(t.hist[q], d), w(q, d))
    {
      assert DirSafe(Uni(s.shared.store[q], d), HistOf(s.hist[q], d), w(q, d));
    }
    DrainKeepsNoReset(s, w);
  }

  lemma DrainKeepsNoReset(s: System, w: World)
    requires Awake(s) && Safe(s, w) && s.consumer.Drain?
    requires GetPacket(s.shared, s.consumer.id, s.consumer.dir).1.Some?
    ensures var t := ConsumeStep(s);
            forall i, d :: i in t.shared.flow && d != FromNone && t.consumer != RstSeen(i) ==>
              NoReset(HistOf(t.hist[t.shared.flow[i]], d).returned)
  {
    var Drain(id, dir) := s.consumer;
    var t := ConsumeStep(s);
    var r := s.shared.flow[id];
    DrainStepEffect(s);
    hide ConsumeStep, DirSafe, Take, GetPacket, IsReset, EventsUnique, Attended, Focus;
    forall i, d | i in t.shared.flow && d != FromNone && t.consumer != RstSeen(i)
      ensures NoReset(HistOf(t.hist[t.shared.flow[i]], d).returned)
    {
      assert NoReset(HistOf(s.hist[s.shared.flow[i]], d).returned);
      if t.shared.flow[i] == r {
        assert i == s.hist[r].owner == id;
      }
    }
  }

  /** A drain step that finds a packet, in terms of the direction it works on. */
  lemma DrainStepEffect(s: System)
    requires s.consumer.Drain? && GetPacket(s.shared, s.consumer.id, s.consumer.dir).1.Some?
    ensures var Drain(id, dir) := s.consumer;
            var r := s.shared.flow[id];
            var h := HistOf(s.hist[r], dir);
            var (p, v) := Take(Uni(s.shared.store[r], dir)).value;
            var t := ConsumeStep(s);
            && t.shared == WithUni(s.shared, r, dir, v)
            && t.hist == s.hist[r := SetHist(s.hist[r], dir, h.(returned := h.returned + [p]))]
            && t.producer == s.producer
            && (t.consumer == RstSeen(id) <==> IsReset(p))
            && (t.consumer.RstSeen? ==> t.consumer.id == id)
  {
  }

  lemma {:induction false} ConsumeKeepsSafe(s: System, w: World)
    requires Awake(s) && Safe(s, w)
    ensures Safe(ConsumeStep(s), w)
  {
    var t := ConsumeStep(s);
    if s.consumer.Drain? && GetPacket(s.shared, s.consumer.id, s.consumer.dir).1.Some? {
      DrainKeepsSafe(s, w);
    } else {
      ConsumeElsewhere(s);
    }
  }

  lemma ConsumeElsewhere(s: System)
    requires !(s.consumer.Drain? && GetPacket(s.shared, s.consumer.id, s.consumer.dir).1.Some?)
    ensures var t := ConsumeStep(s);
            && t.shared.store == s.shared.store && t.hist == s.hist && t.producer == s.producer
            && (forall i :: i in t.shared.flow ==> i in s.shared.flow && t.shared.flow[i] == s.shared.flow[i])
            && (forall i :: i in t.shared.flow ==> s.consumer != RstSeen(i))
            && !t.consumer.RstSeen?
  {
  }

  lemma {:induction false} StepKeepsSafe(s: System, w: World, a: Action)
    requires Awake(s) && Safe(s, w) && (a.Put? ==> HonestPut(s, w))
    ensures Safe(Step(s, a), w)
  {
    match a {
      case Arrive(id, dir, seqno, flags, payload) => ArriveKeepsSafe(s, w, id, dir, seqno, flags, payload);
      case Put(now) => PutKeepsSafe(s, w, now);
      case Sweep(order, now) => SweepKeepsSafe(s, w, order, now);
      case Consume => ConsumeKeepsSafe(s, w);
    }
  }

  lemma {:induction false} AlwaysSafe(acts: seq<Action>, w: World)
    requires Honest(acts, w)
    ensures Safe(Exec(acts), w)
    decreases |acts|
  {
    if |acts| > 0 {
      var before := acts[..|acts| - 1];
      assert forall n :: 0 <= n < |before| ==> before[..n] == acts[..n] && before[n] == acts[n];
      AlwaysSafe(before, w);
      AlwaysAwake(before);
      StepKeepsSafe(Exec(before), w, acts[|acts| - 1]);
    }
  }

  /** Whatever `get_packet` returned from a flow direction since its SYN was accepted concatenates to a
      prefix of that direction's stream, for every flow ever created; and while the flow is in the table
      and is not being reset, its cursor points just past those bytes, modulo 2^32. */
  lemma {:induction false} ReassemblySafety(acts: seq<Action>, w: World, r: Ref, dir: Direction)
    requires Honest(acts, w) && r < |Exec(acts).shared.store| && dir != FromNone
    ensures var s := Exec(acts);
            var u := Uni(s.shared.store[r], dir);
            var returned := HistOf(s.hist[r], dir).returned;
            var t := w(r, dir);
            u.isSyn ==>
              var k := |Joined(returned)|;
              && k <= |t.data| && Joined(returned) == t.data[..k]
              && ((exists id :: id in s.shared.flow && s.shared.flow[id] == r && s.consumer != RstSeen(id)) ==>
                    u.minSeq == if returned == [] then t.isn else Add32(t.isn, 1 + k))
  {
    AlwaysSafe(acts, w);
    var s := Exec(acts);
    assert DirSafe(Uni(s.shared.store[r], dir), HistOf(s.hist[r], dir), w(r, dir));
    if id :| id in s.shared.flow && s.shared.flow[id] == r && s.consumer != RstSeen(id) {
      assert NoReset(HistOf(s.hist[s.shared.flow[id]], dir).returned);
    }
  }

  // ------------------------------------------------------ packets behind the cursor

  /** Direction dir of flow r has returned more than o bytes, and still stores a packet that starts at byte o. */
  predicate Stale(s: System, t: Truth, r: Ref, dir: Direction, o: nat) {
    && r < |s.shared.store| && Uni(s.shared.store[r], dir).isSyn
    && o < |Joined(HistOf(s.hist[r], dir).returned)|
    && Add32(t.isn, 1 + o) in Uni(s.shared.store[r], dir).packets
  }

  lemma PutKeepsStale(s: System, t: Truth, r: Ref, dir: Direction, o: nat, now: int)
    requires Stale(s, t, r, dir, o) && dir != FromNone
    ensures Stale(PutStep(s, now), t, r, dir, o)
  {
    if s.producer.Holding? && s.producer.dir != FromNone {
      PutStepEffect(s, now);
      if s.producer.r == r && s.producer.dir == dir {
        AdmitKeepsKeys(Uni(s.shared.store[r], dir), HistOf(s.hist[r], dir), s.producer.p, now);
      }
      hide PutStep, Admit, Recorded, Joined, Add32;
    }
  }

  lemma ConsumeKeepsStale(s: System, w: World, r: Ref, dir: Direction, o: nat)
    requires Awake(s) && Safe(s, w) && Stale(s, w(r, dir), r, dir, o) && dir != FromNone
    ensures Stale(ConsumeStep(s), w(r, dir), r, dir, o)
  {
    if s.consumer.Drain? && GetPacket(s.shared, s.consumer.id, s.consumer.dir).1.Some? {
      DrainKeepsStale(s, w, r, dir, o);
    } else {
      ConsumeElsewhere(s);
    }
    hide ConsumeStep, Awake, Safe, GetPacket, Joined, Add32;
  }

  lemma DrainKeepsStale(s: System, w: World, r: Ref, dir: Direction, o: nat)
    requires Awake(s) && Safe(s, w) && Stale(s, w(r, dir), r, dir, o) && dir != FromNone
    requires s.consumer.Drain? && GetPacket(s.shared, s.consumer.id, s.consumer.dir).1.Some?
    ensures Stale(ConsumeStep(s), w(r, dir), r, dir, o)
  {
    var id := s.consumer.id;
    DrainStepEffect(s);
    assert s.consumer.dir == Focus(s.consumer).value.dir != FromNone;
    if s.shared.flow[id] == r && s.consumer.dir == dir {
      assert DirSafe(Uni(s.shared.store[r], dir), HistOf(s.hist[r], dir), w(r, dir));
      assert NoReset(HistOf(s.hist[s.shared.flow[id]], dir).returned);
      TakePassesStale(Uni(s.shared.store[r], dir), HistOf(s.hist[r], dir), w(r, dir), o);
    }
    hide ConsumeStep, Awake, Safe, Take, Joined, Add32, IsReset;
  }

  lemma {:induction false} StepKeepsStale(s: System, w: World, a: Action, r: Ref, dir: Direction, o: nat)
    requires Awake(s) && Safe(s, w) && Stale(s, w(r, dir), r, dir, o) && dir != FromNone
    ensures Stale(Step(s, a), w(r, dir), r, dir, o)
  {
    match a {
      case Arrive(_, _, _, _, _) =>
      case Put(now) => PutKeepsStale(s, w(r, dir), r, dir, o, now);
      case Sweep(order, now) => CollectOnlyMarks(s.shared, order, now, r, dir);
      case Consume => ConsumeKeepsStale(s, w, r, dir, o);
    }
    hide Awake, Safe, PutStep, ConsumeStep, Collect, Joined, Add32;
  }

  /** A packet stored behind the cursor is never returned, and its place in the map, and so in the count that
      MAX_PACKETS limits, stays taken whatever follows: by it, or by a packet with the same sequence number that
      replaced it. */
  lemma {:induction false} StaleKeyStays(acts: seq<Action>, more: seq<Action>, w: World, r: Ref, dir: Direction, o: nat)
    requires Honest(acts + more, w) && dir != FromNone && Stale(Exec(acts), w(r, dir), r, dir, o)
    ensures var s := Exec(acts + more);
            && Stale(s, w(r, dir), r, dir, o)
            && ((exists id :: id in s.shared.flow && s.shared.flow[id] == r && s.consumer != RstSeen(id)) ==>
                  Uni(s.shared.store[r], dir).minSeq != Add32(w(r, dir).isn, 1 + o))
    decreases |more|
  {
    hide Exec, Stale, Step;
    if |more| == 0 {
      assert acts + more == acts;
    } else {
      var n := |more| - 1;
      var before := acts + more[..n];
      assert acts + more == before + [more[n]];
      HonestBefore(before, more[n], w);
      StaleKeyStays(acts, more[..n], w, r, dir, o);
      AlwaysAwake(before);
      AlwaysSafe(before, w);
      ExecOne(before, more[n]);
      StepKeepsStale(Exec(before), w, more[n], r, dir, o);
    }
    StaleIsNotNext(acts + more, w, r, dir, o);
  }

  lemma HonestBefore(acts: seq<Action>, a: Action, w: World)
    requires Honest(acts + [a], w)
    ensures Honest(acts, w)
  {
    hide Exec, HonestPut;
    assert forall n :: 0 <= n < |acts| ==> (acts + [a])[..n] == acts[..n] && (acts + [a])[n] == acts[n];
  }

  lemma StaleIsNotNext(acts: seq<Action>, w: World, r: Ref, dir: Direction, o: nat)
    requires Honest(acts, w) && dir != FromNone && Stale(Exec(acts), w(r, dir), r, dir, o)
    ensures var s := Exec(acts);
            (exists id :: id in s.shared.flow && s.shared.flow[id] == r && s.consumer != RstSeen(id)) ==>
              Uni(s.shared.store[r], dir).minSeq != Add32(w(r, dir).isn, 1 + o)
  {
    ReassemblySafety(acts, w, r, dir);
    var returned := HistOf(Exec(acts).hist[r], dir).returned;
    hide Exec, Honest;
    assert returned != [];
    if |Joined(returned)| <= |w(r, dir).data| { CursorFindsOffset(w(r, dir), o, |Joined(returned)|); }
    hide Joined, Add32;
  }

  /** A segment that goes into the map under its own sequence number. */
  predicate Carries(p: Packet) {
    !Has(p.flags, TH_SYN) && (Has(p.flags, TH_FIN) || p.payload != [])
  }

  /** Which of the two it is: a deposit replaces the packet exactly when it is another one with that number. */
  lemma {:induction false} DepositReplacesIff(u: Uniflow, p: Packet, now: int, k: uint32)
    requires u.isSyn && k in u.packets && k != u.minSeq
    ensures var v := if Admit(u, p, now).Some? then Admit(u, p, now).value else u;
            k in v.packets && (v.packets[k] != u.packets[k] <==> Carries(p) && p.seqno == k && p != u.packets[k])
  {
    StaleTestIsDead(u, p);
    hide DroppedAsStale, Has;
  }

  const SHORT_STREAM: Truth := Sent(0, [7, 8, 9])
  const FIRST_ALL := Packet(1, 4, 0, [7, 8, 9])
  const SECOND_PIECE := Packet(2, 3, 0, [8])
  const SECOND_LONGER := Packet(2, 4, 0, [8, 9])

  /** Bytes 7, 8 and 9 were returned, and the 8 is stored behind the cursor. */
  const BEHIND := Uniflow(map[2 := SECOND_PIECE], 0, 4, true, false, false)

  /** An honest retransmission does replace it. */
  lemma HonestReplacement()
    ensures DirSafe(BEHIND, DirHistory([], [FIRST_ALL]), SHORT_STREAM) && Truthful(SECOND_LONGER, SHORT_STREAM)
    ensures var v := Admit(BEHIND, SECOND_LONGER, 0).value;
            Admit(BEHIND, SECOND_LONGER, 0).Some? && v.packets == map[2 := SECOND_LONGER]
  {
    var none: bv8 := 0;
    assert !Has(none, TH_SYN) && !Has(none, TH_FIN) && !Has(none, TH_RST);
    StaleTestIsDead(BEHIND, SECOND_LONGER);
    hide DroppedAsStale, Has;
    assert PieceAt(SECOND_PIECE, SHORT_STREAM, 1) && PieceAt(SECOND_LONGER, SHORT_STREAM, 1);
    assert [FIRST_ALL][..0] == [] && Joined([FIRST_ALL]) == [] + [7, 8, 9];
  }
}
