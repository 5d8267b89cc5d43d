/** Reassembly completeness: once every segment of a fixed cutting has arrived after the SYN and the consumer is at the
    top of its loop with an empty queue, `get_packet` has returned exactly that cutting, in order (src/cdpi_tcp.cpp). */
module TcpDelivery {
  import opened Bytes
  import opened FlowId
  import opened TcpTable
  import opened TcpSystem
  import opened TcpWakeup
  import opened TcpSafety

  /** A sender that always cuts its stream at the same places. */
  datatype RawPlan = RawPlan(isn: uint32, cuts: seq<bytes>)

  type Plan = p: RawPlan |
    (forall i :: 0 <= i < |p.cuts| ==> |p.cuts[i]| > 0) && |Concat(p.cuts)| < 0xFFFF_FFFF
    witness RawPlan(0, [])

  function Offset(c: seq<bytes>, i: nat): nat
    requires i <= |c|
  {
    |Concat(c[..i])|
  }

  /** The sequence number of segment i; of the end of the stream for i == |cuts|. */
  function Key(p: Plan, i: nat): uint32
    requires i <= |p.cuts|
  {
    Add32(p.isn, 1 + Offset(p.cuts, i))
  }

  lemma {:induction false} OffsetsIncrease(c: seq<bytes>, i: nat, j: nat)
    requires i <= j <= |c| && forall k :: 0 <= k < |c| ==> |c[k]| > 0
    ensures Offset(c, i) <= Offset(c, j) <= |Concat(c)|
    ensures i < j ==> Offset(c, i) < Offset(c, j)
    ensures i < |c| ==> Offset(c, i + 1) == Offset(c, i) + |c[i]|
    decreases |c| - i
  {
    assert c[..|c|] == c;
    if i < |c| {
      assert c[..i + 1][..i] == c[..i];
      if i < j {
        OffsetsIncrease(c, i + 1, j);
      } else {
        OffsetsIncrease(c, i + 1, i + 1);
      }
    }
  }

  lemma KeysDiffer(p: Plan, i: nat, j: nat)
    requires i <= |p.cuts| && j <= |p.cuts|
    ensures Key(p, i) == Key(p, j) <==> i == j
    ensures Key(p, i) != p.isn
    ensures i < |p.cuts| ==> Key(p, i + 1) == Add32(Key(p, i), |p.cuts[i]|)
  {
    OffsetsDiffer(p.cuts, i, j);
    hide Offset, Concat, Add32;
    Add32Injective(p.isn, 1 + Offset(p.cuts, i), 1 + Offset(p.cuts, j));
    Add32Injective(p.isn, 1 + Offset(p.cuts, i), 0);
    if i < |p.cuts| {
      WrapAdd(p.isn, 1 + Offset(p.cuts, i), |p.cuts[i]|);
    }
  }

  lemma OffsetsDiffer(c: seq<bytes>, i: nat, j: nat)
    requires i <= |c| && j <= |c| && forall k :: 0 <= k < |c| ==> |c[k]| > 0
    ensures Offset(c, i) <= |Concat(c)| && Offset(c, j) <= |Concat(c)|
    ensures Offset(c, i) == Offset(c, j) <==> i == j
    ensures i < |c| ==> Offset(c, i + 1) == Offset(c, i) + |c[i]|
  {
    hide Offset, Concat;
    OffsetsIncrease(c, i, |c|);
    OffsetsIncrease(c, j, |c|);
    if i <= j { OffsetsIncrease(c, i, j); } else { OffsetsIncrease(c, j, i); }
  }

  lemma Add32Injective(a: uint32, x: nat, y: nat)
    requires x < 0x1_0000_0000 && y < 0x1_0000_0000
    ensures Add32(a, x) == Add32(a, y) <==> x == y
    ensures Add32(a, 0) == a
  {
  }

  predicate IsSegment(pkt: Packet, p: Plan, i: nat)
    requires i < |p.cuts|
  {
    pkt.seqno == Key(p, i) && pkt.payload == p.cuts[i]
  }

  /** What the sender of a plan may put on the wire, as often and in whatever order it likes. */
  ghost predicate OnPlan(pkt: Packet, p: Plan) {
    && !IsReset(pkt)
    && (!Has(pkt.flags, TH_SYN) && pkt.payload != [] ==> exists i: nat :: i < |p.cuts| && IsSegment(pkt, p, i))
    && (!Has(pkt.flags, TH_SYN) && pkt.payload == [] && Has(pkt.flags, TH_FIN) ==>
          pkt.seqno == Key(p, |p.cuts|))
  }

  /** The payloads among the returned packets, SYNs and empty FINs aside. */
  function Delivered(ps: seq<Packet>): seq<bytes> {
    if |ps| == 0 then []
    else
      var p := ps[|ps| - 1];
      Delivered(ps[..|ps| - 1]) + (if Has(p.flags, TH_SYN) || p.payload == [] then [] else [p.payload])
  }

  predicate HasArrived(arrived: seq<Packet>, p: Plan, i: nat)
    requires i < |p.cuts|
  {
    exists j :: 0 <= j < |arrived| && IsSegment(arrived[j], p, i)
  }

  // ------------------------------------------------------ one flow direction

  ghost predicate PlannedEntry(u: Uniflow, k: uint32, pkt: Packet, p: Plan) {
    && OnPlan(pkt, p)
    && (Has(pkt.flags, TH_SYN) ==> u.isSyn && k == p.isn && pkt.nxt == Add32(p.isn, 1))
    && (!Has(pkt.flags, TH_SYN) ==>
          && k == pkt.seqno && pkt.nxt == Add32(k, |pkt.payload|)
          && (pkt.payload != [] || Has(pkt.flags, TH_FIN)))
  }

  ghost predicate PlannedMap(u: Uniflow, p: Plan) {
    forall k :: k in u.packets ==> PlannedEntry(u, k, u.packets[k], p)
  }

  predicate WaitsOrWentOut(u: Uniflow, m: nat, p: Plan, i: nat)
    requires i < |p.cuts|
  {
    || i < m
    || (Key(p, i) in u.packets && IsSegment(u.packets[Key(p, i)], p, i) && !Has(u.packets[Key(p, i)].flags, TH_SYN))
  }

  ghost predicate Progress(u: Uniflow, h: DirHistory, p: Plan) {
    var m := |Delivered(h.returned)|;
    && m <= |p.cuts| && Delivered(h.returned) == p.cuts[..m]
    && (h.returned == [] ==> u.minSeq == p.isn && p.isn in u.packets)
    && (h.returned != [] ==> u.minSeq == Key(p, m))
    && (forall i: nat :: i < |p.cuts| && HasArrived(h.arrived, p, i) ==> WaitsOrWentOut(u, m, p, i))
  }

  ghost predicate OnTrack(u: Uniflow, h: DirHistory, p: Plan) {
    PlannedMap(u, p) && (u.isSyn ==> Progress(u, h, p))
  }

  lemma SynStartsTrack(u: Uniflow, h: DirHistory, pkt: Packet, p: Plan, now: int)
    requires OnTrack(u, h, p) && Has(pkt.flags, TH_SYN) && !u.isSyn && pkt.seqno == p.isn
    requires Admit(u, pkt, now).Some?
    ensures OnTrack(Admit(u, pkt, now).value, Recorded(h, u, pkt), p)
  {
    var v := Admit(u, pkt, now).value;
    assert Delivered([]) == p.cuts[..0];
    forall k | k in v.packets ensures PlannedEntry(v, k, v.packets[k], p) {
      if k != pkt.seqno { assert PlannedEntry(u, k, u.packets[k], p); }
    }
  }

  lemma SegmentKeepsTrack(u: Uniflow, h: DirHistory, pkt: Packet, p: Plan, now: int)
    requires OnTrack(u, h, p) && OnPlan(pkt, p) && !Has(pkt.flags, TH_SYN)
    requires pkt.nxt == Add32(pkt.seqno, |pkt.payload|)
    requires Admit(u, pkt, now).Some?
    ensures OnTrack(Admit(u, pkt, now).value, Recorded(h, u, pkt), p)
  {
    var v := Admit(u, pkt, now).value;
    var arrived' := h.arrived + [pkt];
    forall k | k in v.packets ensures PlannedEntry(v, k, v.packets[k], p) {
      if k in u.packets { assert PlannedEntry(u, k, u.packets[k], p); }
    }
    if u.isSyn {
      var m := |Delivered(h.returned)|;
      forall i: nat | i < |p.cuts| && HasArrived(arrived', p, i)
        ensures WaitsOrWentOut(v, m, p, i)
      {
        KeysDiffer(p, i, |p.cuts|);
        if IsSegment(pkt, p, i) {
          assert |p.cuts[i]| > 0;
        } else {
          OtherArrival(h.arrived, pkt, p, i);
          if pkt.payload != [] {
            var j: nat :| j < |p.cuts| && IsSegment(pkt, p, j);
            KeysDiffer(p, i, j);
          }
        }
      }
    }
  }

  lemma OtherArrival(arrived: seq<Packet>, pkt: Packet, p: Plan, i: nat)
    requires i < |p.cuts| && HasArrived(arrived + [pkt], p, i) && !IsSegment(pkt, p, i)
    ensures HasArrived(arrived, p, i)
  {
    var j :| 0 <= j < |arrived + [pkt]| && IsSegment((arrived + [pkt])[j], p, i);
    assert arrived[j] == (arrived + [pkt])[j];
  }

  lemma TakeKeepsTrack(u: Uniflow, h: DirHistory, p: Plan)
    requires OnTrack(u, h, p) && Take(u).Some?
    ensures var (pkt, v) := Take(u).value;
            OnTrack(v, h.(returned := h.returned + [pkt]), p)
  {
    var (pkt, v) := Take(u).value;
    forall k | k in v.packets ensures PlannedEntry(v, k, v.packets[k], p) {
      assert PlannedEntry(u, k, u.packets[k], p);
    }
    assert PlannedEntry(u, u.minSeq, pkt, p);
    if u.isSyn {
      TakeAdvances(u, h, pkt, p);
    }
  }

  /** The packet at the cursor is the SYN, the next segment or the final FIN. */
  lemma CursorPacket(u: Uniflow, h: DirHistory, pkt: Packet, p: Plan) returns (n: nat)
    requires u.isSyn && Progress(u, h, p) && u.minSeq in u.packets && pkt == u.packets[u.minSeq]
    requires PlannedEntry(u, u.minSeq, pkt, p)
    ensures var m := |Delivered(h.returned)|;
            var returned' := h.returned + [pkt];
            && m <= n <= m + 1 && n <= |p.cuts|
            && Delivered(returned') == p.cuts[..n]
            && pkt.nxt == Key(p, n)
            && (n == m ==> forall i: nat :: i < |p.cuts| ==> Key(p, i) != u.minSeq || Has(pkt.flags, TH_SYN))
            && (n == m + 1 ==> u.minSeq == Key(p, m))
  {
    var m := |Delivered(h.returned)|;
    var returned' := h.returned + [pkt];
    assert returned'[..|returned'| - 1] == h.returned;
    KeysDiffer(p, m, |p.cuts|);
    KeysDiffer(p, |p.cuts|, m);
    n := m;
    if Has(pkt.flags, TH_SYN) {
      assert h.returned == [];
      assert Offset(p.cuts, 0) == 0;
    } else if pkt.payload != [] {
      var i: nat :| i < |p.cuts| && IsSegment(pkt, p, i);
      KeysDiffer(p, i, m);
      n := m + 1;
      assert p.cuts[..m] + [p.cuts[m]] == p.cuts[..m + 1];
    } else {
      forall i: nat | i < |p.cuts| ensures Key(p, i) != u.minSeq {
        KeysDiffer(p, i, |p.cuts|);
      }
      assert m == |p.cuts|;
      Add32Injective(u.minSeq, 0, 0);
    }
  }

  lemma TakeAdvances(u: Uniflow, h: DirHistory, pkt: Packet, p: Plan)
    requires u.isSyn && Progress(u, h, p) && u.minSeq in u.packets && pkt == u.packets[u.minSeq]
    requires PlannedEntry(u, u.minSeq, pkt, p)
    ensures Progress(Take(u).value.1, h.(returned := h.returned + [pkt]), p)
  {
    var m := |Delivered(h.returned)|;
    var v := Take(u).value.1;
    var n := CursorPacket(u, h, pkt, p);
    assert v.minSeq == pkt.nxt == Key(p, n) && n == |p.cuts[..n]|;
    hide Key, PlannedEntry, Delivered, IsSegment, WaitsOrWentOut, Take, HasArrived;
    forall i: nat | i < |p.cuts| && HasArrived(h.arrived, p, i)
      ensures WaitsOrWentOut(v, n, p, i)
    {
      StillWaits(u, pkt, p, m, n, i);
    }
  }

  /** A segment that waits in the map, or went out, still does when the packet at the cursor is taken. */
  lemma StillWaits(u: Uniflow, pkt: Packet, p: Plan, m: nat, n: nat, i: nat)
    requires u.minSeq in u.packets && pkt == u.packets[u.minSeq] && i < |p.cuts| && m <= n <= |p.cuts|
    requires WaitsOrWentOut(u, m, p, i)
    requires n == m && Key(p, i) == u.minSeq ==> Has(pkt.flags, TH_SYN)
    requires n == m || (n == m + 1 && u.minSeq == Key(p, m))
    ensures WaitsOrWentOut(Take(u).value.1, n, p, i)
  {
    KeysDiffer(p, i, m);
    hide Key, IsSegment;
  }

  // ---------------------------------------------------------- the whole run

  /** Every packet deposited into direction dir of flow r follows the plan; other flows are free. */
  ghost predicate Follows(acts: seq<Action>, r: Ref, dir: Direction, p: Plan) {
    forall n :: 0 <= n < |acts| && acts[n].Put? ==> PlannedPut(Exec(acts[..n]), r, dir, p)
  }

  ghost predicate PlannedPut(s: System, r: Ref, dir: Direction, p: Plan) {
    s.producer.Holding? && s.producer.r == r && s.producer.dir == dir ==>
      && OnPlan(s.producer.p, p)
      && (Has(s.producer.p.flags, TH_SYN) && !Uni(s.shared.store[r], dir).isSyn ==> s.producer.p.seqno == p.isn)
  }

  ghost predicate Tracked(s: System, r: Ref, dir: Direction, p: Plan) {
    && (r < |s.shared.store| ==> OnTrack(Uni(s.shared.store[r], dir), HistOf(s.hist[r], dir), p))
    && (s.producer.Holding? ==> s.producer.p.nxt == Add32(s.producer.p.seqno, |s.producer.p.payload|))
  }

  lemma PutKeepsTracked(s: System, r: Ref, dir: Direction, p: Plan, now: int)
    requires dir != FromNone && Tracked(s, r, dir, p) && PlannedPut(s, r, dir, p)
    ensures Tracked(PutStep(s, now), r, dir, p)
  {
    if s.producer.Holding? && s.producer.r == r && s.producer.dir == dir {
      var pkt := s.producer.p;
      var u, h := Uni(s.shared.store[r], dir), HistOf(s.hist[r], dir);
      PutStepEffect(s, now);
      StaleTestIsDead(u, pkt);
      if Has(pkt.flags, TH_SYN) {
        if !u.isSyn { SynStartsTrack(u, h, pkt, p, now); }
      } else {
        SegmentKeepsTrack(u, h, pkt, p, now);
      }
    }
  }

  lemma MarkKeepsTrack(u: Uniflow, v: Uniflow, h: DirHistory, p: Plan)
    requires OnTrack(u, h, p) && v == u.(isRm := v.isRm)
    ensures OnTrack(v, h, p)
  {
    forall k | k in v.packets ensures PlannedEntry(v, k, v.packets[k], p) {
      assert PlannedEntry(u, k, u.packets[k], p);
    }
    if u.isSyn {
      var m := |Delivered(h.returned)|;
      forall i: nat | i < |p.cuts| && HasArrived(h.arrived, p, i)
        ensures WaitsOrWentOut(v, m, p, i)
      {
        assert WaitsOrWentOut(u, m, p, i);
      }
    }
  }

  lemma ConsumeKeepsTracked(s: System, r: Ref, dir: Direction, p: Plan)
    requires Awake(s) && dir != FromNone && Tracked(s, r, dir, p)
    ensures Tracked(ConsumeStep(s), r, dir, p)
  {
    if s.consumer.Drain? && GetPacket(s.shared, s.consumer.id, s.consumer.dir).1.Some? {
      DrainStepEffect(s);
      assert s.consumer.dir == Focus(s.consumer).value.dir != FromNone;
      if s.shared.flow[s.consumer.id] == r && s.consumer.dir == dir {
        TakeKeepsTrack(Uni(s.shared.store[r], dir), HistOf(s.hist[r], dir), p);
      }
    } else {
      ConsumeElsewhere(s);
    }
  }

  lemma {:induction false} StepKeepsTracked(s: System, a: Action, r: Ref, dir: Direction, p: Plan)
    requires Awake(s) && dir != FromNone && Tracked(s, r, dir, p)
    requires a.Put? ==> PlannedPut(s, r, dir, p)
    ensures Tracked(Step(s, a), r, dir, p)
  {
    match a {
      case Arrive(_, _, _, _, _) =>
      case Put(now) => PutKeepsTracked(s, r, dir, p, now);
      case Sweep(order, now) =>
        if r < |s.shared.store| {
          CollectOnlyMarks(s.shared, order, now, r, dir);
          MarkKeepsTrack(Uni(s.shared.store[r], dir), Uni(Collect(s.shared, order, now).store[r], dir),
                         HistOf(s.hist[r], dir), p);
        }
      case Consume => ConsumeKeepsTracked(s, r, dir, p);
    }
  }

  lemma {:induction false} AlwaysTracked(acts: seq<Action>, r: Ref, dir: Direction, p: Plan)
    requires dir != FromNone && Follows(acts, r, dir, p)
    ensures Tracked(Exec(acts), r, dir, p)
    decreases |acts|
  {
    if |acts| > 0 {
      var before := acts[..|acts| - 1];
      assert forall n :: 0 <= n < |before| ==> before[..n] == acts[..n] && before[n] == acts[n];
      AlwaysTracked(before, r, dir, p);
      AlwaysAwake(before);
      StepKeepsTracked(Exec(before), acts[|acts| - 1], r, dir, p);
    }
  }

  /** At every moment the returned payloads are the first segments of the cutting, each once and in order. */
  lemma {:induction false} ReturnedInOrder(acts: seq<Action>, r: Ref, dir: Direction, p: Plan)
    requires dir != FromNone && Follows(acts, r, dir, p) && r < |Exec(acts).shared.store|
    requires Uni(Exec(acts).shared.store[r], dir).isSyn
    ensures Delivered(HistOf(Exec(acts).hist[r], dir).returned) <= p.cuts
  {
    AlwaysTracked(acts, r, dir, p);
  }

  lemma NextSegmentIsAtCursor(u: Uniflow, h: DirHistory, p: Plan)
    requires Progress(u, h, p)
    ensures var m := |Delivered(h.returned)|;
            m < |p.cuts| && HasArrived(h.arrived, p, m) ==> u.minSeq in u.packets
  {
    var m := |Delivered(h.returned)|;
    if m < |p.cuts| && HasArrived(h.arrived, p, m) {
      assert WaitsOrWentOut(u, m, p, m);
    }
  }

  /** If every segment has arrived at least once since the SYN was accepted, the flow is still in the table and
      the consumer is at the top with an empty queue, then exactly the cutting was returned, in order. */
  lemma {:induction false} QuiescentDelivery(acts: seq<Action>, id: Id, dir: Direction, p: Plan)
    requires dir != FromNone && id in Exec(acts).shared.flow
    requires var s := Exec(acts);
             var r := s.shared.flow[id];
             && Follows(acts, r, dir, p)
             && Uni(s.shared.store[r], dir).isSyn
             && (forall i: nat :: i < |p.cuts| ==> HasArrived(HistOf(s.hist[r], dir).arrived, p, i))
             && s.consumer == Top && s.shared.events == []
    ensures var s := Exec(acts);
            Delivered(HistOf(s.hist[s.shared.flow[id]], dir).returned) == p.cuts
  {
    var s := Exec(acts);
    var r := s.shared.flow[id];
    var u, h := Uni(s.shared.store[r], dir), HistOf(s.hist[r], dir);
    AlwaysTracked(acts, r, dir, p);
    IdleMeansDrained(acts, id, dir);
    var m := |Delivered(h.returned)|;
    NextSegmentIsAtCursor(u, h, p);
    assert p.cuts[..m] == p.cuts;
  }
}
