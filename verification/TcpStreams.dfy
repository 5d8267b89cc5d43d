/** The stream table follows the flow table: what `run` tells `cdpi_stream` over any run
    (src/cdpi_tcp.cpp, src/cdpi_stream.cpp). */
module TcpStreams {
  import opened Bytes
  import opened FlowId
  import opened TcpTable
  import opened TcpSystem
  import opened TcpWakeup
  import opened TcpSafety

  predicate Closes(c: Call, k: IdDir) {
    (c.Destroyed? || c.Error?) && c.k == k
  }

  /** The keys of `cdpi_stream::m_info` after a sequence of calls. */
  function Streams(log: seq<Call>): set<IdDir> {
    if |log| == 0 then {}
    else
      var before := Streams(log[..|log| - 1]);
      match log[|log| - 1]
      case Created(k) => before + {k}
      case DataIn(_, _) => before
      case Destroyed(k) => before - {k}
      case Error(k) => before - {k}
  }

  /** The bytes handed to stream k since it was last created. */
  function Fed(log: seq<Call>, k: IdDir): bytes {
    if |log| == 0 then []
    else
      var before := Fed(log[..|log| - 1], k);
      match log[|log| - 1]
      case Created(j) => if j == k then [] else before
      case DataIn(j, data) => if j == k then before + data else before
      case _ => before
  }

  lemma Append1(log: seq<Call>, c: Call)
    ensures (log + [c])[..|log + [c]| - 1] == log
  {
  }

  lemma Append2(log: seq<Call>, c: Call, d: Call, k: IdDir)
    ensures Streams(log + [c, d]) == Streams(log + [c] + [d])
    ensures Fed(log + [c, d], k) == Fed(log + [c] + [d], k)
    ensures (c.Destroyed? || c.Error?) && (d.Destroyed? || d.Error?) ==>
              Streams(log + [c, d]) == Streams(log) - {c.k, d.k} && Fed(log + [c, d], k) == Fed(log, k)
  {
    assert log + [c, d] == log + [c] + [d];
    Append1(log, c);
    Append1(log + [c], d);
  }

  // ------------------------------------------------- opens and closes alternate

  predicate ClosedBetween(log: seq<Call>, i: nat, j: nat, k: IdDir)
    requires i < j <= |log|
  {
    exists m :: i < m < j && Closes(log[m], k)
  }

  ghost predicate Alternates(log: seq<Call>) {
    forall i: nat, j: nat, k :: i < j < |log| && log[i] == Created(k) && log[j] == Created(k) ==>
      ClosedBetween(log, i, j, k)
  }

  lemma {:induction false} NotOpenMeansClosed(log: seq<Call>, i: nat, k: IdDir)
    requires i < |log| && log[i] == Created(k) && k !in Streams(log)
    ensures ClosedBetween(log, i, |log|, k)
    decreases |log|
  {
    var n := |log| - 1;
    if Closes(log[n], k) {
    } else {
      assert log[n] != Created(k);
      NotOpenMeansClosed(log[..n], i, k);
      var m :| i < m < n && Closes(log[..n][m], k);
      assert Closes(log[m], k);
    }
  }

  lemma AppendKeepsAlternation(log: seq<Call>, c: Call)
    requires Alternates(log) && (c.Created? ==> c.k !in Streams(log))
    ensures Alternates(log + [c])
  {
    var log' := log + [c];
    forall i: nat, j: nat, k | i < j < |log'| && log'[i] == Created(k) && log'[j] == Created(k)
      ensures ClosedBetween(log', i, j, k)
    {
      if j < |log| {
        assert log[i] == log'[i] && log[j] == log'[j];
        var m :| i < m < j && Closes(log[m], k);
        assert Closes(log'[m], k);
      } else {
        assert log[i] == log'[i];
        NotOpenMeansClosed(log, i, k);
        var m :| i < m < |log| && Closes(log[m], k);
        assert Closes(log'[m], k);
      }
    }
  }

  // ------------------------------------------------------------- the invariant

  /** What `run` passes on of a returned packet: nothing of a SYN, a FIN or a reset. */
  function PassedOn(p: Packet): bytes {
    if Has(p.flags, TH_SYN) || Has(p.flags, TH_FIN) || IsReset(p) then [] else p.payload
  }

  function Plain(ps: seq<Packet>): bytes {
    if |ps| == 0 then [] else Plain(ps[..|ps| - 1]) + PassedOn(ps[|ps| - 1])
  }

  /** A stored SYN is the accepted one: it sits at the cursor and nothing was returned since. */
  predicate SynAtCursor(u: Uniflow, h: DirHistory) {
    forall q :: q in u.packets && Has(u.packets[q].flags, TH_SYN) ==>
      u.isSyn && q == u.minSeq && h.returned == []
  }

  /** An open stream belongs to a live flow that has returned its SYN, and was fed what was returned since. */
  predicate Backed(s: System, k: IdDir) {
    && k.dir != FromNone
    && (s.consumer != Closing(k.id) ==>
          && k.id in s.shared.flow
          && Live(s.shared, k.id, k.dir).isSyn
          && var returned := HistOf(s.hist[s.shared.flow[k.id]], k.dir).returned;
          && returned != [] && Has(returned[0].flags, TH_SYN)
          && Fed(s.log, k) == Plain(returned))
  }

  ghost predicate Agrees(s: System) {
    && (forall r, dir :: 0 <= r < |s.shared.store| && dir != FromNone ==>
          SynAtCursor(Uni(s.shared.store[r], dir), HistOf(s.hist[r], dir)))
    && (forall k :: k in Streams(s.log) ==> Backed(s, k))
    && (forall k :: k in Streams(s.log) ==> s.consumer != Collected(k.id) && s.consumer != OverLimit(k.id))
    && Alternates(s.log)
  }

  lemma ArriveKeepsAgreement(s: System, id: Id, dir: Direction, seqno: uint32, flags: bv8, payload: bytes)
    requires Agrees(s)
    ensures Agrees(ArriveStep(s, id, dir, seqno, flags, payload))
  {
    var t := ArriveStep(s, id, dir, seqno, flags, payload);
    forall r, d | 0 <= r < |t.shared.store| && d != FromNone
      ensures SynAtCursor(Uni(t.shared.store[r], d), HistOf(t.hist[r], d))
    {
      if r < |s.shared.store| {
        assert SynAtCursor(Uni(s.shared.store[r], d), HistOf(s.hist[r], d));
      }
    }
    forall k | k in Streams(t.log) ensures Backed(t, k) {
      assert Backed(s, k);
    }
  }

  lemma DepositKeepsSynAtCursor(u: Uniflow, h: DirHistory, p: Packet, now: int)
    requires SynAtCursor(u, h)
    ensures var v := if Admit(u, p, now).Some? then Admit(u, p, now).value else u;
            && SynAtCursor(v, Recorded(h, u, p))
            && (u.isSyn ==> v.isSyn && Recorded(h, u, p).returned == h.returned)
  {
    StaleTestIsDead(u, p);
  }

  lemma {:induction false} PutKeepsAgreement(s: System, now: int)
    requires Agrees(s)
    ensures Agrees(PutStep(s, now))
  {
    if s.producer.Holding? && s.producer.dir != FromNone {
      var Holding(r, id, dir, p) := s.producer;
      var t := PutStep(s, now);
      var u, h := Uni(s.shared.store[r], dir), HistOf(s.hist[r], dir);
      assert SynAtCursor(u, h);
      DepositKeepsSynAtCursor(u, h, p, now);
      PutStepEffect(s, now);
      hide PutStep, Admit, Recorded, SynAtCursor, Streams, Fed, Plain, Alternates, Backed;
      forall q, d | 0 <= q < |t.shared.store| && d != FromNone
        ensures SynAtCursor(Uni(t.shared.store[q], d), HistOf(t.hist[q], d))
      {
        assert SynAtCursor(Uni(s.shared.store[q], d), HistOf(s.hist[q], d));
      }
      forall k | k in Streams(t.log) ensures Backed(t, k) {
        assert Backed(s, k);
        PutKeepsBacked(s, now, k);
      }
    }
  }

  lemma PutKeepsBacked(s: System, now: int, k: IdDir)
    requires s.producer.Holding? && s.producer.dir != FromNone && Backed(s, k)
    requires var r, dir := s.producer.r, s.producer.dir;
             SynAtCursor(Uni(s.shared.store[r], dir), HistOf(s.hist[r], dir))
    ensures Backed(PutStep(s, now), k)
  {
    var Holding(r, id, dir, p) := s.producer;
    DepositKeepsSynAtCursor(Uni(s.shared.store[r], dir), HistOf(s.hist[r], dir), p, now);
    PutStepEffect(s, now);
    hide PutStep, Admit, Recorded, SynAtCursor, Fed, Plain, Has;
  }

  lemma SweepKeepsAgreement(s: System, order: seq<Id>, now: int)
    requires Agrees(s)
    ensures Agrees(s.(shared := Collect(s.shared, order, now)))
  {
    var t: System := s.(shared := Collect(s.shared, order, now));
    forall r, d | 0 <= r < |t.shared.store| && d != FromNone
      ensures SynAtCursor(Uni(t.shared.store[r], d), HistOf(t.hist[r], d))
    {
      CollectOnlyMarks(s.shared, order, now, r, d);
      assert SynAtCursor(Uni(s.shared.store[r], d), HistOf(s.hist[r], d));
    }
    forall k | k in Streams(t.log) ensures Backed(t, k) {
      assert Backed(s, k);
      if k.id in s.shared.flow {
        CollectOnlyMarks(s.shared, order, now, s.shared.flow[k.id], k.dir);
      }
    }
  }

  /** Both streams of an id are closed; nothing else changes hands. */
  lemma CloseBothKeepsAgreement(s: System, t: System, id: Id, c: Call, d: Call)
    requires Agrees(s)
    requires (c.Destroyed? || c.Error?) && c.k == IdDir(id, FromAddr1)
    requires (d.Destroyed? || d.Error?) && d.k == IdDir(id, FromAddr2)
    requires t.shared.flow == s.shared.flow && t.shared.store == s.shared.store
    requires t.hist == s.hist && t.log == s.log + [c, d]
    requires forall i :: i != id ==> s.consumer != Closing(i)
    requires forall i :: i != id ==> t.consumer != Collected(i) && t.consumer != OverLimit(i)
    ensures Agrees(t)
  {
    Append2(s.log, c, d, c.k);
    AppendKeepsAlternation(s.log, c);
    AppendKeepsAlternation(s.log + [c], d);
    assert s.log + [c, d] == s.log + [c] + [d];
    forall k | k in Streams(t.log)
      ensures Backed(t, k) && t.consumer != Collected(k.id) && t.consumer != OverLimit(k.id)
    {
      assert Backed(s, k);
      assert k.dir == FromAddr1 || k.dir == FromAddr2;
      Append2(s.log, c, d, k);
    }
  }

  /** A consumer step without a call that keeps, or drops, the flow being closed. */
  lemma QuietStepKeepsAgreement(s: System, t: System, id: Id)
    requires Agrees(s)
    requires t.shared.store == s.shared.store && t.hist == s.hist && t.log == s.log
    requires t.shared.flow == s.shared.flow || (t.shared.flow == s.shared.flow - {id} &&
               (t.consumer == Closing(id) || s.consumer == Collected(id) || s.consumer == OverLimit(id)))
    requires !s.consumer.Closing? && !t.consumer.Collected? && !t.consumer.OverLimit?
    ensures Agrees(t)
  {
    forall k | k in Streams(t.log) ensures Backed(t, k) {
      assert Backed(s, k);
    }
  }

  lemma {:induction false} DrainKeepsAgreement(s: System)
    requires Awake(s) && Agrees(s) && s.consumer.Drain?
    requires GetPacket(s.shared, s.consumer.id, s.consumer.dir).1.Some?
    ensures Agrees(ConsumeStep(s))
  {
    var Drain(id, dir) := s.consumer;
    var t := ConsumeStep(s);
    var r := s.shared.flow[id];
    var u, h := Uni(s.shared.store[r], dir), HistOf(s.hist[r], dir);
    var (p, v) := Take(u).value;
    var h' := h.(returned := h.returned + [p]);
    var k0 := IdDir(id, dir);
    DrainStepEffect(s);
    DrainStepLog(s);
    assert dir == Focus(s.consumer).value.dir != FromNone;
    assert SynAtCursor(u, h);
    assert SynAtCursor(v, h');
    assert Has(p.flags, TH_SYN) ==> u.isSyn && h.returned == [];
    assert Has(p.flags, TH_SYN) && k0 in Streams(s.log) ==> Backed(s, k0);
    LogStep(s.log, t.log, k0, p);
    hide ConsumeStep, Take, IsReset, Has, Alternates, SynAtCursor, Streams, Fed, Plain, GetPacket, LogsPacket;
    forall q, d | 0 <= q < |t.shared.store| && d != FromNone
      ensures SynAtCursor(Uni(t.shared.store[q], d), HistOf(t.hist[q], d))
    {
      assert SynAtCursor(Uni(s.shared.store[q], d), HistOf(s.hist[q], d));
    }
    forall k | k in Streams(t.log) ensures Backed(t, k) {
      if k == k0 {
        DrainBacksItsStream(s);
      } else {
        DrainBacksOthers(s, k);
      }
    }
  }

  /** The stream of the direction being drained stays backed, or becomes so with its SYN. */
  lemma DrainBacksItsStream(s: System)
    requires Awake(s) && Agrees(s) && s.consumer.Drain?
    requires GetPacket(s.shared, s.consumer.id, s.consumer.dir).1.Some?
    requires IdDir(s.consumer.id, s.consumer.dir) in Streams(ConsumeStep(s).log)
    ensures Backed(ConsumeStep(s), IdDir(s.consumer.id, s.consumer.dir))
  {
    var Drain(id, dir) := s.consumer;
    var k, t, r := IdDir(id, dir), ConsumeStep(s), s.shared.flow[s.consumer.id];
    var u, h := Uni(s.shared.store[r], dir), HistOf(s.hist[r], dir);
    var (p, v) := Take(u).value;
    DrainStepEffect(s);
    DrainStepLog(s);
    assert dir == Focus(s.consumer).value.dir != FromNone;
    assert SynAtCursor(u, h);
    assert v.isSyn == u.isSyn && (Has(p.flags, TH_SYN) ==> u.isSyn && h.returned == []);
    assert k in Streams(s.log) ==> Backed(s, k);
    LogStep(s.log, t.log, k, p);
    PlainGrows(h.returned, p);
    hide ConsumeStep, Take, Has, Agrees, Awake, Streams, Fed, Plain, PassedOn, LogsPacket;
  }

  lemma PlainGrows(returned: seq<Packet>, p: Packet)
    ensures Plain(returned + [p]) == Plain(returned) + PassedOn(p)
    ensures returned == [] && Has(p.flags, TH_SYN) ==> Plain(returned + [p]) == []
  {
    assert (returned + [p])[..|returned + [p]| - 1] == returned;
  }

  lemma DrainBacksOthers(s: System, k: IdDir)
    requires Awake(s) && Agrees(s) && s.consumer.Drain?
    requires GetPacket(s.shared, s.consumer.id, s.consumer.dir).1.Some?
    requires k != IdDir(s.consumer.id, s.consumer.dir) && k in Streams(s.log)
    ensures Backed(ConsumeStep(s), k)
  {
    var t, k0 := ConsumeStep(s), IdDir(s.consumer.id, s.consumer.dir);
    assert Backed(s, k);
    DrainStepLog(s);
    DrainTouchesOnly(s, k);
    hide ConsumeStep, Take, GetPacket, Agrees, Awake, Streams, Fed, Plain, Has;
    LogStepOther(s.log, t.log, k0, Take(Live(s.shared, k0.id, k0.dir)).value.0, k);
  }

  /** The call a drain step makes, if any. */
  predicate LogsPacket(log: seq<Call>, log': seq<Call>, k: IdDir, p: Packet) {
    if Has(p.flags, TH_SYN) then log' == log + [Created(k)]
    else if IsReset(p) then log' == log
    else log' == log + [DataIn(k, PassedOn(p))]
  }

  lemma DrainStepLog(s: System)
    requires s.consumer.Drain? && GetPacket(s.shared, s.consumer.id, s.consumer.dir).1.Some?
    ensures var p := Take(Live(s.shared, s.consumer.id, s.consumer.dir)).value.0;
            var t := ConsumeStep(s);
            && LogsPacket(s.log, t.log, IdDir(s.consumer.id, s.consumer.dir), p)
            && !t.consumer.Collected? && !t.consumer.OverLimit? && !t.consumer.Closing?
  {
  }

  lemma {:induction false} LogStep(log: seq<Call>, log': seq<Call>, k: IdDir, p: Packet)
    requires LogsPacket(log, log', k, p) && Alternates(log)
    requires Has(p.flags, TH_SYN) ==> k !in Streams(log)
    ensures Alternates(log')
    ensures Streams(log') == if Has(p.flags, TH_SYN) then Streams(log) + {k} else Streams(log)
    ensures Fed(log', k) == if Has(p.flags, TH_SYN) then [] else Fed(log, k) + PassedOn(p)
  {
    if log' != log {
      var c := log'[|log|];
      Append1(log, c);
      AppendKeepsAlternation(log, c);
    } else {
      assert Fed(log, k) + [] == Fed(log, k);
    }
  }

  lemma LogStepOther(log: seq<Call>, log': seq<Call>, k: IdDir, p: Packet, j: IdDir)
    requires LogsPacket(log, log', k, p) && j != k
    ensures Fed(log', j) == Fed(log, j)
  {
    if log' != log { Append1(log, log'[|log|]); }
  }

  lemma DrainTouchesOnly(s: System, k: IdDir)
    requires Awake(s) && s.consumer.Drain?
    requires GetPacket(s.shared, s.consumer.id, s.consumer.dir).1.Some?
    requires k != IdDir(s.consumer.id, s.consumer.dir) && k.dir != FromNone && k.id in s.shared.flow
    ensures var t := ConsumeStep(s);
            && k.id in t.shared.flow && t.shared.flow[k.id] == s.shared.flow[k.id]
            && Live(t.shared, k.id, k.dir) == Live(s.shared, k.id, k.dir)
            && HistOf(t.hist[t.shared.flow[k.id]], k.dir) == HistOf(s.hist[s.shared.flow[k.id]], k.dir)
  {
    DrainStepEffect(s);
    var r := s.shared.flow[s.consumer.id];
    assert s.consumer.dir == Focus(s.consumer).value.dir != FromNone;
    if s.shared.flow[k.id] == r {
      assert k.id == s.hist[r].owner == s.consumer.id;
    }
  }

  lemma ConsumeKeepsAgreement(s: System)
    requires Awake(s) && Agrees(s)
    ensures Agrees(ConsumeStep(s))
  {
    var t := ConsumeStep(s);
    hide Agrees, Awake, Take;
    match s.consumer {
      case Top =>
        if s.shared.events != [] {
          var k := s.shared.events[0];
          if k.id in s.shared.flow && Live(s.shared, k.id, k.dir).isRm {
            CloseBothKeepsAgreement(s, t, k.id, Error(IdDir(k.id, FromAddr1)), Error(IdDir(k.id, FromAddr2)));
          } else {
            QuietStepKeepsAgreement(s, t, k.id);
          }
        }
      case Drain(id, dir) =>
        if GetPacket(s.shared, id, dir).1.Some? {
          DrainKeepsAgreement(s);
        } else {
          QuietStepKeepsAgreement(s, t, id);
        }
      case Closing(id) =>
        CloseBothKeepsAgreement(s, t, id, Destroyed(IdDir(id, FromAddr1)), Destroyed(IdDir(id, FromAddr2)));
      case Counting(id, dir) =>
        if NumPackets(s.shared, id, dir) > MAX_PACKETS {
          CloseBothKeepsAgreement(s, t, id, Error(IdDir(id, FromAddr1)), Error(IdDir(id, FromAddr2)));
        } else {
          QuietStepKeepsAgreement(s, t, id);
        }
      case Collected(id) => QuietStepKeepsAgreement(s, t, id);
      case OverLimit(id) => QuietStepKeepsAgreement(s, t, id);
      case RstSeen(id) => QuietStepKeepsAgreement(s, t, id);
      case FinSeen(id, dir) => QuietStepKeepsAgreement(s, t, id);
    }
  }

  lemma StepKeepsAgreement(s: System, a: Action)
    requires Awake(s) && Agrees(s)
    ensures Agrees(Step(s, a))
  {
    match a {
      case Arrive(id, dir, seqno, flags, payload) => ArriveKeepsAgreement(s, id, dir, seqno, flags, payload);
      case Put(now) => PutKeepsAgreement(s, now);
      case Sweep(order, now) => SweepKeepsAgreement(s, order, now);
      case Consume => ConsumeKeepsAgreement(s);
    }
  }

  lemma {:induction false} AlwaysAgrees(acts: seq<Action>)
    ensures Agrees(Exec(acts))
    decreases |acts|
  {
    if |acts| > 0 {
      var before := acts[..|acts| - 1];
      AlwaysAgrees(before);
      AlwaysAwake(before);
      StepKeepsAgreement(Exec(before), acts[|acts| - 1]);
    }
  }

  /** At every top of the consumer loop, a stream that is open belongs to a flow in the table, and that
      flow has already returned the SYN of that direction. */
  lemma StreamTableInFlowTable(acts: seq<Action>, k: IdDir)
    requires Exec(acts).consumer == Top && k in Streams(Exec(acts).log)
    ensures k.id in Exec(acts).shared.flow && Live(Exec(acts).shared, k.id, k.dir).isSyn
  {
    AlwaysAgrees(acts);
    assert Backed(Exec(acts), k);
  }

  /** Over every run, two opens of one stream always have a close of it between them. */
  lemma OpenCloseAlternate(acts: seq<Action>, i: nat, j: nat, k: IdDir)
    requires var log := Exec(acts).log; i < j < |log| && log[i] == Created(k) && log[j] == Created(k)
    ensures var log := Exec(acts).log; exists m :: i < m < j && Closes(log[m], k)
  {
    AlwaysAgrees(acts);
    assert ClosedBetween(Exec(acts).log, i, j, k);
  }

  /** The payload of a FIN is lost on the way: what is passed on equals what was reassembled exactly
      when no returned FIN carried data. */
  lemma {:induction false} PlainIsJoinedIffNoFinData(ps: seq<Packet>)
    ensures |Plain(ps)| <= |Joined(ps)|
    ensures (forall i :: 0 <= i < |ps| ==> PassedOn(ps[i]) == Carried(ps[i])) ==> Plain(ps) == Joined(ps)
    ensures |Plain(ps)| == |Joined(ps)| ==> forall i :: 0 <= i < |ps| ==> PassedOn(ps[i]) == Carried(ps[i])
    decreases |ps|
  {
    if |ps| > 0 {
      var before := ps[..|ps| - 1];
      PlainIsJoinedIffNoFinData(before);
      assert forall i :: 0 <= i < |before| ==> before[i] == ps[i];
    }
  }

  predicate FinWithData(p: Packet) {
    !Has(p.flags, TH_SYN) && Has(p.flags, TH_FIN) && p.payload != []
  }

  lemma OnlyFinDataIsLost(p: Packet)
    ensures PassedOn(p) == Carried(p) <==> !FinWithData(p)
  {
  }

  /** End to end: in an honest world an open stream has been fed exactly what was reassembled, a prefix of what
      its sender sent, if and only if no returned FIN carried data. */
  lemma {:induction false} StreamsAreFedPrefixes(acts: seq<Action>, w: World, k: IdDir)
    requires Honest(acts, w)
    requires k in Streams(Exec(acts).log) && Exec(acts).consumer != Closing(k.id)
    ensures var s := Exec(acts);
            && k.id in s.shared.flow && k.dir != FromNone
            && var r := s.shared.flow[k.id];
            && var returned := HistOf(s.hist[r], k.dir).returned;
            && Fed(s.log, k) == Plain(returned)
            && ((exists i :: 0 <= i < |returned| && FinWithData(returned[i])) || Fed(s.log, k) <= w(r, k.dir).data)
            && (Fed(s.log, k) == Joined(returned) <==> forall i :: 0 <= i < |returned| ==> !FinWithData(returned[i]))
  {
    hide Exec;
    var s := Exec(acts);
    AlwaysAgrees(acts);
    assert Backed(s, k);
    var r := s.shared.flow[k.id];
    var returned := HistOf(s.hist[r], k.dir).returned;
    ReassemblySafety(acts, w, r, k.dir);
    PlainIsJoinedIffNoFinData(returned);
    forall i | 0 <= i < |returned|
      ensures PassedOn(returned[i]) == Carried(returned[i]) <==> !FinWithData(returned[i])
    {
      OnlyFinDataIsLost(returned[i]);
    }
    hide PassedOn;
    hide Carried;
    hide FinWithData;
  }
}
