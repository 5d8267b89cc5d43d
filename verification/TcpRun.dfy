/** The consumer loop as straight code: one iteration of `cdpi_tcp::run` that no other thread
    interrupts does what the consumer steps of the state machine do (src/cdpi_tcp.cpp). */
module TcpRun {
  import opened Bytes
  import opened FlowId
  import opened TcpTable
  import opened TcpSystem

  /** The consumer thread: the shared tables and the calls made to `m_stream` so far. */
  class Runner {
    const tcp: Tcp
    var log: seq<Call>

    /** This object is what s says, apart from the consumer position. */
    ghost predicate Mirrors(s: System)
      reads this, tcp
    {
      tcp.Valid() && tcp.State() == s.shared && log == s.log
    }

    constructor (t: Tcp)
      ensures tcp == t && log == []
    {
      tcp := t;
      log := [];
    }

    method CloseBoth(id: Id, error: bool)
      modifies this
      ensures log == old(log) + (if error then [Error(IdDir(id, FromAddr1)), Error(IdDir(id, FromAddr2))]
                                 else [Destroyed(IdDir(id, FromAddr1)), Destroyed(IdDir(id, FromAddr2))])
    {
      if error {
        log := log + [Error(IdDir(id, FromAddr1))];
        log := log + [Error(IdDir(id, FromAddr2))];
      } else {
        log := log + [Destroyed(IdDir(id, FromAddr1))];
        log := log + [Destroyed(IdDir(id, FromAddr2))];
      }
    }

    /** The FIN branch, after the packet was taken and the empty DATA_IN was passed on. */
    method AfterFin(id: Id, from: Direction, ghost s: System) returns (dir: Direction, ghost t: System)
      requires Mirrors(s) && s.consumer == FinSeen(id, from)
      modifies this, tcp
      ensures Mirrors(t) && t.consumer == Drain(id, dir) && ToTop(t) == ToTop(s) && Closer(t, s)
    {
      dir, t := from, ConsumeStep(s);
      ConsumerProgress(s);
      var erased := tcp.FinReceived(id, dir);
      if erased {
        ConsumerProgress(t);
        CloseBoth(id, false);
        t := ConsumeStep(t);
        dir := FromAddr2;
      }
    }

    /** The RST branch, after the packet was taken. */
    method AfterRst(id: Id, ghost s: System) returns (ghost t: System)
      requires Mirrors(s) && s.consumer == RstSeen(id)
      modifies this, tcp
      ensures Mirrors(t) && t.consumer == Drain(id, FromAddr2) && ToTop(t) == ToTop(s) && Closer(t, s)
    {
      ConsumerProgress(s);
      tcp.RemoveFlow(id);
      t := ConsumeStep(s);
      ConsumerProgress(t);
      CloseBoth(id, false);
      t := ConsumeStep(t);
    }

    /** One turn of the `while (get_packet(...))` loop. */
    method DrainOne(id: Id, from: Direction, ghost s: System)
      returns (more: bool, dir: Direction, ghost t: System)
      requires Mirrors(s) && s.consumer == Drain(id, from)
      modifies this, tcp
      ensures Mirrors(t) && ToTop(t) == ToTop(s) && Closer(t, s)
      ensures t.consumer == if more then Drain(id, dir) else Counting(id, dir)
      ensures !more ==> GetPacket(t.shared, id, dir).1.None?
    {
      dir, t := from, ConsumeStep(s);
      ConsumerProgress(s);
      var packet := tcp.TakePacket(id, dir);
      if packet.None? {
        return false, dir, t;
      }
      more := true;
      var p := packet.value;
      if Has(p.flags, TH_SYN) {
        log := log + [Created(IdDir(id, dir))];
      } else if Has(p.flags, TH_FIN) {
        log := log + [DataIn(IdDir(id, dir), [])];
        dir, t := AfterFin(id, dir, t);
      } else if Has(p.flags, TH_RST) {
        t := AfterRst(id, t);
        dir := FromAddr2;
      } else {
        log := log + [DataIn(IdDir(id, dir), p.payload)];
      }
    }

    /** The whole loop: it terminates, with no packet left at the cursor. */
    method DrainAll(id: Id, from: Direction, ghost s: System) returns (dir: Direction, ghost t: System)
      requires Mirrors(s) && s.consumer == Drain(id, from)
      modifies this, tcp
      ensures Mirrors(t) && ToTop(t) == ToTop(s)
      ensures t.consumer == Counting(id, dir) && GetPacket(t.shared, id, dir).1.None?
    {
      dir, t := from, s;
      var more := true;
      while more
        invariant Mirrors(t) && ToTop(t) == ToTop(s)
        invariant t.consumer == if more then Drain(id, dir) else Counting(id, dir)
        invariant !more ==> GetPacket(t.shared, id, dir).1.None?
        decreases FlowLeft(t), PacketsLeft(t), PcLeft(t.consumer)
      {
        more, dir, t := DrainOne(id, dir, t);
      }
    }

    /** `num_packets` against the limit, at the end of an iteration. */
    method CheckLimit(id: Id, dir: Direction, ghost s: System)
      requires Mirrors(s) && s.consumer == Counting(id, dir)
      modifies this, tcp
      ensures Mirrors(ToTop(s))
    {
      ghost var t := ConsumeStep(s);
      ConsumerProgress(s);
      var n := tcp.CountPackets(id, dir);
      if n > MAX_PACKETS {
        ConsumerProgress(t);
        CloseBoth(id, true);
        tcp.RemoveFlow(id);
        t := ConsumeStep(t);
      }
      assert ToTop(t) == t;
    }

    /** One iteration of the `for (;;)` loop. */
    method RunOnce(ghost s: System)
      requires Mirrors(s) && s.consumer == Top && tcp.events != []
      modifies this, tcp
      ensures Mirrors(ToTop(ConsumeStep(s)))
    {
      ghost var t := ConsumeStep(s);
      var event := tcp.PopEvent();
      var id, dir := event.id, event.dir;
      assert event == s.shared.events[0] && tcp.events == s.shared.events[1..];
      if id !in tcp.flow {
        assert ToTop(t) == t;
        return;
      }
      if Uni(tcp.store[tcp.flow[id]], dir).isRm {
        CloseBoth(id, true);
        tcp.RemoveFlow(id);
        ConsumerProgress(t);
        t := ConsumeStep(t);
        dir := FromAddr2;
      }
      dir, t := DrainAll(id, dir, t);
      CheckLimit(id, dir, t);
    }
  }
}
