/** The method queue that a client parser fills and its server peer empties (src/cdpi_http.cpp). */
module HttpPairing {
  import opened Bytes
  import opened HttpSpec

  /** The methods a trace pushed, in order. */
  function Pushes(t: seq<Mark>): seq<bytes> {
    if |t| == 0 then []
    else Pushes(t[..|t| - 1]) + (if t[|t| - 1].Pushed? then [t[|t| - 1].m] else [])
  }

  /** The methods a trace popped, in order, at header ends and at trailer ends alike. */
  function Pops(t: seq<Mark>): seq<bytes> {
    if |t| == 0 then []
    else
      var m := t[|t| - 1];
      Pops(t[..|t| - 1]) + (if m.PoppedAtHead? || m.PoppedAtTrailer? then [m.m] else [])
  }

  function HeadPops(t: seq<Mark>): nat {
    if |t| == 0 then 0 else HeadPops(t[..|t| - 1]) + (if t[|t| - 1].PoppedAtHead? then 1 else 0)
  }

  function TrailerPops(t: seq<Mark>): nat {
    if |t| == 0 then 0 else TrailerPops(t[..|t| - 1]) + (if t[|t| - 1].PoppedAtTrailer? then 1 else 0)
  }

  lemma {:induction false} TracesConcat(a: seq<Mark>, b: seq<Mark>)
    ensures Pushes(a + b) == Pushes(a) + Pushes(b)
    ensures Pops(a + b) == Pops(a) + Pops(b)
    decreases |b|
  {
    if |b| == 0 {
      assert a + b == a;
    } else {
      var b' := b[..|b| - 1];
      assert (a + b)[..|a + b| - 1] == a + b';
      assert (a + b)[|a + b| - 1] == b[|b| - 1];
      TracesConcat(a, b');
    }
  }

  /** A client never waits for a response, a server never for a request. */
  predicate RoleFits(h: Http) {
    if h.role == Client then h.phase != Response else h.phase != Method
  }

  /** What one step does to the two ends of the queue. */
  predicate QueueMoves(h: Http, peer: Peer, o: Outcome) {
    !o.Wait? ==>
      && RoleFits(o.h) && o.h.role == h.role && o.peer.Some? == peer.Some?
      && o.h.methods == h.methods + Pushes(o.marks)
      && (peer.Some? ==> peer.value == Pops(o.marks) + o.peer.value)
      && (h.role == Client ==> o.peer == peer && Pops(o.marks) == [])
      && (h.role == Server ==> Pushes(o.marks) == [])
  }

  /** A trace of a step: at most one push or pop, first, then events. */
  lemma {:induction false} StepTrace(t: seq<Mark>)
    requires forall i :: 1 <= i < |t| ==> t[i].Ev?
    ensures Pushes(t) == (if |t| > 0 && t[0].Pushed? then [t[0].m] else [])
    ensures Pops(t) == (if |t| > 0 && (t[0].PoppedAtHead? || t[0].PoppedAtTrailer?) then [t[0].m] else [])
    decreases |t|
  {
    if |t| > 0 { StepTrace(t[..|t| - 1]); }
  }

  lemma {:induction false} MethodQueue(h: Http, peer: Peer, input: bytes)
    requires h.phase == Method && h.role == Client
    ensures QueueMoves(h, peer, StepMethod(h, peer, input))
  {
    hide FieldsOf, UpTo, Pushes, Pops, StripCR;
    var o := StepMethod(h, peer, input);
    if !o.Wait? { StepTrace(o.marks); }
  }

  lemma {:induction false} ResponseQueue(h: Http, peer: Peer, input: bytes)
    requires h.phase == Response && h.role == Server
    ensures QueueMoves(h, peer, StepResponse(h, peer, input))
  {
    hide FieldsOf, UpTo, Pushes, Pops, StripCR;
    var o := StepResponse(h, peer, input);
    if !o.Wait? { StepTrace(o.marks); }
  }

  lemma EndHeadClientQueue(h: Http, peer: Peer, used: nat)
    requires (h.phase == Head || h.phase == ChunkTrailer) && h.role == Client
    ensures QueueMoves(h, peer, EndHeadClient(h, peer, used))
  {
    hide GetHeader, Lower, Pushes, Pops;
    StepTrace(EndHeadClient(h, peer, used).marks);
  }

  lemma EndHeadServerQueue(h: Http, peer: Peer, used: nat)
    requires (h.phase == Head || h.phase == ChunkTrailer) && h.role == Server
    ensures QueueMoves(h, peer, EndHeadServer(h, peer, used))
  {
    hide GetHeader, Pushes, Pops;
    var o := EndHeadServer(h, peer, used);
    if !o.Wait? { StepTrace(o.marks); }
  }

  lemma HeadQueue(h: Http, peer: Peer, input: bytes)
    requires h.phase == Head || h.phase == ChunkTrailer
    ensures QueueMoves(h, peer, StepHead(h, peer, input))
  {
    hide EndHeadClient, EndHeadServer, WithHeaderLine, UpTo, QueueMoves;
    var line := UpTo(input, HEAD_CAP, LF);
    if h.role == Client { EndHeadClientQueue(h, peer, |line|); } else { EndHeadServerQueue(h, peer, |line|); }
    HeaderLineQueue(h, peer, line);
    assert QueueMoves(h, peer, Wait) by { WaitMoves(h, peer); }
  }

  lemma WaitMoves(h: Http, peer: Peer)
    ensures QueueMoves(h, peer, Wait)
  {
  }

  lemma HeaderLineQueue(h: Http, peer: Peer, line: bytes)
    requires h.phase == Head || h.phase == ChunkTrailer
    ensures QueueMoves(h, peer, Go(WithHeaderLine(h, line), peer, |line|, []))
  {
    StepTrace([]);
    hide DropSpaces, ValueText, Lower, Pushes, Pops;
  }

  lemma BodyQueue(h: Http, peer: Peer, input: bytes)
    requires RoleFits(h)
    ensures h.phase == Body ==> QueueMoves(h, peer, StepBody(h, peer, input))
    ensures h.phase == ChunkBody ==> QueueMoves(h, peer, StepChunkBody(h, peer, input))
  {
    hide ContentLength, WantsBody, Pushes, Pops;
    StepTrace([]);
    StepTrace([Ev(Read), Ev(ReadBody)]);
  }

  lemma ChunkLenQueue(h: Http, peer: Peer, input: bytes)
    requires RoleFits(h) && h.phase == ChunkLen
    ensures QueueMoves(h, peer, StepChunkLen(h, peer, input))
  {
    hide UpTo, ReadHex, WantsBody, Pushes, Pops;
    StepTrace([]);
  }

  lemma ChunkElQueue(h: Http, peer: Peer, input: bytes)
    requires RoleFits(h) && h.phase == ChunkEl
    ensures QueueMoves(h, peer, StepChunkEl(h, peer, input))
  {
    hide UpTo, Concat, Pushes, Pops;
    StepTrace([Ev(ReadBody)]);
  }

  lemma StepQueue(h: Http, peer: Peer, input: bytes)
    requires RoleFits(h)
    ensures QueueMoves(h, peer, Step(h, peer, input))
  {
    hide QueueMoves;
    match h.phase {
      case Method => MethodQueue(h, peer, input);
      case Response => ResponseQueue(h, peer, input);
      case Head => HeadQueue(h, peer, input);
      case ChunkTrailer => HeadQueue(h, peer, input);
      case Body => BodyQueue(h, peer, input);
      case ChunkBody => BodyQueue(h, peer, input);
      case ChunkLen => ChunkLenQueue(h, peer, input);
      case ChunkEl => ChunkElQueue(h, peer, input);
    }
  }

  /** What a whole call does to the two ends of the queue. */
  predicate QueueMoved(h: Http, peer: Peer, r: Result) {
    && RoleFits(r.h) && r.h.role == h.role && r.peer.Some? == peer.Some?
    && r.h.methods == h.methods + Pushes(r.marks)
    && (peer.Some? ==> peer.value == Pops(r.marks) + r.peer.value)
    && (h.role == Client ==> r.peer == peer && Pops(r.marks) == [])
    && (h.role == Server ==> Pushes(r.marks) == [])
  }

  lemma MovesThenMoved(h: Http, peer: Peer, o: Outcome, r: Result)
    requires o.Go? && QueueMoves(h, peer, o) && QueueMoved(o.h, o.peer, r)
    ensures QueueMoved(h, peer, After(o.marks, r))
  {
    TracesConcat(o.marks, r.marks);
    assert h.methods + Pushes(o.marks) + Pushes(r.marks) == h.methods + (Pushes(o.marks) + Pushes(r.marks));
    if peer.Some? {
      assert Pops(o.marks) + (Pops(r.marks) + r.peer.value) == Pops(o.marks) + Pops(r.marks) + r.peer.value;
    }
  }

  /** A call of `parse` appends to the client's queue exactly what its trace pushed, and removes from the
      front of the peer's exactly what its trace popped. */
  lemma {:induction false} ParseQueue(h: Http, peer: Peer, input: bytes)
    requires RoleFits(h)
    ensures QueueMoved(h, peer, Parse(h, peer, input))
    decreases Measure(h, input)
  {
    StepShrinks(h, peer, input);
    StepQueue(h, peer, input);
    hide Step;
    var o := Step(h, peer, input);
    if o.Go? {
      ParseQueue(o.h, o.peer, input[o.used..]);
      MovesThenMoved(h, peer, o, Parse(o.h, o.peer, input[o.used..]));
      hide QueueMoves;
      hide QueueMoved;
    } else {
      StepTrace([]);
      assert h.methods + [] == h.methods;
    }
  }

  /** How many methods were popped before mark i: one per header end and one more per trailer. */
  function PopsBefore(t: seq<Mark>, i: nat): nat
    requires i <= |t|
  {
    HeadPops(t[..i]) + TrailerPops(t[..i])
  }

  /** No chunked response ended before mark i. */
  predicate NoTrailerBefore(t: seq<Mark>, i: nat)
    requires i <= |t|
  {
    forall j :: 0 <= j < i ==> !t[j].PoppedAtTrailer?
  }

  /** Of all methods a trace pops, the header end at i sees the one numbered by the pops before it; that is its own
      request's exactly when no trailer came before. */
  lemma {:induction false} PairIndex(t: seq<Mark>, i: nat)
    requires i < |t| && t[i].PoppedAtHead?
    ensures PopsBefore(t, i) < |Pops(t)| && Pops(t)[PopsBefore(t, i)] == t[i].m
    ensures PopsBefore(t, i) == HeadPops(t[..i]) <==> NoTrailerBefore(t, i)
    decreases |t|
  {
    PopCount(t[..i]);
    TrailersCounted(t[..i]);
    assert forall j :: 0 <= j < i ==> t[..i][j] == t[j];
    assert t == t[..i + 1] + t[i + 1..];
    TracesConcat(t[..i + 1], t[i + 1..]);
    assert t[..i + 1][..i] == t[..i];
  }

  /** Which request a response is paired with, for every state, queue and input of a call: its header end sees the
      queued method numbered by the header ends and trailers before it in the call, its own request's, the one numbered
      by the header ends alone, exactly when no trailer came before. */
  lemma {:induction false} ResponsesArePaired(h: Http, q: seq<bytes>, input: bytes, i: nat)
    requires RoleFits(h)
    requires var t := Parse(h, Some(q), input).marks; i < |t| && t[i].PoppedAtHead?
    ensures var t := Parse(h, Some(q), input).marks;
            && PopsBefore(t, i) < |q| && t[i].m == q[PopsBefore(t, i)]
            && (PopsBefore(t, i) == HeadPops(t[..i]) <==> NoTrailerBefore(t, i))
  {
    hide Parse, Pops, HeadPops, TrailerPops, NoTrailerBefore;
    var r := Parse(h, Some(q), input);
    ParseQueue(h, Some(q), input);
    assert q == Pops(r.marks) + r.peer.value;
    PairIndex(r.marks, i);
  }

  lemma {:induction false} PopCount(t: seq<Mark>)
    ensures |Pops(t)| == HeadPops(t) + TrailerPops(t)
    decreases |t|
  {
    if |t| > 0 { PopCount(t[..|t| - 1]); }
  }

  lemma {:induction false} TrailersCounted(t: seq<Mark>)
    ensures TrailerPops(t) == 0 <==> forall j :: 0 <= j < |t| ==> !t[j].PoppedAtTrailer?
    decreases |t|
  {
    if |t| > 0 {
      TrailersCounted(t[..|t| - 1]);
      assert forall j :: 0 <= j < |t| - 1 ==> t[..|t| - 1][j] == t[j];
    }
  }

  // ------------------------------------------------------------- a longer queue

  /** p is o with more methods at the end of the peer's queue; a wait may end. */
  predicate Grown(o: Outcome, p: Outcome, x: seq<bytes>) {
    match o
    case Wait => true
    case Go(h, q, used, marks) => q.Some? && p == Go(h, Some(q.value + x), used, marks)
    case Stop(reason, h, q, used, marks) => q.Some? && p == Stop(reason, h, Some(q.value + x), used, marks)
  }

  lemma EndHeadServerGrows(h: Http, q: seq<bytes>, x: seq<bytes>, used: nat)
    ensures Grown(EndHeadServer(h, Some(q), used), EndHeadServer(h, Some(q + x), used), x)
  {
    hide GetHeader, NoBodyCode;
    if |q| > 0 { assert (q + x)[0] == q[0] && (q + x)[1..] == q[1..] + x; }
  }

  lemma HeadGrows(h: Http, q: seq<bytes>, x: seq<bytes>, input: bytes)
    ensures Grown(StepHead(h, Some(q), input), StepHead(h, Some(q + x), input), x)
  {
    var line := UpTo(input, HEAD_CAP, LF);
    EndHeadServerGrows(h, q, x, |line|);
    hide UpTo, EndHeadServer, GetHeader, Lower, WithHeaderLine;
  }

  lemma LineGrows(h: Http, q: seq<bytes>, x: seq<bytes>, input: bytes)
    ensures Grown(StepMethod(h, Some(q), input), StepMethod(h, Some(q + x), input), x)
    ensures Grown(StepResponse(h, Some(q), input), StepResponse(h, Some(q + x), input), x)
  {
    hide UpTo, FieldsOf, StripCR, Cleared;
  }

  lemma BodyGrows(h: Http, q: seq<bytes>, x: seq<bytes>, input: bytes)
    ensures Grown(StepBody(h, Some(q), input), StepBody(h, Some(q + x), input), x)
    ensures Grown(StepChunkBody(h, Some(q), input), StepChunkBody(h, Some(q + x), input), x)
  {
    hide ContentLength, WantsBody, WithChunkByte;
  }

  lemma ChunkGrows(h: Http, q: seq<bytes>, x: seq<bytes>, input: bytes)
    ensures Grown(StepChunkLen(h, Some(q), input), StepChunkLen(h, Some(q + x), input), x)
    ensures Grown(StepChunkEl(h, Some(q), input), StepChunkEl(h, Some(q + x), input), x)
  {
    hide UpTo, ReadHex, WantsBody, Concat;
  }

  lemma {:induction false} StepGrows(h: Http, q: seq<bytes>, x: seq<bytes>, input: bytes)
    ensures Grown(Step(h, Some(q), input), Step(h, Some(q + x), input), x)
  {
    hide Grown;
    match h.phase {
      case Method => LineGrows(h, q, x, input);
      case Response => LineGrows(h, q, x, input);
      case Head => HeadGrows(h, q, x, input);
      case ChunkTrailer => HeadGrows(h, q, x, input);
      case Body => BodyGrows(h, q, x, input);
      case ChunkBody => BodyGrows(h, q, x, input);
      case ChunkLen => ChunkGrows(h, q, x, input);
      case ChunkEl => ChunkGrows(h, q, x, input);
    }
    hide StepMethod, StepResponse, StepHead, StepBody, StepChunkBody, StepChunkLen, StepChunkEl;
  }

  /** It does not matter when the client's methods arrive: parsing with more of them from the start is parsing with the
      first ones and then, from what that left, with the others. */
  lemma {:induction false} LateMethodsDoNotMatter(h: Http, q: seq<bytes>, x: seq<bytes>, input: bytes)
    ensures var r := Parse(h, Some(q), input);
            && r.peer.Some?
            && (r.stop.None? ==>
                  Parse(h, Some(q + x), input) == After(r.marks, Parse(r.h, Some(r.peer.value + x), r.rest)))
            && (r.stop.Some? ==> Parse(h, Some(q + x), input) == r.(peer := Some(r.peer.value + x)))
    decreases Measure(h, input)
  {
    StepShrinks(h, Some(q), input);
    StepShrinks(h, Some(q + x), input);
    StepGrows(h, q, x, input);
    hide Step;
    var o := Step(h, Some(q), input);
    match o {
      case Wait => AfterNothing(Parse(h, Some(q + x), input));
      case Stop(_, _, _, _, _) =>
      case Go(h', q', used, marks) =>
        LateMethodsDoNotMatter(h', q'.value, x, input[used..]);
        var r := Parse(h', q', input[used..]);
        AfterAfter(marks, r.marks, Parse(r.h, Some(r.peer.value + x), r.rest));
    }
  }
}
