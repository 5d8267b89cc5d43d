/** A client parser shares its method queue with the server, which may have popped any part of it. What the client
    parser does is the same however much is gone, except that it breaks when it ends a header block after the server
    has emptied the queue (src/cdpi_http.cpp). */
module HttpShadow {
  import opened Bytes
  import opened HttpSpec

  /** g is h with the methods that were popped from its queue put back. */
  predicate Behind(h: Http, g: Http) {
    && g == h.(methods := g.methods)
    && |h.methods| <= |g.methods| && h.methods == g.methods[|g.methods| - |h.methods|..]
  }

  predicate SameOutcome(o: Outcome, p: Outcome) {
    || (o.Wait? && p.Wait?)
    || (o.Go? && p.Go? && Behind(o.h, p.h) && o.peer == p.peer && o.used == p.used && o.marks == p.marks)
    || (o.Stop? && p.Stop? && o.reason == p.reason && Behind(o.h, p.h) && o.peer == p.peer && o.used == p.used &&
        o.marks == p.marks)
  }

  predicate Breaks(o: Outcome) { o.Stop? && o.reason == Undefined }

  lemma {:induction false} MethodLineShadow(h: Http, g: Http, peer: Peer, f: Fields, used: nat)
    requires Behind(h, g)
    ensures SameOutcome(MethodLine(h, peer, f, used), MethodLine(g, peer, f, used))
  {
    hide Behind, Cleared, StripCR;
    ClearedShadow(h, g);
    if f.first.Some? {
      var h0, g0, x := Cleared(h), Cleared(g), [f.first.value];
      PushShadow(h0, g0, x, h0.uri, h0.ver, h0.phase);
      if f.second.Some? {
        PushShadow(h0, g0, x, f.second.value, h0.ver, h0.phase);
        if f.third.Some? { PushShadow(h0, g0, x, f.second.value, StripCR(f.third.value), Head); }
      }
    }
  }

  lemma PushShadow(h: Http, g: Http, x: seq<bytes>, uri: bytes, ver: bytes, phase: Phase)
    requires Behind(h, g)
    ensures Behind(h.(methods := h.methods + x), g.(methods := g.methods + x))
    ensures Behind(h.(methods := h.methods + x, uri := uri), g.(methods := g.methods + x, uri := uri))
    ensures Behind(h.(methods := h.methods + x, uri := uri, ver := ver, phase := phase),
                   g.(methods := g.methods + x, uri := uri, ver := ver, phase := phase))
  {
    assert h.methods + x == (g.methods + x)[|g.methods + x| - |h.methods + x|..];
  }

  lemma ClearedShadow(h: Http, g: Http)
    requires Behind(h, g)
    ensures Behind(Cleared(h), Cleared(g))
  {
  }

  lemma StatusShadow(h: Http, g: Http, ver: bytes, code: bytes, resMsg: bytes)
    requires Behind(h, g)
    ensures Behind(h.(ver := ver), g.(ver := ver)) && Behind(h.(code := code), g.(code := code))
    ensures Behind(h.(resMsg := resMsg, phase := Head), g.(resMsg := resMsg, phase := Head))
  {
  }

  lemma ResponseLineShadow(h: Http, g: Http, peer: Peer, f: Fields, used: nat)
    requires Behind(h, g)
    ensures SameOutcome(ResponseLine(h, peer, f, used), ResponseLine(g, peer, f, used))
  {
    ClearedShadow(h, g);
    hide Behind, Cleared, StripCR;
    if f.first.Some? {
      StatusShadow(Cleared(h), Cleared(g), f.first.value, [], []);
      if f.second.Some? {
        var h1, g1 := Cleared(h).(ver := f.first.value), Cleared(g).(ver := f.first.value);
        StatusShadow(h1, g1, [], f.second.value, []);
        if f.third.Some? {
          StatusShadow(h1.(code := f.second.value), g1.(code := f.second.value), [], [], StripCR(f.third.value));
        }
      }
    }
  }

  lemma ReadsAlike(h: Http, g: Http)
    requires Behind(h, g)
    ensures g.role == h.role && g.phase == h.phase && g.code == h.code
    ensures GetHeader(g, CONTENT_LENGTH) == GetHeader(h, CONTENT_LENGTH)
    ensures GetHeader(g, TRANSFER_ENCODING) == GetHeader(h, TRANSFER_ENCODING)
    ensures |h.methods| > 0 ==> |g.methods| > 0 && g.methods[|g.methods| - 1] == h.methods[|h.methods| - 1]
  {
  }

  lemma EndHeadClientShadow(h: Http, g: Http, peer: Peer, used: nat)
    requires Behind(h, g)
    ensures Breaks(EndHeadClient(h, peer, used))
            || SameOutcome(EndHeadClient(h, peer, used), EndHeadClient(g, peer, used))
  {
    hide GetHeader, Lower, Behind;
    ReadsAlike(h, g);
    PhaseShadow(h, g, Method);
    PhaseShadow(h, g, Body);
    PhaseShadow(h, g, ChunkLen);
  }

  lemma PhaseShadow(h: Http, g: Http, phase: Phase)
    requires Behind(h, g)
    ensures Behind(h.(phase := phase), g.(phase := phase))
  {
  }

  lemma EndHeadServerShadow(h: Http, g: Http, peer: Peer, used: nat)
    requires Behind(h, g)
    ensures SameOutcome(EndHeadServer(h, peer, used), EndHeadServer(g, peer, used))
  {
    hide GetHeader, Behind, NoBodyCode;
    ReadsAlike(h, g);
    PhaseShadow(h, g, Response);
    PhaseShadow(h, g, Body);
    PhaseShadow(h, g, ChunkLen);
  }

  lemma {:induction false} HeadShadow(h: Http, g: Http, peer: Peer, input: bytes)
    requires Behind(h, g)
    ensures Breaks(StepHead(h, peer, input)) || SameOutcome(StepHead(h, peer, input), StepHead(g, peer, input))
  {
    hide UpTo, WithHeaderLine, EndHeadClient, EndHeadServer, Behind;
    var line := UpTo(input, HEAD_CAP, LF);
    if IsLine(line) {
      ReadsAlike(h, g);
      if !Blank(line) {
        HeaderLineShadow(h, g, line);
      } else if h.role == Client {
        EndHeadClientShadow(h, g, peer, |line|);
      } else {
        EndHeadServerShadow(h, g, peer, |line|);
      }
    }
  }

  lemma HeaderLineShadow(h: Http, g: Http, line: bytes)
    requires Behind(h, g)
    ensures Behind(WithHeaderLine(h, line), WithHeaderLine(g, line))
  {
    hide DropSpaces, ValueText, Lower;
  }

  lemma BodyReadsAlike(h: Http, g: Http)
    requires Behind(h, g)
    ensures ContentLength(h) == ContentLength(g) && WantsBody(h) == WantsBody(g)
    ensures g.role == h.role && g.bodyRead == h.bodyRead && g.content == h.content && g.chunks == h.chunks
  {
    hide ReadDec;
  }

  lemma BodyFieldsShadow(h: Http, g: Http, phase: Phase, n: nat, content: bytes)
    requires Behind(h, g)
    ensures Behind(h.(phase := phase, bodyRead := n), g.(phase := phase, bodyRead := n))
    ensures Behind(h.(bodyRead := n, content := content), g.(bodyRead := n, content := content))
  {
  }

  lemma BodyShadow(h: Http, g: Http, peer: Peer, input: bytes)
    requires Behind(h, g)
    ensures SameOutcome(StepBody(h, peer, input), StepBody(g, peer, input))
  {
    hide ContentLength, WantsBody, Behind;
    BodyReadsAlike(h, g);
    BodyFieldsShadow(h, g, if h.role == Client then Method else Response, 0, []);
    if |input| > 0 {
      BodyFieldsShadow(h, g, Body, h.bodyRead + 1, if WantsBody(h) then h.content + [input[0]] else h.content);
    }
  }

  lemma ChunkBodyShadow(h: Http, g: Http, peer: Peer, input: bytes)
    requires Behind(h, g)
    ensures SameOutcome(StepChunkBody(h, peer, input), StepChunkBody(g, peer, input))
  {
    assert |input| > 0 ==> WithChunkByte(h, input[0]) == WithChunkByte(g, input[0]);
    hide WithChunkByte;
  }

  lemma ChunkFieldsShadow(h: Http, g: Http, phase: Phase, n: int, chunks: seq<bytes>)
    requires Behind(h, g)
    ensures Behind(h.(chunkLen := n, phase := phase), g.(chunkLen := n, phase := phase))
    ensures Behind(h.(chunkLen := n, phase := phase, chunks := chunks),
                   g.(chunkLen := n, phase := phase, chunks := chunks))
  {
  }

  lemma ChunkLenShadow(h: Http, g: Http, peer: Peer, input: bytes)
    requires Behind(h, g)
    ensures SameOutcome(StepChunkLen(h, peer, input), StepChunkLen(g, peer, input))
  {
    hide UpTo, WantsBody, ReadHex, Behind;
    BodyReadsAlike(h, g);
    var n := ReadHex(UpTo(input, SIZE_CAP, LF));
    ChunkFieldsShadow(h, g, ChunkTrailer, 0, []);
    if n.Some? {
      ChunkFieldsShadow(h, g, ChunkBody, n.value, if WantsBody(h) then h.chunks + [[]] else h.chunks);
    }
  }

  lemma ChunkElShadow(h: Http, g: Http, peer: Peer, input: bytes)
    requires Behind(h, g)
    ensures SameOutcome(StepChunkEl(h, peer, input), StepChunkEl(g, peer, input))
  {
    hide UpTo, Concat, Blank;
  }

  lemma {:induction false} StepShadow(h: Http, g: Http, peer: Peer, input: bytes)
    requires Behind(h, g)
    ensures Breaks(Step(h, peer, input)) || SameOutcome(Step(h, peer, input), Step(g, peer, input))
  {
    hide SameOutcome;
    match h.phase {
      case Method =>
        MethodLineShadow(h, g, peer, FieldsOf(UpTo(input, METHOD_CAP, LF)), |UpTo(input, METHOD_CAP, LF)|);
        assert SameOutcome(Wait, Wait) by { WaitsAlike(); }
        hide UpTo, FieldsOf, MethodLine;
      case Response =>
        ResponseLineShadow(h, g, peer, FieldsOf(UpTo(input, METHOD_CAP, LF)), |UpTo(input, METHOD_CAP, LF)|);
        assert SameOutcome(Wait, Wait) by { WaitsAlike(); }
        hide UpTo, FieldsOf, ResponseLine;
      case Head => HeadShadow(h, g, peer, input);
      case ChunkTrailer => HeadShadow(h, g, peer, input);
      case Body => BodyShadow(h, g, peer, input);
      case ChunkBody => ChunkBodyShadow(h, g, peer, input);
      case ChunkLen => ChunkLenShadow(h, g, peer, input);
      case ChunkEl => ChunkElShadow(h, g, peer, input);
    }
  }

  lemma WaitsAlike()
    ensures SameOutcome(Wait, Wait)
  {
  }

  predicate SameResult(r: Result, s: Result) {
    r.stop == s.stop && Behind(r.h, s.h) && r.peer == s.peer && r.rest == s.rest && r.marks == s.marks
  }

  /** Popping the queue does not change what a call of `parse` does, unless the call runs into the empty queue. */
  lemma {:induction false} PoppingDoesNotMatter(h: Http, g: Http, peer: Peer, input: bytes)
    requires Behind(h, g)
    ensures Parse(h, peer, input).stop == Some(Undefined) || SameResult(Parse(h, peer, input), Parse(g, peer, input))
    decreases Measure(h, input)
  {
    StepShrinks(h, peer, input);
    StepShadow(h, g, peer, input);
    hide Step;
    var o, p := Step(h, peer, input), Step(g, peer, input);
    if o.Go? {
      PoppingDoesNotMatter(o.h, p.h, o.peer, input[o.used..]);
      hide Behind;
    }
  }
}
