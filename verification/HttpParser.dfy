/** `cdpi_http` as an object fed from a byte queue; each handler is proved against the value-level parser
    (src/cdpi_http.hpp, src/cdpi_http.cpp). */
module HttpParser {
  import opened Bytes
  import opened HttpSpec

  /** What one handler does: all steps up to the next change of state, or to the first that cannot be taken. */
  datatype Handled = Handled(more: bool, r: Result)

  function Handle(h: Http, peer: Peer, input: bytes): Handled
    decreases Measure(h, input)
  {
    StepShrinks(h, peer, input);
    match Step(h, peer, input)
    case Wait => Handled(false, Result(None, h, peer, input, []))
    case Stop(reason, h', peer', used, marks) => Handled(false, Result(Some(reason), h', peer', input[used..], marks))
    case Go(h', peer', used, marks) =>
      if h'.phase != h.phase then Handled(true, Result(None, h', peer', input[used..], marks))
      else
        var hd := Handle(h', peer', input[used..]);
        hd.(r := After(marks, hd.r))
  }

  /** `parse` is its handlers one after the other; each that returns true makes the measure smaller. */
  lemma {:induction false} ParseByHandlers(h: Http, peer: Peer, input: bytes)
    ensures var hd := Handle(h, peer, input);
            && (!hd.more ==> Parse(h, peer, input) == hd.r)
            && (hd.more ==>
                  && Parse(h, peer, input) == After(hd.r.marks, Parse(hd.r.h, hd.r.peer, hd.r.rest))
                  && Measure(hd.r.h, hd.r.rest) < Measure(h, input))
    decreases Measure(h, input)
  {
    hide Step;
    StepShrinks(h, peer, input);
    var o := Step(h, peer, input);
    if o.Go? && o.h.phase == h.phase {
      ParseByHandlers(o.h, o.peer, input[o.used..]);
      var hd := Handle(o.h, o.peer, input[o.used..]);
      AfterAfter(o.marks, hd.r.marks, Parse(hd.r.h, hd.r.peer, hd.r.rest));
    }
  }

  // ----------------------------------------------- block copies against bytes

  function BodyPart(h: Http, x: bytes): Http {
    h.(bodyRead := h.bodyRead + |x|, content := if WantsBody(h) then h.content + x else h.content)
  }

  lemma BodyByte(h: Http, peer: Peer, input: bytes)
    requires h.phase == Body && ContentLength(h).Some? && h.bodyRead < ContentLength(h).value && |input| > 0
    ensures Step(h, peer, input) == Go(BodyPart(h, [input[0]]), peer, 1, [])
  {
  }

  lemma BodyParts(h: Http, x: bytes, y: bytes)
    ensures BodyPart(BodyPart(h, x), y) == BodyPart(h, x + y)
    ensures BodyPart(h, []) == h
    ensures ContentLength(BodyPart(h, x)) == ContentLength(h)
    ensures WantsBody(BodyPart(h, x)) == WantsBody(h)
  {
    assert h.content + x + y == h.content + (x + y);
    assert h.content + [] == h.content;
  }

  /** Reading a block of a body is reading its bytes one by one. */
  lemma {:induction false} BodyBlock(h: Http, peer: Peer, x: bytes, rest: bytes)
    requires h.phase == Body && ContentLength(h).Some? && h.bodyRead + |x| <= ContentLength(h).value
    ensures Handle(h, peer, x + rest) == Handle(BodyPart(h, x), peer, rest)
    decreases |x|
  {
    if |x| == 0 {
      assert x == [] && x + rest == rest;
      BodyParts(h, [], []);
    } else {
      var h1 := BodyPart(h, [x[0]]);
      assert (x + rest)[0] == x[0] && (x + rest)[1..] == x[1..] + rest;
      BodyByte(h, peer, x + rest);
      assert [x[0]] + x[1..] == x;
      BodyParts(h, [x[0]], x[1..]);
      hide Step;
      hide ContentLength;
      hide WantsBody;
      BodyBlock(h1, peer, x[1..], rest);
      AfterNothing(Handle(h1, peer, x[1..] + rest).r);
    }
  }

  function ChunkPart(h: Http, x: bytes): Http {
    h.(bodyRead := h.bodyRead + |x|,
       chunks := if WantsBody(h) && |h.chunks| > 0 then
                   h.chunks[|h.chunks| - 1 := h.chunks[|h.chunks| - 1] + x]
                 else h.chunks)
  }

  lemma ChunkByte(h: Http, peer: Peer, input: bytes)
    requires h.phase == ChunkBody && h.bodyRead < h.chunkLen && |input| > 0
    ensures Step(h, peer, input) == Go(ChunkPart(h, [input[0]]), peer, 1, [])
  {
  }

  lemma ChunkParts(h: Http, x: bytes, y: bytes)
    ensures ChunkPart(ChunkPart(h, x), y) == ChunkPart(h, x + y)
    ensures ChunkPart(h, []) == h
  {
    if |h.chunks| > 0 {
      var last := h.chunks[|h.chunks| - 1];
      assert last + x + y == last + (x + y);
      assert last + [] == last && h.chunks[|h.chunks| - 1 := last] == h.chunks;
    }
  }

  lemma {:induction false} ChunkBlock(h: Http, peer: Peer, x: bytes, rest: bytes)
    requires h.phase == ChunkBody && h.bodyRead + |x| <= h.chunkLen
    ensures Handle(h, peer, x + rest) == Handle(ChunkPart(h, x), peer, rest)
    decreases |x|
  {
    hide Step, WantsBody;
    if |x| == 0 {
      assert x == [] && x + rest == rest;
      ChunkParts(h, [], []);
    } else {
      var h1 := ChunkPart(h, [x[0]]);
      assert (x + rest)[0] == x[0] && (x + rest)[1..] == x[1..] + rest;
      ChunkByte(h, peer, x + rest);
      ChunkBlock(h1, peer, x[1..], rest);
      AfterNothing(Handle(h1, peer, x[1..] + rest).r);
      assert [x[0]] + x[1..] == x;
      ChunkParts(h, [x[0]], x[1..]);
    }
  }

  lemma HeaderLineIsOneStep(h: Http, peer: Peer, input: bytes, line: bytes)
    requires h.phase == Head || h.phase == ChunkTrailer
    requires line == UpTo(input, HEAD_CAP, LF) && IsLine(line) && !Blank(line)
    ensures Handle(h, peer, input) == Handle(WithHeaderLine(h, line), peer, input[|line|..])
  {
    assert Step(h, peer, input) == Go(WithHeaderLine(h, line), peer, |line|, []);
    AfterNothing(Handle(WithHeaderLine(h, line), peer, input[|line|..]).r);
  }

  // ------------------------------------------------------------------ object

  /** A `cdpi_http` object. Its plain fields are grouped in st. */
  class Parser {
    var st: Http
    var peer: Parser?
    /** Listener events and queue traffic so far. */
    var trace: seq<Mark>

    ghost function PeerQueue(): Peer
      reads this, peer
    {
      if peer == null then None else Some(peer.st.methods)
    }

    constructor (type_: Role)
      ensures st.role == type_ && st.phase == (if type_ == Client then Method else Response)
      ensures st.methods == [] && st.header == map[] && st.mimes == {} && st.chunks == []
      ensures st.bodyRead == 0 && st.content == [] && peer == null && trace == []
    {
      st := Http(type_, if type_ == Client then Method else Response,
                 [], [], [], [], [], map[], {}, 0, 0, [], []);
      peer, trace := null, [];
    }

    /** This object, its peer's queue and the byte queue are as r says. */
    ghost predicate Reached(r: Result, q: ByteQueue, before: seq<Mark>)
      reads this, peer, q
    {
      st == r.h && PeerQueue() == r.peer && q.Data() == r.rest && trace == before + r.marks
    }

    /** The same, and the handler's own result is as hd says. */
    ghost predicate Became(hd: Handled, q: ByteQueue, before: seq<Mark>, ret: bool, stop: Option<Reason>)
      reads this, peer, q
    {
      Reached(hd.r, q, before) && ret == hd.more && stop == hd.r.stop
    }

    /** The field assignments of `parse_method`, up to the exception that stops them. */
    method StoreRequestLine(f: Fields) returns (stop: Option<Reason>)
      requires st.phase == Method
      modifies this`st, this`trace
      ensures var o := MethodLine(old(st), None, f, 0);
              && !o.Wait? && st == o.h && trace == old(trace) + o.marks
              && stop == (if o.Stop? then Some(o.reason) else None)
    {
      st := st.(header := map[], content := [], chunks := []);
      if f.first.None? {
        return Some(BadSyntax);
      }
      st := st.(methods := st.methods + [f.first.value]);
      trace := trace + [Pushed(f.first.value)];
      if f.second.None? {
        return Some(BadSyntax);
      }
      st := st.(uri := f.second.value);
      if f.third.None? {
        return Some(BadSyntax);
      }
      st := st.(ver := StripCR(f.third.value), phase := Head);
      trace := trace + [Ev(ReadMethod)];
      return None;
    }

    /** The same for `parse_response`. */
    method StoreStatusLine(f: Fields) returns (stop: Option<Reason>)
      requires st.phase == Response
      modifies this`st, this`trace
      ensures var o := ResponseLine(old(st), None, f, 0);
              && !o.Wait? && st == o.h && trace == old(trace) + o.marks
              && stop == (if o.Stop? then Some(o.reason) else None)
    {
      st := st.(header := map[], content := [], chunks := []);
      if f.first.None? {
        return Some(BadSyntax);
      }
      st := st.(ver := f.first.value);
      if f.second.None? {
        return Some(BadSyntax);
      }
      st := st.(code := f.second.value);
      if f.third.None? {
        return Some(BadSyntax);
      }
      st := st.(resMsg := StripCR(f.third.value), phase := Head);
      trace := trace + [Ev(ReadResponse)];
      return None;
    }

    /** The fields stored, and the line consumed if they were all there. */
    method TakeMethod(q: ByteQueue, len: nat, f: Fields) returns (stop: Option<Reason>)
      requires st.phase == Method && len <= |q.Data()|
      modifies this`st, this`trace, q
      ensures var o := MethodLine(old(st), None, f, 0);
              && !o.Wait? && st == o.h && trace == old(trace) + o.marks
              && stop == (if o.Stop? then Some(o.reason) else None)
              && q.Data() == (if o.Go? then old(q.Data())[len..] else old(q.Data()))
    {
      hide MethodLine, Flatten;
      stop := StoreRequestLine(f);
      if stop.None? {
        var skipped := q.Skip(len);
      }
    }

    method ParseMethod(q: ByteQueue) returns (ret: bool, stop: Option<Reason>)
      requires st.phase == Method && peer != this
      modifies this`st, this`trace, q
      ensures peer == old(peer)
      ensures Became(Handle(old(st), old(PeerQueue()), old(q.Data())), q, old(trace), ret, stop)
    {
      hide Handle, FieldsOf, UpTo, Flatten, MethodLine, IsLine;
      ghost var h0, p0, x0 := st, PeerQueue(), q.Data();
      MethodHandled(h0, p0, x0);
      var len, fields := ReadFieldLine(q);
      if fields.None? {
        assert trace + [] == trace;
        return false, None;
      }
      stop := TakeMethod(q, len, fields.value);
      ret := stop.None?;
      assert PeerQueue() == p0;
    }

    /** The fields stored, and the line consumed if they were all there. */
    method TakeResponse(q: ByteQueue, len: nat, f: Fields) returns (stop: Option<Reason>)
      requires st.phase == Response && len <= |q.Data()|
      modifies this`st, this`trace, q
      ensures var o := ResponseLine(old(st), None, f, 0);
              && !o.Wait? && st == o.h && trace == old(trace) + o.marks
              && stop == (if o.Stop? then Some(o.reason) else None)
              && q.Data() == (if o.Go? then old(q.Data())[len..] else old(q.Data()))
    {
      hide ResponseLine, Flatten;
      stop := StoreStatusLine(f);
      if stop.None? {
        var skipped := q.Skip(len);
      }
    }

    method ParseResponse(q: ByteQueue) returns (ret: bool, stop: Option<Reason>)
      requires st.phase == Response && peer != this
      modifies this`st, this`trace, q
      ensures peer == old(peer)
      ensures Became(Handle(old(st), old(PeerQueue()), old(q.Data())), q, old(trace), ret, stop)
    {
      hide Handle, FieldsOf, UpTo, Flatten, ResponseLine, IsLine;
      ghost var h0, p0, x0 := st, PeerQueue(), q.Data();
      ResponseHandled(h0, p0, x0);
      var len, fields := ReadFieldLine(q);
      if fields.None? {
        assert trace + [] == trace;
        return false, None;
      }
      stop := TakeResponse(q, len, fields.value);
      ret := stop.None?;
      assert PeerQueue() == p0;
    }

    /** The key and value of a header line, stored under the lower-case key. */
    method StoreHeaderLine(buf: array<byte>, len: nat)
      requires len <= buf.Length
      modifies this`st
      ensures st == WithHeaderLine(old(st), buf[..len])
    {
      ghost var line := buf[..len];
      assert buf[0..len] == line;
      var pos := FindChar(buf, 0, len, COLON);
      if pos < 0 {
        return;
      }
      var p := PastSpaces(buf, pos + 1, len);
      assert buf[pos + 1..len] == line[pos + 1..] && buf[..pos] == line[..pos];
      if p >= len {
        return;
      }
      var val := ReadValue(buf, p, len);
      st := st.(header := st.header[Lower(buf[..pos]) := val]);
    }

    /** The blank line that ends a header block: what the client side does. */
    method EndHeadAsClient() returns (stop: Option<Reason>)
      modifies this`st, this`trace
      ensures var o := EndHeadClient(old(st), None, 0);
              st == o.h && trace == old(trace) + o.marks && stop == (if o.Stop? then Some(o.reason) else None)
    {
      if st.phase == ChunkTrailer {
        st := st.(phase := Method);
        trace := trace + [Ev(ReadTrailer), Ev(Read)];
      } else if |st.methods| == 0 {
        return Some(Undefined);
      } else if st.methods[|st.methods| - 1] == CONNECT {
        trace := trace + [Ev(ReadHead), Ev(Proxy)];
        return Some(Proxied);
      } else {
        var conLen := GetHeader(st, CONTENT_LENGTH);
        var trEnc := Lower(GetHeader(st, TRANSFER_ENCODING));
        if conLen != [] {
          st := st.(phase := Body);
        } else if trEnc == CHUNKED {
          st := st.(phase := ChunkLen);
        } else {
          st := st.(phase := Method);
          trace := trace + [Ev(Read)];
        }
        trace := trace + [Ev(ReadHead)];
      }
      return None;
    }

    /** What the server side does, once the peer's oldest method is popped. */
    method EndHeadAsServer(m: bytes) returns (stop: Option<Reason>)
      modifies this`st, this`trace
      ensures var o := EndHeadServer(old(st), Some([m]), 0);
              st == o.h && trace == old(trace) + o.marks && stop == (if o.Stop? then Some(o.reason) else None)
    {
      if st.phase == ChunkTrailer {
        st := st.(phase := Response);
        trace := trace + [PoppedAtTrailer(m), Ev(ReadTrailer), Ev(Read)];
      } else {
        trace := trace + [PoppedAtHead(m)];
        if m == CONNECT && st.code == CODE_200 {
          trace := trace + [Ev(ReadHead), Ev(Proxy)];
          return Some(Proxied);
        } else if m == HEAD_METHOD || st.code == CODE_204 || st.code == CODE_205 || st.code == CODE_304 {
          st := st.(phase := Response);
          trace := trace + [Ev(Read)];
        } else {
          var trEnc := GetHeader(st, TRANSFER_ENCODING);
          st := st.(phase := if trEnc == CHUNKED then ChunkLen else Body);
          trace := trace + [Ev(ReadHead)];
        }
      }
      return None;
    }

    /** The blank-line branch of `parse_head`, on the len bytes it takes. */
    method EndHead(q: ByteQueue, len: nat) returns (ret: bool, stop: Option<Reason>)
      requires (st.phase == Head || st.phase == ChunkTrailer) && peer != this
      requires var line := UpTo(q.Data(), HEAD_CAP, LF); Blank(line) && len == |line|
      modifies this`st, this`trace, q, if peer == null then {} else {peer}
      ensures peer == old(peer)
      ensures Became(Handle(old(st), old(PeerQueue()), old(q.Data())), q, old(trace), ret, stop)
    {
      BlankLineHandled(st, PeerQueue(), q.Data());
      hide Handle;
      hide UpTo;
      hide Flatten;
      hide EndHeadClient;
      hide EndHeadServer;
      if st.role == Client {
        var skipped := q.Skip(len);
        stop := EndHeadAsClient();
      } else {
        if peer == null || |peer.st.methods| == 0 {
          return false, None;
        }
        var m := peer.st.methods[0];
        peer.st := peer.st.(methods := peer.st.methods[1..]);
        var skipped := q.Skip(len);
        stop := EndHeadAsServer(m);
      }
      ret := stop.None?;
    }

    /** Looks at the line at the front of the queue: an incomplete or blank line is left for the caller, any
        other is stored. */
    method ReadHeaderLine(q: ByteQueue) returns (len: nat, complete: bool, blank: bool)
      modifies this`st
      ensures var line := UpTo(q.Data(), HEAD_CAP, LF);
              && len == |line| && complete == IsLine(line) && blank == Blank(line)
              && st == (if complete && !blank then WithHeaderLine(old(st), line) else old(st))
    {
      hide UpTo;
      hide Flatten;
      hide WithHeaderLine;
      var buf := new byte[HEAD_CAP];
      len := q.ReadThrough(buf, HEAD_CAP, LF);
      ghost var line := buf[..len];
      complete := len > 0 && buf[len - 1] == LF;
      blank := (len == 2 && buf[0] == CR && buf[1] == LF) || (len == 1 && buf[0] == LF);
      assert blank == Blank(line);
      if complete && !blank {
        StoreHeaderLine(buf, len);
      }
    }

    /** `parse_head`: header lines one by one, then the blank line. */
    method ParseHead(q: ByteQueue) returns (ret: bool, stop: Option<Reason>)
      requires (st.phase == Head || st.phase == ChunkTrailer) && peer != this
      modifies this`st, this`trace, q, if peer == null then {} else {peer}
      ensures peer == old(peer)
      ensures Became(Handle(old(st), old(PeerQueue()), old(q.Data())), q, old(trace), ret, stop)
    {
      hide UpTo;
      hide Flatten;
      hide WithHeaderLine;
      hide Handle;
      while true
        invariant peer == old(peer) && PeerQueue() == old(PeerQueue()) && trace == old(trace)
        invariant st.phase == old(st).phase
        invariant Handle(st, PeerQueue(), q.Data()) == Handle(old(st), old(PeerQueue()), old(q.Data()))
        decreases |q.Data()|
      {
        HeaderLineHandled(st, PeerQueue(), q.Data());
        var len, complete, blank := ReadHeaderLine(q);
        if !complete {
          return false, None;
        }
        if blank {
          ret, stop := EndHead(q, len);
          return;
        }
        var skipped := q.Skip(len);
      }
    }

    /** One turn of the loop of `parse_body`. */
    method ReadBodyBlock(q: ByteQueue, contentLen: nat, wanted: bool) returns (got: nat)
      requires st.phase == Body && ContentLength(st) == Some(contentLen) && WantsBody(st) == wanted
      requires st.bodyRead < contentLen
      modifies this`st, q
      ensures st.phase == Body && ContentLength(st) == Some(contentLen) && WantsBody(st) == wanted
      ensures got == 0 ==> st == old(st) && old(q.Data()) == q.Data() == []
      ensures got > 0 ==> |q.Data()| < |old(q.Data())|
      ensures forall p: Peer :: Handle(st, p, q.Data()) == Handle(old(st), p, old(q.Data()))
    {
      hide ContentLength;
      hide WantsBody;
      hide Flatten;
      hide Handle;
      var len := Min(contentLen - st.bodyRead, 1024);
      var block := ReadBlock(q, len);
      got := |block|;
      if got == 0 {
        return;
      }
      forall p: Peer ensures Handle(BodyPart(st, block), p, q.Data()) == Handle(old(st), p, old(q.Data())) {
        BodyBlock(st, p, block, q.Data());
      }
      BodyParts(st, block, []);
      st := st.(bodyRead := st.bodyRead + |block|, content := if wanted then st.content + block else st.content);
    }

    method ParseBody(q: ByteQueue) returns (ret: bool, stop: Option<Reason>)
      requires st.phase == Body && peer != this
      modifies this`st, this`trace, q
      ensures peer == old(peer)
      ensures Became(Handle(old(st), old(PeerQueue()), old(q.Data())), q, old(trace), ret, stop)
    {
      hide Flatten;
      var n := ContentLength(st);
      if n.None? {
        return false, Some(Undefined);
      }
      var contentLen := n.value;
      var wanted := WantsBody(st);
      if contentLen < 0 && wanted {
        return false, Some(Undefined);
      }
      hide ContentLength;
      hide WantsBody;
      while st.bodyRead < contentLen
        invariant peer == old(peer) && PeerQueue() == old(PeerQueue()) && trace == old(trace)
        invariant st.phase == Body && ContentLength(st) == n && WantsBody(st) == wanted
        invariant Handle(st, PeerQueue(), q.Data()) == Handle(old(st), old(PeerQueue()), old(q.Data()))
        decreases |q.Data()|
      {
        var got := ReadBodyBlock(q, contentLen, wanted);
        if got == 0 {
          BodyWaits(st, PeerQueue(), q.Data());
          return false, None;
        }
      }
      BodyEnds(st, PeerQueue(), q.Data());
      hide Handle;
      st := st.(phase := if st.role == Client then Method else Response, bodyRead := 0);
      trace := trace + [Ev(Read), Ev(ReadBody)];
      return true, None;
    }

    method ParseChunkLen(q: ByteQueue) returns (ret: bool, stop: Option<Reason>)
      requires st.phase == ChunkLen && peer != this
      modifies this`st, this`trace, q
      ensures peer == old(peer)
      ensures Became(Handle(old(st), old(PeerQueue()), old(q.Data())), q, old(trace), ret, stop)
    {
      hide UpTo;
      hide Flatten;
      var buf := new byte[SIZE_CAP];
      var len := q.ReadThrough(buf, SIZE_CAP, LF);
      ChunkLenHandled(st, PeerQueue(), q.Data());
      hide Handle;
      hide ReadHex;
      hide WantsBody;
      if len == 0 {
        return false, None;
      }
      if buf[len - 1] != LF {
        return false, Some(if len < SIZE_CAP then SplitSizeLine else BadSyntax);
      }
      var n := ReadHex(buf[..len]);
      if n.None? {
        return false, Some(Undefined);
      }
      if n.value == 0 {
        st := st.(chunkLen := 0, phase := ChunkTrailer);
      } else {
        if n.value < 0 && WantsBody(st) {
          return false, Some(Undefined);
        }
        if WantsBody(st) {
          st := st.(chunks := st.chunks + [[]]);
        }
        st := st.(chunkLen := n.value, phase := ChunkBody);
      }
      assert Handle(old(st), old(PeerQueue()), q.Data()) ==
        Handled(true, Result(None, st, old(PeerQueue()), q.Data()[len..], []));
      hide StepChunkLen;
      var skipped := q.Skip(len);
      return true, None;
    }

    /** One turn of the loop of `parse_chunk_body`. */
    method ReadChunkBlock(q: ByteQueue) returns (got: nat)
      requires st.phase == ChunkBody && st.bodyRead < st.chunkLen
      modifies this`st, q
      ensures st.phase == ChunkBody && st.chunkLen == old(st).chunkLen
      ensures got == 0 ==> st == old(st) && old(q.Data()) == q.Data() == []
      ensures got > 0 ==> |q.Data()| < |old(q.Data())|
      ensures forall p: Peer :: Handle(st, p, q.Data()) == Handle(old(st), p, old(q.Data()))
    {
      hide WantsBody;
      hide Flatten;
      hide Handle;
      var len := Min(st.chunkLen - st.bodyRead, 1024);
      var block := ReadBlock(q, len);
      got := |block|;
      if got == 0 {
        return;
      }
      forall p: Peer ensures Handle(ChunkPart(st, block), p, q.Data()) == Handle(old(st), p, old(q.Data())) {
        ChunkBlock(st, p, block, q.Data());
      }
      if WantsBody(st) && |st.chunks| > 0 {
        var last := |st.chunks| - 1;
        st := st.(chunks := st.chunks[last := st.chunks[last] + block]);
      }
      st := st.(bodyRead := st.bodyRead + |block|);
    }

    method ParseChunkBody(q: ByteQueue) returns (ret: bool, stop: Option<Reason>)
      requires st.phase == ChunkBody && peer != this
      modifies this`st, this`trace, q
      ensures peer == old(peer)
      ensures Became(Handle(old(st), old(PeerQueue()), old(q.Data())), q, old(trace), ret, stop)
    {
      hide Flatten;
      hide Handle;
      while st.bodyRead < st.chunkLen
        invariant peer == old(peer) && PeerQueue() == old(PeerQueue()) && trace == old(trace)
        invariant st.phase == ChunkBody
        invariant Handle(st, PeerQueue(), q.Data()) == Handle(old(st), old(PeerQueue()), old(q.Data()))
        decreases |q.Data()|
      {
        var got := ReadChunkBlock(q);
        if got == 0 {
          ChunkWaits(st, PeerQueue(), q.Data());
          return false, None;
        }
      }
      ChunkEnds(st, PeerQueue(), q.Data());
      st := st.(phase := ChunkEl);
      return true, None;
    }

    method ParseChunkEl(q: ByteQueue) returns (ret: bool, stop: Option<Reason>)
      requires st.phase == ChunkEl && peer != this
      modifies this`st, this`trace, q
      ensures peer == old(peer)
      ensures Became(Handle(old(st), old(PeerQueue()), old(q.Data())), q, old(trace), ret, stop)
    {
      hide UpTo;
      hide Flatten;
      var buf := new byte[EL_CAP];
      var len := q.ReadThrough(buf, EL_CAP, LF);
      ghost var line := buf[..len];
      ChunkElHandled(st, PeerQueue(), q.Data());
      hide Handle;
      hide Concat;
      if (len == 1 && buf[0] == LF) || (len == 2 && buf[0] == CR && buf[1] == LF) {
        assert Blank(line);
        var skipped := q.Skip(len);
        var joined := JoinChunks(st.chunks);
        st := st.(phase := if st.chunkLen == 0 then ChunkTrailer else ChunkLen, bodyRead := 0,
                  content := if |st.chunks| > 0 then joined else st.content);
        trace := trace + [Ev(ReadBody)];
        return true, None;
      }
      assert !Blank(line);
      return false, None;
    }

    /** `parse`: handlers by state until one asks for more input or stops. */
    method ParseAll(q: ByteQueue) returns (stop: Option<Reason>)
      requires peer != this
      modifies this`st, this`trace, q, if peer == null then {} else {peer}
      ensures var r := Parse(old(st), old(PeerQueue()), old(q.Data()));
              peer == old(peer) && Reached(r, q, old(trace)) && stop == r.stop
    {
      hide Flatten;
      hide Parse;
      hide Handle;
      ghost var target := Parse(st, PeerQueue(), q.Data());
      AfterNothing(target);
      while true
        invariant peer == old(peer)
        invariant |trace| >= |old(trace)| && trace[..|old(trace)|] == old(trace)
        invariant After(trace[|old(trace)|..], Parse(st, PeerQueue(), q.Data())) == target
        decreases Measure(st, q.Data())
      {
        ParseByHandlers(st, PeerQueue(), q.Data());
        ghost var sofar, hd := trace, Handle(st, PeerQueue(), q.Data());
        var ret: bool;
        match st.phase {
          case Method => ret, stop := ParseMethod(q);
          case Response => ret, stop := ParseResponse(q);
          case Head => ret, stop := ParseHead(q);
          case ChunkTrailer => ret, stop := ParseHead(q);
          case Body => ret, stop := ParseBody(q);
          case ChunkLen => ret, stop := ParseChunkLen(q);
          case ChunkBody => ret, stop := ParseChunkBody(q);
          case ChunkEl => ret, stop := ParseChunkEl(q);
        }
        LongerTrace(old(trace), sofar, hd.r.marks);
        AfterAfter(sofar[|old(trace)|..], hd.r.marks, Parse(st, PeerQueue(), q.Data()));
        if !ret {
          return;
        }
      }
    }
  }

  lemma LongerTrace(start: seq<Mark>, sofar: seq<Mark>, marks: seq<Mark>)
    requires |start| <= |sofar| && sofar[..|start|] == start
    ensures (sofar + marks)[..|start|] == start
    ensures (sofar + marks)[|start|..] == sofar[|start|..] + marks
    ensures sofar == start + sofar[|start|..]
  {
  }

  /** `read_bytes` then `skip_bytes` of up to len bytes. */
  method ReadBlock(q: ByteQueue, len: nat) returns (block: bytes)
    requires len > 0
    modifies q
    ensures old(q.Data()) == block + q.Data()
    ensures |block| == Min(len, |old(q.Data())|)
  {
    var buf := new byte[len];
    var n := q.Read(buf, 0, len);
    block := buf[..n];
    assert block == q.Data()[..n];
    var skipped := q.Skip(len);
  }

  method JoinChunks(chunks: seq<bytes>) returns (joined: bytes)
    ensures joined == Concat(chunks)
  {
    joined := [];
    var i := 0;
    while i < |chunks|
      invariant 0 <= i <= |chunks| && joined == Concat(chunks[..i])
    {
      assert chunks[..i + 1][..i] == chunks[..i];
      joined := joined + chunks[i];
      i := i + 1;
    }
    assert chunks[..i] == chunks;
  }

  /** A header line keeps the handler in its loop; an incomplete one ends it. */
  lemma HeaderLineHandled(h: Http, peer: Peer, input: bytes)
    requires h.phase == Head || h.phase == ChunkTrailer
    ensures var line := UpTo(input, HEAD_CAP, LF);
            && |line| <= |input|
            && (!IsLine(line) ==> Handle(h, peer, input) == Handled(false, Result(None, h, peer, input, [])))
            && (IsLine(line) && !Blank(line) ==>
                  && WithHeaderLine(h, line).phase == h.phase
                  && Handle(h, peer, input) == Handle(WithHeaderLine(h, line), peer, input[|line|..]))
            && (Blank(line) ==> IsLine(line))
  {
    var line := UpTo(input, HEAD_CAP, LF);
    if IsLine(line) && !Blank(line) {
      HeaderLineIsOneStep(h, peer, input, line);
    }
  }

  lemma BodyWaits(h: Http, peer: Peer, input: bytes)
    requires h.phase == Body && ContentLength(h).Some? && h.bodyRead < ContentLength(h).value && input == []
    ensures Handle(h, peer, input) == Handled(false, Result(None, h, peer, input, []))
  {
  }

  lemma BodyEnds(h: Http, peer: Peer, input: bytes)
    requires h.phase == Body && ContentLength(h).Some? && h.bodyRead >= ContentLength(h).value
    requires !BadBlock(h, ContentLength(h).value)
    ensures var h' := h.(phase := if h.role == Client then Method else Response, bodyRead := 0);
            Handle(h, peer, input) == Handled(true, Result(None, h', peer, input, [Ev(Read), Ev(ReadBody)]))
  {
    assert input[0..] == input;
  }

  lemma ChunkWaits(h: Http, peer: Peer, input: bytes)
    requires h.phase == ChunkBody && h.bodyRead < h.chunkLen && input == []
    ensures Handle(h, peer, input) == Handled(false, Result(None, h, peer, input, []))
  {
  }

  lemma ChunkEnds(h: Http, peer: Peer, input: bytes)
    requires h.phase == ChunkBody && h.bodyRead >= h.chunkLen
    ensures Handle(h, peer, input) == Handled(true, Result(None, h.(phase := ChunkEl), peer, input, []))
  {
    assert input[0..] == input;
  }

  lemma ChunkLenHandled(h: Http, peer: Peer, input: bytes)
    requires h.phase == ChunkLen
    ensures var line := UpTo(input, SIZE_CAP, LF);
            var o := StepChunkLen(h, peer, input);
            && |line| <= |input|
            && Handle(h, peer, input) ==
               (if o.Go? then Handled(true, Result(None, o.h, peer, input[|line|..], []))
                else Handled(false, Result(if o.Stop? then Some(o.reason) else None, h, peer, input, [])))
  {
    hide Handle;
    OneStepHandled(h, peer, input);
    assert Step(h, peer, input) == StepChunkLen(h, peer, input);
    hide Step;
    hide UpTo;
    hide ReadHex;
    assert input[0..] == input;
  }

  lemma ChunkElHandled(h: Http, peer: Peer, input: bytes)
    requires h.phase == ChunkEl
    ensures var line := UpTo(input, EL_CAP, LF);
            var o := StepChunkEl(h, peer, input);
            |line| <= |input| && Handle(h, peer, input) ==
              if o.Go? then Handled(true, Result(None, o.h, peer, input[|line|..], [Ev(ReadBody)]))
              else Handled(false, Result(None, h, peer, input, []))
  {
  }

  /** o, with the bytes and the peer queue it was computed without. */
  function Ended(o: Outcome, peer: Peer, rest: bytes): Handled
    requires !o.Wait?
  {
    Handled(o.Go?, Result(if o.Stop? then Some(o.reason) else None, o.h, peer, rest, o.marks))
  }

  /** A step that leaves the phase, or stops, is all the handler does. */
  lemma {:induction false} OneStepHandled(h: Http, peer: Peer, input: bytes)
    ensures var o := Step(h, peer, input);
            && (!o.Wait? ==> o.used <= |input|)
            && (o.Wait? ==> Handle(h, peer, input) == Handled(false, Result(None, h, peer, input, [])))
            && (o.Stop? || (o.Go? && o.h.phase != h.phase) ==>
                  Handle(h, peer, input) == Ended(o, o.peer, input[o.used..]))
  {
    StepShrinks(h, peer, input);
    hide Step;
  }

  lemma MethodLineAlone(h: Http, peer: Peer, f: Fields, used: nat)
    requires h.phase == Method
    ensures var o, p := MethodLine(h, peer, f, used), MethodLine(h, None, f, 0);
            && !p.Wait? && (p.Go? ==> p.h.phase != h.phase)
            && o == p.(peer := peer, used := if p.Go? then used else 0)
  {
  }

  lemma {:induction false} MethodHandled(h: Http, peer: Peer, input: bytes)
    requires h.phase == Method
    ensures var line := UpTo(input, METHOD_CAP, LF);
            && |line| <= |input|
            && (!IsLine(line) ==> Handle(h, peer, input) == Handled(false, Result(None, h, peer, input, [])))
            && (IsLine(line) ==>
                  var o := MethodLine(h, None, FieldsOf(line), 0);
                  Handle(h, peer, input) == Ended(o, peer, if o.Go? then input[|line|..] else input))
  {
    hide FieldsOf;
    hide Handle;
    OneStepHandled(h, peer, input);
    assert Step(h, peer, input) == StepMethod(h, peer, input);
    MethodLineAlone(h, peer, FieldsOf(UpTo(input, METHOD_CAP, LF)), |UpTo(input, METHOD_CAP, LF)|);
    hide Step;
    hide UpTo;
    hide MethodLine;
    assert input[0..] == input;
  }

  lemma ResponseLineAlone(h: Http, peer: Peer, f: Fields, used: nat)
    requires h.phase == Response
    ensures var o, p := ResponseLine(h, peer, f, used), ResponseLine(h, None, f, 0);
            && !p.Wait? && (p.Go? ==> p.h.phase != h.phase)
            && o == p.(peer := peer, used := if p.Go? then used else 0)
  {
  }

  lemma {:induction false} ResponseHandled(h: Http, peer: Peer, input: bytes)
    requires h.phase == Response
    ensures var line := UpTo(input, METHOD_CAP, LF);
            && |line| <= |input|
            && (!IsLine(line) ==> Handle(h, peer, input) == Handled(false, Result(None, h, peer, input, [])))
            && (IsLine(line) ==>
                  var o := ResponseLine(h, None, FieldsOf(line), 0);
                  Handle(h, peer, input) == Ended(o, peer, if o.Go? then input[|line|..] else input))
  {
    hide FieldsOf;
    hide Handle;
    OneStepHandled(h, peer, input);
    assert Step(h, peer, input) == StepResponse(h, peer, input);
    ResponseLineAlone(h, peer, FieldsOf(UpTo(input, METHOD_CAP, LF)), |UpTo(input, METHOD_CAP, LF)|);
    hide Step;
    hide UpTo;
    hide ResponseLine;
    assert input[0..] == input;
  }

  lemma ClientEndAlone(h: Http, peer: Peer, used: nat)
    requires h.phase == Head || h.phase == ChunkTrailer
    ensures var o, p := EndHeadClient(h, peer, used), EndHeadClient(h, None, 0);
            && !p.Wait? && (p.Go? ==> p.h.phase != h.phase)
            && o == p.(peer := peer, used := used)
  {
    hide GetHeader;
    hide Lower;
  }

  lemma ServerEndAlone(h: Http, peer: Peer, used: nat)
    requires (h.phase == Head || h.phase == ChunkTrailer) && peer.Some? && |peer.value| > 0
    ensures var o, p := EndHeadServer(h, peer, used), EndHeadServer(h, Some([peer.value[0]]), 0);
            && !p.Wait? && (p.Go? ==> p.h.phase != h.phase)
            && o == p.(peer := Some(peer.value[1..]), used := used)
  {
    hide GetHeader;
    hide Lower;
  }

  /** The blank line always leads out of the handler. */
  lemma BlankLineHandled(h: Http, peer: Peer, input: bytes)
    requires h.phase == Head || h.phase == ChunkTrailer
    requires Blank(UpTo(input, HEAD_CAP, LF))
    ensures var line := UpTo(input, HEAD_CAP, LF);
            && |line| <= |input|
            && (h.role == Client ==>
                  && !EndHeadClient(h, None, 0).Wait?
                  && Handle(h, peer, input) == Ended(EndHeadClient(h, None, 0), peer, input[|line|..]))
            && (h.role == Server && (peer.None? || |peer.value| == 0) ==>
                  Handle(h, peer, input) == Handled(false, Result(None, h, peer, input, [])))
            && (h.role == Server && peer.Some? && |peer.value| > 0 ==>
                  && !EndHeadServer(h, Some([peer.value[0]]), 0).Wait?
                  && Handle(h, peer, input) ==
                     Ended(EndHeadServer(h, Some([peer.value[0]]), 0), Some(peer.value[1..]), input[|line|..]))
  {
    var line := UpTo(input, HEAD_CAP, LF);
    assert Step(h, peer, input) ==
      if h.role == Client then EndHeadClient(h, peer, |line|) else EndHeadServer(h, peer, |line|);
    OneStepHandled(h, peer, input);
    if h.role == Client {
      ClientEndAlone(h, peer, |line|);
      hide UpTo;
      hide EndHeadClient;
      hide Step;
      hide Handle;
    } else if peer.Some? && |peer.value| > 0 {
      ServerEndAlone(h, peer, |line|);
      hide UpTo;
      hide EndHeadServer;
      hide Step;
      hide Handle;
    }
  }

  method PastSpaces(buf: array<byte>, from: nat, len: nat) returns (p: nat)
    requires from <= len <= buf.Length
    ensures from <= p <= len && buf[p..len] == DropSpaces(buf[from..len])
  {
    p := from;
    while p < len && buf[p] == SP
      invariant from <= p <= len
      invariant DropSpaces(buf[p..len]) == DropSpaces(buf[from..len])
    {
      assert buf[p..len][1..] == buf[p + 1..len];
      p := p + 1;
    }
  }

  /** The value up to the end of its line, which the source cuts off with a NUL. */
  method ReadValue(buf: array<byte>, p: nat, len: nat) returns (v: bytes)
    requires p <= len <= buf.Length
    ensures v == ValueText(buf[p..len])
  {
    ghost var s := buf[p..len];
    var end := p;
    while end < len && buf[end] != CR && buf[end] != LF && buf[end] != 0
      invariant p <= end <= len
      invariant buf[p..len] == s
      invariant s[..end - p] + ValueText(s[end - p..]) == ValueText(s)
    {
      ValueTextStep(s, end - p);
      end := end + 1;
    }
    v := buf[p..end];
    ghost var k := end - p;
    assert v == s[..k];
    assert k < |s| ==> s[k] == buf[end] && s[k..][0] == s[k];
    assert ValueText(s[k..]) == [];
    assert v + [] == v;
  }

  lemma ValueTextStep(s: bytes, k: nat)
    requires k < |s| && s[k] != CR && s[k] != LF && s[k] != 0
    requires s[..k] + ValueText(s[k..]) == ValueText(s)
    ensures s[..k + 1] + ValueText(s[k + 1..]) == ValueText(s)
  {
    assert s[k..][1..] == s[k + 1..];
    assert ValueText(s[k..]) == [s[k]] + ValueText(s[k + 1..]);
    var v := ValueText(s[k + 1..]);
    hide ValueText;
    assert s[..k + 1] == s[..k] + [s[k]];
    assert s[..k] + ([s[k]] + v) == s[..k] + [s[k]] + v;
  }

  /** `find_char` from p on and the string before it; p moves past the delimiter. */
  method ReadField(buf: array<byte>, p: nat, len: nat, c: byte) returns (p': nat, field: Option<bytes>)
    requires p <= len <= buf.Length
    ensures p' <= len
    ensures var cut := Cut(buf[p..len], c);
            if cut.None? then field == None
            else field == Some(cut.value.before) && buf[p'..len] == cut.value.behind
  {
    var n := FindChar(buf, p, len - p, c);
    assert buf[p..p + (len - p)] == buf[p..len];
    if n < 0 {
      return p, None;
    }
    assert buf[p..p + n] == buf[p..len][..n];
    assert buf[p + n + 1..len] == buf[p..len][n + 1..];
    return p + n + 1, Some(buf[p..p + n]);
  }

  /** A request or status line at the front of the queue, if it is complete. */
  method ReadFieldLine(q: ByteQueue) returns (len: nat, f: Option<Fields>)
    ensures var line := UpTo(q.Data(), METHOD_CAP, LF);
            len == |line| && f == (if IsLine(line) then Some(FieldsOf(line)) else None)
  {
    hide FieldsOf;
    hide UpTo;
    hide Flatten;
    var buf := new byte[METHOD_CAP];
    len := q.ReadThrough(buf, METHOD_CAP, LF);
    if len == 0 || buf[len - 1] != LF {
      return len, None;
    }
    var fields := ReadFields(buf, len);
    return len, Some(fields);
  }

  /** The three `find_char` calls on a request or status line held in buf[..len]. */
  method ReadFields(buf: array<byte>, len: nat) returns (f: Fields)
    requires len <= buf.Length
    ensures f == FieldsOf(buf[..len])
  {
    assert buf[0..len] == buf[..len];
    hide Cut;
    var p, first := ReadField(buf, 0, len, SP);
    if first.None? {
      return Fields(None, None, None);
    }
    var p2, second := ReadField(buf, p, len, SP);
    if second.None? {
      return Fields(first, None, None);
    }
    var p3, third := ReadField(buf, p2, len, LF);
    return Fields(first, second, third);
  }
}
