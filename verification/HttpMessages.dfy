/** The request parser inverts the way a request is written down (src/cdpi_http.cpp). */
module HttpMessages {
  import opened Bytes
  import opened Decimal
  import opened HttpSpec
  import opened HttpParser

  datatype Field = Field(name: bytes, value: bytes)

  datatype Request = Request(verb: bytes, uri: bytes, ver: bytes, fields: seq<Field>, body: bytes)

  predicate Free(s: bytes, c: byte) { c !in s }

  function RequestLine(q: Request): bytes {
    q.verb + [SP] + q.uri + [SP] + q.ver + [CR, LF]
  }

  function FieldLine(f: Field): bytes {
    f.name + [COLON, SP] + f.value + [CR, LF]
  }

  function FieldLines(fs: seq<Field>, tail: bytes): bytes {
    if |fs| == 0 then tail else FieldLine(fs[0]) + FieldLines(fs[1..], tail)
  }

  /** Text that survives being written as a header line. */
  predicate GoodField(f: Field) {
    && Free(f.name, COLON) && Free(f.name, LF)
    && Free(f.value, CR) && Free(f.value, LF) && Free(f.value, 0)
    && (|f.value| > 0 ==> f.value[0] != SP)
    && |FieldLine(f)| <= HEAD_CAP
  }

  predicate GoodLine(q: Request) {
    && Free(q.verb, SP) && Free(q.verb, LF) && Free(q.uri, SP) && Free(q.uri, LF) && Free(q.ver, LF)
    && |RequestLine(q)| <= METHOD_CAP
  }

  /** The header map: the last field of a name wins, names in lower case. */
  function FieldMap(m: map<bytes, bytes>, fs: seq<Field>): map<bytes, bytes>
    decreases |fs|
  {
    if |fs| == 0 then m else FieldMap(m[Lower(fs[0].name) := fs[0].value], fs[1..])
  }

  // ------------------------------------------------------------ request line

  lemma CutAt(p: bytes, c: byte, rest: bytes)
    requires c !in p
    ensures Cut(p + [c] + rest, c) == Some(Halves(p, rest))
  {
    IndexOfFirst(p, c, rest);
    var s := p + [c] + rest;
    assert s[..|p|] == p && s[|p| + 1..] == rest;
  }

  lemma RequestLineFields(q: Request)
    requires GoodLine(q)
    ensures FieldsOf(RequestLine(q)) == Fields(Some(q.verb), Some(q.uri), Some(q.ver + [CR]))
  {
    var r2 := q.ver + [CR] + [LF];
    var r := q.uri + [SP] + r2;
    assert RequestLine(q) == q.verb + [SP] + r;
    CutAt(q.verb, SP, r);
    CutAt(q.uri, SP, r2);
    assert r2 == q.ver + [CR] + [LF] + [];
    CutAt(q.ver + [CR], LF, []);
  }

  lemma RequestLineIsLine(q: Request)
    requires GoodLine(q)
    ensures IsLine(RequestLine(q))
    ensures forall i :: 0 <= i < |RequestLine(q)| - 1 ==> RequestLine(q)[i] != LF
  {
    var front := q.verb + [SP] + q.uri + [SP] + q.ver + [CR];
    assert RequestLine(q) == front + [LF];
    assert LF !in front;
    assert forall i :: 0 <= i < |front| ==> RequestLine(q)[i] == front[i];
  }

  function AfterRequestLine(h: Http, q: Request): Http {
    Cleared(h).(methods := h.methods + [q.verb], uri := q.uri, ver := q.ver, phase := Head)
  }

  lemma RequestLineParses(h: Http, peer: Peer, q: Request, rest: bytes)
    requires h.phase == Method && GoodLine(q)
    ensures Parse(h, peer, RequestLine(q) + rest) ==
              After([Pushed(q.verb), Ev(ReadMethod)], Parse(AfterRequestLine(h, q), peer, rest))
  {
    hide RequestLine, FieldsOf, UpTo, StripCR, GoodLine, Handle, MethodLine, Parse, Cleared;
    var line := RequestLine(q);
    RequestLineIsLine(q);
    RequestLineFields(q);
    LineCap(q);
    UpToLine(line, rest, METHOD_CAP, LF);
    MethodHandled(h, peer, line + rest);
    MethodLineGoes(h, q);
    ParseByHandlers(h, peer, line + rest);
    assert (line + rest)[|line|..] == rest;
  }

  lemma LineCap(q: Request)
    requires GoodLine(q)
    ensures |RequestLine(q)| <= METHOD_CAP
  {
  }

  lemma MethodLineGoes(h: Http, q: Request)
    ensures MethodLine(h, None, Fields(Some(q.verb), Some(q.uri), Some(q.ver + [CR])), 0) ==
              Go(AfterRequestLine(h, q), None, 0, [Pushed(q.verb), Ev(ReadMethod)])
  {
    assert StripCR(q.ver + [CR]) == q.ver;
  }

  // ------------------------------------------------------------ header lines

  lemma {:induction false} ValueTextStops(v: bytes, tail: bytes)
    requires CR !in v && LF !in v && 0 !in v && |tail| > 0 && tail[0] == CR
    ensures ValueText(v + tail) == v
  {
    if |v| > 0 {
      assert (v + tail)[1..] == v[1..] + tail;
      ValueTextStops(v[1..], tail);
    } else {
      assert v + tail == tail;
    }
  }

  lemma FieldLineShape(f: Field)
    requires GoodField(f)
    ensures var line := FieldLine(f);
            && IsLine(line) && !Blank(line)
            && forall i :: 0 <= i < |line| - 1 ==> line[i] != LF
  {
    var line := FieldLine(f);
    var front := f.name + [COLON, SP] + f.value + [CR];
    assert line == front + [LF];
    assert LF !in front;
    assert forall i :: 0 <= i < |front| ==> line[i] == front[i];
    assert line[|f.name|] == COLON;
  }

  lemma FieldLineStores(h: Http, f: Field)
    requires GoodField(f)
    ensures WithHeaderLine(h, FieldLine(f)) == h.(header := h.header[Lower(f.name) := f.value])
  {
    var line := FieldLine(f);
    var text := [SP] + f.value + [CR, LF];
    assert line == f.name + [COLON] + text;
    IndexOfFirst(f.name, COLON, text);
    assert line[|f.name| + 1..] == text && line[..|f.name|] == f.name;
    assert text[1..] == f.value + [CR, LF];
    assert DropSpaces(text) == DropSpaces(f.value + [CR, LF]) == f.value + [CR, LF];
    ValueTextStops(f.value, [CR, LF]);
  }

  lemma {:induction false} FieldLineParses(h: Http, peer: Peer, f: Field, rest: bytes)
    requires (h.phase == Head || h.phase == ChunkTrailer) && GoodField(f)
    ensures Parse(h, peer, FieldLine(f) + rest) ==
              Parse(h.(header := h.header[Lower(f.name) := f.value]), peer, rest)
  {
    var line := FieldLine(f);
    var h1 := h.(header := h.header[Lower(f.name) := f.value]);
    FieldLineShape(f);
    FieldLineStores(h, f);
    UpToLine(line, rest, HEAD_CAP, LF);
    hide FieldLine;
    assert (line + rest)[|line|..] == rest;
    HeaderLineHandled(h, peer, line + rest);
    ParseByHandlers(h, peer, line + rest);
    ParseByHandlers(h1, peer, rest);
    hide Parse;
    hide Handle;
  }

  lemma {:induction false} FieldsParse(h: Http, peer: Peer, fs: seq<Field>, tail: bytes)
    requires (h.phase == Head || h.phase == ChunkTrailer) && forall i :: 0 <= i < |fs| ==> GoodField(fs[i])
    ensures Parse(h, peer, FieldLines(fs, tail)) == Parse(h.(header := FieldMap(h.header, fs)), peer, tail)
    decreases |fs|
  {
    hide Parse;
    if |fs| > 0 {
      FieldLineParses(h, peer, fs[0], FieldLines(fs[1..], tail));
      FieldsParse(h.(header := h.header[Lower(fs[0].name) := fs[0].value]), peer, fs[1..], tail);
    }
  }

  // ------------------------------------------------------------------- whole

  function Encode(q: Request): bytes {
    RequestLine(q) + FieldLines(q.fields, [CR, LF] + q.body)
  }

  /** The request announces its body length; CONNECT requests end the HTTP stream instead. */
  predicate Announced(q: Request) {
    var m := FieldMap(map[], q.fields);
    && q.verb != CONNECT
    && CONTENT_LENGTH in m && m[CONTENT_LENGTH] != [] && ReadDec(m[CONTENT_LENGTH]) == Some(|q.body|)
  }

  function AfterRequest(h: Http, q: Request): Http {
    var h1 := AfterRequestLine(h, q).(header := FieldMap(map[], q.fields));
    h1.(phase := Method, content := if WantsBody(h1) then q.body else [])
  }

  lemma HeadEndParses(h: Http, peer: Peer, rest: bytes)
    requires h.phase == Head && h.role == Client && |h.methods| > 0 && h.methods[|h.methods| - 1] != CONNECT
    requires GetHeader(h, CONTENT_LENGTH) != []
    ensures Parse(h, peer, [CR, LF] + rest) == After([Ev(ReadHead)], Parse(h.(phase := Body), peer, rest))
  {
    UpToLine([CR, LF], rest, HEAD_CAP, LF);
    BlankLineHandled(h, peer, [CR, LF] + rest);
    ParseByHandlers(h, peer, [CR, LF] + rest);
    assert ([CR, LF] + rest)[2..] == rest;
    hide Parse;
    hide Handle;
  }

  lemma BodyParses(h: Http, peer: Peer, body: bytes, rest: bytes)
    requires h.phase == Body && h.bodyRead == 0 && h.content == []
    requires ContentLength(h) == Some(|body|)
    ensures var h1 := h.(phase := if h.role == Client then Method else Response,
                         content := if WantsBody(h) then body else []);
            Parse(h, peer, body + rest) == After([Ev(Read), Ev(ReadBody)], Parse(h1, peer, rest))
  {
    BodyBlock(h, peer, body, rest);
    BodyParts(h, body, []);
    hide ContentLength;
    hide WantsBody;
    var h2 := BodyPart(h, body);
    assert [] + body == body;
    BodyEnds(h2, peer, rest);
    ParseByHandlers(h, peer, body + rest);
    ParseByHandlers(h2, peer, rest);
    hide Parse;
    hide Handle;
  }

  /** Writing down a request with a content length and parsing it gives back its method, URI, version, header
      fields and (when its type is selected) body, with one event for each part, and leaves the client in front
      of the next request. */
  lemma RequestRoundTrip(h: Http, peer: Peer, q: Request, rest: bytes)
    requires h.phase == Method && h.role == Client && h.bodyRead == 0
    requires GoodLine(q) && Announced(q) && forall i :: 0 <= i < |q.fields| ==> GoodField(q.fields[i])
    ensures Parse(h, peer, Encode(q) + rest) ==
              After([Pushed(q.verb), Ev(ReadMethod), Ev(ReadHead), Ev(Read), Ev(ReadBody)],
                    Parse(AfterRequest(h, q), peer, rest))
  {
    hide Parse;
    hide WantsBody;
    hide ReadDec;
    var tail := [CR, LF] + (q.body + rest);
    FieldLinesAppend(q.fields, [CR, LF] + q.body, rest);
    assert [CR, LF] + q.body + rest == tail;
    assert Encode(q) + rest == RequestLine(q) + FieldLines(q.fields, tail);
    RequestLineParses(h, peer, q, FieldLines(q.fields, tail));
    var h1 := AfterRequestLine(h, q);
    FieldsParse(h1, peer, q.fields, tail);
    var h2 := h1.(header := FieldMap(map[], q.fields));
    HeadEndParses(h2, peer, q.body + rest);
    BodyParses(h2.(phase := Body), peer, q.body, rest);
    SameHeadersSameBody(h2, h2.(phase := Body));
    var r := Parse(AfterRequest(h, q), peer, rest);
    AfterAfter([Ev(ReadHead)], [Ev(Read), Ev(ReadBody)], r);
    AfterAfter([Pushed(q.verb), Ev(ReadMethod)], [Ev(ReadHead)] + [Ev(Read), Ev(ReadBody)], r);
    assert [Pushed(q.verb), Ev(ReadMethod)] + ([Ev(ReadHead)] + [Ev(Read), Ev(ReadBody)])
        == [Pushed(q.verb), Ev(ReadMethod), Ev(ReadHead), Ev(Read), Ev(ReadBody)];
  }

  lemma SameHeadersSameBody(h: Http, g: Http)
    requires g.header == h.header && g.mimes == h.mimes
    ensures WantsBody(g) == WantsBody(h)
  {
  }

  lemma {:induction false} FieldLinesAppend(fs: seq<Field>, tail: bytes, rest: bytes)
    ensures FieldLines(fs, tail) + rest == FieldLines(fs, tail + rest)
    decreases |fs|
  {
    if |fs| > 0 {
      FieldLinesAppend(fs[1..], tail, rest);
      assert FieldLine(fs[0]) + FieldLines(fs[1..], tail) + rest
          == FieldLine(fs[0]) + (FieldLines(fs[1..], tail) + rest);
    }
  }

  /** Any body of up to INT_MAX bytes can be announced by printing its length. */
  lemma PrintedLengthReads(n: nat)
    requires n <= INT_MAX
    ensures ReadDec(DecText(n)) == Some(n)
  {
    DecTextReads(n, []);
    assert DecText(n) + [] == DecText(n);
    assert IsDigit(DecText(n)[0]);
  }
}
