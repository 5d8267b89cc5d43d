/** A chunked response uses up two methods of its client's queue, so the response behind it is paired with the
    request after its own (src/cdpi_http.cpp). */
module HttpMispairing {
  import opened Bytes
  import opened Decimal
  import opened HttpSpec
  import opened HttpParser
  import opened HttpMessages
  import opened HttpResponses
  import HttpChunked

  // ------------------------------------------------------- one chunked response

  predicate IsChunked(r: Reply) {
    var m := FieldMap(map[], r.fields);
    TRANSFER_ENCODING in m && m[TRANSFER_ENCODING] == CHUNKED
  }

  /** A chunked response on the wire, with no trailer fields, and what follows it. */
  function ChunkedReply(r: Reply, cs: seq<HttpChunked.Chunk>, last: bytes, rest: bytes): bytes {
    StatusLine(r) + FieldLines(r.fields, [CR, LF] + HttpChunked.EncodeChunks(cs, last + ([CR, LF] + rest)))
  }

  lemma ChunkedHeadEnds(h: Http, m: bytes, ms: seq<bytes>, rest: bytes)
    requires h.phase == Head && h.role == Server && !OpensTunnel(m, h.code) && !Bodiless(m, h.code)
    requires GetHeader(h, TRANSFER_ENCODING) == CHUNKED
    ensures Parse(h, Some([m] + ms), [CR, LF] + rest) ==
              After([PoppedAtHead(m), Ev(ReadHead)], Parse(h.(phase := ChunkLen), Some(ms), rest))
  {
    var peer: Peer := Some([m] + ms);
    assert peer.value[0] == m && peer.value[1..] == ms;
    UpToLine([CR, LF], rest, HEAD_CAP, LF);
    BlankLineHandled(h, peer, [CR, LF] + rest);
    assert ([CR, LF] + rest)[2..] == rest && [m][0] == m;
    hide Parse, Handle, GetHeader, UpTo;
    ParseByHandlers(h, peer, [CR, LF] + rest);
  }

  /** The blank line behind the last chunk pops a method as well. */
  lemma TrailerEnds(h: Http, m: bytes, ms: seq<bytes>, rest: bytes)
    requires h.phase == ChunkTrailer && h.role == Server
    ensures Parse(h, Some([m] + ms), [CR, LF] + rest) ==
              After([PoppedAtTrailer(m), Ev(ReadTrailer), Ev(Read)], Parse(h.(phase := Response), Some(ms), rest))
  {
    var peer: Peer := Some([m] + ms);
    assert peer.value[0] == m && peer.value[1..] == ms;
    UpToLine([CR, LF], rest, HEAD_CAP, LF);
    BlankLineHandled(h, peer, [CR, LF] + rest);
    assert ([CR, LF] + rest)[2..] == rest && [m][0] == m;
    hide Parse, Handle, GetHeader, UpTo;
    ParseByHandlers(h, peer, [CR, LF] + rest);
  }

  function AfterChunkedReply(h: Http, r: Reply, cs: seq<HttpChunked.Chunk>): Http {
    HttpChunked.Decoded(AfterReplyHead(h, r), cs).(phase := Response)
  }

  function ChunkedTrace(m: bytes, next: bytes, n: nat): seq<Mark> {
    [Ev(ReadResponse), PoppedAtHead(m), Ev(ReadHead)] + HttpChunked.Repeat(Ev(ReadBody), n)
    + [PoppedAtTrailer(next), Ev(ReadTrailer), Ev(Read)]
  }

  predicate AnswersChunked(h: Http, m: bytes, r: Reply) {
    && h.phase == Response && h.role == Server && h.bodyRead == 0
    && GoodReply(r) && IsChunked(r) && WantsBody(AfterReplyHead(h, r))
    && !OpensTunnel(m, r.code) && !Bodiless(m, r.code)
  }

  /** Whole round trip of a chunked response: its parts and content come back, and it uses up the method of its own
      request and that of the next. */
  lemma {:induction false} ChunkedResponseRoundTrip(h: Http, m: bytes, next: bytes, ms: seq<bytes>, r: Reply,
                                                    cs: seq<HttpChunked.Chunk>, last: bytes, rest: bytes)
    requires AnswersChunked(h, m, r) && |cs| > 0 && HttpChunked.SizeLine(last, 0)
    ensures Parse(h, Some([m, next] + ms), ChunkedReply(r, cs, last, rest)) ==
              After(ChunkedTrace(m, next, |cs|), Parse(AfterChunkedReply(h, r, cs), Some(ms), rest))
  {
    hide Parse, WantsBody, StatusLine, GoodReply, FieldLines, HttpChunked.EncodeChunks, HttpChunked.SizeLine;
    hide HttpChunked.Datas, Concat, OpensTunnel, Bodiless;
    var body := HttpChunked.EncodeChunks(cs, last + ([CR, LF] + rest));
    var peer: Peer := Some([m, next] + ms);
    HeadOfReplyParses(h, peer, r, [CR, LF] + body);
    var h1 := AfterReplyHead(h, r);
    assert [m, next] + ms == [m] + ([next] + ms);
    ChunkedHeadEnds(h1, m, [next] + ms, body);
    SameHeadersSameBody(h1, h1.(phase := ChunkLen));
    HttpChunked.ChunkedRoundTrip(h1.(phase := ChunkLen), Some([next] + ms), cs, last, [CR, LF] + rest);
    var h2 := HttpChunked.Decoded(h1, cs);
    TrailerEnds(h2, next, ms, rest);
    var q := Parse(h2.(phase := Response), Some(ms), rest);
    var b := [PoppedAtTrailer(next), Ev(ReadTrailer), Ev(Read)];
    JoinTraces([PoppedAtHead(m), Ev(ReadHead)], HttpChunked.Repeat(Ev(ReadBody), |cs|), b, q);
    AfterAfter([Ev(ReadResponse)],
                                [PoppedAtHead(m), Ev(ReadHead)] + HttpChunked.Repeat(Ev(ReadBody), |cs|) + b, q);
    assert [Ev(ReadResponse)] + ([PoppedAtHead(m), Ev(ReadHead)] + HttpChunked.Repeat(Ev(ReadBody), |cs|) + b)
        == ChunkedTrace(m, next, |cs|);
  }

  // -------------------------------------------------------- the response behind it

  predicate AnswersPlain(m: bytes, r: Reply) {
    GoodReply(r) && !OpensTunnel(m, r.code) && (Bodiless(m, r.code) || !IsChunked(r))
  }

  /** The response behind a chunked one, own being its request: its header end sees the method m2 of the request after
      its own, and takes m2's word for whether a body follows. */
  lemma {:induction false} ChunkedThenMispaired(h: Http, m: bytes, own: bytes, m2: bytes, ms: seq<bytes>, r: Reply,
                                                cs: seq<HttpChunked.Chunk>, last: bytes, r2: Reply, rest: bytes)
    requires AnswersChunked(h, m, r) && |cs| > 0 && HttpChunked.SizeLine(last, 0) && AnswersPlain(m2, r2)
    ensures var wire := ChunkedReply(r, cs, last, StatusLine(r2) + FieldLines(r2.fields, [CR, LF] + rest));
            var h2 := AfterReplyHead(AfterChunkedReply(h, r, cs), r2);
            Parse(h, Some([m, own, m2] + ms), wire) ==
              After(ChunkedTrace(m, own, |cs|) + [Ev(ReadResponse), PoppedAtHead(m2)]
                    + (if Bodiless(m2, r2.code) then [Ev(Read)] else [Ev(ReadHead)]),
                    Parse(h2.(phase := if Bodiless(m2, r2.code) then Response else Body), Some(ms), rest))
  {
    hide Parse, StatusLine, GoodReply, FieldLines, HttpChunked.SizeLine, WantsBody, ChunkedReply, ChunkedTrace;
    hide HttpChunked.Datas, Concat, OpensTunnel, Bodiless;
    var second := StatusLine(r2) + FieldLines(r2.fields, [CR, LF] + rest);
    assert [m, own, m2] + ms == [m, own] + ([m2] + ms);
    ChunkedResponseRoundTrip(h, m, own, [m2] + ms, r, cs, last, second);
    var h1 := AfterChunkedReply(h, r, cs);
    HeadOfReplyParses(h1, Some([m2] + ms), r2, [CR, LF] + rest);
    var h2 := AfterReplyHead(h1, r2);
    ReplyHeadEnds(h2, m2, ms, rest);
    var end := if Bodiless(m2, r2.code) then Ev(Read) else Ev(ReadHead);
    var q := Parse(h2.(phase := if Bodiless(m2, r2.code) then Response else Body), Some(ms), rest);
    JoinTraces(ChunkedTrace(m, own, |cs|), [Ev(ReadResponse)], [PoppedAtHead(m2), end], q);
    assert ChunkedTrace(m, own, |cs|) + [Ev(ReadResponse)] + [PoppedAtHead(m2), end]
        == ChunkedTrace(m, own, |cs|) + [Ev(ReadResponse), PoppedAtHead(m2)] + [end];
  }

  // -------------------------------------------------------------- a run that shows it

  // "GET", "HTTP/1.1", "OK", "a/b"
  const GET: bytes := [71, 69, 84]
  const HTTP_1_1: bytes := [72, 84, 84, 80, 47, 49, 46, 49]
  const OK_MESSAGE: bytes := [79, 75]
  const ANY_TYPE: bytes := [97, 47, 98]

  /** A server parser that keeps bodies of type a/b. */
  const SERVER := Http(Server, Response, [], [], [], [], [], map[], {ANY_TYPE}, 0, 0, [], [])

  const SIZED_FIELD := Field(CONTENT_LENGTH, [49])
  const CHUNKED_FIELD := Field(TRANSFER_ENCODING, CHUNKED)
  const TYPE_FIELD := Field(CONTENT_TYPE, ANY_TYPE)

  const FIRST := Reply(HTTP_1_1, CODE_200, OK_MESSAGE, [CHUNKED_FIELD, TYPE_FIELD], [])

  /** The answer to HEAD announces a length and has no body. */
  const SECOND := Reply(HTTP_1_1, CODE_200, OK_MESSAGE, [SIZED_FIELD], [])

  const ONE_CHUNK := HttpChunked.RawChunk([49, 10], [0], [10])
  const LAST_SIZE: bytes := [48, 10]

  lemma AlreadyLower(s: bytes)
    requires forall i :: 0 <= i < |s| ==> !(65 <= s[i] <= 90)
    ensures Lower(s) == s
  {
  }

  lemma ShortFieldIsGood(f: Field)
    requires |f.name| < 20 && |f.value| < 20
    requires forall i :: 0 <= i < |f.name| ==> f.name[i] > 32 && f.name[i] != COLON
    requires forall i :: 0 <= i < |f.value| ==> f.value[i] > 32
    ensures GoodField(f)
  {
  }

  lemma SizedFieldIsGood()
    ensures GoodField(SIZED_FIELD)
  {
    hide GoodField;
    ShortFieldIsGood(SIZED_FIELD);
  }

  lemma ChunkedFieldIsGood()
    ensures GoodField(CHUNKED_FIELD)
  {
    hide GoodField;
    ShortFieldIsGood(CHUNKED_FIELD);
  }

  lemma TypeFieldIsGood()
    ensures GoodField(TYPE_FIELD)
  {
    hide GoodField;
    ShortFieldIsGood(TYPE_FIELD);
  }

  lemma NamesAreLower()
    ensures Lower(CONTENT_LENGTH) == CONTENT_LENGTH && Lower(TRANSFER_ENCODING) == TRANSFER_ENCODING
    ensures Lower(CONTENT_TYPE) == CONTENT_TYPE
  {
    hide Lower;
    AlreadyLower(CONTENT_LENGTH);
    AlreadyLower(TRANSFER_ENCODING);
    AlreadyLower(CONTENT_TYPE);
  }

  lemma ShortLineIsGood(q: Request)
    requires |q.verb| < 20 && |q.uri| < 20 && |q.ver| < 20
    requires SP !in q.verb && LF !in q.verb && SP !in q.uri && LF !in q.uri && LF !in q.ver
    ensures GoodLine(q)
  {
  }

  lemma LinesAreGood()
    ensures GoodReply(FIRST) && GoodReply(SECOND)
  {
    hide GoodField, GoodLine, CHUNKED_FIELD, TYPE_FIELD, SIZED_FIELD;
    SizedFieldIsGood();
    ChunkedFieldIsGood();
    TypeFieldIsGood();
    ShortLineIsGood(Line(FIRST));
    ShortLineIsGood(Line(SECOND));
  }

  lemma FieldMapOfTwo(f: Field, g: Field)
    ensures FieldMap(map[], [f, g]) == map[Lower(f.name) := f.value][Lower(g.name) := g.value]
    ensures FieldMap(map[], [g]) == map[Lower(g.name) := g.value]
  {
    hide Lower;
    var m := map[Lower(f.name) := f.value];
    assert [f, g][1..] == [g] && [g][1..] == [];
    assert FieldMap(map[], [f, g]) == FieldMap(m, [g]) == m[Lower(g.name) := g.value];
  }

  lemma HeadersRead()
    ensures FieldMap(map[], FIRST.fields) == map[TRANSFER_ENCODING := CHUNKED][CONTENT_TYPE := ANY_TYPE]
    ensures FieldMap(map[], SECOND.fields) == map[CONTENT_LENGTH := [49]]
  {
    FieldMapOfTwo(CHUNKED_FIELD, TYPE_FIELD);
    FieldMapOfTwo(CHUNKED_FIELD, SIZED_FIELD);
    NamesAreLower();
    hide Lower, FieldMap;
  }

  lemma ThreeNames()
    ensures TRANSFER_ENCODING != CONTENT_TYPE && CONTENT_LENGTH != TRANSFER_ENCODING && CONTENT_LENGTH != CONTENT_TYPE
  {
    assert |TRANSFER_ENCODING| == 17 && |CONTENT_TYPE| == 12 && |CONTENT_LENGTH| == 14;
  }

  lemma FirstIsAnswer()
    ensures AnswersChunked(SERVER, GET, FIRST)
  {
    LinesAreGood();
    HeadersRead();
    ThreeNames();
    hide FieldMap, GoodReply, TRANSFER_ENCODING, CONTENT_TYPE, CONTENT_LENGTH, CHUNKED;
    assert IndexOf(ANY_TYPE, SEMICOLON) < 0;
    assert |GET| == 3 && |CONNECT| == 7 && |HEAD_METHOD| == 4;
    assert CODE_200[2] == 48 && CODE_204[2] == 52 && CODE_205[2] == 53 && CODE_304[2] == 52;
  }

  lemma SecondIsAnswer()
    ensures AnswersPlain(GET, SECOND) && !Bodiless(GET, SECOND.code)
  {
    LinesAreGood();
    HeadersRead();
    ThreeNames();
    hide FieldMap, GoodReply, TRANSFER_ENCODING, CONTENT_TYPE, CONTENT_LENGTH, CHUNKED;
    assert |GET| == 3 && |CONNECT| == 7 && |HEAD_METHOD| == 4;
    assert CODE_200[2] == 48 && CODE_204[2] == 52 && CODE_205[2] == 53 && CODE_304[2] == 52;
  }

  lemma SecondAnnouncesOne(h: Http)
    ensures ContentLength(AfterReplyHead(h, SECOND).(phase := Body)) == Some(1)
  {
    HeadersRead();
    hide FieldMap, CONTENT_LENGTH;
    assert SkipSpace([49]) == [49] && DecRun([49], 0) == DecRun([], 1) == 1 by { assert [49][1..] == []; }
  }

  lemma SizesAreRead()
    ensures HttpChunked.SizeLine([49, 10], 1) && HttpChunked.SizeLine(LAST_SIZE, 0)
  {
    assert [49, 10][1..] == [10] && LAST_SIZE[1..] == [10];
    assert HexRun([49, 10], 0) == HexRun([10], 1) == 1 && HexRun(LAST_SIZE, 0) == HexRun([10], 0) == 0;
  }

  lemma WaitsForBody(h: Http, peer: Peer)
    requires h.phase == Body && h.bodyRead == 0 && ContentLength(h) == Some(1)
    ensures Parse(h, peer, []) == Result(None, h, peer, [], [])
  {
  }

  /** Requests GET, HEAD, GET; a chunked answer to the first, then the answer to HEAD. Its header end sees the third
      request's GET, so the parser waits for a body that HEAD forbids. */
  lemma HeadAnswerWaitsForBody()
    ensures HttpChunked.SizeLine(ONE_CHUNK.size, |ONE_CHUNK.data|)
    ensures var second := StatusLine(SECOND) + FieldLines(SECOND.fields, [CR, LF]);
            var r := Parse(SERVER, Some([GET, HEAD_METHOD, GET]),
                           ChunkedReply(FIRST, [ONE_CHUNK], LAST_SIZE, second));
            && r.marks == [Ev(ReadResponse), PoppedAtHead(GET), Ev(ReadHead), Ev(ReadBody),
                           PoppedAtTrailer(HEAD_METHOD), Ev(ReadTrailer), Ev(Read),
                           Ev(ReadResponse), PoppedAtHead(GET), Ev(ReadHead)]
            && r.stop.None? && r.h.phase == Body && r.rest == []
  {
    SizesAreRead();
    FirstIsAnswer();
    SecondIsAnswer();
    hide Parse, StatusLine, FieldLines, HttpChunked.SizeLine, WantsBody, ChunkedReply, GoodReply, Bodiless, ReadDec;
    assert SERVER.bodyRead == 0;
    hide AnswersChunked, AnswersPlain, ContentLength, HttpChunked.Datas, Concat, FieldMap, GetHeader;
    hide GET, HEAD_METHOD, FIRST, SECOND, SERVER, LAST_SIZE;
    ChunkedThenMispaired(SERVER, GET, HEAD_METHOD, GET, [], FIRST, [ONE_CHUNK], LAST_SIZE, SECOND, []);
    var h := AfterReplyHead(AfterChunkedReply(SERVER, FIRST, [ONE_CHUNK]), SECOND).(phase := Body);
    assert [GET, HEAD_METHOD, GET] + [] == [GET, HEAD_METHOD, GET] && [CR, LF] + [] == [CR, LF];
    OneBody(GET, HEAD_METHOD);
    SecondAnnouncesOne(AfterChunkedReply(SERVER, FIRST, [ONE_CHUNK]));
    WaitsForBody(h, Some([]));
  }

  lemma OneBody(m: bytes, next: bytes)
    ensures ChunkedTrace(m, next, 1) == [Ev(ReadResponse), PoppedAtHead(m), Ev(ReadHead), Ev(ReadBody),
                                         PoppedAtTrailer(next), Ev(ReadTrailer), Ev(Read)]
  {
    assert HttpChunked.Repeat(Ev(ReadBody), 0) == [];
    assert HttpChunked.Repeat(Ev(ReadBody), 1) == [Ev(ReadBody)] + [];
  }
}
