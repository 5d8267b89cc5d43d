/** The response parser inverts the way a response is written down, given the method it answers (src/cdpi_http.cpp). */
module HttpResponses {
  import opened Bytes
  import opened HttpSpec
  import opened HttpParser
  import opened HttpMessages

  datatype Reply = Reply(ver: bytes, code: bytes, msg: bytes, fields: seq<Field>, body: bytes)

  /** A status line has the shape of a request line. */
  function Line(r: Reply): Request { Request(r.ver, r.code, r.msg, r.fields, r.body) }

  function StatusLine(r: Reply): bytes { RequestLine(Line(r)) }

  predicate GoodReply(r: Reply) {
    GoodLine(Line(r)) && forall i :: 0 <= i < |r.fields| ==> GoodField(r.fields[i])
  }

  function AfterStatusLine(h: Http, r: Reply): Http {
    Cleared(h).(ver := r.ver, code := r.code, resMsg := r.msg, phase := Head)
  }

  lemma StatusLineParses(h: Http, peer: Peer, r: Reply, rest: bytes)
    requires h.phase == Response && GoodReply(r)
    ensures Parse(h, peer, StatusLine(r) + rest) == After([Ev(ReadResponse)], Parse(AfterStatusLine(h, r), peer, rest))
  {
    var line := StatusLine(r);
    RequestLineIsLine(Line(r));
    RequestLineFields(Line(r));
    UpToLine(line, rest, METHOD_CAP, LF);
    assert StripCR(r.msg + [CR]) == r.msg;
    ResponseHandled(h, peer, line + rest);
    hide RequestLine, FieldsOf, UpTo, StripCR, Handle, GoodField;
    ParseByHandlers(h, peer, line + rest);
    assert (line + rest)[|line|..] == rest;
    hide Parse;
  }

  /** No body follows: the answer to HEAD, or a code that forbids it. */
  predicate Bodiless(m: bytes, code: bytes) { m == HEAD_METHOD || NoBodyCode(code) }

  /** The answer that opens a tunnel. */
  predicate OpensTunnel(m: bytes, code: bytes) { m == CONNECT && code == CODE_200 }

  lemma ReplyHeadEnds(h: Http, m: bytes, ms: seq<bytes>, rest: bytes)
    requires h.phase == Head && h.role == Server && !OpensTunnel(m, h.code)
    requires Bodiless(m, h.code) || GetHeader(h, TRANSFER_ENCODING) != CHUNKED
    ensures Parse(h, Some([m] + ms), [CR, LF] + rest) ==
              if Bodiless(m, h.code) then
                After([PoppedAtHead(m), Ev(Read)], Parse(h.(phase := Response), Some(ms), rest))
              else
                After([PoppedAtHead(m), Ev(ReadHead)], Parse(h.(phase := Body), Some(ms), rest))
  {
    var peer: Peer := Some([m] + ms);
    assert peer.value[0] == m && peer.value[1..] == ms;
    UpToLine([CR, LF], rest, HEAD_CAP, LF);
    BlankLineHandled(h, peer, [CR, LF] + rest);
    assert ([CR, LF] + rest)[2..] == rest && [m][0] == m;
    hide Parse, Handle, GetHeader, UpTo;
    ParseByHandlers(h, peer, [CR, LF] + rest);
  }

  function Encode(r: Reply, withBody: bool): bytes {
    StatusLine(r) + FieldLines(r.fields, [CR, LF] + if withBody then r.body else [])
  }

  /** The reply announces its body length and is not chunked. */
  predicate Sized(r: Reply) {
    var m := FieldMap(map[], r.fields);
    && CONTENT_LENGTH in m && ReadDec(m[CONTENT_LENGTH]) == Some(|r.body|)
    && (TRANSFER_ENCODING in m ==> m[TRANSFER_ENCODING] != CHUNKED)
  }

  function AfterReplyHead(h: Http, r: Reply): Http {
    AfterStatusLine(h, r).(header := FieldMap(map[], r.fields))
  }

  /** Status line and header fields, in front of the blank line. */
  lemma HeadOfReplyParses(h: Http, peer: Peer, r: Reply, tail: bytes)
    requires h.phase == Response && GoodReply(r)
    ensures Parse(h, peer, StatusLine(r) + FieldLines(r.fields, tail)) ==
              After([Ev(ReadResponse)], Parse(AfterReplyHead(h, r), peer, tail))
  {
    StatusLineParses(h, peer, r, FieldLines(r.fields, tail));
    FieldsParse(AfterStatusLine(h, r), peer, r.fields, tail);
    hide Parse, GoodLine, GoodField;
  }

  /** Writing down a response with a content length, behind a request it answers, and parsing it gives back version,
      code, message, header fields and (when its type is selected) body, and uses up that request's method. */
  lemma {:induction false} ResponseRoundTrip(h: Http, m: bytes, ms: seq<bytes>, r: Reply, rest: bytes)
    requires h.phase == Response && h.role == Server && h.bodyRead == 0 && GoodReply(r) && Sized(r)
    requires !OpensTunnel(m, r.code) && !Bodiless(m, r.code)
    ensures var h1 := AfterReplyHead(h, r);
            Parse(h, Some([m] + ms), Encode(r, true) + rest) ==
              After([Ev(ReadResponse), PoppedAtHead(m), Ev(ReadHead), Ev(Read), Ev(ReadBody)],
                    Parse(h1.(phase := Response, content := if WantsBody(h1) then r.body else []), Some(ms), rest))
  {
    hide Parse, WantsBody, ReadDec, StatusLine;
    var tail := [CR, LF] + (r.body + rest);
    FieldLinesAppend(r.fields, [CR, LF] + r.body, rest);
    assert [CR, LF] + r.body + rest == tail;
    assert Encode(r, true) + rest == StatusLine(r) + FieldLines(r.fields, tail);
    HeadOfReplyParses(h, Some([m] + ms), r, tail);
    var h1 := AfterReplyHead(h, r);
    ReplyHeadEnds(h1, m, ms, r.body + rest);
    BodyParses(h1.(phase := Body), Some(ms), r.body, rest);
    SameHeadersSameBody(h1, h1.(phase := Body));
    var h2 := h1.(phase := Response, content := if WantsBody(h1) then r.body else []);
    JoinTraces([Ev(ReadResponse)], [PoppedAtHead(m), Ev(ReadHead)], [Ev(Read), Ev(ReadBody)],
               Parse(h2, Some(ms), rest));
  }

  lemma JoinTraces(a: seq<Mark>, b: seq<Mark>, c: seq<Mark>, r: Result)
    ensures After(a, After(b, After(c, r))) == After(a + b + c, r)
  {
    AfterAfter(b, c, r);
    AfterAfter(a, b + c, r);
    assert a + (b + c) == a + b + c;
  }

  /** The answer to HEAD, or one with a code that forbids a body, ends with its header whatever length it announces. */
  lemma {:induction false} BodilessRoundTrip(h: Http, m: bytes, ms: seq<bytes>, r: Reply, rest: bytes)
    requires h.phase == Response && h.role == Server && GoodReply(r)
    requires !OpensTunnel(m, r.code) && Bodiless(m, r.code)
    ensures Parse(h, Some([m] + ms), Encode(r, false) + rest) ==
              After([Ev(ReadResponse), PoppedAtHead(m), Ev(Read)],
                    Parse(AfterReplyHead(h, r).(phase := Response), Some(ms), rest))
  {
    hide Parse, StatusLine;
    var tail := [CR, LF] + rest;
    FieldLinesAppend(r.fields, [CR, LF] + [], rest);
    assert [CR, LF] + [] + rest == tail;
    assert Encode(r, false) + rest == StatusLine(r) + FieldLines(r.fields, tail);
    HeadOfReplyParses(h, Some([m] + ms), r, tail);
    ReplyHeadEnds(AfterReplyHead(h, r), m, ms, rest);
    AfterAfter([Ev(ReadResponse)], [PoppedAtHead(m), Ev(Read)],
                                Parse(AfterReplyHead(h, r).(phase := Response), Some(ms), rest));
  }
}
