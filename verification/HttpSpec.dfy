/** The HTTP parser as a function on values: what one look at the front of the byte list does
    (src/cdpi_http.hpp, src/cdpi_http.cpp). */
module HttpSpec {
  import opened Bytes
  import opened Decimal

  datatype Role = Client | Server

  /** `enum http_state`. */
  datatype Phase = Method | Response | Head | Body | ChunkLen | ChunkBody | ChunkEl | ChunkTrailer

  datatype Event = ReadMethod | ReadResponse | ReadHead | ReadBody | ReadTrailer | Read | Proxy

  /** What a parse leaves behind in order: listener events and traffic on the method queue. */
  datatype Mark = Ev(e: Event) | Pushed(m: bytes) | PoppedAtHead(m: bytes) | PoppedAtTrailer(m: bytes)

  /** Fields of `cdpi_http`. The body being read is the part received so far. */
  datatype Http = Http(role: Role, phase: Phase, methods: seq<bytes>, uri: bytes, ver: bytes,
                       code: bytes, resMsg: bytes, header: map<bytes, bytes>, mimes: set<bytes>,
                       bodyRead: nat, chunkLen: int, content: bytes, chunks: seq<bytes>)

  /** The method queue of the peer, when the peer is known. */
  type Peer = Option<seq<bytes>>

  /** Why `parse` ended other than by running out of input. `SplitSizeLine` and `BadSyntax` are the one
      exception cdpi_parse_error; `Undefined` is where the code reads an unset or missing value, or allocates a
      block of negative length. */
  datatype Reason = BadSyntax | SplitSizeLine | Proxied | Undefined

  datatype Outcome =
    | Wait
    | Go(h: Http, peer: Peer, used: nat, marks: seq<Mark>)
    | Stop(reason: Reason, h: Http, peer: Peer, used: nat, marks: seq<Mark>)

  const METHOD_CAP := 4096
  const HEAD_CAP := 8192
  const SIZE_CAP := 128
  const EL_CAP := 8
  const INT_MAX := 0x7FFF_FFFF
  const INT_MIN := -0x8000_0000

  // "CONNECT", "HEAD", "200", "204", "205", "304", "chunked"
  const CONNECT: bytes := [67, 79, 78, 78, 69, 67, 84]
  const HEAD_METHOD: bytes := [72, 69, 65, 68]
  const CODE_200: bytes := [50, 48, 48]
  const CODE_204: bytes := [50, 48, 52]
  const CODE_205: bytes := [50, 48, 53]
  const CODE_304: bytes := [51, 48, 52]
  const CHUNKED: bytes := [99, 104, 117, 110, 107, 101, 100]
  // "content-length", "transfer-encoding", "content-type"
  const CONTENT_LENGTH: bytes := [99, 111, 110, 116, 101, 110, 116, 45, 108, 101, 110, 103, 116, 104]
  const TRANSFER_ENCODING: bytes :=
    [116, 114, 97, 110, 115, 102, 101, 114, 45, 101, 110, 99, 111, 100, 105, 110, 103]
  const CONTENT_TYPE: bytes := [99, 111, 110, 116, 101, 110, 116, 45, 116, 121, 112, 101]

  const SEMICOLON: byte := 59

  // ----------------------------------------------------------------- numbers

  predicate IsHexDigit(b: byte) { IsDigit(b) || 65 <= b <= 70 || 97 <= b <= 102 }

  function HexDigitValue(b: byte): nat
    requires IsHexDigit(b)
  {
    if b <= 57 then b - 48 else if b <= 70 then b - 55 else b - 87
  }

  function HexRun(s: bytes, acc: nat): nat {
    if |s| > 0 && IsHexDigit(s[0]) then HexRun(s[1..], acc * 16 + HexDigitValue(s[0])) else acc
  }

  /** A number with the sign in front of it, when it is an int. */
  function Signed(t: bytes, n: nat): Option<int> {
    var v: int := if |t| > 0 && t[0] == MINUS then -(n as int) else n;
    if INT_MIN <= v <= INT_MAX then Some(v) else None
  }

  /** The text behind a sign. */
  function Unsigned(t: bytes): bytes {
    if |t| > 0 && (t[0] == PLUS || t[0] == MINUS) then t[1..] else t
  }

  /** The text behind a 0x prefix. */
  function Unprefixed(d: bytes): bytes {
    if |d| > 1 && d[0] == 48 && (d[1] == 88 || d[1] == 120) then d[2..] else d
  }

  /** `ss >> content_len`; None where no int can be read. */
  function ReadDec(s: bytes): Option<int> {
    var t := SkipSpace(s);
    var d := Unsigned(t);
    if |d| == 0 || !IsDigit(d[0]) then None else Signed(t, DecRun(d, 0))
  }

  /** `ss >> hex >> m_chunk_len` on a size line; None where no int can be read. */
  function ReadHex(s: bytes): Option<int> {
    var t := SkipSpace(s);
    var d := Unprefixed(Unsigned(t));
    if |d| == 0 || !IsHexDigit(d[0]) then None else Signed(t, HexRun(d, 0))
  }

  // ----------------------------------------------------------------- headers

  function LowerByte(b: byte): byte { if 65 <= b <= 90 then b + 32 else b }

  function Lower(s: bytes): (r: bytes)
    ensures |r| == |s|
  {
    seq(|s|, i requires 0 <= i < |s| => LowerByte(s[i]))
  }

  function GetHeader(h: Http, key: bytes): bytes {
    if key in h.header then h.header[key] else []
  }

  function DropSpaces(s: bytes): bytes {
    if |s| > 0 && s[0] == SP then DropSpaces(s[1..]) else s
  }

  /** A header value: up to the end of the line, or an embedded NUL. */
  function ValueText(s: bytes): bytes {
    if |s| == 0 || s[0] == CR || s[0] == LF || s[0] == 0 then [] else [s[0]] + ValueText(s[1..])
  }

  /** One non-blank line of a header block. */
  function WithHeaderLine(h: Http, line: bytes): Http {
    var pos := IndexOf(line, COLON);
    if pos < 0 then h
    else
      var v := DropSpaces(line[pos + 1..]);
      if |v| == 0 then h
      else h.(header := h.header[Lower(line[..pos]) := ValueText(v)])
  }

  predicate Blank(line: bytes) { line == [CR, LF] || line == [LF] }

  function StripCR(s: bytes): bytes {
    if |s| > 0 && s[|s| - 1] == CR then s[..|s| - 1] else s
  }

  /** `is_in_mime_to_read`. */
  predicate WantsBody(h: Http) {
    var ctype := GetHeader(h, CONTENT_TYPE);
    var n := IndexOf(ctype, SEMICOLON);
    (if n < 0 then ctype else ctype[..n]) in h.mimes
  }

  function ContentLength(h: Http): Option<int> {
    ReadDec(GetHeader(h, CONTENT_LENGTH))
  }

  // ------------------------------------------------------------------- steps

  function Cleared(h: Http): Http {
    h.(header := map[], content := [], chunks := [])
  }

  /** The fields of a request or status line: two ended by spaces, one by the line feed; each is missing when
      its delimiter is. */
  datatype Fields = Fields(first: Option<bytes>, second: Option<bytes>, third: Option<bytes>)

  /** The text before the first c and the text after it. */
  datatype Halves = Halves(before: bytes, behind: bytes)

  function Cut(s: bytes, c: byte): Option<Halves> {
    var n := IndexOf(s, c);
    if n < 0 then None else Some(Halves(s[..n], s[n + 1..]))
  }

  function FieldsOf(line: bytes): Fields {
    match Cut(line, SP)
    case None => Fields(None, None, None)
    case Some(x) =>
      match Cut(x.behind, SP)
      case None => Fields(Some(x.before), None, None)
      case Some(y) =>
        var z := Cut(y.behind, LF);
        Fields(Some(x.before), Some(y.before), if z.None? then None else Some(z.value.before))
  }

  function MethodLine(h: Http, peer: Peer, f: Fields, used: nat): Outcome {
    var h0 := Cleared(h);
    if f.first.None? then Stop(BadSyntax, h0, peer, 0, [])
    else
      var h1 := h0.(methods := h0.methods + [f.first.value]);
      var pushed := Pushed(f.first.value);
      if f.second.None? then Stop(BadSyntax, h1, peer, 0, [pushed])
      else
        var h2 := h1.(uri := f.second.value);
        if f.third.None? then Stop(BadSyntax, h2, peer, 0, [pushed])
        else Go(h2.(ver := StripCR(f.third.value), phase := Head), peer, used, [pushed, Ev(ReadMethod)])
  }

  function StepMethod(h: Http, peer: Peer, input: bytes): Outcome {
    var line := UpTo(input, METHOD_CAP, LF);
    if !IsLine(line) then Wait else MethodLine(h, peer, FieldsOf(line), |line|)
  }

  function ResponseLine(h: Http, peer: Peer, f: Fields, used: nat): Outcome {
    var h0 := Cleared(h);
    if f.first.None? then Stop(BadSyntax, h0, peer, 0, [])
    else
      var h1 := h0.(ver := f.first.value);
      if f.second.None? then Stop(BadSyntax, h1, peer, 0, [])
      else
        var h2 := h1.(code := f.second.value);
        if f.third.None? then Stop(BadSyntax, h2, peer, 0, [])
        else Go(h2.(resMsg := StripCR(f.third.value), phase := Head), peer, used, [Ev(ReadResponse)])
  }

  function StepResponse(h: Http, peer: Peer, input: bytes): Outcome {
    var line := UpTo(input, METHOD_CAP, LF);
    if !IsLine(line) then Wait else ResponseLine(h, peer, FieldsOf(line), |line|)
  }

  /** The blank line that ends a header block or a trailer, client side. */
  function EndHeadClient(h: Http, peer: Peer, used: nat): Outcome {
    if h.phase == ChunkTrailer then
      Go(h.(phase := Method), peer, used, [Ev(ReadTrailer), Ev(Read)])
    else if |h.methods| == 0 then
      Stop(Undefined, h, peer, used, [])
    else if h.methods[|h.methods| - 1] == CONNECT then
      Stop(Proxied, h, peer, used, [Ev(ReadHead), Ev(Proxy)])
    else if GetHeader(h, CONTENT_LENGTH) != [] then
      Go(h.(phase := Body), peer, used, [Ev(ReadHead)])
    else if Lower(GetHeader(h, TRANSFER_ENCODING)) == CHUNKED then
      Go(h.(phase := ChunkLen), peer, used, [Ev(ReadHead)])
    else
      Go(h.(phase := Method), peer, used, [Ev(Read), Ev(ReadHead)])
  }

  predicate NoBodyCode(code: bytes) { code == CODE_204 || code == CODE_205 || code == CODE_304 }

  /** The same on the server side, where the peer's oldest method is popped first. */
  function EndHeadServer(h: Http, peer: Peer, used: nat): Outcome {
    if peer.None? || |peer.value| == 0 then Wait
    else
      var m := peer.value[0];
      var peer' := Some(peer.value[1..]);
      if h.phase == ChunkTrailer then
        Go(h.(phase := Response), peer', used, [PoppedAtTrailer(m), Ev(ReadTrailer), Ev(Read)])
      else if m == CONNECT && h.code == CODE_200 then
        Stop(Proxied, h, peer', used, [PoppedAtHead(m), Ev(ReadHead), Ev(Proxy)])
      else if m == HEAD_METHOD || NoBodyCode(h.code) then
        Go(h.(phase := Response), peer', used, [PoppedAtHead(m), Ev(Read)])
      else
        Go(h.(phase := if GetHeader(h, TRANSFER_ENCODING) == CHUNKED then ChunkLen else Body), peer', used,
           [PoppedAtHead(m), Ev(ReadHead)])
  }

  function StepHead(h: Http, peer: Peer, input: bytes): Outcome {
    var line := UpTo(input, HEAD_CAP, LF);
    if !IsLine(line) then Wait
    else if Blank(line) then
      if h.role == Client then EndHeadClient(h, peer, |line|) else EndHeadServer(h, peer, |line|)
    else
      Go(WithHeaderLine(h, line), peer, |line|, [])
  }

  /** A block of a negative length would have to be allocated. */
  predicate BadBlock(h: Http, n: int) { n < 0 && WantsBody(h) }

  /** One byte of a body with a content length, or its end; one of negative length ends at once. */
  function StepBody(h: Http, peer: Peer, input: bytes): Outcome {
    match ContentLength(h)
    case None => Stop(Undefined, h, peer, 0, [])
    case Some(n) =>
      if BadBlock(h, n) then Stop(Undefined, h, peer, 0, [])
      else if h.bodyRead >= n then
        Go(h.(phase := if h.role == Client then Method else Response, bodyRead := 0), peer, 0,
           [Ev(Read), Ev(ReadBody)])
      else if |input| == 0 then Wait
      else
        Go(h.(bodyRead := h.bodyRead + 1,
              content := if WantsBody(h) then h.content + [input[0]] else h.content), peer, 1, [])
  }

  function StepChunkLen(h: Http, peer: Peer, input: bytes): Outcome {
    var line := UpTo(input, SIZE_CAP, LF);
    if |line| == 0 then Wait
    else if !IsLine(line) then
      Stop(if |line| < SIZE_CAP then SplitSizeLine else BadSyntax, h, peer, 0, [])
    else
      match ReadHex(line)
      case None => Stop(Undefined, h, peer, 0, [])
      case Some(n) =>
        if n == 0 then
          Go(h.(chunkLen := 0, phase := ChunkTrailer), peer, |line|, [])
        else if BadBlock(h, n) then
          Stop(Undefined, h, peer, 0, [])
        else
          Go(h.(chunkLen := n, phase := ChunkBody,
                chunks := if WantsBody(h) then h.chunks + [[]] else h.chunks), peer, |line|, [])
  }

  function WithChunkByte(h: Http, b: byte): seq<bytes> {
    if WantsBody(h) && |h.chunks| > 0 then
      var last := |h.chunks| - 1;
      h.chunks[last := h.chunks[last] + [b]]
    else h.chunks
  }

  /** One byte of a chunk, or its end. */
  function StepChunkBody(h: Http, peer: Peer, input: bytes): Outcome {
    if h.bodyRead >= h.chunkLen then Go(h.(phase := ChunkEl), peer, 0, [])
    else if |input| == 0 then Wait
    else Go(h.(bodyRead := h.bodyRead + 1, chunks := WithChunkByte(h, input[0])), peer, 1, [])
  }

  function StepChunkEl(h: Http, peer: Peer, input: bytes): Outcome {
    var line := UpTo(input, EL_CAP, LF);
    if !Blank(line) then Wait
    else
      Go(h.(phase := if h.chunkLen == 0 then ChunkTrailer else ChunkLen, bodyRead := 0,
            content := if |h.chunks| > 0 then Concat(h.chunks) else h.content), peer, |line|, [Ev(ReadBody)])
  }

  function Step(h: Http, peer: Peer, input: bytes): Outcome {
    match h.phase
    case Method => StepMethod(h, peer, input)
    case Response => StepResponse(h, peer, input)
    case Head => StepHead(h, peer, input)
    case ChunkTrailer => StepHead(h, peer, input)
    case Body => StepBody(h, peer, input)
    case ChunkLen => StepChunkLen(h, peer, input)
    case ChunkBody => StepChunkBody(h, peer, input)
    case ChunkEl => StepChunkEl(h, peer, input)
  }

  // ------------------------------------------------------------------- parse

  /** Twice the bytes left, plus one while a body is being read. */
  function Measure(h: Http, input: bytes): nat {
    2 * |input| + (if h.phase == Body || h.phase == ChunkBody then 1 else 0)
  }

  predicate Shrinks(h: Http, input: bytes, o: Outcome) {
    match o
    case Wait => true
    case Go(h', _, used, _) => used <= |input| && Measure(h', input[used..]) < Measure(h, input)
    case Stop(_, _, _, used, _) => used <= |input|
  }

  lemma MethodShrinks(h: Http, peer: Peer, input: bytes)
    requires h.phase == Method
    ensures Shrinks(h, input, StepMethod(h, peer, input))
  {
  }

  lemma ResponseShrinks(h: Http, peer: Peer, input: bytes)
    requires h.phase == Response
    ensures Shrinks(h, input, StepResponse(h, peer, input))
  {
  }

  lemma HeadShrinks(h: Http, peer: Peer, input: bytes)
    requires h.phase == Head || h.phase == ChunkTrailer
    ensures Shrinks(h, input, StepHead(h, peer, input))
  {
  }

  lemma ChunkShrinks(h: Http, peer: Peer, input: bytes)
    requires h.phase != Body && h.phase != ChunkBody
    ensures Shrinks(h, input, StepChunkLen(h, peer, input))
    ensures Shrinks(h, input, StepChunkEl(h, peer, input))
  {
  }

  lemma BodyShrinks(h: Http, peer: Peer, input: bytes)
    ensures h.phase == Body ==> Shrinks(h, input, StepBody(h, peer, input))
    ensures h.phase == ChunkBody ==> Shrinks(h, input, StepChunkBody(h, peer, input))
  {
  }

  /** A step uses only bytes that are there and makes the measure smaller: `parse` terminates on every input. */
  lemma {:induction false} StepShrinks(h: Http, peer: Peer, input: bytes)
    ensures Shrinks(h, input, Step(h, peer, input))
  {
    if h.phase == Body || h.phase == ChunkBody {
      BodyShrinks(h, peer, input);
    } else if h.phase == Method {
      MethodShrinks(h, peer, input);
    } else if h.phase == Response {
      ResponseShrinks(h, peer, input);
    } else if h.phase == Head || h.phase == ChunkTrailer {
      HeadShrinks(h, peer, input);
    } else {
      ChunkShrinks(h, peer, input);
    }
  }

  /** What a call of `parse` leaves: why it stopped (None: it needs more input), the state, the bytes still in
      the list and the trace. */
  datatype Result = Result(stop: Option<Reason>, h: Http, peer: Peer, rest: bytes, marks: seq<Mark>)

  function After(marks: seq<Mark>, r: Result): Result {
    r.(marks := marks + r.marks)
  }

  lemma AfterNothing(r: Result)
    ensures After([], r) == r
  {
    assert [] + r.marks == r.marks;
  }

  lemma AfterAfter(m: seq<Mark>, n: seq<Mark>, r: Result)
    ensures After(m, After(n, r)) == After(m + n, r)
  {
    assert m + (n + r.marks) == m + n + r.marks;
  }

  function Parse(h: Http, peer: Peer, input: bytes): Result
    decreases Measure(h, input)
  {
    StepShrinks(h, peer, input);
    match Step(h, peer, input)
    case Wait => Result(None, h, peer, input, [])
    case Go(h', peer', used, marks) => After(marks, Parse(h', peer', input[used..]))
    case Stop(reason, h', peer', used, marks) => Result(Some(reason), h', peer', input[used..], marks)
  }
}
