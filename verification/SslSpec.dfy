/** The TLS record, handshake and certificate parser as functions on values
    (src/cdpi_ssl.hpp, src/cdpi_ssl.cpp). */
module SslSpec {
  import opened Bytes

  datatype Event = ClientHello | ServerHello | Certificate | ChangeCipherSpec

  /** Fields of `cdpi_ssl`. */
  datatype Ssl = Ssl(ver: nat, random: bytes, gmtUnixTime: nat, sessionId: bytes, certificates: seq<bytes>,
                     cipherSuites: seq<nat>, compressionMethods: bytes, isChangeCipherSpec: bool)

  const FRESH: Ssl := Ssl(0, [], 0, [], [], [], [], false)

  const SSL_CHANGE_CIPHER_SPEC: byte := 20
  const SSL_ALERT: byte := 21
  const SSL_HANDSHAKE: byte := 22
  const SSL_APPLICATION_DATA: byte := 23
  const SSL_HEARTBEAT: byte := 24

  const SSL_CLIENT_HELLO: byte := 1
  const SSL_SERVER_HELLO: byte := 2
  const SSL_CERTIFICATE: byte := 11

  const SSL30_VER := 0x0300
  const TLS10_VER := 0x0301

  const RECORD_HEAD := 5
  const MESSAGE_HEAD := 4

  /** Why a call ended early: cdpi_parse_error, or a read outside the record buffer or a loop without end. */
  datatype Reason = BadRecord | Undefined

  function U24(s: bytes, i: nat): (n: nat)
    requires i + 3 <= |s|
    ensures n < 0x100_0000
  {
    s[i] as int * 65536 + s[i + 1] as int * 256 + s[i + 2]
  }

  function U32(s: bytes, i: nat): nat
    requires i + 4 <= |s|
  {
    U16(s, i) * 65536 + U16(s, i + 2)
  }

  // ------------------------------------------------------------------ hellos

  /** The fields both hellos start with; next is where they end, None when the message is too short. */
  datatype Common = Common(s: Ssl, next: Option<nat>)

  function HelloFields(s: Ssl, body: bytes): (c: Common)
    ensures c.next.Some? ==> 35 <= c.next.value <= |body|
  {
    if |body| < 6 then Common(s, None)
    else
      var s1 := s.(gmtUnixTime := U32(body, 2));
      if |body| < 34 then Common(s1, None)
      else
        var s2 := s1.(random := body[6..34]);
        if |body| < 35 then Common(s2, None)
        else
          var n: nat := body[34];
          if n == 0 then Common(s2, Some(35))
          else if |body| < 35 + n then Common(s2, None)
          else Common(s2.(sessionId := body[35..35 + n]), Some(35 + n))
  }

  /** What one handshake message does. */
  datatype Effect = Effect(s: Ssl, events: seq<Event>, stop: Option<Reason>)

  function SuitesOf(s: bytes, count: nat): seq<nat>
    requires 2 * count <= |s|
  {
    seq(count, i requires 0 <= i < count => U16(s, 2 * i))
  }

  predicate KnownVersion(v: nat) { v == SSL30_VER || v == TLS10_VER }

  /** The second half of `parse_client_hello`, from position p on. The length of the compression methods is read
      before it is known to lie in the message, from wherever it lies in the record buffer. */
  function ClientHelloLists(s: Ssl, body: bytes, window: bytes, p: nat): Effect
    requires body <= window && p <= |body|
  {
    if |body| < p + 2 then Effect(s, [], None)
    else
      var len := U16(body, p);
      var q := p + 2 + len;
      if |body| < q then Effect(s, [], None)
      else
        var s1 := s.(cipherSuites := s.cipherSuites + SuitesOf(body[p + 2..q], len / 2));
        if |window| < q + 1 then Effect(s1, [], Some(Undefined))
        else
          var count: nat := window[q];
          if |body| < q + 1 + count then Effect(s1, [], None)
          else
            Effect(s1.(compressionMethods := s1.compressionMethods + body[q + 1..q + 1 + count]), [ClientHello], None)
  }

  /** `parse_client_hello`. */
  function ClientHelloEffect(s: Ssl, body: bytes, behind: bytes): Effect {
    var window := body + behind;
    if |window| < 2 then Effect(s, [], Some(Undefined))
    else
      var s0 := s.(ver := U16(window, 0));
      if !KnownVersion(s0.ver) then Effect(s0, [], None)
      else
        var c := HelloFields(s0, body);
        if c.next.None? then Effect(c.s, [], None) else ClientHelloLists(c.s, body, window, c.next.value)
  }

  function ServerHelloEffect(s: Ssl, body: bytes, behind: bytes): Effect {
    var window := body + behind;
    if |window| < 2 then Effect(s, [], Some(Undefined))
    else
      var s0 := s.(ver := U16(window, 0));
      if !KnownVersion(s0.ver) then Effect(s0, [], None)
      else
        var c := HelloFields(s0, body);
        if c.next.None? || |body| < c.next.value + 2 then Effect(c.s, [], None)
        else
          var p := c.next.value;
          var s1 := c.s.(cipherSuites := c.s.cipherSuites + [U16(body, p)]);
          if |body| < p + 3 then Effect(s1, [], None)
          else Effect(s1.(compressionMethods := s1.compressionMethods + [body[p + 2]]), [ServerHello], None)
  }

  // ------------------------------------------------------------ certificates

  /** The certificates read from d, and whether the list ended cleanly. */
  function CertLoop(d: bytes): (seq<bytes>, bool)
    decreases |d|
  {
    if |d| < 3 then ([], true)
    else
      var n := U24(d, 0);
      if n > |d| - 3 then ([], false)
      else
        var (more, clean) := CertLoop(d[3 + n..]);
        ([d[3..3 + n]] + more, clean)
  }

  function CertificateEffect(s: Ssl, body: bytes): Effect {
    if |body| < 3 || U24(body, 0) != |body| - 3 then Effect(s, [], None)
    else
      var (certs, clean) := CertLoop(body[3..]);
      Effect(s.(certificates := s.certificates + certs), if clean then [Certificate] else [], None)
  }

  // --------------------------------------------------------------- handshake

  function MessageEffect(s: Ssl, t: byte, body: bytes, behind: bytes): Effect {
    if t == SSL_CLIENT_HELLO then ClientHelloEffect(s, body, behind)
    else if t == SSL_SERVER_HELLO then ServerHelloEffect(s, body, behind)
    else if t == SSL_CERTIFICATE then CertificateEffect(s, body)
    else Effect(s, [], None)
  }

  function Then(first: Effect, second: Effect): Effect {
    second.(events := first.events + second.events)
  }

  function HandshakeLoop(s: Ssl, d: bytes): Effect
    decreases |d|
  {
    if |d| < MESSAGE_HEAD then Effect(s, [], Some(BadRecord))
    else
      var n := U24(d, 1);
      if |d| < MESSAGE_HEAD + n then Effect(s, [], Some(BadRecord))
      else
        var e := MessageEffect(s, d[0], d[4..4 + n], d[4 + n..]);
        if e.stop.Some? || |d| == 4 + n then e
        else Then(e, HandshakeLoop(e.s, d[4 + n..]))
  }

  function HandshakeEffect(s: Ssl, d: bytes): Effect {
    if s.isChangeCipherSpec then Effect(s, [], None) else HandshakeLoop(s, d)
  }

  function CcsEffect(s: Ssl, d: bytes): Effect {
    if |d| == 0 then Effect(s, [], Some(Undefined))
    else if d[0] == 1 then Effect(s.(isChangeCipherSpec := true), [ChangeCipherSpec], None)
    else Effect(s, [], None)
  }

  function RecordEffect(s: Ssl, t: byte, payload: bytes): Effect {
    if t == SSL_HANDSHAKE then HandshakeEffect(s, payload)
    else if t == SSL_CHANGE_CIPHER_SPEC then CcsEffect(s, payload)
    else if t == SSL_ALERT || t == SSL_APPLICATION_DATA || t == SSL_HEARTBEAT then Effect(s, [], None)
    else Effect(s, [], Some(BadRecord))
  }

  // ----------------------------------------------------------------- records

  /** A record is complete at the front of x. */
  predicate HasRecord(x: bytes) {
    |x| >= RECORD_HEAD && |x| >= RECORD_HEAD + U16(x, 3)
  }

  function RecordLen(x: bytes): nat
    requires HasRecord(x)
  {
    RECORD_HEAD + U16(x, 3)
  }

  /** The version is noted as soon as five bytes are there, complete record or not. */
  function Noted(s: Ssl, x: bytes): Ssl {
    if |x| < RECORD_HEAD then s else s.(ver := U16(x, 1))
  }

  datatype Result = Result(stop: Option<Reason>, s: Ssl, rest: bytes, events: seq<Event>)

  function After(events: seq<Event>, r: Result): Result {
    r.(events := events + r.events)
  }

  function Parse(s: Ssl, input: bytes): Result
    decreases |input|
  {
    var s0 := Noted(s, input);
    if !HasRecord(input) then Result(None, s0, input, [])
    else
      var n := RecordLen(input);
      var e := RecordEffect(s0, input[0], input[RECORD_HEAD..n]);
      if e.stop.Some? then Result(e.stop, e.s, input[n..], e.events)
      else After(e.events, Parse(e.s, input[n..]))
  }
}
