/** What the TLS parser promises about records, handshake messages and certificate lists
    (src/cdpi_ssl.cpp; sections 6.2 and 7.4.2 of RFC 2246). */
module SslTheorems {
  import opened Bytes
  import opened SslSpec

  // ----------------------------------------------------------------- records

  lemma AfterAfter(m: seq<Event>, n: seq<Event>, r: Result)
    ensures After(m, After(n, r)) == After(m + n, r)
    ensures After([], r) == r
  {
    assert m + (n + r.events) == m + n + r.events;
    assert [] + r.events == r.events;
  }

  lemma RecordStays(a: bytes, b: bytes)
    requires HasRecord(a)
    ensures HasRecord(a + b) && RecordLen(a + b) == RecordLen(a)
    ensures (a + b)[RECORD_HEAD..RecordLen(a)] == a[RECORD_HEAD..RecordLen(a)]
    ensures (a + b)[RecordLen(a)..] == a[RecordLen(a)..] + b
  {
  }

  /** Noting the version of an unfinished record changes nothing once the record is complete. */
  lemma NotedTwice(s: Ssl, a: bytes, b: bytes)
    ensures Parse(Noted(s, a), a + b) == Parse(s, a + b)
  {
    assert |a| >= RECORD_HEAD ==> (a + b)[1..3] == a[1..3] && U16(a + b, 1) == U16(a, 1);
    assert Noted(Noted(s, a), a + b) == Noted(s, a + b);
  }

  /** For every state and every cut: parsing in two parts gives the events, state and residue of parsing the
      whole; and if the first part ended the stream, so does the whole, at the same place. */
  lemma {:induction false} RecordCutsDoNotMatter(s: Ssl, a: bytes, b: bytes)
    ensures var r := Parse(s, a);
            && (r.stop.None? ==> Parse(s, a + b) == After(r.events, Parse(r.s, r.rest + b)))
            && (r.stop.Some? ==> Parse(s, a + b) == r.(rest := r.rest + b))
    decreases |a|
  {
    hide RecordEffect;
    if HasRecord(a) {
      RecordStays(a, b);
      var n := RecordLen(a);
      assert Noted(s, a + b) == Noted(s, a);
      var e := RecordEffect(Noted(s, a), a[0], a[RECORD_HEAD..n]);
      if e.stop.None? {
        RecordCutsDoNotMatter(e.s, a[n..], b);
        var q := Parse(e.s, a[n..]);
        AfterAfter(e.events, q.events, Parse(q.s, q.rest + b));
      }
    } else {
      NotedTwice(s, a, b);
      AfterAfter([], [], Parse(s, a + b));
    }
  }

  /** x is a sequence of complete records and nothing else. */
  predicate WholeRecords(x: bytes)
    decreases |x|
  {
    |x| == 0 || (HasRecord(x) && WholeRecords(x[RecordLen(x)..]))
  }

  /** What is left is a suffix, what is gone is whole records, and unless the stream ended no complete record is
      left. */
  predicate Consumed(input: bytes, rest: bytes, stop: Option<Reason>) {
    && |rest| <= |input| && rest == input[|input| - |rest|..]
    && WholeRecords(input[..|input| - |rest|])
    && (stop.None? ==> !HasRecord(rest))
  }

  /** Only whole records are consumed, and unless the stream ended no complete record is left. */
  lemma {:induction false} OnlyWholeRecordsConsumed(s: Ssl, input: bytes)
    ensures var r := Parse(s, input);
            && |r.rest| <= |input| && r.rest == input[|input| - |r.rest|..]
            && WholeRecords(input[..|input| - |r.rest|])
            && (r.stop.None? ==> !HasRecord(r.rest))
  {
    RecordsConsumed(s, input);
    hide Parse, WholeRecords, HasRecord;
  }

  lemma {:induction false} RecordsConsumed(s: Ssl, input: bytes)
    ensures Consumed(input, Parse(s, input).rest, Parse(s, input).stop)
    decreases |input|
  {
    hide RecordEffect, Noted, Consumed, HasRecord, RecordLen;
    if HasRecord(input) {
      var n := RecordLen(input);
      RecordFits(input);
      var e := RecordEffect(Noted(s, input), input[0], input[RECORD_HEAD..n]);
      if e.stop.None? {
        RecordsConsumed(e.s, input[n..]);
      } else {
        NothingConsumed(input[n..], e.stop);
      }
      RecordInFront(input, Parse(s, input).rest, Parse(s, input).stop);
    } else {
      NothingConsumed(input, None);
    }
  }

  lemma NothingConsumed(input: bytes, stop: Option<Reason>)
    requires stop.None? ==> !HasRecord(input)
    ensures Consumed(input, input, stop)
  {
    hide HasRecord;
    assert input[..0] == [];
  }

  lemma RecordFits(x: bytes)
    requires HasRecord(x)
    ensures RECORD_HEAD <= RecordLen(x) <= |x|
  {
  }

  /** A record in front of what was consumed. */
  lemma RecordInFront(x: bytes, rest: bytes, stop: Option<Reason>)
    requires HasRecord(x) && RecordLen(x) <= |x| && Consumed(x[RecordLen(x)..], rest, stop)
    ensures Consumed(x, rest, stop)
  {
    hide HasRecord, RecordLen, WholeRecords;
    SuffixOfRest(x, RecordLen(x), rest);
    PrefixOfRecords(x, |x| - |rest|);
  }

  lemma SuffixOfRest(x: bytes, n: nat, rest: bytes)
    requires n + |rest| <= |x| && rest == x[n..][|x| - n - |rest|..]
    ensures rest == x[|x| - |rest|..] && |x[n..]| - |rest| == |x| - |rest| - n
  {
  }

  /** The first m bytes, m at least the first record, are whole records when what follows it is. */
  lemma PrefixOfRecords(x: bytes, m: nat)
    requires HasRecord(x) && RecordLen(x) <= m <= |x|
    ensures WholeRecords(x[RecordLen(x)..][..m - RecordLen(x)]) ==> WholeRecords(x[..m])
  {
    var n, y := RecordLen(x), x[..m];
    assert HasRecord(y) && RecordLen(y) == n;
    hide HasRecord, RecordLen;
    assert y[n..] == x[n..][..m - n];
  }

  // -------------------------------------------------------------- handshakes

  datatype RawMessage = RawMessage(kind: byte, body: bytes)
  type Message = m: RawMessage | |m.body| < 0x100_0000 witness RawMessage(0, [])

  function Put24(n: nat): bytes
    requires n < 0x100_0000
  {
    [n / 65536, n / 256 % 256, n % 256]
  }

  lemma Get24(n: nat, s: bytes, i: nat)
    requires n < 0x100_0000 && i + 3 <= |s| && s[i..i + 3] == Put24(n)
    ensures U24(s, i) == n
  {
    assert s[i] == s[i..i + 3][0] && s[i + 1] == s[i..i + 3][1] && s[i + 2] == s[i..i + 3][2];
  }

  lemma Put24Get24(s: bytes, i: nat)
    requires i + 3 <= |s|
    ensures Put24(U24(s, i)) == s[i..i + 3]
  {
    Split24(s[i], s[i + 1], s[i + 2]);
  }

  lemma Split24(x: byte, y: byte, z: byte)
    ensures var n := x as int * 65536 + y as int * 256 + z;
            n / 65536 == x && n / 256 % 256 == y && n % 256 == z
  {
    var n := x as int * 65536 + y as int * 256 + z;
    assert n / 256 == x as int * 256 + y;
  }

  function EncodeMessage(m: Message): bytes {
    [m.kind] + Put24(|m.body|) + m.body
  }

  function EncodeMessages(ms: seq<Message>): bytes {
    if |ms| == 0 then [] else EncodeMessage(ms[0]) + EncodeMessages(ms[1..])
  }

  /** The messages of a record, one after the other, until one of them ends the stream. */
  function RunMessages(s: Ssl, ms: seq<Message>): Effect
    decreases |ms|
  {
    if |ms| == 0 then Effect(s, [], None)
    else
      var e := MessageEffect(s, ms[0].kind, ms[0].body, EncodeMessages(ms[1..]));
      if e.stop.Some? then e else Then(e, RunMessages(e.s, ms[1..]))
  }

  lemma MessageHead(m: Message, tail: bytes)
    ensures var d := EncodeMessage(m) + tail;
            && |d| >= MESSAGE_HEAD + |m.body| && d[0] == m.kind && U24(d, 1) == |m.body|
            && d[4..4 + |m.body|] == m.body && d[4 + |m.body|..] == tail
  {
    var d := EncodeMessage(m) + tail;
    assert d[1..4] == Put24(|m.body|);
    Get24(|m.body|, d, 1);
  }

  /** The loop itself does not look at the cipher-spec flag. */
  lemma {:induction false} LoopOnly(s: Ssl, ms: seq<Message>)
    requires |ms| > 0
    ensures HandshakeLoop(s, EncodeMessages(ms)) == RunMessages(s, ms)
    decreases |ms|
  {
    hide MessageEffect;
    var tail := EncodeMessages(ms[1..]);
    MessageHead(ms[0], tail);
    var e := MessageEffect(s, ms[0].kind, ms[0].body, tail);
    if |ms| == 1 {
      assert tail == [];
      assert e.events + [] == e.events;
    } else {
      assert |tail| >= 4;
      if e.stop.None? { LoopOnly(e.s, ms[1..]); }
    }
  }

  /** A record that is exactly a sequence of messages is handled message by message. */
  lemma {:induction false} MessagesAreRun(s: Ssl, ms: seq<Message>)
    requires |ms| > 0 && !s.isChangeCipherSpec
    ensures HandshakeEffect(s, EncodeMessages(ms)) == RunMessages(s, ms)
  {
    LoopOnly(s, ms);
    hide HandshakeLoop, RunMessages, EncodeMessages;
  }

  /** The messages a record splits into, if it does. */
  function SplitRecord(d: bytes): Option<seq<Message>>
    decreases |d|
  {
    if |d| == 0 then Some([])
    else if |d| < MESSAGE_HEAD || |d| < MESSAGE_HEAD + U24(d, 1) then None
    else
      var n := U24(d, 1);
      match SplitRecord(d[4 + n..])
      case None => None
      case Some(ms) => Some([RawMessage(d[0], d[4..4 + n])] + ms)
  }

  /** Splitting and encoding are inverse to each other. */
  lemma {:induction false} SplitRecordInverts(d: bytes, ms: seq<Message>)
    ensures SplitRecord(d) == Some(ms) <==> EncodeMessages(ms) == d
    decreases |d|
  {
    hide U24, Put24, EncodeMessage;
    if |ms| > 0 {
      MessageHead(ms[0], EncodeMessages(ms[1..]));
    }
    if |d| >= MESSAGE_HEAD && |d| >= MESSAGE_HEAD + U24(d, 1) {
      var n := U24(d, 1);
      var m: Message := RawMessage(d[0], d[4..4 + n]);
      var rest := d[4 + n..];
      MessageSplit(d);
      if SplitRecord(rest).Some? { SplitRecordInverts(rest, SplitRecord(rest).value); }
      if |ms| > 0 {
        SplitRecordInverts(rest, ms[1..]);
        assert ms == [ms[0]] + ms[1..];
        if ms[0] != m { assert EncodeMessages(ms) != d; }
      }
    }
  }

  lemma MessageSplit(d: bytes)
    requires |d| >= MESSAGE_HEAD && |d| >= MESSAGE_HEAD + U24(d, 1)
    ensures var n := U24(d, 1); n < 0x100_0000 && d == EncodeMessage(RawMessage(d[0], d[4..4 + n])) + d[4 + n..]
  {
    Put24Get24(d, 1);
  }

  /** Before the cipher spec changes, `parse_handshake` throws only on a record that is not exactly a non-empty
      sequence of messages, and finishes only on one that is. */
  lemma {:induction false} HandshakeTiles(s: Ssl, d: bytes)
    ensures var e := HandshakeLoop(s, d);
            && (e.stop == Some(BadRecord) ==> d == [] || SplitRecord(d).None?)
            && (e.stop.None? ==> d != [] && SplitRecord(d).Some? && e == RunMessages(s, SplitRecord(d).value))
    decreases |d|
  {
    hide MessageEffect;
    if |d| >= MESSAGE_HEAD && |d| >= MESSAGE_HEAD + U24(d, 1) {
      var n := U24(d, 1);
      var e := MessageEffect(s, d[0], d[4..4 + n], d[4 + n..]);
      MessagesStopKinds(s, d[0], d[4..4 + n], d[4 + n..]);
      if SplitRecord(d).Some? { SplitRecordInverts(d, SplitRecord(d).value); }
      if SplitRecord(d[4 + n..]).Some? { SplitRecordInverts(d[4 + n..], SplitRecord(d[4 + n..]).value); }
      if e.stop.None? {
        if |d| == 4 + n {
          assert e.events + [] == e.events;
        } else {
          HandshakeTiles(e.s, d[4 + n..]);
        }
      }
    }
  }

  /** No message by itself raises the parse error. */
  lemma MessagesStopKinds(s: Ssl, t: byte, body: bytes, behind: bytes)
    ensures MessageEffect(s, t, body, behind).stop != Some(BadRecord)
  {
    hide HelloFields;
    hide SuitesOf;
    hide CertLoop;
  }

  // ------------------------------------------------------------ certificates

  type Cert = c: bytes | |c| < 0x100_0000 witness []

  function EncodeCerts(cs: seq<Cert>): bytes {
    if |cs| == 0 then [] else Put24(|cs[0]|) + cs[0] + EncodeCerts(cs[1..])
  }

  lemma CertHead(c: Cert, tail: bytes)
    ensures var d := Put24(|c|) + c + tail;
            |d| >= 3 + |c| && U24(d, 0) == |c| && d[3..3 + |c|] == c && d[3 + |c|..] == tail
  {
    var d := Put24(|c|) + c + tail;
    assert d[0..3] == Put24(|c|);
    Get24(|c|, d, 0);
  }

  /** Exactly the encodings of cs, with at most two stray bytes after them, read back cleanly as cs. */
  lemma {:induction false} CertLoopInverts(d: bytes, cs: seq<Cert>)
    ensures CertLoop(d) == (cs, true)
       <==> (EncodeCerts(cs) <= d && |d| - |EncodeCerts(cs)| < 3)
    decreases |d|
  {
    if |cs| > 0 {
      CertHead(cs[0], EncodeCerts(cs[1..]));
    }
    if |d| >= 3 && U24(d, 0) <= |d| - 3 {
      var n := U24(d, 0);
      var c: Cert := d[3..3 + n];
      Put24Get24(d, 0);
      assert d == Put24(n) + c + d[3 + n..];
      if |cs| > 0 {
        CertLoopInverts(d[3 + n..], cs[1..]);
        CertPrefix(d, cs);
        assert cs == [cs[0]] + cs[1..];
      }
    } else if |cs| > 0 {
      CertPrefix(d, cs);
    }
  }

  /** How the encoding of a non-empty list starts inside d. */
  lemma {:induction false} CertPrefix(d: bytes, cs: seq<Cert>)
    requires |cs| > 0
    ensures EncodeCerts(cs) <= d ==>
              && |d| >= 3 && U24(d, 0) == |cs[0]| <= |d| - 3
              && d[3..3 + |cs[0]|] == cs[0] && EncodeCerts(cs[1..]) <= d[3 + |cs[0]|..]
    ensures |d| >= 3 && U24(d, 0) == |cs[0]| <= |d| - 3
              && d[3..3 + |cs[0]|] == cs[0] && EncodeCerts(cs[1..]) <= d[3 + |cs[0]|..]
            ==> EncodeCerts(cs) <= d
  {
    var c := cs[0];
    var e := EncodeCerts(cs[1..]);
    if EncodeCerts(cs) <= d {
      var tail := d[|EncodeCerts(cs)|..];
      assert d == Put24(|c|) + c + (e + tail);
      CertHead(c, e + tail);
    }
    if |d| >= 3 && U24(d, 0) == |c| <= |d| - 3 && d[3..3 + |c|] == c && e <= d[3 + |c|..] {
      Put24Get24(d, 0);
      assert d == Put24(|c|) + c + d[3 + |c|..];
    }
  }

  /** The certificate message of a list: a total length, then each certificate with its own. */
  lemma {:induction false} CertificateRoundTrip(s: Ssl, cs: seq<Cert>)
    requires |EncodeCerts(cs)| < 0x100_0000
    ensures CertificateEffect(s, Put24(|EncodeCerts(cs)|) + EncodeCerts(cs))
         == Effect(s.(certificates := s.certificates + cs), [Certificate], None)
  {
    var e := EncodeCerts(cs);
    var body := Put24(|e|) + e;
    assert body[0..3] == Put24(|e|) && body[3..] == e;
    Get24(|e|, body, 0);
    CertLoopInverts(e, cs);
  }

  /** The event fires exactly on such messages, two stray bytes at the end allowed, and then exactly the encoded
      certificates were appended. */
  lemma CertificateEventIff(s: Ssl, body: bytes)
    ensures var e := CertificateEffect(s, body);
            && e.stop.None?
            && (e.events == [Certificate] <==>
                  exists cs: seq<Cert> :: IsCertificateList(body, cs))
            && (forall cs: seq<Cert> :: IsCertificateList(body, cs) ==>
                  e.s == s.(certificates := s.certificates + cs))
            && (e.events == [Certificate] || e.events == [])
  {
    if |body| >= 3 && U24(body, 0) == |body| - 3 {
      var (certs, clean) := CertLoop(body[3..]);
      CertsAreShort(body[3..]);
      var cs: seq<Cert> := certs;
      if clean {
        CertLoopInverts(body[3..], cs);
        assert IsCertificateList(body, cs);
      }
      forall cs': seq<Cert> | IsCertificateList(body, cs')
        ensures certs == cs' && clean
      {
        CertLoopInverts(body[3..], cs');
      }
    }
  }

  ghost predicate IsCertificateList(body: bytes, cs: seq<Cert>) {
    && |body| >= 3 && U24(body, 0) == |body| - 3
    && EncodeCerts(cs) <= body[3..] && |body| - 3 - |EncodeCerts(cs)| < 3
  }

  lemma {:induction false} CertsAreShort(d: bytes)
    ensures forall i :: 0 <= i < |CertLoop(d).0| ==> |CertLoop(d).0[i]| < 0x100_0000
    decreases |d|
  {
    if |d| >= 3 && U24(d, 0) <= |d| - 3 {
      CertsAreShort(d[3 + U24(d, 0)..]);
    }
  }

  // ------------------------------------------------------------------ hellos

  /** What both hellos start with, as section 7.4.1 of RFC 2246 lays it out. */
  datatype RawFront = RawFront(ver: bytes, time: bytes, random: bytes, session: bytes)

  type Front = f: RawFront |
    && |f.ver| == 2 && |f.time| == 4 && |f.random| == 28 && |f.session| < 256
    && (f.ver == [3, 0] || f.ver == [3, 1])
    witness RawFront([3, 0], [0, 0, 0, 0], seq(28, _ => 0), [])

  function FrontBytes(f: Front): (r: bytes)
    ensures |r| == 35 + |f.session|
  {
    f.ver + f.time + f.random + [|f.session|] + f.session
  }

  /** The parser when it has read the front. An empty session id leaves the old one. */
  function AfterFront(s: Ssl, f: Front): Ssl {
    var s1 := s.(ver := U16(f.ver, 0), gmtUnixTime := U32(f.time, 0), random := f.random);
    if f.session == [] then s1 else s1.(sessionId := f.session)
  }

  lemma FrontLayout(f: Front, tail: bytes)
    ensures var body := FrontBytes(f) + tail;
            && body[0..2] == f.ver && body[2..6] == f.time && body[6..34] == f.random && body[34] == |f.session|
            && body[35..35 + |f.session|] == f.session
  {
  }

  lemma FrontReads(s: Ssl, f: Front, tail: bytes)
    ensures var body := FrontBytes(f) + tail;
            && U16(body, 0) == U16(f.ver, 0) && KnownVersion(U16(body, 0))
            && HelloFields(s.(ver := U16(body, 0)), body) == Common(AfterFront(s, f), Some(35 + |f.session|))
  {
    var body := FrontBytes(f) + tail;
    FrontLayout(f, tail);
    hide FrontBytes;
    assert U16(body, 0) == U16(body[0..2], 0) && U32(body, 2) == U32(body[2..6], 0);
    if f.session == [] { assert AfterFront(s, f) == AfterFront(s, f).(sessionId := s.sessionId); }
  }

  /** The front that stands in a body long enough for it. */
  lemma FrontOf(s: Ssl, body: bytes) returns (f: Front)
    requires |body| >= 2 && KnownVersion(U16(body, 0)) && HelloFields(s, body).next.Some?
    ensures FrontBytes(f) <= body && HelloFields(s, body).next == Some(|FrontBytes(f)|)
  {
    var n: nat := body[34];
    assert body[0..2] == [body[0], body[1]];
    f := RawFront(body[0..2], body[2..6], body[6..34], body[35..35 + n]);
    assert FrontBytes(f) == body[..35 + n];
  }

  /** The rest of a client hello; extensions may follow. */
  datatype RawLists = RawLists(suites: bytes, methods: bytes)

  type Lists = l: RawLists | |l.suites| < 0x1_0000 && |l.methods| < 256 witness RawLists([], [])

  function ListBytes(l: Lists): bytes {
    [|l.suites| / 256, |l.suites| % 256] + l.suites + [|l.methods|] + l.methods
  }

  lemma ListLayout(front: bytes, l: Lists, ext: bytes)
    ensures var body := front + ListBytes(l) + ext;
            var p := |front|;
            var q := p + 2 + |l.suites|;
            && |body| == q + 1 + |l.methods| + |ext|
            && U16(body, p) == |l.suites| && body[p + 2..q] == l.suites
            && body[q] == |l.methods| && body[q + 1..q + 1 + |l.methods|] == l.methods
  {
    var len: bytes := [|l.suites| / 256, |l.suites| % 256];
    var body := front + ListBytes(l) + ext;
    assert ListBytes(l)[..2] == len;
    assert body == front + (len + l.suites + [|l.methods|] + l.methods) + ext;
  }

  lemma ListsRead(s: Ssl, front: bytes, l: Lists, ext: bytes, window: bytes)
    requires front + ListBytes(l) + ext <= window
    ensures ClientHelloLists(s, front + ListBytes(l) + ext, window, |front|)
         == Effect(s.(cipherSuites := s.cipherSuites + SuitesOf(l.suites, |l.suites| / 2),
                      compressionMethods := s.compressionMethods + l.methods), [ClientHello], None)
  {
    ListLayout(front, l, ext);
    hide ListBytes, SuitesOf;
    var body := front + ListBytes(l) + ext;
    var q := |front| + 2 + |l.suites|;
    assert window[q] == body[q];
  }

  /** The lists that stand behind position p when the event fires. */
  lemma ListsOf(s: Ssl, body: bytes, window: bytes, p: nat) returns (l: Lists, ext: bytes)
    requires body <= window && p <= |body| && ClientHelloLists(s, body, window, p).events == [ClientHello]
    ensures body == body[..p] + ListBytes(l) + ext
  {
    var len := U16(body, p);
    var q := p + 2 + len;
    var count: nat := window[q];
    assert window[q] == body[q];
    hide SuitesOf;
    l := RawLists(body[p + 2..q], body[q + 1..q + 1 + count]);
    ext := body[q + 1 + count..];
    assert ListBytes(l) == body[p..q + 1 + count] by {
      assert body[p..p + 2] == [body[p], body[p + 1]] && body[q..q + 1] == [body[q]];
      assert body[p..q + 1 + count] == body[p..p + 2] + body[p + 2..q] + body[q..q + 1] + body[q + 1..q + 1 + count];
    }
  }

  /** A client hello written down, whatever follows it, is read back field by field with one event. */
  lemma {:induction false} ClientHelloRoundTrip(s: Ssl, f: Front, l: Lists, ext: bytes, behind: bytes)
    ensures var s1 := AfterFront(s, f);
            ClientHelloEffect(s, FrontBytes(f) + ListBytes(l) + ext, behind) ==
              Effect(s1.(cipherSuites := s1.cipherSuites + SuitesOf(l.suites, |l.suites| / 2),
                         compressionMethods := s1.compressionMethods + l.methods), [ClientHello], None)
  {
    var tail := ListBytes(l) + ext;
    var body := FrontBytes(f) + tail;
    assert body == FrontBytes(f) + ListBytes(l) + ext;
    FrontReads(s, f, tail);
    ListsRead(AfterFront(s, f), FrontBytes(f), l, ext, body + behind);
    hide HelloFields, FrontBytes, ListBytes, SuitesOf, ClientHelloLists, AfterFront;
    assert U16(body + behind, 0) == U16(body, 0);
  }

  predicate IsClientHello(body: bytes, f: Front, l: Lists, ext: bytes) {
    body == FrontBytes(f) + ListBytes(l) + ext
  }

  /** The event fires exactly on complete client hellos of a known version. */
  lemma {:induction false} ClientHelloEventIff(s: Ssl, body: bytes, behind: bytes)
    ensures ClientHelloEffect(s, body, behind).events == [ClientHello]
       <==> exists f: Front, l: Lists, ext :: IsClientHello(body, f, l, ext)
  {
    var e := ClientHelloEffect(s, body, behind);
    if e.events == [ClientHello] {
      var window := body + behind;
      var s0 := s.(ver := U16(window, 0));
      var c := HelloFields(s0, body);
      assert U16(window, 0) == U16(body, 0);
      var f := FrontOf(s0, body);
      var l, ext := ListsOf(c.s, body, window, c.next.value);
      assert FrontBytes(f) == body[..c.next.value];
      assert IsClientHello(body, f, l, ext);
    }
    forall f: Front, l: Lists, ext | IsClientHello(body, f, l, ext) ensures e.events == [ClientHello] {
      ClientHelloRoundTrip(s, f, l, ext, behind);
    }
    hide ClientHelloEffect;
  }

  /** The same for a server hello: one suite, one method. */
  lemma {:induction false} ServerHelloRoundTrip(s: Ssl, f: Front, suite: bytes, compression: byte, ext: bytes,
                                                behind: bytes)
    requires |suite| == 2
    ensures var s1 := AfterFront(s, f);
            ServerHelloEffect(s, FrontBytes(f) + (suite + [compression] + ext), behind) ==
              Effect(s1.(cipherSuites := s1.cipherSuites + [U16(suite, 0)],
                         compressionMethods := s1.compressionMethods + [compression]), [ServerHello], None)
  {
    var tail := suite + [compression] + ext;
    var body := FrontBytes(f) + tail;
    FrontReads(s, f, tail);
    hide HelloFields, FrontBytes, AfterFront;
    var p := 35 + |f.session|;
    assert body[p..] == tail && U16(body + behind, 0) == U16(body, 0);
    assert body[p] == suite[0] && body[p + 1] == suite[1] && body[p + 2] == compression;
  }
}
