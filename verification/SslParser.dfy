/** `cdpi_ssl` as an object fed from a byte queue, proved against the value-level parser
    (src/cdpi_ssl.hpp, src/cdpi_ssl.cpp). */
module SslParser {
  import opened Bytes
  import opened SslSpec
  import SslTheorems

  lemma ThenConcat(a: seq<Event>, b: seq<Event>, e: Effect)
    ensures a + (b + e.events) == a + b + e.events
    ensures Then(Effect(e.s, [], None), e) == e
  {
    assert [] + e.events == e.events;
  }

  lemma {:induction false} CertLoopSteps(d: bytes, p: nat, done: seq<bytes>)
    requires p <= |d|
    ensures |d| - p < 3 ==> CertLoop(d[p..]) == ([], true)
    ensures |d| - p >= 3 ==>
              var n := U24(d, p);
              && U24(d[p..], 0) == n
              && (n > |d| - p - 3 ==> CertLoop(d[p..]) == ([], false))
              && (n <= |d| - p - 3 ==>
                    var rest := CertLoop(d[p + 3 + n..]);
                    && CertLoop(d[p..]) == ([d[p + 3..p + 3 + n]] + rest.0, rest.1)
                    && done + ([d[p + 3..p + 3 + n]] + rest.0) == done + [d[p + 3..p + 3 + n]] + rest.0)
  {
    if |d| - p >= 3 {
      var n := U24(d, p);
      if n <= |d| - p - 3 {
        assert d[p..][3 + n..] == d[p + 3 + n..];
        assert d[p..][3..3 + n] == d[p + 3..p + 3 + n];
      }
    }
  }

  /** One round of the message loop. */
  lemma {:induction false} HandshakeLoopSteps(s: Ssl, d: bytes, p: nat, done: seq<Event>)
    requires p <= |d|
    ensures Then(Effect(s, done, None), HandshakeLoop(s, d[p..])) ==
              if |d| - p < MESSAGE_HEAD || |d| - p < MESSAGE_HEAD + U24(d, p + 1) then
                Effect(s, done, Some(BadRecord))
              else
                var next := p + 4 + U24(d, p + 1);
                var e := MessageEffect(s, d[p], d[p + 4..next], d[next..]);
                if e.stop.Some? || next == |d| then Effect(e.s, done + e.events, e.stop)
                else Then(Effect(e.s, done + e.events, None), HandshakeLoop(e.s, d[next..]))
  {
    hide MessageEffect;
    assert done + [] == done;
    if |d| - p >= MESSAGE_HEAD {
      var n := U24(d, p + 1);
      assert U24(d[p..], 1) == n;
      hide U24;
      if |d| - p >= MESSAGE_HEAD + n {
        var next := p + 4 + n;
        assert d[p..][4..4 + n] == d[p + 4..next] && d[p..][4 + n..] == d[next..];
        var e := MessageEffect(s, d[p], d[p + 4..next], d[next..]);
        if e.stop.None? && next < |d| {
          ThenConcat(done, e.events, HandshakeLoop(e.s, d[next..]));
        }
      }
    }
  }

  /** A `cdpi_ssl` object. Its plain fields are grouped in st. */
  class Parser {
    var st: Ssl
    /** Listener events so far. */
    var events: seq<Event>

    constructor ()
      ensures st == FRESH && events == []
    {
      st := FRESH;
      events := [];
    }

    /** The object is what e says. */
    ghost predicate Shows(e: Effect, before: seq<Event>, stop: Option<Reason>)
      reads this
    {
      st == e.s && events == before + e.events && stop == e.stop
    }

    method ParseChangeCipherSpec(data: bytes) returns (stop: Option<Reason>)
      modifies this
      ensures Shows(CcsEffect(old(st), data), old(events), stop)
    {
      if |data| == 0 {
        return Some(Undefined);
      }
      if data[0] == 1 {
        st := st.(isChangeCipherSpec := true);
        events := events + [ChangeCipherSpec];
      }
      return None;
    }

    /** The loop of `parse_certificate`; clean when it ran to the end of the list. */
    method ReadCertificates(data: bytes) returns (clean: bool)
      modifies this`st
      ensures var (certs, ok) := CertLoop(data);
              st == old(st).(certificates := old(st).certificates + certs) && clean == ok
    {
      hide CertLoop;
      ghost var before := st.certificates;
      ghost var all, ok := CertLoop(data).0, CertLoop(data).1;
      ghost var done: seq<bytes> := [];
      var p := 0;
      assert data[0..] == data && done + all == all && before + done == before;
      while |data| - p >= 3
        invariant 0 <= p <= |data|
        invariant st == old(st).(certificates := before + done)
        invariant done + CertLoop(data[p..]).0 == all && CertLoop(data[p..]).1 == ok
        decreases |data| - p
      {
        CertLoopSteps(data, p, done);
        var n := U24(data, p);
        if n > |data| - p - 3 {
          assert done + [] == done;
          return false;
        }
        var cert := data[p + 3..p + 3 + n];
        assert before + (done + [cert]) == before + done + [cert];
        done := done + [cert];
        st := st.(certificates := st.certificates + [cert]);
        p := p + 3 + n;
      }
      CertLoopSteps(data, p, done);
      assert done + [] == done;
      return true;
    }

    method ParseCertificate(data: bytes)
      modifies this
      ensures Shows(CertificateEffect(old(st), data), old(events), None)
    {
      hide CertLoop;
      if |data| < 3 {
        return;
      }
      if U24(data, 0) != |data| - 3 {
        return;
      }
      var clean := ReadCertificates(data[3..]);
      if clean {
        events := events + [Certificate];
      }
    }

    /** The fields both hellos start with; ok when the message reaches past the session id, at next. */
    method ReadHelloFields(body: bytes) returns (next: Option<nat>)
      modifies this`st
      ensures var c := HelloFields(old(st), body);
              st == c.s && next == c.next
    {
      if |body| < 6 { return None; }
      st := st.(gmtUnixTime := U32(body, 2));
      if |body| < 34 { return None; }
      st := st.(random := body[6..34]);
      if |body| < 35 { return None; }
      var n: nat := body[34];
      if n > 0 {
        if |body| < 35 + n { return None; }
        st := st.(sessionId := body[35..35 + n]);
      }
      return Some(35 + n);
    }

    /** The loop over the cipher suites of a client hello. */
    method AddSuites(s: bytes, count: nat)
      requires 2 * count <= |s|
      modifies this`st
      ensures st == old(st).(cipherSuites := old(st).cipherSuites + SuitesOf(s, count))
    {
      assert old(st).cipherSuites + SuitesOf(s, 0) == old(st).cipherSuites;
      for i := 0 to count
        invariant st == old(st).(cipherSuites := old(st).cipherSuites + SuitesOf(s, i))
      {
        assert SuitesOf(s, i + 1) == SuitesOf(s, i) + [U16(s, 2 * i)];
        assert old(st).cipherSuites + SuitesOf(s, i) + [U16(s, 2 * i)] == old(st).cipherSuites + SuitesOf(s, i + 1);
        st := st.(cipherSuites := st.cipherSuites + [U16(s, 2 * i)]);
      }
    }

    method ReadHelloLists(body: bytes, window: bytes, p: nat) returns (stop: Option<Reason>)
      requires body <= window && p <= |body|
      modifies this
      ensures Shows(ClientHelloLists(old(st), body, window, p), old(events), stop)
    {
      if |body| < p + 2 { return None; }
      var len := U16(body, p);
      var q := p + 2 + len;
      if |body| < q { return None; }
      AddSuites(body[p + 2..q], len / 2);
      hide SuitesOf;
      if |window| < q + 1 { return Some(Undefined); }
      var count: nat := window[q];
      if |body| < q + 1 + count { return None; }
      st := st.(compressionMethods := st.compressionMethods + body[q + 1..q + 1 + count]);
      events := events + [ClientHello];
      return None;
    }

    method ParseClientHello(body: bytes, behind: bytes) returns (stop: Option<Reason>)
      modifies this
      ensures Shows(ClientHelloEffect(old(st), body, behind), old(events), stop)
    {
      hide HelloFields;
      hide ClientHelloLists;
      var window := body + behind;
      if |window| < 2 { return Some(Undefined); }
      st := st.(ver := U16(window, 0));
      if st.ver != SSL30_VER && st.ver != TLS10_VER { return None; }
      var next := ReadHelloFields(body);
      if next.None? { return None; }
      stop := ReadHelloLists(body, window, next.value);
    }

    method ParseServerHello(body: bytes, behind: bytes) returns (stop: Option<Reason>)
      modifies this
      ensures Shows(ServerHelloEffect(old(st), body, behind), old(events), stop)
    {
      hide HelloFields;
      var window := body + behind;
      if |window| < 2 { return Some(Undefined); }
      st := st.(ver := U16(window, 0));
      if st.ver != SSL30_VER && st.ver != TLS10_VER { return None; }
      var next := ReadHelloFields(body);
      if next.None? { return None; }
      var p := next.value;
      if |body| < p + 2 { return None; }
      st := st.(cipherSuites := st.cipherSuites + [U16(body, p)]);
      if |body| < p + 3 { return None; }
      st := st.(compressionMethods := st.compressionMethods + [body[p + 2]]);
      events := events + [ServerHello];
      return None;
    }

    method ParseMessage(kind: byte, body: bytes, behind: bytes) returns (stop: Option<Reason>)
      modifies this
      ensures Shows(MessageEffect(old(st), kind, body, behind), old(events), stop)
    {
      hide ClientHelloEffect;
      hide ServerHelloEffect;
      hide CertificateEffect;
      stop := None;
      if kind == SSL_CLIENT_HELLO {
        stop := ParseClientHello(body, behind);
      } else if kind == SSL_SERVER_HELLO {
        stop := ParseServerHello(body, behind);
      } else if kind == SSL_CERTIFICATE {
        SslTheorems.CertificateEventIff(st, body);
        ParseCertificate(body);
      }
    }

    /** `parse_handshake`: the messages of one record. */
    method ParseHandshake(data: bytes) returns (stop: Option<Reason>)
      modifies this
      ensures Shows(HandshakeEffect(old(st), data), old(events), stop)
    {
      hide MessageEffect, U24, HandshakeLoop;
      if st.isChangeCipherSpec {
        return None;
      }
      ghost var target := HandshakeLoop(st, data);
      ghost var done: seq<Event> := [];
      var p := 0;
      assert data[0..] == data && done + target.events == target.events;
      while true
        invariant 0 <= p <= |data| && events == old(events) + done
        invariant Then(Effect(st, done, None), HandshakeLoop(st, data[p..])) == target
        decreases |data| - p
      {
        HandshakeLoopSteps(st, data, p, done);
        if |data| - p < MESSAGE_HEAD {
          return Some(BadRecord);
        }
        var n := U24(data, p + 1);
        if |data| - p < MESSAGE_HEAD + n {
          return Some(BadRecord);
        }
        var next := p + 4 + n;
        ghost var e := MessageEffect(st, data[p], data[p + 4..next], data[next..]);
        stop := ParseMessage(data[p], data[p + 4..next], data[next..]);
        done := done + e.events;
        p := next;
        if stop.Some? || p == |data| {
          return;
        }
      }
    }

    method ParseRecord(kind: byte, payload: bytes) returns (stop: Option<Reason>)
      modifies this
      ensures Shows(RecordEffect(old(st), kind, payload), old(events), stop)
    {
      hide HandshakeEffect;
      hide CcsEffect;
      stop := None;
      if kind == SSL_HANDSHAKE {
        stop := ParseHandshake(payload);
      } else if kind == SSL_CHANGE_CIPHER_SPEC {
        stop := ParseChangeCipherSpec(payload);
      } else if kind != SSL_ALERT && kind != SSL_APPLICATION_DATA && kind != SSL_HEARTBEAT {
        stop := Some(BadRecord);
      }
    }

    /** The object and the byte queue are as r says. */
    ghost predicate Reached(r: Result, q: ByteQueue, before: seq<Event>)
      reads this, q
    {
      st == r.s && q.Data() == r.rest && events == before + r.events
    }

    /** The record at the front of the queue, when it is complete. Notes the version either way. */
    method TakeRecord(q: ByteQueue) returns (kind: byte, payload: Option<bytes>)
      modifies this`st, q
      ensures var x := old(q.Data());
              && st == Noted(old(st), x)
              && payload.Some? == HasRecord(x)
              && (HasRecord(x) ==> kind == x[0] && payload == Some(x[RECORD_HEAD..RecordLen(x)]))
              && q.Data() == (if HasRecord(x) then x[RecordLen(x)..] else x)
    {
      hide Flatten;
      ghost var x := q.Data();
      var head := new byte[RECORD_HEAD];
      var readLen := q.Read(head, 0, RECORD_HEAD);
      if readLen < RECORD_HEAD {
        return 0, None;
      }
      assert head[..] == x[..RECORD_HEAD];
      var h := head[..];
      var len := U16(h, 3);
      st := st.(ver := U16(h, 1));
      var total := len + RECORD_HEAD;
      var data := new byte[total];
      readLen := q.Read(data, 0, total);
      if readLen < total {
        return 0, None;
      }
      assert data[..] == x[..total];
      var skipped := q.Skip(readLen);
      assert data[RECORD_HEAD..] == x[RECORD_HEAD..total];
      return h[0], Some(data[RECORD_HEAD..]);
    }

    /** `parse`: complete records from the front of the queue. */
    method ParseAll(q: ByteQueue) returns (stop: Option<Reason>)
      modifies this, q
      ensures var r := Parse(old(st), old(q.Data()));
              Reached(r, q, old(events)) && stop == r.stop
    {
      hide Flatten;
      hide Parse;
      hide RecordEffect;
      ghost var target := Parse(st, q.Data());
      ghost var done: seq<Event> := [];
      SslTheorems.AfterAfter([], [], target);
      while true
        invariant events == old(events) + done
        invariant After(done, Parse(st, q.Data())) == target
        decreases |q.Data()|
      {
        ghost var x := q.Data();
        ghost var s0 := Noted(st, x);
        ParseOneRecord(st, x);
        var kind, payload := TakeRecord(q);
        if payload.None? {
          return None;
        }
        ghost var e := RecordEffect(s0, kind, payload.value);
        stop := ParseRecord(kind, payload.value);
        SslTheorems.AfterAfter(done, e.events, Parse(e.s, q.Data()));
        assert old(events) + done + e.events == old(events) + (done + e.events);
        done := done + e.events;
        if stop.Some? {
          return;
        }
      }
    }
  }

  /** What the record at the front does to a whole call. */
  lemma ParseOneRecord(s: Ssl, x: bytes)
    ensures !HasRecord(x) ==> Parse(s, x) == Result(None, Noted(s, x), x, [])
    ensures HasRecord(x) ==>
              var n := RecordLen(x);
              var e := RecordEffect(Noted(s, x), x[0], x[RECORD_HEAD..n]);
              Parse(s, x) == (if e.stop.Some? then Result(e.stop, e.s, x[n..], e.events)
                              else After(e.events, Parse(e.s, x[n..])))
  {
    hide RecordEffect;
  }
}
