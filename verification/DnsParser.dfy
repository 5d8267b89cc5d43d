/** `cdpi_dns` as an object: positions move through the datagram, lists grow (src/cdpi_dns.hpp, src/cdpi_dns.cpp). */
module DnsParser {
  import opened Bytes
  import opened DnsName
  import opened DnsMessage

  /** A name read n bytes further on. */
  function Further(n: nat, r: Option<Name>): Option<Name> {
    match r
    case None => None
    case Some(x) => Some(Name(x.text, n + x.len))
  }

  /** The pointer at p can be followed. */
  predicate Leads(msg: bytes, p: nat) {
    p + 2 <= |msg| && msg[p] >= 0xC0 && U16(msg, p) % 0x4000 < |msg|
  }

  /** What one round of the loop of `read_domain` finds, done bytes into the name. */
  lemma OneRound(msg: bytes, p: nat, domain: bytes, counter: nat, done: nat)
    requires p <= |msg| && counter <= MAX_JUMPS
    ensures var r := Further(done, ReadLabels(msg, p, domain, counter));
            && (p == |msg| ==> r == None)
            && (p < |msg| && msg[p] >= 64 && !Leads(msg, p) ==> r == None)
            && (p < |msg| && msg[p] >= 64 && Leads(msg, p) ==>
                  var q := ReadDomain(msg, U16(msg, p) % 0x4000, domain, counter + 1);
                  if q.None? then r == None else r == Some(Name(q.value.text, done + 2)))
            && (p < |msg| && msg[p] == 0 ==> r == Some(Name(domain, done + 1)))
            && (p < |msg| && 0 < msg[p] < 64 && p + 1 + msg[p] as int > |msg| ==> r == None)
            && (p < |msg| && 0 < msg[p] < 64 && p + 1 + msg[p] as int <= |msg| ==>
                  var q := p + 1 + msg[p] as int;
                  r == Further(done + q - p, ReadLabels(msg, q, Joined(domain, msg[p + 1..q]), counter)))
  {
    hide Joined;
  }

  /** -1, or the bytes read with the text appended to. */
  predicate Returns(r: Option<Name>, readLen: int, domain: bytes) {
    match r
    case None => readLen == -1
    case Some(n) => readLen == n.len && domain == n.text
  }

  /** Every way one round of the loop can go, for target, the result of the whole. */
  predicate Round(msg: bytes, p: nat, domain: bytes, counter: nat, done: nat, target: Option<Name>)
    requires p <= |msg| && counter <= MAX_JUMPS
  {
    target == Further(done, ReadLabels(msg, p, domain, counter))
  }

  /** The branch of `read_domain` for a byte with a high bit set. */
  method FollowPointer(msg: bytes, buf: nat, domain0: bytes, counter: nat, readLen0: nat, ghost target: Option<Name>)
    returns (readLen: int, domain: bytes)
    requires buf < |msg| && counter <= MAX_JUMPS && msg[buf] >= 64
    requires Round(msg, buf, domain0, counter, readLen0, target)
    ensures Returns(target, readLen, domain)
    decreases MAX_JUMPS + 1 - counter, 0
  {
    OneRound(msg, buf, domain0, counter, readLen0);
    hide ReadLabels, ReadDomain, Further, U16;
    domain := domain0;
    if msg[buf] < 0xC0 || |msg| - buf < 2 {
      return -1, domain;
    }
    var pos := U16(msg, buf) % 0x4000;
    if pos >= |msg| {
      return -1, domain;
    }
    readLen, domain := ParseDomain(msg, pos, domain, counter + 1);
    if readLen >= 0 {
      readLen := readLen0 + 2;
    }
  }

  /** `read_domain`. */
  method ParseDomain(msg: bytes, start: nat, before: bytes, counter: nat) returns (readLen: int, domain: bytes)
    requires start <= |msg|
    ensures Returns(ReadDomain(msg, start, before, counter), readLen, domain)
    decreases MAX_JUMPS + 1 - counter, 1
  {
    readLen, domain := 0, before;
    if counter > MAX_JUMPS {
      return -1, domain;
    }
    var buf, bufLen := start, |msg| - start;
    ghost var target := ReadDomain(msg, start, before, counter);
    assert Round(msg, start, before, counter, 0, target);
    hide ReadLabels, ReadDomain, Joined, Further, Round;
    while true
      invariant start <= buf && readLen == buf - start && bufLen == |msg| - buf && 0 <= bufLen
      invariant Round(msg, buf, domain, counter, readLen, target)
      decreases bufLen
    {
      if bufLen < 1 {
        NoMore(msg, buf, domain, counter, readLen, target);
        return -1, domain;
      }
      var dlen := msg[buf];
      if dlen >= 64 {
        readLen, domain := FollowPointer(msg, buf, domain, counter, readLen, target);
        return;
      }
      LabelRound(msg, buf, domain, counter, readLen, target);
      if dlen == 0 {
        return readLen + 1, domain;
      }
      if bufLen - 1 < dlen as int {
        return -1, domain;
      }
      var next := buf + 1 + dlen as int;
      domain := Joined(domain, msg[buf + 1..next]);
      readLen, bufLen := readLen + next - buf, bufLen - (next - buf);
      buf := next;
    }
  }

  lemma NoMore(msg: bytes, p: nat, domain: bytes, counter: nat, done: nat, target: Option<Name>)
    requires p == |msg| && counter <= MAX_JUMPS && Round(msg, p, domain, counter, done, target)
    ensures target == None
  {
    OneRound(msg, p, domain, counter, done);
    hide ReadLabels, ReadDomain;
  }

  lemma LabelRound(msg: bytes, p: nat, domain: bytes, counter: nat, done: nat, target: Option<Name>)
    requires p < |msg| && msg[p] < 64 && counter <= MAX_JUMPS && Round(msg, p, domain, counter, done, target)
    ensures var q := p + 1 + msg[p] as int;
            && (msg[p] == 0 ==> target == Some(Name(domain, done + 1)))
            && (msg[p] != 0 && q > |msg| ==> target == None)
            && (msg[p] != 0 && q <= |msg| ==>
                  Round(msg, q, Joined(domain, msg[p + 1..q]), counter, done + q - p, target))
  {
    OneRound(msg, p, domain, counter, done);
    hide ReadLabels, ReadDomain, Further, Joined;
  }

  /** A section loop that goes on after one more entry. */
  lemma OneMore<T>(done: seq<T>, x: T, s: Section<T>)
    ensures Onto(done, Onto([x], s)) == Onto(done + [x], s)
    ensures Onto([], s) == s
  {
    assert done + ([x] + s.items) == done + [x] + s.items;
    assert [] + s.items == s.items;
  }

  /** How far a loop that ended at e has come from buf. */
  function Advance(e: Verdict<nat>, buf: nat): Verdict<int> {
    match e
    case Fine(p) => Fine(p - buf)
    case Refused => Refused
    case Undefined => Undefined
  }

  class Dns {
    var header: bytes
    var question: seq<Question>
    var answer: seq<Record>
    var authority: seq<Record>
    var additional: seq<Record>

    constructor ()
      ensures question == [] && answer == [] && authority == [] && additional == []
    {
      header, question, answer, authority, additional := [], [], [], [], [];
    }

    /** One round of `decode_question`. */
    method DecodeOneQuestion(msg: bytes, start: nat) returns (r: Option<(Question, nat)>)
      requires start <= |msg|
      ensures r == ReadQuestion(msg, start)
      ensures r.Some? ==> start <= r.value.1 <= |msg|
    {
      hide ReadDomain;
      var dlen, name := ParseDomain(msg, start, [], 0);
      if dlen < 0 {
        return None;
      }
      NameFits(msg, start);
      var buf, bufLen := start + dlen, |msg| - start - dlen;
      if bufLen < QUESTION_TAIL {
        return None;
      }
      r := Some((Question(name, msg[buf..buf + 2], msg[buf + 2..buf + 4]), buf + QUESTION_TAIL));
    }

    /** `decode_question`. The list grows also where a later question is refused. */
    method DecodeQuestion(msg: bytes, buf0: nat, bufLen0: nat, num: nat) returns (readLen: Verdict<int>)
      requires buf0 + bufLen0 == |msg|
      modifies this`question
      ensures question == old(question) + Questions(msg, buf0, num).items
      ensures readLen == Advance(Questions(msg, buf0, num).end, buf0)
    {
      hide ReadQuestion;
      var buf: nat := buf0;
      var bufLen, i := bufLen0, 0;
      ghost var target := Questions(msg, buf0, num);
      ghost var done: seq<Question> := [];
      assert [] + target.items == target.items;
      while i < num
        invariant 0 <= i <= num && buf + bufLen == |msg| && 0 <= bufLen
        invariant question == old(question) + done
        invariant target.items == done + Questions(msg, buf, num - i).items
        invariant target.end == Questions(msg, buf, num - i).end
      {
        var r := DecodeOneQuestion(msg, buf);
        if r.None? {
          return Refused;
        }
        var q, next := r.value.0, r.value.1;
        OneMore(done, q, Questions(msg, next, num - i - 1));
        done := done + [q];
        question := question + [q];
        bufLen := bufLen - (next - buf);
        buf, i := next, i + 1;
      }
      return Fine(buf - buf0);
    }

    /** The switch of `decode_rr`. */
    method DecodeRdata(msg: bytes, rtype: nat, buf: nat, rdlen: nat) returns (data: Verdict<Rdata>)
      requires buf + rdlen <= |msg|
      ensures data == ReadRdata(msg, rtype, buf, rdlen)
    {
      hide ReadDomain;
      if rtype == TYPE_SOA {
        data := DecodeSoa(msg, buf);
      } else if rtype == TYPE_TXT {
        data := TxtData(msg, buf, rdlen);
      } else if rtype == TYPE_A {
        data := if rdlen < 4 then Refused else Fine(Address(msg[buf..buf + 4]));
      } else if rtype == TYPE_AAAA {
        data := if rdlen < 16 then Refused else Fine(Address(msg[buf..buf + 16]));
      } else if rtype == TYPE_NS || rtype == TYPE_CNAME || rtype == TYPE_PTR {
        var dlen, name := ParseDomain(msg, buf, [], 0);
        data := if dlen < 0 then Refused else Fine(DomainName(name));
      } else if rtype == TYPE_MX {
        if rdlen < 2 {
          return Refused;
        }
        var dlen, name := ParseDomain(msg, buf, [], 0);
        data := if dlen < 0 then Refused else Fine(Mx(msg[buf..buf + 2], name));
      } else if rtype == TYPE_HINFO {
        data := HinfoData(msg, buf, rdlen);
      } else {
        data := Fine(NoData);
      }
    }

    method DecodeSoa(msg: bytes, start: nat) returns (data: Verdict<Rdata>)
      requires start <= |msg|
      ensures data == SoaData(msg, start)
    {
      hide ReadDomain;
      var dlen, mname := ParseDomain(msg, start, [], 0);
      if dlen < 0 {
        return Refused;
      }
      NameFits(msg, start);
      var buf := start + dlen;
      var dlen2, rname := ParseDomain(msg, buf, [], 0);
      if dlen2 < 0 {
        return Refused;
      }
      buf := buf + dlen2;
      if |msg| - buf < 4 {
        return Refused;
      }
      if |msg| - buf < SOA_TAIL {
        return Undefined;
      }
      data := Fine(Soa(mname, rname, msg[buf..buf + SOA_TAIL]));
    }

    /** One round of `decode_rr`. */
    method DecodeOne(msg: bytes, start: nat) returns (r: Verdict<(Record, nat)>)
      requires start <= |msg|
      ensures r == ReadRecord(msg, start)
      ensures r.Fine? ==> start <= r.value.1 <= |msg|
    {
      hide ReadDomain, ReadRdata;
      var dlen, name := ParseDomain(msg, start, [], 0);
      if dlen < 0 {
        return Refused;
      }
      NameFits(msg, start);
      var buf, bufLen := start + dlen, |msg| - start - dlen;
      if bufLen < RECORD_HEAD {
        return Refused;
      }
      var rdlen := U16(msg, buf + 8);
      if bufLen - RECORD_HEAD < rdlen {
        return Refused;
      }
      var data := DecodeRdata(msg, U16(msg, buf), buf + RECORD_HEAD, rdlen);
      match data {
        case Refused => return Refused;
        case Undefined => return Undefined;
        case Fine(d) =>
          return Fine((Record(name, msg[buf..buf + 2], msg[buf + 2..buf + 4], msg[buf + 4..buf + 8], d),
                       buf + RECORD_HEAD + rdlen));
      }
    }

    /** `decode_rr`. */
    method DecodeRr(msg: bytes, buf0: nat, bufLen0: nat, num: nat)
      returns (list: seq<Record>, readLen: Verdict<int>)
      requires buf0 + bufLen0 == |msg|
      ensures list == Records(msg, buf0, num).items
      ensures readLen == Advance(Records(msg, buf0, num).end, buf0)
    {
      hide ReadRecord;
      var buf, bufLen, i := buf0, bufLen0, 0;
      list := [];
      ghost var target := Records(msg, buf0, num);
      assert [] + target.items == target.items;
      while i < num
        invariant 0 <= i <= num && buf + bufLen == |msg| && 0 <= bufLen
        invariant target.items == list + Records(msg, buf, num - i).items
        invariant target.end == Records(msg, buf, num - i).end
      {
        var r := DecodeOne(msg, buf);
        match r {
          case Refused => return list, Refused;
          case Undefined => return list, Undefined;
          case Fine((rr, next)) =>
            OneMore(list, rr, Records(msg, next, num - i - 1));
            list := list + [rr];
            bufLen := bufLen - (next - buf);
            buf, i := next, i + 1;
        }
      }
      return list, Fine(buf - buf0);
    }

    /** A section behind one that ended at readLen: nothing is read after a refusal. */
    method DecodeNext(msg: bytes, buf: nat, num: nat, readLen: Verdict<int>)
      returns (list: seq<Record>, next: nat, r: Verdict<int>)
      requires buf <= |msg| && (readLen.Fine? ==> 0 <= buf + readLen.value <= |msg|)
      ensures next <= |msg| && (r.Fine? ==> 0 <= next + r.value <= |msg|)
      ensures var s := RecordsFrom(msg, Behind(buf, readLen), num);
              list == s.items && Behind(next, r) == s.end
    {
      hide Records;
      list, next, r := [], buf, readLen;
      if readLen.Fine? {
        next := buf + readLen.value;
        list, r := DecodeRr(msg, next, |msg| - next, num);
      }
    }

    /** The four sections behind the header. */
    method DecodeSections(msg: bytes) returns (buf: nat, readLen: Verdict<int>)
      requires |msg| >= SIZEOF_DNS_HEADER && header == msg[..SIZEOF_DNS_HEADER]
      modifies this
      ensures header == old(header) && (readLen.Fine? ==> 0 <= buf + readLen.value)
      ensures var r := ReadSections(msg);
              && question == old(question) + r.qd.items && answer == old(answer) + r.an.items
              && authority == old(authority) + r.ns.items && additional == old(additional) + r.ar.items
              && Behind(buf, readLen) == r.ar.end
    {
      hide Questions, Records, RecordsFrom;
      ghost var s := ReadSections(msg);
      SectionsAre(msg);
      hide ReadSections;
      HeaderCounts(msg, header);
      hide U16, QdCount, AnCount, NsCount, ArCount;
      buf := SIZEOF_DNS_HEADER;
      readLen := DecodeQuestion(msg, buf, |msg| - buf, U16(header, 4));
      assert Behind(buf, readLen) == s.qd.end;
      var list;
      list, buf, readLen := DecodeNext(msg, buf, U16(header, 6), readLen);
      answer := answer + list;
      list, buf, readLen := DecodeNext(msg, buf, U16(header, 8), readLen);
      authority := authority + list;
      list, buf, readLen := DecodeNext(msg, buf, U16(header, 10), readLen);
      additional := additional + list;
    }

    /** `decode`. The lists of an earlier call are not cleared. */
    method Decode(msg: bytes) returns (accepted: Verdict<bool>)
      modifies this
      ensures |msg| < SIZEOF_DNS_HEADER ==> accepted == Fine(false) && unchanged(this)
      ensures |msg| >= SIZEOF_DNS_HEADER ==>
                var r := ReadSections(msg);
                && header == msg[..SIZEOF_DNS_HEADER]
                && question == old(question) + r.qd.items && answer == old(answer) + r.an.items
                && authority == old(authority) + r.ns.items && additional == old(additional) + r.ar.items
                && (accepted.Undefined? <==> r.ar.end.Undefined?)
      ensures accepted == Fine(true) <==> Accepts(msg)
      ensures !accepted.Refused?
    {
      if |msg| < SIZEOF_DNS_HEADER {
        return Fine(false);
      }
      hide ReadSections;
      header := msg[..SIZEOF_DNS_HEADER];
      var buf, readLen := DecodeSections(msg);
      match readLen {
        case Refused => accepted := Fine(false);
        case Undefined => accepted := Undefined;
        case Fine(n) => accepted := Fine(|msg| - (buf + n) == 0);
      }
    }
  }

  lemma SectionsAre(msg: bytes)
    requires |msg| >= SIZEOF_DNS_HEADER
    ensures var s := ReadSections(msg);
            && s.qd == Questions(msg, SIZEOF_DNS_HEADER, QdCount(msg))
            && s.an == RecordsFrom(msg, s.qd.end, AnCount(msg))
            && s.ns == RecordsFrom(msg, s.an.end, NsCount(msg)) && s.ar == RecordsFrom(msg, s.ns.end, ArCount(msg))
  {
    hide Questions, RecordsFrom;
  }

  lemma HeaderCounts(msg: bytes, header: bytes)
    requires |msg| >= SIZEOF_DNS_HEADER && header == msg[..SIZEOF_DNS_HEADER]
    ensures U16(header, 4) == QdCount(msg) && U16(header, 6) == AnCount(msg)
    ensures U16(header, 8) == NsCount(msg) && U16(header, 10) == ArCount(msg)
  {
  }

  /** The position readLen behind buf. */
  function Behind(buf: nat, readLen: Verdict<int>): Verdict<nat>
    requires readLen.Fine? ==> 0 <= buf + readLen.value
  {
    match readLen
    case Fine(n) => Fine(buf + n)
    case Refused => Refused
    case Undefined => Undefined
  }
}
