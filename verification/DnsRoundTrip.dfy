/** Messages written down as section 4 of RFC 1035 says, without compression, and read back (src/cdpi_dns.cpp). */
module DnsRoundTrip {
  import opened Bytes
  import opened DnsName
  import opened DnsMessage

  datatype QuestionForm = QuestionForm(labels: seq<bytes>, qtype: bytes, qclass: bytes)

  /** Data of a record. Opaque data has a type the decoder does not look into. */
  datatype DataForm =
    | Opaque(rtype: nat, data: bytes)
    | Ipv4(address: bytes)
    | Ipv6(address: bytes)
    | NameOf(rtype: nat, labels: seq<bytes>)
    | Text(text: bytes)
    | Strings(cpu: bytes, os: bytes)

  datatype RecordForm = RecordForm(labels: seq<bytes>, rclass: bytes, ttl: bytes, data: DataForm)

  datatype MessageForm = MessageForm(front: bytes, qd: seq<QuestionForm>, an: seq<RecordForm>, ns: seq<RecordForm>,
                                     ar: seq<RecordForm>)

  function Put16(n: nat): (r: bytes)
    requires n < 0x1_0000
    ensures |r| == 2
  {
    [n / 256, n % 256]
  }

  lemma Put16Reads(n: nat, before: bytes, behind: bytes)
    requires n < 0x1_0000
    ensures U16(before + Put16(n) + behind, |before|) == n
  {
  }

  // ------------------------------------------------------------------- the wire

  function TypeOf(d: DataForm): nat {
    match d
    case Opaque(t, _) => t
    case Ipv4(_) => TYPE_A
    case Ipv6(_) => TYPE_AAAA
    case NameOf(t, _) => t
    case Text(_) => TYPE_TXT
    case Strings(_, _) => TYPE_HINFO
  }

  predicate GoodData(d: DataForm) {
    match d
    case Opaque(t, data) =>
      && t !in {TYPE_A, TYPE_NS, TYPE_CNAME, TYPE_SOA, TYPE_PTR, TYPE_HINFO, TYPE_MX, TYPE_TXT, TYPE_AAAA}
      && t < 0x1_0000 && |data| < 0x1_0000
    case Ipv4(a) => |a| == 4
    case Ipv6(a) => |a| == 16
    case NameOf(t, labels) => t in {TYPE_NS, TYPE_CNAME, TYPE_PTR} && Proper(labels) && |Encoded(labels)| < 0x1_0000
    case Text(text) => 0 < |text| < 256
    case Strings(cpu, os) => |cpu| < 255 && |os| < 256
  }

  /** Host data as section 3.3.2 of RFC 1035 lays it out. */
  function HinfoBytes(cpu: bytes, os: bytes): (r: bytes)
    requires |cpu| < 256 && |os| < 256
    ensures |r| == |cpu| + |os| + 2
  {
    [|cpu|] + cpu + [|os|] + os
  }

  function DataBytes(d: DataForm): (r: bytes)
    requires GoodData(d)
    ensures |r| < 0x1_0000
  {
    match d
    case Opaque(_, data) => data
    case Ipv4(a) => a
    case Ipv6(a) => a
    case NameOf(_, labels) => Encoded(labels)
    case Text(text) => [|text|] + text
    case Strings(cpu, os) => HinfoBytes(cpu, os)
  }

  function DataValue(d: DataForm): Rdata {
    match d
    case Opaque(_, _) => NoData
    case Ipv4(a) => Address(a)
    case Ipv6(a) => Address(a)
    case NameOf(_, labels) => DomainName(Dotted(labels))
    case Text(text) => Txt(text)
    case Strings(cpu, os) => Hinfo(cpu, os)
  }

  predicate GoodQuestion(q: QuestionForm) {
    Proper(q.labels) && |q.qtype| == 2 && |q.qclass| == 2
  }

  predicate GoodRecord(r: RecordForm) {
    Proper(r.labels) && |r.rclass| == 2 && |r.ttl| == 4 && GoodData(r.data)
  }

  function QuestionBytes(q: QuestionForm): bytes
    requires GoodQuestion(q)
  {
    Encoded(q.labels) + (q.qtype + q.qclass)
  }

  function RecordBytes(r: RecordForm): bytes
    requires GoodRecord(r)
  {
    var data := DataBytes(r.data);
    Encoded(r.labels) + (Put16(TypeOf(r.data)) + r.rclass + r.ttl + Put16(|data|) + data)
  }

  function QuestionValue(q: QuestionForm): Question { Question(Dotted(q.labels), q.qtype, q.qclass) }

  function RecordValue(r: RecordForm): Record
    requires GoodRecord(r)
  {
    Record(Dotted(r.labels), Put16(TypeOf(r.data)), r.rclass, r.ttl, DataValue(r.data))
  }

  // ------------------------------------------------------------------ questions

  lemma QuestionReads(before: bytes, q: QuestionForm, behind: bytes)
    requires GoodQuestion(q)
    ensures var msg := before + QuestionBytes(q) + behind;
            ReadQuestion(msg, |before|) == Some((QuestionValue(q), |before + QuestionBytes(q)|))
  {
    hide ReadDomain, ReadQuestion, Encoded, Proper, Dotted, IsPointer, Target;
    var name, tail := Encoded(q.labels), q.qtype + q.qclass;
    var msg := before + QuestionBytes(q) + behind;
    QuestionLayout(before, name, tail, behind);
    NameRoundTrip(before, q.labels, tail + behind, 0);
    TailReads(before + name, q.qtype, q.qclass, behind);
    hide QuestionBytes;
    QuestionAtName(msg, |before|, Name(Dotted(q.labels), |name|));
  }

  lemma QuestionLayout(before: bytes, name: bytes, tail: bytes, behind: bytes)
    ensures before + (name + tail) + behind == before + name + (tail + behind)
    ensures before + (name + tail) + behind == (before + name) + tail + behind
  {
  }

  /** The parts of `decode_question` put together. */
  lemma QuestionAtName(msg: bytes, p: nat, n: Name)
    requires p + n.len + QUESTION_TAIL <= |msg| && ReadDomain(msg, p, [], 0) == Some(n)
    ensures var q := p + n.len;
            ReadQuestion(msg, p) == Some((Question(n.text, msg[q..q + 2], msg[q + 2..q + 4]), q + QUESTION_TAIL))
  {
    hide ReadDomain;
  }

  lemma TailReads(before: bytes, qtype: bytes, qclass: bytes, behind: bytes)
    requires |qtype| == 2 && |qclass| == 2
    ensures var msg, p := before + (qtype + qclass) + behind, |before|;
            msg[p..p + 2] == qtype && msg[p + 2..p + 4] == qclass
  {
  }

  // -------------------------------------------------------------------- records

  lemma DataReads(before: bytes, d: DataForm, behind: bytes)
    requires GoodData(d)
    ensures var msg := before + DataBytes(d) + behind;
            ReadRdata(msg, TypeOf(d), |before|, |DataBytes(d)|) == Fine(DataValue(d))
  {
    hide SoaData, MxData, HinfoData, ReadDomain, Encoded, HinfoBytes;
    var msg, p := before + DataBytes(d) + behind, |before|;
    match d {
      case Opaque(_, _) =>
      case Ipv4(a) => assert msg[p..p + 4] == a;
      case Ipv6(a) => assert msg[p..p + 16] == a;
      case NameOf(_, labels) =>
        NameRoundTrip(before, labels, behind, 0);
      case Text(text) => assert msg[p] == |text| && msg[p + 1..p + 1 + |text|] == text;
      case Strings(cpu, os) => StringsRead(before, cpu, os, behind);
    }
  }

  lemma StringsRead(before: bytes, cpu: bytes, os: bytes, behind: bytes)
    requires |cpu| < 255 && |os| < 256
    ensures HinfoData(before + HinfoBytes(cpu, os) + behind, |before|, |HinfoBytes(cpu, os)|) == Fine(Hinfo(cpu, os))
  {
    var data := HinfoBytes(cpu, os);
    var msg, p, q := before + data + behind, |before|, |before| + 1 + |cpu|;
    assert msg[p] == |cpu| && msg[p + 1..q] == cpu;
    assert msg[q] == |os| && msg[q + 1..p + |data|] == os;
  }

  /** Two strings of any lengths their length bytes can say read back exactly when the first is shorter than 255. */
  lemma {:induction false} HinfoReadsBackIff(before: bytes, cpu: bytes, os: bytes, behind: bytes)
    requires |cpu| < 256 && |os| < 256
    ensures var data := HinfoBytes(cpu, os);
            var r := HinfoData(before + data + behind, |before|, |data|);
            && (r == Fine(Hinfo(cpu, os)) <==> |cpu| < 255) && (|cpu| == 255 ==> r == Refused)
  {
    if |cpu| < 255 {
      StringsRead(before, cpu, os, behind);
      hide HinfoData;
    } else {
      assert (before + HinfoBytes(cpu, os) + behind)[|before|] == 255;
    }
  }

  /** The other way round: 255 and as many bytes of anything are accepted, read twice over, and are the data of no two
      strings. */
  lemma {:induction false} HinfoReadTwice(before: bytes, x: bytes, behind: bytes)
    requires |x| == 255
    ensures HinfoData(before + ([255] + x) + behind, |before|, 256) == Fine(Hinfo(x, x))
    ensures forall cpu: bytes, os: bytes :: |cpu| < 256 && |os| < 256 ==> HinfoBytes(cpu, os) != [255] + x
  {
    var data: bytes := [255] + x;
    var msg := before + data + behind;
    assert msg[|before|] == 255 && msg[|before| + 1..|before| + 256] == x;
    hide HinfoBytes;
    forall cpu: bytes, os: bytes | |cpu| < 256 && |os| < 256 ensures HinfoBytes(cpu, os) != data {
      HinfoStarts(cpu, os);
    }
  }

  lemma HinfoStarts(cpu: bytes, os: bytes)
    requires |cpu| < 256 && |os| < 256
    ensures var data := HinfoBytes(cpu, os); |data| == |cpu| + |os| + 2 && data[0] == |cpu|
  {
  }

  lemma RecordHeadReads(before: bytes, head: bytes, r: RecordForm, behind: bytes)
    requires GoodRecord(r)
    requires head == Put16(TypeOf(r.data)) + r.rclass + r.ttl + Put16(|DataBytes(r.data)|)
    ensures var msg, q := before + head + behind, |before|;
            && U16(msg, q) == TypeOf(r.data) && U16(msg, q + 8) == |DataBytes(r.data)|
            && msg[q..q + 2] == Put16(TypeOf(r.data)) && msg[q + 2..q + 4] == r.rclass && msg[q + 4..q + 8] == r.ttl
  {
    var t, n := TypeOf(r.data), |DataBytes(r.data)|;
    var msg := before + head + behind;
    assert msg == before + Put16(t) + (r.rclass + r.ttl + Put16(n) + behind);
    Put16Reads(t, before, r.rclass + r.ttl + Put16(n) + behind);
    var upto := before + Put16(t) + r.rclass + r.ttl;
    assert msg == upto + Put16(n) + behind;
    Put16Reads(n, upto, behind);
    hide Put16, U16, DataBytes;
  }

  function HeadBytes(r: RecordForm): bytes
    requires GoodRecord(r)
  {
    Put16(TypeOf(r.data)) + r.rclass + r.ttl + Put16(|DataBytes(r.data)|)
  }

  /** The three parts of a record, and what follows, seen from the start of each. */
  lemma RecordLayout(before: bytes, r: RecordForm, behind: bytes)
    requires GoodRecord(r)
    ensures var name, head, data := Encoded(r.labels), HeadBytes(r), DataBytes(r.data);
            var msg := before + RecordBytes(r) + behind;
            && |head| == RECORD_HEAD && |RecordBytes(r)| == |name| + RECORD_HEAD + |data|
            && msg == before + name + (head + data + behind)
            && msg == before + name + head + (data + behind)
            && msg == before + name + head + data + behind
  {
    hide Encoded, DataBytes, Put16;
    var name, head, data := Encoded(r.labels), HeadBytes(r), DataBytes(r.data);
    assert RecordBytes(r) == name + (head + data);
  }

  /** The parts of `decode_rr` put together. */
  lemma RecordAtName(msg: bytes, p: nat, n: Name, data: Rdata)
    requires p + n.len + RECORD_HEAD <= |msg| && ReadDomain(msg, p, [], 0) == Some(n)
    requires var q := p + n.len;
             var d, rdlen := q + RECORD_HEAD, U16(msg, q + 8);
             d + rdlen <= |msg| && ReadRdata(msg, U16(msg, q), d, rdlen) == Fine(data)
    ensures var q := p + n.len;
            ReadRecord(msg, p) == Fine((Record(n.text, msg[q..q + 2], msg[q + 2..q + 4], msg[q + 4..q + 8], data),
                                        q + RECORD_HEAD + U16(msg, q + 8)))
  {
    hide ReadDomain, ReadRdata, U16;
  }

  lemma RecordReads(before: bytes, r: RecordForm, behind: bytes)
    requires GoodRecord(r)
    ensures var msg := before + RecordBytes(r) + behind;
            ReadRecord(msg, |before|) == Fine((RecordValue(r), |before + RecordBytes(r)|))
  {
    hide ReadDomain, Encoded, ReadRdata, ReadRecord, U16, Put16, RecordBytes, DataBytes, DataValue, GoodData, Proper,
      Dotted, IsPointer, Target, TypeOf;
    var name, head, data := Encoded(r.labels), HeadBytes(r), DataBytes(r.data);
    var msg := before + RecordBytes(r) + behind;
    RecordLayout(before, r, behind);
    NameRoundTrip(before, r.labels, head + data + behind, 0);
    RecordHeadReads(before + name, head, r, data + behind);
    DataReads(before + name + head, r.data, behind);
    hide HeadBytes, GoodRecord;
    assert |before + name| == |before| + |name| && |before + name + head| == |before| + |name| + RECORD_HEAD;
    RecordAtName(msg, |before|, Name(Dotted(r.labels), |name|), DataValue(r.data));
  }

  // ------------------------------------------------------------------- sections

  predicate GoodQuestions(qs: seq<QuestionForm>) {
    forall i :: 0 <= i < |qs| ==> GoodQuestion(qs[i])
  }

  predicate GoodRecords(rs: seq<RecordForm>) {
    forall i :: 0 <= i < |rs| ==> GoodRecord(rs[i])
  }

  function QuestionsBytes(qs: seq<QuestionForm>): bytes
    requires GoodQuestions(qs)
  {
    if |qs| == 0 then [] else QuestionBytes(qs[0]) + QuestionsBytes(qs[1..])
  }

  function RecordsBytes(rs: seq<RecordForm>): bytes
    requires GoodRecords(rs)
  {
    if |rs| == 0 then [] else RecordBytes(rs[0]) + RecordsBytes(rs[1..])
  }

  function QuestionValues(qs: seq<QuestionForm>): seq<Question> {
    if |qs| == 0 then [] else [QuestionValue(qs[0])] + QuestionValues(qs[1..])
  }

  function RecordValues(rs: seq<RecordForm>): seq<Record>
    requires GoodRecords(rs)
  {
    if |rs| == 0 then [] else [RecordValue(rs[0])] + RecordValues(rs[1..])
  }

  lemma Regroup(before: bytes, x: bytes, y: bytes, behind: bytes)
    ensures before + (x + y) + behind == before + x + (y + behind)
    ensures before + (x + y) + behind == before + x + y + behind
    ensures |before + (x + y)| == |before + x + y|
  {
  }

  lemma {:induction false} QuestionsRead(before: bytes, qs: seq<QuestionForm>, behind: bytes)
    requires GoodQuestions(qs)
    ensures var msg := before + QuestionsBytes(qs) + behind;
            Questions(msg, |before|, |qs|) == Section(QuestionValues(qs), Fine(|before + QuestionsBytes(qs)|))
    decreases |qs|
  {
    if |qs| == 0 {
      assert before + [] == before;
    } else {
      var x, y := QuestionBytes(qs[0]), QuestionsBytes(qs[1..]);
      assert QuestionsBytes(qs) == x + y;
      Regroup(before, x, y, behind);
      QuestionReads(before, qs[0], y + behind);
      QuestionsRead(before + x, qs[1..], behind);
      hide ReadQuestion, QuestionBytes, QuestionValue;
    }
  }

  lemma {:induction false} RecordsRead(before: bytes, rs: seq<RecordForm>, behind: bytes)
    requires GoodRecords(rs)
    ensures var msg := before + RecordsBytes(rs) + behind;
            Records(msg, |before|, |rs|) == Section(RecordValues(rs), Fine(|before + RecordsBytes(rs)|))
    decreases |rs|
  {
    if |rs| == 0 {
      assert before + [] == before;
    } else {
      var x, y := RecordBytes(rs[0]), RecordsBytes(rs[1..]);
      assert RecordsBytes(rs) == x + y;
      Regroup(before, x, y, behind);
      RecordReads(before, rs[0], y + behind);
      RecordsRead(before + x, rs[1..], behind);
      hide ReadRecord, RecordBytes, RecordValue, GoodRecord;
    }
  }

  // -------------------------------------------------------------------- messages

  predicate GoodMessage(m: MessageForm) {
    && |m.front| == 4 && GoodQuestions(m.qd) && GoodRecords(m.an) && GoodRecords(m.ns) && GoodRecords(m.ar)
    && |m.qd| < 0x1_0000 && |m.an| < 0x1_0000 && |m.ns| < 0x1_0000 && |m.ar| < 0x1_0000
  }

  function HeaderBytes(m: MessageForm): (r: bytes)
    requires GoodMessage(m)
    ensures |r| == SIZEOF_DNS_HEADER
  {
    m.front + Put16(|m.qd|) + Put16(|m.an|) + Put16(|m.ns|) + Put16(|m.ar|)
  }

  function MessageBytes(m: MessageForm): bytes
    requires GoodMessage(m)
  {
    HeaderBytes(m) + QuestionsBytes(m.qd) + RecordsBytes(m.an) + RecordsBytes(m.ns) + RecordsBytes(m.ar)
  }

  lemma CountsRead(m: MessageForm, rest: bytes)
    requires GoodMessage(m)
    ensures var msg := HeaderBytes(m) + rest;
            QdCount(msg) == |m.qd| && AnCount(msg) == |m.an| && NsCount(msg) == |m.ns| && ArCount(msg) == |m.ar|
  {
    var a, b, c, d := Put16(|m.qd|), Put16(|m.an|), Put16(|m.ns|), Put16(|m.ar|);
    var msg := HeaderBytes(m) + rest;
    hide Put16, U16, GoodQuestions, GoodRecords;
    assert msg == m.front + a + (b + c + d + rest);
    Put16Reads(|m.qd|, m.front, b + c + d + rest);
    assert msg == (m.front + a) + b + (c + d + rest);
    Put16Reads(|m.an|, m.front + a, c + d + rest);
    assert msg == (m.front + a + b) + c + (d + rest);
    Put16Reads(|m.ns|, m.front + a + b, d + rest);
    assert msg == (m.front + a + b + c) + d + rest;
    Put16Reads(|m.ar|, m.front + a + b + c, rest);
  }

  lemma FiveParts(h: bytes, q: bytes, a: bytes, n: bytes, r: bytes)
    ensures var msg := h + q + a + n + r;
            && msg == h + (q + a + n + r) && msg == h + q + (a + n + r) && msg == h + q + a + (n + r)
            && msg == h + q + a + n + r + []
  {
  }

  /** Round trip of whole messages: a message of any questions and records, written down, is accepted, and every list
      holds the values written, in order. */
  lemma MessageRoundTrip(m: MessageForm)
    requires GoodMessage(m)
    ensures var msg := MessageBytes(m);
            && Accepts(msg)
            && var s := ReadSections(msg);
            && s.qd.items == QuestionValues(m.qd) && s.an.items == RecordValues(m.an)
            && s.ns.items == RecordValues(m.ns) && s.ar.items == RecordValues(m.ar)
  {
    var h, q := HeaderBytes(m), QuestionsBytes(m.qd);
    var a, n, r := RecordsBytes(m.an), RecordsBytes(m.ns), RecordsBytes(m.ar);
    FiveParts(h, q, a, n, r);
    hide HeaderBytes, QuestionsBytes, RecordsBytes, Questions, Records, QuestionValues, RecordValues;
    CountsRead(m, q + a + n + r);
    QuestionsRead(h, m.qd, a + n + r);
    RecordsRead(h + q, m.an, n + r);
    RecordsRead(h + q + a, m.ns, r);
    RecordsRead(h + q + a + n, m.ar, []);
    hide GoodQuestions, GoodRecords, QdCount, AnCount, NsCount, ArCount;
  }
}
