/** A whole DNS datagram: header, questions and resource records (src/cdpi_dns.hpp, src/cdpi_dns.cpp). */
module DnsMessage {
  import opened Bytes
  import opened DnsName

  const SIZEOF_DNS_HEADER := 12
  const QUESTION_TAIL := 4
  const RECORD_HEAD := 10
  const SOA_TAIL := 20

  const TYPE_A := 1
  const TYPE_NS := 2
  const TYPE_CNAME := 5
  const TYPE_SOA := 6
  const TYPE_PTR := 12
  const TYPE_HINFO := 13
  const TYPE_MX := 15
  const TYPE_TXT := 16
  const TYPE_AAAA := 28

  /** Types, classes and times stay as they are in the packet. */
  datatype Question = Question(qname: bytes, qtype: bytes, qclass: bytes)

  datatype Rdata =
    | NoData
    | Address(a: bytes)
    | DomainName(n: bytes)
    | Mx(preference: bytes, exchange: bytes)
    | Txt(txt: bytes)
    | Hinfo(cpu: bytes, os: bytes)
    | Soa(mname: bytes, rname: bytes, numbers: bytes)

  datatype Record = Record(name: bytes, rtype: bytes, rclass: bytes, ttl: bytes, rdata: Rdata)

  /** `Undefined`: the program reads behind the datagram. */
  datatype Verdict<T> = Fine(value: T) | Refused | Undefined

  // ------------------------------------------------------------------- questions

  /** One round of `decode_question`: the question and the position behind it. */
  function ReadQuestion(msg: bytes, p: nat): Option<(Question, nat)>
    requires p <= |msg|
  {
    match ReadDomain(msg, p, [], 0)
    case None => None
    case Some(n) =>
      var q := p + n.len;
      if q + QUESTION_TAIL > |msg| then None
      else Some((Question(n.text, msg[q..q + 2], msg[q + 2..q + 4]), q + QUESTION_TAIL))
  }

  // --------------------------------------------------------------------- records

  function NameData(msg: bytes, p: nat): Verdict<Rdata>
    requires p <= |msg|
  {
    match ReadDomain(msg, p, [], 0)
    case None => Refused
    case Some(n) => Fine(DomainName(n.text))
  }

  /** `decode_mx`: the exchange is read from where the preference stands. */
  function MxData(msg: bytes, p: nat, rdlen: nat): Verdict<Rdata>
    requires p + rdlen <= |msg|
  {
    if rdlen < 2 then Refused
    else
      match ReadDomain(msg, p, [], 0)
      case None => Refused
      case Some(n) => Fine(Mx(msg[p..p + 2], n.text))
  }

  function TxtData(msg: bytes, p: nat, rdlen: nat): Verdict<Rdata>
    requires p + rdlen <= |msg|
  {
    if rdlen <= 1 || msg[p] as int != rdlen - 1 then Refused
    else Fine(Txt(msg[p + 1..p + rdlen]))
  }

  /** `decode_hinfo`: the step over the first string is an 8-bit number, so it is 0 after a string of 255. */
  function HinfoData(msg: bytes, p: nat, rdlen: nat): Verdict<Rdata>
    requires p + rdlen <= |msg|
  {
    if rdlen < 1 || msg[p] as int > rdlen - 1 then Refused
    else
      var n := msg[p] as int;
      var step := (n + 1) % 256;
      if rdlen - step < 1 || msg[p + step] as int != rdlen - step - 1 then Refused
      else Fine(Hinfo(msg[p + 1..p + 1 + n], msg[p + step + 1..p + rdlen]))
  }

  /** `decode_soa`: of the twenty bytes behind the names four are checked. */
  function SoaData(msg: bytes, p: nat): Verdict<Rdata>
    requires p <= |msg|
  {
    match ReadDomain(msg, p, [], 0)
    case None => Refused
    case Some(m) =>
      NameFits(msg, p);
      match ReadDomain(msg, p + m.len, [], 0)
      case None => Refused
      case Some(r) =>
        var q := p + m.len + r.len;
        if q + 4 > |msg| then Refused
        else if q + SOA_TAIL > |msg| then Undefined
        else Fine(Soa(m.text, r.text, msg[q..q + SOA_TAIL]))
  }

  /** The switch of `decode_rr`. */
  function ReadRdata(msg: bytes, rtype: nat, p: nat, rdlen: nat): Verdict<Rdata>
    requires p + rdlen <= |msg|
  {
    if rtype == TYPE_SOA then SoaData(msg, p)
    else if rtype == TYPE_TXT then TxtData(msg, p, rdlen)
    else if rtype == TYPE_A then if rdlen < 4 then Refused else Fine(Address(msg[p..p + 4]))
    else if rtype == TYPE_AAAA then if rdlen < 16 then Refused else Fine(Address(msg[p..p + 16]))
    else if rtype == TYPE_NS || rtype == TYPE_CNAME || rtype == TYPE_PTR then NameData(msg, p)
    else if rtype == TYPE_MX then MxData(msg, p, rdlen)
    else if rtype == TYPE_HINFO then HinfoData(msg, p, rdlen)
    else Fine(NoData)
  }

  /** One round of `decode_rr`. */
  function ReadRecord(msg: bytes, p: nat): Verdict<(Record, nat)>
    requires p <= |msg|
  {
    match ReadDomain(msg, p, [], 0)
    case None => Refused
    case Some(n) =>
      var q := p + n.len;
      if q + RECORD_HEAD > |msg| then Refused
      else
        var d, rdlen := q + RECORD_HEAD, U16(msg, q + 8);
        if d + rdlen > |msg| then Refused
        else
          match ReadRdata(msg, U16(msg, q), d, rdlen)
          case Refused => Refused
          case Undefined => Undefined
          case Fine(data) =>
            Fine((Record(n.text, msg[q..q + 2], msg[q + 2..q + 4], msg[q + 4..q + 8], data), d + rdlen))
  }

  // -------------------------------------------------------------------- sections

  /** The entries a section loop appended, and where it ended. */
  datatype Section<T> = Section(items: seq<T>, end: Verdict<nat>)

  function Onto<T>(done: seq<T>, s: Section<T>): Section<T> {
    s.(items := done + s.items)
  }

  function Questions(msg: bytes, p: nat, num: nat): (s: Section<Question>)
    requires p <= |msg|
    ensures s.end.Fine? ==> s.end.value <= |msg|
    ensures !s.end.Undefined?
    decreases num
  {
    if num == 0 then Section([], Fine(p))
    else
      match ReadQuestion(msg, p)
      case None => Section([], Refused)
      case Some((q, next)) => Onto([q], Questions(msg, next, num - 1))
  }

  function Records(msg: bytes, p: nat, num: nat): (s: Section<Record>)
    requires p <= |msg|
    ensures s.end.Fine? ==> s.end.value <= |msg|
    decreases num
  {
    if num == 0 then Section([], Fine(p))
    else
      match ReadRecord(msg, p)
      case Refused => Section([], Refused)
      case Undefined => Section([], Undefined)
      case Fine((r, next)) => Onto([r], Records(msg, next, num - 1))
  }

  function RecordsFrom(msg: bytes, at: Verdict<nat>, num: nat): (s: Section<Record>)
    requires at.Fine? ==> at.value <= |msg|
    ensures s.end.Fine? ==> s.end.value <= |msg|
  {
    match at
    case Fine(p) => Records(msg, p, num)
    case Refused => Section([], Refused)
    case Undefined => Section([], Undefined)
  }

  function QdCount(msg: bytes): nat requires |msg| >= SIZEOF_DNS_HEADER { U16(msg, 4) }
  function AnCount(msg: bytes): nat requires |msg| >= SIZEOF_DNS_HEADER { U16(msg, 6) }
  function NsCount(msg: bytes): nat requires |msg| >= SIZEOF_DNS_HEADER { U16(msg, 8) }
  function ArCount(msg: bytes): nat requires |msg| >= SIZEOF_DNS_HEADER { U16(msg, 10) }

  /** The four section loops; a section behind a refused one stays empty. */
  datatype Sections = Sections(qd: Section<Question>, an: Section<Record>, ns: Section<Record>, ar: Section<Record>)

  function ReadSections(msg: bytes): Sections
    requires |msg| >= SIZEOF_DNS_HEADER
  {
    var qd := Questions(msg, SIZEOF_DNS_HEADER, QdCount(msg));
    var an := RecordsFrom(msg, qd.end, AnCount(msg));
    var ns := RecordsFrom(msg, an.end, NsCount(msg));
    var ar := RecordsFrom(msg, ns.end, ArCount(msg));
    Sections(qd, an, ns, ar)
  }

  /** `decode` returns true. */
  predicate Accepts(msg: bytes) {
    |msg| >= SIZEOF_DNS_HEADER && ReadSections(msg).ar.end == Fine(|msg|)
  }

  // --------------------------------------------------------------- what it means

  /** An entry of the question section stands at msg[a..b]. */
  ghost predicate QuestionAt(msg: bytes, a: nat, b: nat) {
    exists n :: NameAt(msg, a, n) && b == a + n + QUESTION_TAIL && b <= |msg|
  }

  ghost predicate SomeName(msg: bytes, p: nat) {
    exists n :: NameAt(msg, p, n)
  }

  /** Two strings with a length byte each; or, because of the 8-bit step, 256 bytes that start with 255. */
  predicate HinfoFits(msg: bytes, p: nat, rdlen: nat)
    requires p + rdlen <= |msg|
  {
    || (rdlen >= 2 && msg[p] < 255 && msg[p] as int + 2 <= rdlen
        && msg[p] as int + 2 + msg[p + 1 + msg[p] as int] as int == rdlen)
    || (rdlen == 256 && msg[p] == 255)
  }

  ghost predicate SoaFits(msg: bytes, p: nat) {
    exists m :: NameAt(msg, p, m) && RestOfSoa(msg, p + m)
  }

  ghost predicate RestOfSoa(msg: bytes, p: nat) {
    exists n :: NameAt(msg, p, n) && p + n + SOA_TAIL <= |msg|
  }

  ghost predicate RdataFits(msg: bytes, rtype: nat, p: nat, rdlen: nat)
    requires p + rdlen <= |msg|
  {
    && (rtype == TYPE_A ==> rdlen >= 4)
    && (rtype == TYPE_AAAA ==> rdlen >= 16)
    && (rtype in {TYPE_NS, TYPE_CNAME, TYPE_PTR} ==> SomeName(msg, p))
    && (rtype == TYPE_MX ==> rdlen >= 2 && SomeName(msg, p))
    && (rtype == TYPE_TXT ==> rdlen >= 2 && msg[p] as int == rdlen - 1)
    && (rtype == TYPE_HINFO ==> HinfoFits(msg, p, rdlen))
    && (rtype == TYPE_SOA ==> SoaFits(msg, p))
  }

  /** A resource record stands at msg[a..b]: name, ten bytes, and as many bytes of data as they announce. */
  ghost predicate RecordAt(msg: bytes, a: nat, b: nat) {
    exists n :: NameAt(msg, a, n) && RecordWithName(msg, a, n, b)
  }

  ghost predicate RecordWithName(msg: bytes, a: nat, n: nat, b: nat) {
    var q := a + n;
    && q + RECORD_HEAD <= b <= |msg|
    && b == q + RECORD_HEAD + U16(msg, q + 8)
    && RdataFits(msg, U16(msg, q), q + RECORD_HEAD, U16(msg, q + 8))
  }

  /** Cuts of the datagram: entries i stands between cuts[i] and cuts[i + 1], questions first. */
  ghost predicate Tiles(msg: bytes, cuts: seq<nat>) {
    && |msg| >= SIZEOF_DNS_HEADER
    && |cuts| == QdCount(msg) + AnCount(msg) + NsCount(msg) + ArCount(msg) + 1
    && cuts[0] == SIZEOF_DNS_HEADER && cuts[|cuts| - 1] == |msg|
    && (forall i :: 0 <= i < QdCount(msg) ==> QuestionAt(msg, cuts[i], cuts[i + 1]))
    && (forall i :: QdCount(msg) <= i < |cuts| - 1 ==> RecordAt(msg, cuts[i], cuts[i + 1]))
  }

  // --------------------------------------------------------- reading is meaning

  lemma NameIff(msg: bytes, p: nat) returns (n: nat)
    requires p <= |msg|
    ensures SomeName(msg, p) <==> ReadDomain(msg, p, [], 0).Some?
    ensures ReadDomain(msg, p, [], 0).Some? ==>
              n == ReadDomain(msg, p, [], 0).value.len && NameAt(msg, p, n) && p + n <= |msg|
    ensures forall m :: NameAt(msg, p, m) ==> m == n
  {
    hide NameAt;
    n := if ReadDomain(msg, p, [], 0).Some? then ReadDomain(msg, p, [], 0).value.len else 0;
    ReadsNameAt(msg, p, n);
    if ReadDomain(msg, p, [], 0).Some? { NameFits(msg, p); }
    forall m | NameAt(msg, p, m) ensures ReadDomain(msg, p, [], 0).Some? && m == n {
      ReadsNameAt(msg, p, m);
    }
    hide ReadDomain;
  }

  lemma QuestionIff(msg: bytes, a: nat, b: nat)
    requires a <= |msg|
    ensures QuestionAt(msg, a, b) <==> ReadQuestion(msg, a).Some? && ReadQuestion(msg, a).value.1 == b
  {
    var n := NameIff(msg, a);
    hide NameAt, ReadDomain;
  }

  lemma SoaIff(msg: bytes, p: nat)
    requires p <= |msg|
    ensures SoaFits(msg, p) <==> SoaData(msg, p).Fine?
  {
    var m := NameIff(msg, p);
    if ReadDomain(msg, p, [], 0).Some? {
      var n := NameIff(msg, p + m);
      assert RestOfSoa(msg, p + m) <==> ReadDomain(msg, p + m, [], 0).Some? && p + m + n + SOA_TAIL <= |msg|;
    }
    hide NameAt, ReadDomain;
  }

  lemma {:induction false} HinfoIff(msg: bytes, p: nat, rdlen: nat)
    requires p + rdlen <= |msg|
    ensures HinfoFits(msg, p, rdlen) <==> HinfoData(msg, p, rdlen).Fine?
  {
  }

  lemma RdataIff(msg: bytes, rtype: nat, p: nat, rdlen: nat)
    requires p + rdlen <= |msg|
    ensures RdataFits(msg, rtype, p, rdlen) <==> ReadRdata(msg, rtype, p, rdlen).Fine?
  {
    SoaIff(msg, p);
    HinfoIff(msg, p, rdlen);
    var n := NameIff(msg, p);
    hide NameAt, ReadDomain, SoaFits, SoaData, HinfoFits, HinfoData;
  }

  lemma RecordWithNameIff(msg: bytes, a: nat, n: nat, b: nat)
    requires a + n <= |msg|
    ensures RecordWithName(msg, a, n, b) <==>
              var q := a + n;
              && q + RECORD_HEAD <= |msg| && b == q + RECORD_HEAD + U16(msg, q + 8) && b <= |msg|
              && ReadRdata(msg, U16(msg, q), q + RECORD_HEAD, U16(msg, q + 8)).Fine?
  {
    var q := a + n;
    if q + RECORD_HEAD <= |msg| && q + RECORD_HEAD + U16(msg, q + 8) <= |msg| {
      RdataIff(msg, U16(msg, q), q + RECORD_HEAD, U16(msg, q + 8));
    }
    hide RdataFits, ReadRdata;
  }

  lemma RecordIff(msg: bytes, a: nat, b: nat)
    requires a <= |msg|
    ensures RecordAt(msg, a, b) <==> ReadRecord(msg, a).Fine? && ReadRecord(msg, a).value.1 == b
  {
    hide NameAt, ReadDomain, RdataFits, ReadRdata, RecordWithName, U16;
    var n := NameIff(msg, a);
    if ReadDomain(msg, a, [], 0).Some? { RecordWithNameIff(msg, a, n, b); }
  }

  /** Entries of one section: each stands where the one before it ended. */
  ghost predicate QuestionRun(msg: bytes, cuts: seq<nat>) {
    |cuts| > 0 && forall i :: 0 <= i < |cuts| - 1 ==> QuestionAt(msg, cuts[i], cuts[i + 1])
  }

  ghost predicate RecordRun(msg: bytes, cuts: seq<nat>) {
    |cuts| > 0 && forall i :: 0 <= i < |cuts| - 1 ==> RecordAt(msg, cuts[i], cuts[i + 1])
  }

  lemma {:induction false} QuestionsFollow(msg: bytes, cuts: seq<nat>)
    requires QuestionRun(msg, cuts) && cuts[0] <= |msg|
    ensures Questions(msg, cuts[0], |cuts| - 1).end == Fine(cuts[|cuts| - 1])
    decreases |cuts|
  {
    if |cuts| > 1 {
      QuestionRunTail(msg, cuts);
      hide QuestionAt, ReadQuestion, QuestionRun;
      QuestionIff(msg, cuts[0], cuts[1]);
      QuestionsFollow(msg, cuts[1..]);
    }
  }

  lemma QuestionRunTail(msg: bytes, cuts: seq<nat>)
    requires QuestionRun(msg, cuts) && |cuts| > 1
    ensures QuestionAt(msg, cuts[0], cuts[1]) && QuestionRun(msg, cuts[1..]) && cuts[1..][0] == cuts[1]
  {
    hide QuestionAt;
    forall i | 0 <= i < |cuts[1..]| - 1 ensures QuestionAt(msg, cuts[1..][i], cuts[1..][i + 1]) {
      assert QuestionAt(msg, cuts[i + 1], cuts[i + 1 + 1]);
    }
  }

  lemma {:induction false} QuestionCuts(msg: bytes, p: nat, num: nat) returns (cuts: seq<nat>)
    requires p <= |msg| && Questions(msg, p, num).end.Fine?
    ensures |cuts| == num + 1 && cuts[0] == p && cuts[num] == Questions(msg, p, num).end.value && QuestionRun(msg, cuts)
    ensures |Questions(msg, p, num).items| == num
    decreases num
  {
    cuts := [p];
    if num > 0 {
      var next := ReadQuestion(msg, p).value.1;
      QuestionIff(msg, p, next);
      hide QuestionAt, ReadQuestion;
      var rest := QuestionCuts(msg, next, num - 1);
      cuts := cuts + rest;
      assert forall i :: 1 <= i < |cuts| ==> cuts[i] == rest[i - 1];
    }
  }

  lemma {:induction false} RecordsFollow(msg: bytes, cuts: seq<nat>)
    requires RecordRun(msg, cuts) && cuts[0] <= |msg|
    ensures Records(msg, cuts[0], |cuts| - 1).end == Fine(cuts[|cuts| - 1])
    decreases |cuts|
  {
    if |cuts| > 1 {
      RecordRunTail(msg, cuts);
      hide RecordAt, ReadRecord, RecordRun;
      RecordIff(msg, cuts[0], cuts[1]);
      RecordsFollow(msg, cuts[1..]);
    }
  }

  lemma RecordRunTail(msg: bytes, cuts: seq<nat>)
    requires RecordRun(msg, cuts) && |cuts| > 1
    ensures RecordAt(msg, cuts[0], cuts[1]) && RecordRun(msg, cuts[1..]) && cuts[1..][0] == cuts[1]
  {
    hide RecordAt;
    forall i | 0 <= i < |cuts[1..]| - 1 ensures RecordAt(msg, cuts[1..][i], cuts[1..][i + 1]) {
      assert RecordAt(msg, cuts[i + 1], cuts[i + 1 + 1]);
    }
  }

  lemma {:induction false} RecordCuts(msg: bytes, p: nat, num: nat) returns (cuts: seq<nat>)
    requires p <= |msg| && Records(msg, p, num).end.Fine?
    ensures |cuts| == num + 1 && cuts[0] == p && cuts[num] == Records(msg, p, num).end.value && RecordRun(msg, cuts)
    ensures |Records(msg, p, num).items| == num
    decreases num
  {
    cuts := [p];
    if num > 0 {
      var next := ReadRecord(msg, p).value.1;
      RecordIff(msg, p, next);
      hide RecordAt, ReadRecord;
      var rest := RecordCuts(msg, next, num - 1);
      cuts := cuts + rest;
      assert forall i :: 1 <= i < |cuts| ==> cuts[i] == rest[i - 1];
    }
  }

  // ------------------------------------------------------------- the main result

  /** Where the sections meet. */
  lemma TilesAreRead(msg: bytes, cuts: seq<nat>)
    requires Tiles(msg, cuts)
    ensures Accepts(msg)
  {
    hide QuestionAt, RecordAt, Questions, Records;
    var a := QdCount(msg);
    var b := a + AnCount(msg);
    var c := b + NsCount(msg);
    var e := |cuts| - 1;
    assert QuestionRun(msg, cuts[..a + 1]);
    RunOfTiles(msg, cuts, a, b);
    RunOfTiles(msg, cuts, b, c);
    RunOfTiles(msg, cuts, c, e);
    QuestionsFollow(msg, cuts[..a + 1]);
    RecordsReach(msg, cuts, a, b);
    RecordsReach(msg, cuts, b, c);
    RecordsReach(msg, cuts, c, e);
    hide QuestionRun, RecordRun;
  }

  lemma {:induction false} RecordsReach(msg: bytes, cuts: seq<nat>, a: nat, b: nat)
    requires a <= b < |cuts| && RecordRun(msg, cuts[a..b + 1]) && cuts[a] <= |msg|
    ensures Records(msg, cuts[a], b - a).end == Fine(cuts[b])
  {
    hide RecordRun, Records;
    var run := cuts[a..b + 1];
    assert |run| == b - a + 1 && run[0] == cuts[a] && run[b - a] == cuts[b];
    RecordsFollow(msg, run);
  }

  lemma RunOfTiles(msg: bytes, cuts: seq<nat>, a: nat, b: nat)
    requires Tiles(msg, cuts) && QdCount(msg) <= a <= b < |cuts|
    ensures RecordRun(msg, cuts[a..b + 1])
  {
    var run := cuts[a..b + 1];
    forall i | 0 <= i < |run| - 1 ensures RecordAt(msg, run[i], run[i + 1]) {
      assert RecordAt(msg, cuts[a + i], cuts[a + i + 1]);
    }
    hide RecordAt, QuestionAt;
  }

  lemma JoinRuns(msg: bytes, x: seq<nat>, y: seq<nat>)
    requires RecordRun(msg, x) && RecordRun(msg, y) && x[|x| - 1] == y[0]
    ensures RecordRun(msg, x + y[1..])
  {
    var z := x + y[1..];
    forall i | 0 <= i < |z| - 1 ensures RecordAt(msg, z[i], z[i + 1]) {
      if i >= |x| - 1 { assert RecordAt(msg, y[i - (|x| - 1)], y[i - (|x| - 1) + 1]); }
    }
    hide RecordAt;
  }

  lemma {:induction false} ReadIsTiled(msg: bytes) returns (cuts: seq<nat>)
    requires Accepts(msg)
    ensures Tiles(msg, cuts)
    ensures var r := ReadSections(msg);
            && |r.qd.items| == QdCount(msg) && |r.an.items| == AnCount(msg)
            && |r.ns.items| == NsCount(msg) && |r.ar.items| == ArCount(msg)
  {
    hide QuestionAt, RecordAt, Questions, Records;
    var r := ReadSections(msg);
    var qd := QuestionCuts(msg, SIZEOF_DNS_HEADER, QdCount(msg));
    var an := RecordCuts(msg, r.qd.end.value, AnCount(msg));
    var ns := RecordCuts(msg, r.an.end.value, NsCount(msg));
    var ar := RecordCuts(msg, r.ns.end.value, ArCount(msg));
    JoinRuns(msg, an, ns);
    JoinRuns(msg, an + ns[1..], ar);
    var records := an + ns[1..] + ar[1..];
    cuts := qd + records[1..];
    TilesFromRuns(msg, qd, records);
  }

  lemma TilesFromRuns(msg: bytes, qd: seq<nat>, records: seq<nat>)
    requires |msg| >= SIZEOF_DNS_HEADER
    requires QuestionRun(msg, qd) && |qd| == QdCount(msg) + 1 && qd[0] == SIZEOF_DNS_HEADER
    requires RecordRun(msg, records) && |records| == AnCount(msg) + NsCount(msg) + ArCount(msg) + 1
    requires qd[|qd| - 1] == records[0] && records[|records| - 1] == |msg|
    ensures Tiles(msg, qd + records[1..])
  {
    var cuts := qd + records[1..];
    var n := QdCount(msg);
    forall i | n <= i < |cuts| - 1 ensures RecordAt(msg, cuts[i], cuts[i + 1]) {
      assert RecordAt(msg, records[i - n], records[i - n + 1]);
    }
    forall i | 0 <= i < n ensures QuestionAt(msg, cuts[i], cuts[i + 1]) {
      assert QuestionAt(msg, qd[i], qd[i + 1]);
    }
    hide QuestionAt, RecordAt;
  }

  /** `decode` returns true exactly when the header and as many questions and records as it announces, in the order
      of the sections, cover the datagram with nothing left over; the lists then hold as many entries. */
  lemma AcceptsIffTiled(msg: bytes)
    ensures Accepts(msg) <==> exists cuts :: Tiles(msg, cuts)
    ensures Accepts(msg) ==>
              var r := ReadSections(msg);
              && |r.qd.items| == QdCount(msg) && |r.an.items| == AnCount(msg)
              && |r.ns.items| == NsCount(msg) && |r.ar.items| == ArCount(msg)
  {
    hide Tiles;
    if Accepts(msg) {
      var cuts := ReadIsTiled(msg);
    }
    forall cuts | Tiles(msg, cuts) ensures Accepts(msg) {
      TilesAreRead(msg, cuts);
    }
    hide Accepts, ReadSections;
  }
}
