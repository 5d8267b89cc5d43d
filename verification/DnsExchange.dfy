/** What becomes of MX data, whose exchange is read from where its preference stands (src/cdpi_dns.cpp). */
module DnsExchange {
  import opened Bytes
  import opened DnsName
  import opened DnsMessage
  import opened DnsRoundTrip

  /** MX data as section 3.3.9 of RFC 1035 lays it out. */
  function MxBytes(preference: nat, labels: seq<bytes>): bytes
    requires preference < 0x1_0000 && Proper(labels)
  {
    Put16(preference) + Encoded(labels)
  }

  function Message(before: bytes, preference: nat, labels: seq<bytes>, behind: bytes): bytes
    requires preference < 0x1_0000 && Proper(labels)
  {
    before + MxBytes(preference, labels) + behind
  }

  /** What `decode_mx` makes of it. */
  function Exchanged(before: bytes, preference: nat, labels: seq<bytes>, behind: bytes): Verdict<Rdata>
    requires preference < 0x1_0000 && Proper(labels)
  {
    MxData(Message(before, preference, labels, behind), |before|, |MxBytes(preference, labels)|)
  }

  predicate ReadsBack(before: bytes, preference: nat, labels: seq<bytes>, behind: bytes)
    requires preference < 0x1_0000 && Proper(labels)
  {
    Exchanged(before, preference, labels, behind) == Fine(Mx(Put16(preference), Dotted(labels)))
  }

  /** The name read at p has this text. */
  predicate SaysText(msg: bytes, p: nat, text: bytes)
    requires p <= |msg|
  {
    var r := ReadLabels(msg, p, [], 0);
    r.Some? && r.value.text == text
  }

  lemma MxText(msg: bytes, p: nat, rdlen: nat, text: bytes)
    requires rdlen >= 2 && p + rdlen <= |msg|
    ensures MxData(msg, p, rdlen) == Fine(Mx(msg[p..p + 2], text)) <==> SaysText(msg, p, text)
  {
    assert ReadDomain(msg, p, [], 0) == ReadLabels(msg, p, [], 0);
    hide ReadDomain, ReadLabels;
  }

  // -------------------------------------------------------------------- lengths

  lemma {:induction false} DottedOntoLength(domain: bytes, labels: seq<bytes>)
    requires domain != [] && Proper(labels)
    ensures |DottedOnto(domain, labels)| == |domain| + WireLength(labels) - 1
    decreases |labels|
  {
    if |labels| > 0 { DottedOntoLength(Joined(domain, labels[0]), labels[1..]); }
  }

  /** The text of a name is two bytes shorter than its wire form. */
  lemma DottedLength(labels: seq<bytes>)
    requires Proper(labels)
    ensures labels != [] ==> |Dotted(labels)| == |Encoded(labels)| - 2 > 0
    ensures Dotted(labels) == [] <==> labels == []
  {
    DottedFromFront(labels);
    EncodedLength(labels);
    if labels != [] { DottedOntoLength(labels[0], labels[1..]); }
  }

  lemma {:induction false} TextGrows(msg: bytes, q: nat, domain: bytes, counter: nat)
    requires q <= |msg| && counter <= MAX_JUMPS && ReadLabels(msg, q, domain, counter).Some?
    ensures |ReadLabels(msg, q, domain, counter).value.text| >= |domain|
    decreases MAX_JUMPS + 1 - counter, |msg| - q
  {
    if IsLabel(msg, q) {
      TextGrows(msg, q + 1 + msg[q] as int, Joined(domain, LabelAt(msg, q)), counter);
    } else if msg[q] >= 64 {
      TextGrows(msg, Target(msg, q), domain, counter + 1);
    }
  }

  /** A walk that meets no pointer before e turns every byte of the name into one character: it ends at an empty
      label in front of e, or the text is long. */
  lemma {:induction false} WalkLength(msg: bytes, q: nat, e: nat, domain: bytes, counter: nat)
    requires q <= |msg| && e <= |msg| && counter <= MAX_JUMPS && domain != []
    requires forall i :: q <= i < e ==> msg[i] < 0xC0
    requires ReadLabels(msg, q, domain, counter).Some?
    ensures var n := |ReadLabels(msg, q, domain, counter).value.text|;
            || n >= |domain| + e - q
            || exists j :: q <= j < e && msg[j] == 0 && n == |domain| + j - q
    decreases |msg| - q
  {
    if q >= e {
      TextGrows(msg, q, domain, counter);
    } else if IsLabel(msg, q) {
      LabelIsRead(msg, q, domain, counter);
      WalkLength(msg, q + 1 + msg[q] as int, e, Joined(domain, LabelAt(msg, q)), counter);
    }
  }

  // ------------------------------------------------------------------ four cases

  /** Where the parts of the message lie. */
  lemma Layout(before: bytes, preference: nat, labels: seq<bytes>, behind: bytes)
    requires preference < 0x1_0000 && Proper(labels)
    ensures var msg, p, e := Message(before, preference, labels, behind), |before|, Encoded(labels);
            && p + 2 + |e| <= |msg| && |MxBytes(preference, labels)| == 2 + |e| && |e| > 0
            && msg[p] as int == preference / 256 && msg[p + 1] as int == preference % 256
            && U16(msg, p) == preference && msg[p..p + 2] == Put16(preference)
            && (forall i :: 0 <= i < |e| ==> msg[p + 2 + i] == e[i])
  {
    var msg, p, e := Message(before, preference, labels, behind), |before|, Encoded(labels);
    EncodedLength(labels);
    hide Encoded;
    assert msg == before + Put16(preference) + (e + behind);
    Put16Reads(preference, before, e + behind);
  }

  lemma ExchangeText(before: bytes, preference: nat, labels: seq<bytes>, behind: bytes)
    requires preference < 0x1_0000 && Proper(labels)
    ensures |before| <= |Message(before, preference, labels, behind)|
    ensures ReadsBack(before, preference, labels, behind) <==>
              SaysText(Message(before, preference, labels, behind), |before|, Dotted(labels))
  {
    Layout(before, preference, labels, behind);
    hide Message, MxBytes, Put16, U16, Encoded, Dotted, SaysText, MxData;
    MxText(Message(before, preference, labels, behind), |before|, |MxBytes(preference, labels)|, Dotted(labels));
  }

  /** Below 256 the preference starts with an empty label. */
  lemma EmptyExchange(before: bytes, preference: nat, labels: seq<bytes>, behind: bytes)
    requires preference < 256 && Proper(labels)
    ensures Exchanged(before, preference, labels, behind) == Fine(Mx(Put16(preference), []))
  {
    Layout(before, preference, labels, behind);
    var msg, p := Message(before, preference, labels, behind), |before|;
    assert ReadLabels(msg, p, [], 0) == Some(Name([], 1));
    hide Encoded, Message, Put16;
  }

  /** From 0x4000 up to 0xBFFF it starts with no label at all. */
  lemma NoExchange(before: bytes, preference: nat, labels: seq<bytes>, behind: bytes)
    requires 0x4000 <= preference < 0xC000 && Proper(labels)
    ensures Exchanged(before, preference, labels, behind) == Refused
  {
    Layout(before, preference, labels, behind);
    var msg, p := Message(before, preference, labels, behind), |before|;
    assert ReadLabels(msg, p, [], 0) == None;
    hide Encoded, Message, Put16;
  }

  /** The walk from t, with one jump already made, reads as these labels. */
  ghost predicate PointsTo(msg: bytes, t: nat, labels: seq<bytes>) {
    exists path :: PointedPath(msg, t, path) && Dotted(LabelsOf(msg, path)) == Dotted(labels)
  }

  predicate PointedPath(msg: bytes, t: nat, path: seq<nat>) {
    IsExpansion(msg, path) && path[0] == t && 1 + Jumps(msg, path) <= MAX_JUMPS
  }

  /** From 0xC000 up it is a pointer: the exchange is the name it points to. */
  lemma PointedExchange(before: bytes, preference: nat, labels: seq<bytes>, behind: bytes)
    requires 0xC000 <= preference < 0x1_0000 && Proper(labels)
    ensures var msg, t := Message(before, preference, labels, behind), preference - 0xC000;
            ReadsBack(before, preference, labels, behind) <==> PointsTo(msg, t, labels)
  {
    Layout(before, preference, labels, behind);
    ExchangeText(before, preference, labels, behind);
    var msg, p, t := Message(before, preference, labels, behind), |before|, preference - 0xC000;
    assert IsPointer(msg, p) && Target(msg, p) == t;
    hide Message, Put16, U16, ReadsBack, PointsTo, Dotted;
    PointerRead(msg, p, t);
    hide ReadLabels;
    PointedName(msg, t, labels);
  }

  lemma PointerRead(msg: bytes, p: nat, t: nat)
    requires IsPointer(msg, p) && Target(msg, p) == t
    ensures t >= |msg| ==> ReadLabels(msg, p, [], 0) == None
    ensures t < |msg| ==>
              var r := ReadLabels(msg, t, [], 1);
              ReadLabels(msg, p, [], 0) == if r.None? then None else Some(Name(r.value.text, 2))
  {
  }

  lemma PointedName(msg: bytes, t: nat, labels: seq<bytes>)
    ensures PointsTo(msg, t, labels) <==>
              t < |msg| && ReadLabels(msg, t, [], 1).Some? && ReadLabels(msg, t, [], 1).value.text == Dotted(labels)
  {
    forall path | PointedPath(msg, t, path)
      ensures t < |msg| && ReadLabels(msg, t, [], 1) == Some(Name(Dotted(LabelsOf(msg, path)), InPlace(msg, path)))
    {
      ExpansionIsRead(msg, path, [], 1);
      DottedFromFront(LabelsOf(msg, path));
    }
    if t < |msg| && ReadLabels(msg, t, [], 1).Some? {
      var path := ReadHasExpansion(msg, t, [], 1);
      assert PointedPath(msg, t, path);
    }
    hide ReadLabels, PointedPath;
  }

  /** The walk from q reads on from domain to these labels. */
  ghost predicate RunsOn(msg: bytes, q: nat, domain: bytes, labels: seq<bytes>) {
    exists path :: Expands(msg, q, path) && DottedOnto(domain, LabelsOf(msg, path)) == Dotted(labels)
  }

  /** The first label read from the preference. */
  function FirstLabel(msg: bytes, p: nat, q: nat): bytes
    requires p < q <= |msg|
  {
    msg[p + 1..q]
  }

  lemma LabelStart(before: bytes, preference: nat, labels: seq<bytes>, behind: bytes)
    requires 256 <= preference < 0x4000 && Proper(labels)
    ensures var msg, p := Message(before, preference, labels, behind), |before|;
            p < |msg| && 0 < msg[p] < 64 && msg[p] as int == preference / 256
  {
    hide *;
    Layout(before, preference, labels, behind);
  }

  /** From 256 up to 0x3FFF its first byte is the length of a label that starts with its second. */
  lemma LabelExchange(before: bytes, preference: nat, labels: seq<bytes>, behind: bytes)
    requires 256 <= preference < 0x4000 && Proper(labels)
    ensures var msg, p := Message(before, preference, labels, behind), |before|;
            var q := p + 1 + preference / 256;
            ReadsBack(before, preference, labels, behind) <==>
              q <= |msg| && RunsOn(msg, q, FirstLabel(msg, p, q), labels)
  {
    hide *;
    LabelStart(before, preference, labels, behind);
    ExchangeText(before, preference, labels, behind);
    LabelRead(Message(before, preference, labels, behind), |before|, |before| + 1 + preference / 256, labels);
  }

  lemma LabelRead(msg: bytes, p: nat, q: nat, labels: seq<bytes>)
    requires p < |msg| && 0 < msg[p] < 64 && q == p + 1 + msg[p] as int
    ensures q > |msg| ==> !SaysText(msg, p, Dotted(labels))
    ensures q <= |msg| ==>
              (SaysText(msg, p, Dotted(labels)) <==> RunsOn(msg, q, FirstLabel(msg, p, q), labels))
  {
    if q <= |msg| {
      var domain := FirstLabel(msg, p, q);
      assert IsLabel(msg, p) && Joined([], LabelAt(msg, p)) == domain;
      var r := ReadLabels(msg, q, domain, 0);
      assert ReadLabels(msg, p, [], 0) == if r.None? then None else Some(Name(r.value.text, q - p + r.value.len));
      forall path | Expands(msg, q, path)
        ensures r == Some(Name(DottedOnto(domain, LabelsOf(msg, path)), InPlace(msg, path)))
      {
        ExpansionIsRead(msg, path, domain, 0);
      }
      if r.Some? {
        var path := ReadHasExpansion(msg, q, domain, 0);
        assert Expands(msg, q, path);
      }
      hide ReadLabels, Expands;
    }
  }

  /** For every preference and every name: MX data reads back exactly when the name is empty and the preference below
      256, or the preference is a pointer to a name that reads the same, or the walk that takes the second byte of the
      preference for a label's first byte happens to spell the name. */
  lemma {:induction false} ExchangeReadsBackIff(before: bytes, preference: nat, labels: seq<bytes>, behind: bytes)
    requires preference < 0x1_0000 && Proper(labels)
    ensures var msg, p := Message(before, preference, labels, behind), |before|;
            var q := p + 1 + preference / 256;
            ReadsBack(before, preference, labels, behind) <==>
              || (preference < 256 && labels == [])
              || (256 <= preference < 0x4000 && q <= |msg| && RunsOn(msg, q, FirstLabel(msg, p, q), labels))
              || (preference >= 0xC000 && PointsTo(msg, preference - 0xC000, labels))
  {
    hide Message, RunsOn, PointsTo;
    if preference < 256 {
      EmptyExchange(before, preference, labels, behind);
      DottedLength(labels);
      hide Exchanged;
    } else if preference < 0x4000 {
      LabelExchange(before, preference, labels, behind);
      hide ReadsBack;
    } else if preference < 0xC000 {
      NoExchange(before, preference, labels, behind);
      hide Exchanged;
    } else {
      PointedExchange(before, preference, labels, behind);
      hide ReadsBack;
    }
  }

  // ------------------------------------------------------------- ordinary names

  predicate BelowPointer(labels: seq<bytes>) {
    forall i, j :: 0 <= i < |labels| && 0 <= j < |labels[i]| ==> labels[i][j] < 0xC0
  }

  /** The last label holds a NUL in front of its last byte. */
  predicate NulBeforeLast(labels: seq<bytes>) {
    |labels| > 0 && var last := labels[|labels| - 1]; |last| >= 2 && last[|last| - 2] == 0
  }

  lemma {:induction false} EncodedBelowPointer(labels: seq<bytes>)
    requires Proper(labels) && BelowPointer(labels)
    ensures forall i :: 0 <= i < |Encoded(labels)| ==> Encoded(labels)[i] < 0xC0
    decreases |labels|
  {
    if |labels| > 0 {
      assert BelowPointer(labels[1..]) by {
        forall i, j | 0 <= i < |labels[1..]| && 0 <= j < |labels[1..][i]| ensures labels[1..][i][j] < 0xC0 {
          assert labels[1..][i] == labels[i + 1];
        }
      }
      EncodedBelowPointer(labels[1..]);
      assert forall j :: 0 <= j < |labels[0]| ==> labels[0][j] < 0xC0;
    }
  }

  /** The third byte from the end of a wire form. */
  lemma {:induction false} ThirdFromEnd(labels: seq<bytes>)
    requires Proper(labels) && labels != []
    ensures var e := Encoded(labels); |e| >= 3 && (e[|e| - 3] == 0 ==> NulBeforeLast(labels))
    decreases |labels|
  {
    var front: bytes := [|labels[0]|] + labels[0];
    var e, rest := Encoded(labels), Encoded(labels[1..]);
    assert e == front + rest && front[0] == |labels[0]| && front[1..] == labels[0];
    if |labels| == 1 {
      assert rest == [0];
      if |labels[0]| >= 2 { assert e[|e| - 3] == labels[0][|labels[0]| - 2]; }
    } else {
      ThirdFromEnd(labels[1..]);
      assert e[|e| - 3] == rest[|rest| - 3];
      assert labels[1..][|labels[1..]| - 1] == labels[|labels| - 1];
    }
  }

  /** A walk that starts one byte late on these bytes does not end with as many characters as they spell. */
  lemma LateWalk(msg: bytes, p: nat, q: nat, e: nat)
    requires p + 2 <= q <= |msg| && q <= p + 64 && p + 3 <= e <= |msg|
    requires forall i :: p + 2 <= i < e ==> msg[i] < 0xC0
    requires e >= p + 5 ==> msg[e - 3] != 0
    requires ReadLabels(msg, q, FirstLabel(msg, p, q), 0).Some?
    ensures e == p + 3 ==> |ReadLabels(msg, q, FirstLabel(msg, p, q), 0).value.text| > 0
    ensures e >= p + 5 ==> |ReadLabels(msg, q, FirstLabel(msg, p, q), 0).value.text| != e - p - 4
  {
    WalkLength(msg, q, e, FirstLabel(msg, p, q), 0);
    hide ReadLabels;
  }

  /** Where it starts from a preference from 256 up to 0x3FFF. */
  lemma LateRead(before: bytes, preference: nat, labels: seq<bytes>, behind: bytes)
    requires 256 <= preference < 0x4000 && Proper(labels) && ReadsBack(before, preference, labels, behind)
    ensures var msg, p := Message(before, preference, labels, behind), |before|;
            var q := p + 1 + preference / 256;
            && q <= |msg| && ReadLabels(msg, q, FirstLabel(msg, p, q), 0).Some?
            && ReadLabels(msg, q, FirstLabel(msg, p, q), 0).value.text == Dotted(labels)
  {
    hide *;
    LabelStart(before, preference, labels, behind);
    ExchangeText(before, preference, labels, behind);
    LateText(Message(before, preference, labels, behind), |before|, |before| + 1 + preference / 256, Dotted(labels));
  }

  lemma LateText(msg: bytes, p: nat, q: nat, text: bytes)
    requires p < |msg| && 0 < msg[p] < 64 && q == p + 1 + msg[p] as int && SaysText(msg, p, text)
    ensures q <= |msg| && ReadLabels(msg, q, FirstLabel(msg, p, q), 0).Some?
    ensures ReadLabels(msg, q, FirstLabel(msg, p, q), 0).value.text == text
  {
    assert IsLabel(msg, p);
    assert Joined([], LabelAt(msg, p)) == FirstLabel(msg, p, q);
    assert ReadLabels(msg, p, [], 0).Some?;
  }

  /** The bytes a name takes in the message. */
  lemma NameBytes(before: bytes, preference: nat, labels: seq<bytes>, behind: bytes)
    requires preference < 0x1_0000 && Proper(labels) && BelowPointer(labels) && !NulBeforeLast(labels)
    ensures var msg, p, e := Message(before, preference, labels, behind), |before|,
                             |before| + 2 + |Encoded(labels)|;
            && e <= |msg| && (e == p + 3 <==> labels == []) && (labels != [] ==> e >= p + 5 && msg[e - 3] != 0)
            && (forall i :: p + 2 <= i < e ==> msg[i] < 0xC0)
  {
    hide Message, Put16, U16, Dotted, NulBeforeLast, BelowPointer, MxBytes, Proper;
    Layout(before, preference, labels, behind);
    DottedLength(labels);
    EncodedBelowPointer(labels);
    if labels != [] { ThirdFromEnd(labels); } else { assert Encoded(labels) == [0]; }
    var msg, p, n := Message(before, preference, labels, behind), |before|, |Encoded(labels)|;
    hide Encoded;
    forall i | p + 2 <= i < p + 2 + n ensures msg[i] < 0xC0 {
      assert msg[p + 2 + (i - p - 2)] == Encoded(labels)[i - p - 2];
    }
    if labels != [] { assert msg[p + 2 + (n - 3)] == Encoded(labels)[n - 3]; }
  }

  /** From 256 up to 0x3FFF, only names that no host has survive: some label holds a byte that looks like a pointer, or
      the last one a NUL in front of its last byte. */
  lemma {:induction false} OnlyOddNamesSurvive(before: bytes, preference: nat, labels: seq<bytes>, behind: bytes)
    requires 256 <= preference < 0x4000 && Proper(labels)
    requires BelowPointer(labels) && !NulBeforeLast(labels)
    ensures !ReadsBack(before, preference, labels, behind)
  {
    hide *;
    NameBytes(before, preference, labels, behind);
    DottedLength(labels);
    if ReadsBack(before, preference, labels, behind) {
      LateRead(before, preference, labels, behind);
      var p := |before|;
      LateWalk(Message(before, preference, labels, behind), p, p + 1 + preference / 256, p + 2 + |Encoded(labels)|);
    }
  }

  /** Names of hosts: no label holds a NUL or a byte from 0xC0 up. */
  predicate Ordinary(labels: seq<bytes>) {
    forall i, j :: 0 <= i < |labels| && 0 <= j < |labels[i]| ==> 0 < labels[i][j] < 0xC0
  }

  /** For ordinary names, then: an empty name behind a small preference, or a preference that happens to be a pointer to
      the same name. */
  lemma {:induction false} OrdinaryExchangeReadsBackIff(before: bytes, preference: nat, labels: seq<bytes>,
                                                        behind: bytes)
    requires preference < 0x1_0000 && Proper(labels) && Ordinary(labels)
    ensures ReadsBack(before, preference, labels, behind) <==>
              || (preference < 256 && labels == [])
              || (preference >= 0xC000
                  && PointsTo(Message(before, preference, labels, behind), preference - 0xC000, labels))
  {
    assert BelowPointer(labels);
    if |labels| > 0 {
      var last := labels[|labels| - 1];
      assert |last| >= 2 ==> last[|last| - 2] != 0;
    }
    assert !NulBeforeLast(labels);
    hide Ordinary, BelowPointer, NulBeforeLast, ReadsBack, Message, RunsOn, PointsTo, Proper;
    ExchangeReadsBackIff(before, preference, labels, behind);
    if 256 <= preference < 0x4000 { OnlyOddNamesSurvive(before, preference, labels, behind); }
  }

  // "mx"
  const MX_LABEL: bytes := [109, 120]

  // A header that announces one answer; the name of the root, type MX, class IN, no time to live, six bytes of data.
  const MX_FRONT: bytes := [0, 1, 0x81, 0x80, 0, 0, 0, 1, 0, 0, 0, 0] + [0] + [0, 15, 0, 1, 0, 0, 0, 0, 0, 6]

  /** The datagram of a single answer: the mail exchange of the root is the host "mx", with preference 10. */
  function MxDatagram(): bytes
    requires Proper([MX_LABEL])
  {
    Message(MX_FRONT, 10, [MX_LABEL], [])
  }

  lemma MxFrontReads(msg: bytes)
    requires |msg| == 29 && msg[..23] == MX_FRONT
    ensures QdCount(msg) == 0 && AnCount(msg) == 1 && NsCount(msg) == 0 && ArCount(msg) == 0
    ensures ReadDomain(msg, 12, [], 0) == Some(Name([], 1)) && U16(msg, 13) == TYPE_MX && U16(msg, 21) == 6
    ensures msg[13..15] == [0, 15] && msg[15..17] == [0, 1] && msg[17..21] == [0, 0, 0, 0]
  {
    var f := MX_FRONT;
    assert |f| == 23 && forall i :: 0 <= i < 23 ==> msg[i] == f[i];
    assert ReadLabels(msg, 12, [], 0) == Some(Name([], 1));
  }

  /** A datagram of one answer whose record is read to its end. */
  lemma OneAnswer(msg: bytes, r: Record)
    requires |msg| > 12 && QdCount(msg) == 0 && AnCount(msg) == 1 && NsCount(msg) == 0 && ArCount(msg) == 0
    requires ReadRecord(msg, 12) == Fine((r, |msg|))
    ensures Accepts(msg) && ReadSections(msg).an.items == [r]
  {
    hide ReadRecord, QdCount, AnCount, NsCount, ArCount;
    assert Questions(msg, 12, 0) == Section([], Fine(12));
    assert Records(msg, |msg|, 0) == Section([], Fine(|msg|));
    assert Records(msg, 12, 1) == Section([r] + [], Fine(|msg|));
    assert [r] + [] == [r];
  }

  /** It is accepted, and the exchange read is the empty name. */
  lemma TenMxIsLost()
    ensures Proper([MX_LABEL]) && !ReadsBack(MX_FRONT, 10, [MX_LABEL], [])
    ensures Accepts(MxDatagram())
    ensures ReadSections(MxDatagram()).an.items == [Record([], [0, 15], [0, 1], [0, 0, 0, 0], Mx([0, 10], []))]
  {
    var msg := MxDatagram();
    MxIsEmpty();
    MxSize();
    assert MX_FRONT <= msg;
    hide MX_FRONT, MxDatagram, Message;
    MxFrontReads(msg);
    hide MxData, ReadDomain, U16, QdCount, AnCount, NsCount, ArCount, ReadRecord;
    RecordAtName(msg, 12, Name([], 1), Mx([0, 10], []));
    OneAnswer(msg, Record([], [0, 15], [0, 1], [0, 0, 0, 0], Mx([0, 10], [])));
  }

  lemma MxSize()
    ensures Proper([MX_LABEL]) && |MX_FRONT| == 23 && |MxBytes(10, [MX_LABEL])| == 6 && |MxDatagram()| == 29
  {
    assert [MX_LABEL][1..] == [];
    assert |Encoded([MX_LABEL])| == 4;
  }

  lemma MxIsEmpty()
    ensures Proper([MX_LABEL]) && !ReadsBack(MX_FRONT, 10, [MX_LABEL], [])
    ensures Exchanged(MX_FRONT, 10, [MX_LABEL], []) == Fine(Mx([0, 10], []))
  {
    hide MX_FRONT, Exchanged;
    EmptyExchange(MX_FRONT, 10, [MX_LABEL], []);
    DottedLength([MX_LABEL]);
    assert Put16(10) == [0, 10];
  }

  /** An odd name that does survive, wherever it stands: preference 0x0200 and the label of a NUL and a two. */
  lemma NulTwoSurvives(before: bytes, behind: bytes)
    ensures Proper([[0, 2]]) && NulBeforeLast([[0, 2]])
    ensures ReadsBack(before, 0x0200, [[0, 2]], behind)
  {
    var labels: seq<bytes> := [[0, 2]];
    assert labels[1..] == [] && Encoded([]) == [0] && Encoded(labels) == [2] + [0, 2] + [0];
    assert Put16(0x0200) == [2, 0];
    assert MxBytes(0x0200, labels) == [2, 0, 2, 0, 2, 0];
    assert labels[..0] == [] && Dotted(labels) == [0, 2];
    NulTwoIsRead(before, behind);
    hide *;
    ExchangeText(before, 0x0200, labels, behind);
  }

  lemma NulTwoIsRead(before: bytes, behind: bytes)
    ensures SaysText(before + [2, 0, 2, 0, 2, 0] + behind, |before|, [0, 2])
  {
    var data: bytes := [2, 0, 2, 0, 2, 0];
    var msg, p := before + data + behind, |before|;
    assert msg[p] == data[0] && msg[p + 1] == data[1] && msg[p + 2] == data[2] && msg[p + 3] == data[3];
    assert IsLabel(msg, p) && LabelAt(msg, p) == [0, 2];
    assert ReadLabels(msg, p + 3, [0, 2], 0) == Some(Name([0, 2], 1));
    LabelIsRead(msg, p, [], 0);
  }
}
