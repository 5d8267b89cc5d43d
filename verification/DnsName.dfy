/** Domain names in a datagram: labels, compression pointers and the limit on jumps
    (src/cdpi_dns.cpp; section 4.1.4 of RFC 1035). */
module DnsName {
  import opened Bytes

  const DOT: byte := 46
  const MAX_JUMPS := 256

  // ------------------------------------------------------------ what the code does

  /** A name read: its text, and the bytes it takes where it stands. */
  datatype Name = Name(text: bytes, len: nat)

  function Joined(domain: bytes, part: bytes): bytes {
    if domain == [] then part else domain + [DOT] + part
  }

  predicate IsPointer(msg: bytes, p: nat) {
    p + 2 <= |msg| && msg[p] >= 0xC0
  }

  /** Where a pointer leads: its low 14 bits. */
  function Target(msg: bytes, p: nat): nat
    requires IsPointer(msg, p)
  {
    U16(msg, p) % 0x4000
  }

  predicate IsLabel(msg: bytes, p: nat) {
    p < |msg| && 0 < msg[p] < 64 && p + 1 + msg[p] as int <= |msg|
  }

  function LabelAt(msg: bytes, p: nat): bytes
    requires IsLabel(msg, p)
  {
    msg[p + 1..p + 1 + msg[p] as int]
  }

  /** `read_domain`. */
  function ReadDomain(msg: bytes, p: nat, domain: bytes, counter: nat): Option<Name>
    requires p <= |msg|
    decreases MAX_JUMPS + 1 - counter, 1, |msg| - p
  {
    if counter > MAX_JUMPS then None else ReadLabels(msg, p, domain, counter)
  }

  /** Its loop. */
  function ReadLabels(msg: bytes, p: nat, domain: bytes, counter: nat): Option<Name>
    requires p <= |msg| && counter <= MAX_JUMPS
    decreases MAX_JUMPS + 1 - counter, 0, |msg| - p
  {
    if p == |msg| then None
    else if msg[p] >= 64 then
      if IsPointer(msg, p) && Target(msg, p) < |msg| then
        match ReadDomain(msg, Target(msg, p), domain, counter + 1)
        case None => None
        case Some(n) => Some(Name(n.text, 2))
      else None
    else if msg[p] == 0 then Some(Name(domain, 1))
    else if !IsLabel(msg, p) then None
    else
      match ReadLabels(msg, p + 1 + msg[p] as int, Joined(domain, LabelAt(msg, p)), counter)
      case None => None
      case Some(n) => Some(Name(n.text, 1 + msg[p] as int + n.len))
  }

  // --------------------------------------------------------------- what it means

  /** The position after the label or pointer at p, if there is one in range. */
  function Next(msg: bytes, p: nat): Option<nat> {
    if IsLabel(msg, p) then Some(p + 1 + msg[p] as int)
    else if IsPointer(msg, p) && Target(msg, p) < |msg| then Some(Target(msg, p))
    else None
  }

  /** A walk along labels and pointers. */
  predicate IsChain(msg: bytes, path: seq<nat>) {
    |path| > 0 && forall i :: 0 <= i < |path| - 1 ==> Next(msg, path[i]) == Some(path[i + 1])
  }

  /** The expansion of a name: a walk that ends at an empty label. */
  predicate IsExpansion(msg: bytes, path: seq<nat>) {
    IsChain(msg, path) && path[|path| - 1] < |msg| && msg[path[|path| - 1]] == 0
  }

  function Jumps(msg: bytes, path: seq<nat>): nat {
    if |path| <= 1 then 0 else (if IsLabel(msg, path[0]) then 0 else 1) + Jumps(msg, path[1..])
  }

  /** The labels met on the way. */
  function LabelsOf(msg: bytes, path: seq<nat>): seq<bytes> {
    if |path| <= 1 then []
    else (if IsLabel(msg, path[0]) then [LabelAt(msg, path[0])] else []) + LabelsOf(msg, path[1..])
  }

  /** The name in place ends with its first pointer, or with the empty label. */
  function InPlace(msg: bytes, path: seq<nat>): nat {
    if |path| <= 1 then 1
    else if IsLabel(msg, path[0]) then 1 + msg[path[0]] as int + InPlace(msg, path[1..])
    else 2
  }

  /** Labels separated by dots. */
  function Dotted(labels: seq<bytes>): bytes {
    if |labels| == 0 then [] else Joined(Dotted(labels[..|labels| - 1]), labels[|labels| - 1])
  }

  /** The same from the front, onto what is there already. */
  function DottedOnto(domain: bytes, labels: seq<bytes>): bytes
    decreases |labels|
  {
    if |labels| == 0 then domain else DottedOnto(Joined(domain, labels[0]), labels[1..])
  }

  lemma {:induction false} DottedOntoSnoc(domain: bytes, labels: seq<bytes>, x: bytes)
    ensures DottedOnto(domain, labels + [x]) == Joined(DottedOnto(domain, labels), x)
    decreases |labels|
  {
    if |labels| == 0 {
      assert ([] + [x])[1..] == [] && labels + [x] == [x];
      assert DottedOnto(domain, [x]) == DottedOnto(Joined(domain, x), [x][1..]);
    } else {
      assert (labels + [x])[1..] == labels[1..] + [x];
      DottedOntoSnoc(Joined(domain, labels[0]), labels[1..], x);
    }
  }

  lemma {:induction false} DottedFromFront(labels: seq<bytes>)
    ensures DottedOnto([], labels) == Dotted(labels)
    decreases |labels|
  {
    if |labels| > 0 {
      var n := |labels| - 1;
      DottedFromFront(labels[..n]);
      DottedOntoSnoc([], labels[..n], labels[n]);
      assert labels == labels[..n] + [labels[n]];
    }
  }

  /** The expansion stays legal, and is read like this, from any position on it. */
  lemma TailOfExpansion(msg: bytes, path: seq<nat>)
    requires IsExpansion(msg, path) && |path| > 1
    ensures IsExpansion(msg, path[1..]) && Next(msg, path[0]) == Some(path[1]) && path[1] <= |msg|
  {
    assert forall i :: 0 <= i < |path[1..]| ==> path[1..][i] == path[i + 1];
  }

  lemma EndOfName(msg: bytes, path: seq<nat>)
    requires IsExpansion(msg, path) && msg[path[|path| - 1]] == 0
    ensures forall i :: 0 <= i < |path| - 1 ==> Next(msg, path[i]).Some? && path[i] < |msg| && msg[path[i]] != 0
    ensures path[0] < |msg| && (|path| == 1 <==> msg[path[0]] == 0)
  {
    forall i | 0 <= i < |path| - 1
      ensures Next(msg, path[i]).Some? && path[i] < |msg| && msg[path[i]] != 0
    {
      assert Next(msg, path[i]) == Some(path[i + 1]);
    }
  }

  lemma StartOfName(msg: bytes, path: seq<nat>)
    requires IsExpansion(msg, path)
    ensures |path| > 0 && path[0] < |msg| && (|path| == 1 <==> msg[path[0]] == 0)
    ensures |path| > 1 ==>
              && IsExpansion(msg, path[1..]) && path[1] <= |msg| && path[1..][0] == path[1]
              && Next(msg, path[0]) == Some(path[1])
  {
    EndOfName(msg, path);
    hide Next;
    if |path| > 1 { TailOfExpansion(msg, path); }
  }

  lemma PointerIsRead(msg: bytes, p: nat, domain: bytes, counter: nat)
    requires p < |msg| && msg[p] != 0 && !IsLabel(msg, p) && Next(msg, p).Some? && counter < MAX_JUMPS
    ensures Next(msg, p).value < |msg|
    ensures var r := ReadLabels(msg, Next(msg, p).value, domain, counter + 1);
            r.Some? ==> ReadLabels(msg, p, domain, counter) == Some(Name(r.value.text, 2))
  {
    hide Joined, LabelAt;
  }

  /** The labels and the length of an expansion of at least two positions, from those of its rest. */
  lemma ExpansionUnfolds(msg: bytes, path: seq<nat>, domain: bytes)
    requires |path| > 1 && Next(msg, path[0]) == Some(path[1])
    ensures IsLabel(msg, path[0]) ==>
              && Jumps(msg, path) == Jumps(msg, path[1..]) && path[1] == path[0] + 1 + msg[path[0]] as int
              && InPlace(msg, path) == 1 + msg[path[0]] as int + InPlace(msg, path[1..])
              && DottedOnto(domain, LabelsOf(msg, path))
              == DottedOnto(Joined(domain, LabelAt(msg, path[0])), LabelsOf(msg, path[1..]))
    ensures !IsLabel(msg, path[0]) ==>
              && Jumps(msg, path) == 1 + Jumps(msg, path[1..]) && InPlace(msg, path) == 2
              && LabelsOf(msg, path) == LabelsOf(msg, path[1..])
  {
    hide Joined, LabelAt;
    var rest := LabelsOf(msg, path[1..]);
    if IsLabel(msg, path[0]) {
      var one := [LabelAt(msg, path[0])] + rest;
      assert one[0] == LabelAt(msg, path[0]) && one[1..] == rest;
    } else {
      assert [] + rest == rest;
    }
  }

  /** A name that expands within the jumps left is read, with the labels of the expansion. */
  lemma {:induction false} ExpansionIsRead(msg: bytes, path: seq<nat>, domain: bytes, counter: nat)
    requires IsExpansion(msg, path) && counter + Jumps(msg, path) <= MAX_JUMPS
    ensures path[0] < |msg|
    ensures ReadLabels(msg, path[0], domain, counter)
         == Some(Name(DottedOnto(domain, LabelsOf(msg, path)), InPlace(msg, path)))
    decreases |path|
  {
    hide *;
    StartOfName(msg, path);
    if |path| == 1 {
      EndIsRead(msg, path, domain, counter);
    } else {
      ExpansionUnfolds(msg, path, domain);
      var p, rest := path[0], path[1..];
      if IsLabel(msg, p) {
        var longer := Joined(domain, LabelAt(msg, p));
        ExpansionIsRead(msg, rest, longer, counter);
        LabelStep(msg, p, path[1], domain, counter, Name(DottedOnto(longer, LabelsOf(msg, rest)), InPlace(msg, rest)));
      } else {
        ExpansionIsRead(msg, rest, domain, counter + 1);
        PointerIsRead(msg, p, domain, counter);
      }
    }
  }

  lemma EndIsRead(msg: bytes, path: seq<nat>, domain: bytes, counter: nat)
    requires |path| == 1 && path[0] < |msg| && msg[path[0]] == 0 && counter <= MAX_JUMPS
    ensures ReadLabels(msg, path[0], domain, counter)
         == Some(Name(DottedOnto(domain, LabelsOf(msg, path)), InPlace(msg, path)))
  {
  }

  lemma LabelStep(msg: bytes, p: nat, q: nat, domain: bytes, counter: nat, n: Name)
    requires IsLabel(msg, p) && q == p + 1 + msg[p] as int && counter <= MAX_JUMPS
    requires ReadLabels(msg, q, Joined(domain, LabelAt(msg, p)), counter) == Some(n)
    ensures ReadLabels(msg, p, domain, counter) == Some(Name(n.text, q - p + n.len))
  {
    hide Joined, LabelAt;
  }

  /** One more step in front. */
  lemma ConsExpansion(msg: bytes, p: nat, rest: seq<nat>)
    requires IsExpansion(msg, rest) && Next(msg, p) == Some(rest[0])
    ensures IsExpansion(msg, [p] + rest)
    ensures Jumps(msg, [p] + rest) == Jumps(msg, rest) + if IsLabel(msg, p) then 0 else 1
  {
    var path := [p] + rest;
    assert path[1..] == rest;
    hide Next, IsLabel;
    forall i | 0 <= i < |path| - 1 ensures Next(msg, path[i]) == Some(path[i + 1]) {
      if i > 0 { assert path[i] == rest[i - 1] && path[i + 1] == rest[i]; }
    }
  }

  /** A name that is read expands within the jumps left. */
  lemma {:induction false} ReadHasExpansion(msg: bytes, p: nat, domain: bytes, counter: nat) returns (path: seq<nat>)
    requires p <= |msg| && counter <= MAX_JUMPS && ReadLabels(msg, p, domain, counter).Some?
    ensures IsExpansion(msg, path) && path[0] == p && counter + Jumps(msg, path) <= MAX_JUMPS
    decreases MAX_JUMPS + 1 - counter, |msg| - p
  {
    hide Joined, LabelAt, Jumps, IsExpansion;
    if msg[p] == 0 {
      path := [p];
      EndIsExpansion(msg, p);
    } else {
      var rest;
      if IsLabel(msg, p) {
        rest := ReadHasExpansion(msg, p + 1 + msg[p] as int, Joined(domain, LabelAt(msg, p)), counter);
      } else {
        rest := ReadHasExpansion(msg, Target(msg, p), domain, counter + 1);
      }
      ConsExpansion(msg, p, rest);
      path := [p] + rest;
    }
  }

  lemma EndIsExpansion(msg: bytes, p: nat)
    requires p < |msg| && msg[p] == 0
    ensures IsExpansion(msg, [p]) && Jumps(msg, [p]) == 0
  {
  }

  /** A name stands at p and takes n bytes there. */
  ghost predicate NameAt(msg: bytes, p: nat, n: nat) {
    exists path :: Expands(msg, p, path) && n == InPlace(msg, path)
  }

  /** The expansion from p is finite, in range and within the limit. */
  predicate Expands(msg: bytes, p: nat, path: seq<nat>) {
    IsExpansion(msg, path) && path[0] == p && Jumps(msg, path) <= MAX_JUMPS
  }

  /** `read_domain` succeeds exactly when the expansion is finite, in range and uses at most 256 jumps; it
      returns the labels of that expansion joined by dots, and the length in place. */
  lemma ReadsExactlyExpansions(msg: bytes, p: nat)
    requires p <= |msg|
    ensures ReadDomain(msg, p, [], 0).Some? <==> exists path :: Expands(msg, p, path)
    ensures forall path :: Expands(msg, p, path) ==>
              ReadDomain(msg, p, [], 0) == Some(Name(Dotted(LabelsOf(msg, path)), InPlace(msg, path)))
  {
    forall path | Expands(msg, p, path)
      ensures ReadDomain(msg, p, [], 0) == Some(Name(Dotted(LabelsOf(msg, path)), InPlace(msg, path)))
    {
      ExpansionIsRead(msg, path, [], 0);
      DottedFromFront(LabelsOf(msg, path));
    }
    if ReadDomain(msg, p, [], 0).Some? {
      var path := ReadHasExpansion(msg, p, [], 0);
      assert Expands(msg, p, path);
    }
  }

  lemma ReadsNameAt(msg: bytes, p: nat, n: nat)
    requires p <= |msg|
    ensures NameAt(msg, p, n) <==> ReadDomain(msg, p, [], 0).Some? && ReadDomain(msg, p, [], 0).value.len == n
  {
    ReadsExactlyExpansions(msg, p);
  }

  /** The length in place is positive and within the buffer. */
  lemma {:induction false} InPlaceFits(msg: bytes, path: seq<nat>)
    requires IsExpansion(msg, path)
    ensures 0 < InPlace(msg, path) <= |msg| - path[0]
    decreases |path|
  {
    EndOfName(msg, path);
    if |path| > 1 {
      TailOfExpansion(msg, path);
      if IsLabel(msg, path[0]) { InPlaceFits(msg, path[1..]); }
    }
  }

  lemma NameFits(msg: bytes, p: nat)
    requires p <= |msg| && ReadDomain(msg, p, [], 0).Some?
    ensures 0 < ReadDomain(msg, p, [], 0).value.len <= |msg| - p
  {
    var path := ReadHasExpansion(msg, p, [], 0);
    assert Expands(msg, p, path);
    ReadsExactlyExpansions(msg, p);
    InPlaceFits(msg, path);
  }

  // ---------------------------------------------------------------------- cycles

  /** Walking has no choice: a walk from the start of an expansion is a first part of it. */
  lemma {:induction false} ChainFollowsExpansion(msg: bytes, chain: seq<nat>, path: seq<nat>)
    requires IsChain(msg, chain) && IsExpansion(msg, path) && chain[0] == path[0]
    ensures chain <= path
    decreases |chain|
  {
    var n := |chain| - 1;
    if n > 0 {
      ChainFollowsExpansion(msg, chain[..n], path);
      assert Next(msg, chain[n - 1]) == Some(chain[n]);
      assert path[n - 1] == chain[..n][n - 1];
      assert path[n - 1] < |msg| && msg[path[n - 1]] != 0;
      assert n < |path| && Next(msg, path[n - 1]) == Some(path[n]);
    }
  }

  /** Every cycle of pointers is rejected, whether or not labels lie on it. */
  lemma CyclesAreRejected(msg: bytes, chain: seq<nat>, i: nat, j: nat)
    requires IsChain(msg, chain) && i < j < |chain| && chain[i] == chain[j] && chain[0] <= |msg|
    ensures ReadDomain(msg, chain[0], [], 0) == None
  {
    if ReadDomain(msg, chain[0], [], 0).Some? {
      var path := ReadHasExpansion(msg, chain[0], [], 0);
      hide ReadDomain, Next, Jumps;
      ChainFollowsExpansion(msg, chain, path);
      NoRepeat(msg, path, i, j);
    }
  }

  /** No position comes twice in an expansion. */
  lemma NoRepeat(msg: bytes, path: seq<nat>, i: nat, j: nat)
    requires IsExpansion(msg, path) && i < j < |path|
    ensures path[i] != path[j]
  {
    if path[i] == path[j] {
      hide Next;
      SuffixOfExpansion(msg, path, i);
      SuffixOfExpansion(msg, path, j);
      ChainFollowsExpansion(msg, path[i..], path[j..]);
    }
  }

  lemma SuffixOfExpansion(msg: bytes, path: seq<nat>, i: nat)
    requires IsExpansion(msg, path) && i < |path|
    ensures IsExpansion(msg, path[i..]) && path[i..][0] == path[i]
  {
    hide Next;
    var rest := path[i..];
    forall m | 0 <= m < |rest| - 1 ensures Next(msg, rest[m]) == Some(rest[m + 1]) {
      assert rest[m] == path[i + m] && rest[m + 1] == path[i + m + 1];
    }
  }

  // ------------------------------------------------------------------ round trip

  /** The wire form of a name, without compression (section 3.1 of RFC 1035). */
  function Encoded(labels: seq<bytes>): (r: bytes)
    requires Proper(labels)
  {
    if |labels| == 0 then [0] else [|labels[0]|] + labels[0] + Encoded(labels[1..])
  }

  predicate Proper(labels: seq<bytes>) {
    forall i :: 0 <= i < |labels| ==> 0 < |labels[i]| < 64
  }

  /** The labels stand at p, and the empty label behind them. */
  predicate StandAt(msg: bytes, p: nat, labels: seq<bytes>)
    decreases |labels|
  {
    if |labels| == 0 then p < |msg| && msg[p] == 0
    else IsLabel(msg, p) && LabelAt(msg, p) == labels[0] && StandAt(msg, p + 1 + |labels[0]|, labels[1..])
  }

  lemma {:induction false} EncodedStands(before: bytes, labels: seq<bytes>, behind: bytes)
    requires Proper(labels)
    ensures StandAt(before + Encoded(labels) + behind, |before|, labels)
    decreases |labels|
  {
    if |labels| > 0 {
      LabelStands(before, labels, behind);
      hide Encoded, IsLabel, LabelAt;
      EncodedStands(before + Front(labels[0]), labels[1..], behind);
    }
  }

  function WireLength(labels: seq<bytes>): nat {
    if |labels| == 0 then 1 else 1 + |labels[0]| + WireLength(labels[1..])
  }

  lemma {:induction false} EncodedLength(labels: seq<bytes>)
    requires Proper(labels)
    ensures |Encoded(labels)| == WireLength(labels)
    decreases |labels|
  {
    if |labels| > 0 { EncodedLength(labels[1..]); }
  }

  lemma {:induction false} StandingIsRead(msg: bytes, p: nat, labels: seq<bytes>, domain: bytes, counter: nat)
    requires p <= |msg| && StandAt(msg, p, labels) && counter <= MAX_JUMPS
    ensures ReadLabels(msg, p, domain, counter) == Some(Name(DottedOnto(domain, labels), WireLength(labels)))
    decreases |labels|
  {
    hide Joined, IsLabel, LabelAt;
    if |labels| == 0 {
      assert ReadLabels(msg, p, domain, counter) == Some(Name(domain, 1));
    } else {
      hide ReadLabels;
      LabelHere(msg, p);
      LabelIsRead(msg, p, domain, counter);
      StandingIsRead(msg, p + 1 + |labels[0]|, labels[1..], Joined(domain, labels[0]), counter);
    }
  }

  lemma LabelHere(msg: bytes, p: nat)
    requires IsLabel(msg, p)
    ensures p < |msg| && |LabelAt(msg, p)| == msg[p] as int && p + 1 + msg[p] as int <= |msg|
  {
  }

  lemma EncodedIsRead(before: bytes, labels: seq<bytes>, behind: bytes, counter: nat)
    requires Proper(labels) && counter <= MAX_JUMPS
    ensures var msg := before + Encoded(labels) + behind;
            ReadLabels(msg, |before|, [], counter) == Some(Name(Dotted(labels), |Encoded(labels)|))
  {
    EncodedStands(before, labels, behind);
    EncodedLength(labels);
    DottedFromFront(labels);
    hide StandAt, ReadLabels, Encoded, Proper;
    StandingIsRead(before + Encoded(labels) + behind, |before|, labels, [], counter);
  }

  /** A label in wire form. */
  function Front(part: bytes): bytes
    requires 0 < |part| < 64
  {
    [|part|] + part
  }

  lemma LabelStands(before: bytes, labels: seq<bytes>, behind: bytes)
    requires Proper(labels) && |labels| > 0
    ensures Proper(labels[1..]) && |Encoded(labels)| == 1 + |labels[0]| + |Encoded(labels[1..])|
    ensures var msg, p := before + Encoded(labels) + behind, |before|;
            && IsLabel(msg, p) && msg[p] == |labels[0]| && LabelAt(msg, p) == labels[0]
            && msg == before + Front(labels[0]) + Encoded(labels[1..]) + behind
  {
    var msg, p, front, rest := before + Encoded(labels) + behind, |before|, Front(labels[0]), Encoded(labels[1..]);
    assert Encoded(labels) == front + rest;
    hide Encoded;
    assert msg == before + front + (rest + behind) && msg == before + front + rest + behind;
    FrontStands(before, front, rest + behind);
    assert front[0] == |labels[0]| && front[1..] == labels[0];
  }

  lemma FrontStands(before: bytes, front: bytes, behind: bytes)
    requires |front| > 0
    ensures var msg, p := before + front + behind, |before|;
            p + |front| <= |msg| && msg[p] == front[0] && msg[p + 1..p + |front|] == front[1..]
  {
  }

  lemma LabelIsRead(msg: bytes, p: nat, domain: bytes, counter: nat)
    requires IsLabel(msg, p) && counter <= MAX_JUMPS
    ensures var q := p + 1 + msg[p] as int;
            var r := ReadLabels(msg, q, Joined(domain, LabelAt(msg, p)), counter);
            r.Some? ==> ReadLabels(msg, p, domain, counter) == Some(Name(r.value.text, q - p + r.value.len))
  {
    hide Joined, LabelAt;
  }

  /** Round trip: wherever the wire form of a name stands, `read_domain` gives its labels joined by dots and its
      length; and a pointer to it gives the same text in two bytes. */
  lemma NameRoundTrip(before: bytes, labels: seq<bytes>, behind: bytes, p: nat)
    requires Proper(labels)
    ensures var msg := before + Encoded(labels) + behind;
            && ReadDomain(msg, |before|, [], 0) == Some(Name(Dotted(labels), |Encoded(labels)|))
            && (IsPointer(msg, p) && Target(msg, p) == |before| ==>
                  ReadDomain(msg, p, [], 0) == Some(Name(Dotted(labels), 2)))
  {
    var msg := before + Encoded(labels) + behind;
    EncodedIsRead(before, labels, behind, 0);
    EncodedIsRead(before, labels, behind, 1);
    assert |Encoded(labels)| > 0;
    assert ReadDomain(msg, |before|, [], 1) == Some(Name(Dotted(labels), |Encoded(labels)|));
    if IsPointer(msg, p) && Target(msg, p) == |before| {
      assert ReadLabels(msg, p, [], 0) == Some(Name(Dotted(labels), 2));
    }
  }
}
