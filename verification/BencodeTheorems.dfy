/** Round trips, normal form, dictionaries and the info slice (src/cdpi_bencode.cpp). */
module BencodeTheorems {
  import opened Bytes
  import opened Decimal
  import opened BencodeSpec

  // ------------------------------------------------------------------ numbers

  lemma DigitsNotSigns(t: bytes)
    requires |t| > 0 && IsDigit(t[0])
    ensures SkipSpace(t) == t
    ensures Atoi(t) == if DecRun(t, 0) > INT_MAX then None else Some(DecRun(t, 0))
  {
  }

  lemma DigitsRead(n: nat)
    ensures DecRun(DecText(n), 0) == n && |DecText(n)| > 0 && IsDigit(DecText(n)[0])
    ensures forall i :: 0 <= i < |DecText(n)| ==> IsDigit(DecText(n)[i])
  {
    DecTextReads(n, []);
    assert DecText(n) + [] == DecText(n);
  }

  /** `atoi` reads what was printed. */
  lemma PrintedIntReads(n: Int32)
    ensures Atoi(PrintInt(n)) == Some(n)
  {
    var m: int := n;
    if m < 0 {
      DigitsRead(-m);
      var t := PrintInt(n);
      assert SkipSpace(t) == t && t[1..] == DecText(-m);
    } else {
      DigitsRead(n);
      DigitsNotSigns(DecText(n));
    }
  }

  lemma PrintedAlphabet(n: int, c: byte)
    requires !IsDigit(c) && c != MINUS
    ensures c !in PrintInt(n) && |PrintInt(n)| > 0
  {
    DigitsRead(if n < 0 then -n else n);
  }

  // ------------------------------------------------------- strings and integers

  lemma StrReads(s: Text, t: bytes)
    ensures |EncodeStr(s)| > 0 && IsDigit(EncodeStr(s)[0]) && IsDigit((EncodeStr(s) + t)[0])
    ensures ReadStr(EncodeStr(s) + t) == Ok(s, |EncodeStr(s)|)
  {
    var p := DecText(|s|);
    DigitsRead(|s|);
    DigitsNotSigns(p);
    var x := EncodeStr(s) + t;
    assert x == p + [COLON] + (s + t);
    IndexOfFirst(p, COLON, s + t);
    assert x[..|p|] == p;
    assert x[|p| + 1..|p| + 1 + |s|] == s;
  }

  lemma IntReads(n: Int32, t: bytes)
    ensures var x := [INT] + PrintInt(n) + [END] + t;
            ReadInt(x) == Ok(Int(n), |[INT] + PrintInt(n) + [END]|)
  {
    var p := PrintInt(n);
    var x := [INT] + p + [END] + t;
    PrintedAlphabet(n, END);
    PrintedIntReads(n);
    assert x[1..] == p + [END] + t;
    IndexOfFirst(p, END, t);
    assert x[1..][..|p|] == p;
    hide Atoi, PrintInt;
  }

  // --------------------------------------------------------------- round trip

  /** Dictionaries list their pairs as a map holds them. */
  ghost predicate Fits(v: Value)
    decreases v
  {
    match v
    case Int(_) => true
    case Str(_) => true
    case List(items) => forall i :: 0 <= i < |items| ==> Fits(items[i])
    case Dict(entries) =>
      Sorted(entries) && forall i :: 0 <= i < |entries| ==> Fits(entries[i].value)
  }

  ghost predicate ItemsFit(items: seq<Value>) {
    forall i :: 0 <= i < |items| ==> Fits(items[i])
  }

  ghost predicate EntriesFit(entries: seq<Entry>) {
    forall i :: 0 <= i < |entries| ==> Fits(entries[i].value)
  }

  lemma EncodeStart(v: Value)
    ensures |Encode(v)| > 0 && Encode(v)[0] != END
  {
    if v.Str? { DigitsRead(|v.s|); }
  }

  /** Inserting a key above all others appends it. */
  lemma {:induction false} InsertLast(d: seq<Entry>, k: Text, v: Value)
    requires forall i :: 0 <= i < |d| ==> Less(d[i].key, k)
    ensures Insert(d, k, v) == d + [Entry(k, v)]
    decreases |d|
  {
    if |d| > 0 {
      LessIsStrictTotalOrder(d[0].key, k, d[0].key);
      assert Less(d[0].key, k);
      InsertLast(d[1..], k, v);
      assert d == [d[0]] + d[1..];
      hide Less;
    }
  }

  /** Reading by the first character. */
  lemma ReadByKind(kind: byte, body: bytes)
    ensures kind == DICT && ReadEntries(body, []).Ok? ==>
              var r := ReadEntries(body, []);
              ReadValue([kind] + body) == Ok(Dict(r.value), r.used + 1)
    ensures kind == LIST && ReadItems(body).Ok? ==>
              var r := ReadItems(body);
              ReadValue([kind] + body) == Ok(List(r.value), r.used + 1)
  {
    assert ([kind] + body)[1..] == body;
    hide ReadEntries, ReadItems;
  }

  lemma ReadStrOrInt(x: bytes)
    ensures |x| > 0 && x[0] == INT ==> ReadValue(x) == ReadInt(x)
    ensures |x| > 0 && IsDigit(x[0]) && ReadStr(x).Ok? ==> ReadValue(x) == Ok(Str(ReadStr(x).value), ReadStr(x).used)
  {
    hide ReadStr, ReadInt;
  }

  lemma ReadsItem(x: bytes, v: Value, n: nat)
    requires |x| > 0 && x[0] != END && ReadValue(x) == Ok(v, n)
    ensures n <= |x|
    ensures var r := ReadItems(x[n..]); r.Ok? ==> ReadItems(x) == Ok([v] + r.value, n + r.used)
  {
    hide ReadValue;
  }

  lemma ReadsEntry(x: bytes, d: seq<Entry>, e: Entry, n: nat)
    requires |x| > 0 && IsDigit(x[0]) && ReadPair(x) == Ok(e, n)
    ensures n <= |x| && ReadEntries(x, d) == Shift(n, ReadEntries(x[n..], Insert(d, e.key, e.value)))
  {
    hide ReadPair, Insert;
  }

  lemma ReadsPair(x: bytes, k: Text, m: nat, v: Value, n: nat)
    requires |x| > 0 && IsDigit(x[0]) && ReadStr(x) == Ok(k, m) && ReadValue(x[m..]) == Ok(v, n)
    ensures ReadPair(x) == Ok(Entry(k, v), m + n)
  {
    hide ReadStr, ReadValue;
  }

  lemma LeafReadsBack(v: Value, t: bytes)
    requires Fits(v) && (v.Int? || v.Str?)
    ensures ReadValue(Encode(v) + t) == Ok(v, |Encode(v)|)
  {
    hide ReadValue, ReadStr, ReadInt;
    ReadStrOrInt(Encode(v) + t);
    if v.Int? { IntReads(v.n, t); } else { StrReads(v.s, t); }
  }

  lemma ListReadsBack(items: seq<Value>, t: bytes)
    requires ReadItems(EncodeItems(items) + [END] + t) == Ok(items, |EncodeItems(items)| + 1)
    ensures ReadValue(Encode(List(items)) + t) == Ok(List(items), |Encode(List(items))|)
  {
    hide ReadValue, ReadItems, EncodeItems;
    ReadByKind(LIST, EncodeItems(items) + [END] + t);
    assert Encode(List(items)) + t == [LIST] + (EncodeItems(items) + [END] + t);
  }

  lemma {:induction false} DictReadsBack(entries: seq<Entry>, t: bytes)
    requires ReadEntries(EncodeEntries(entries) + [END] + t, []) == Ok(entries, |EncodeEntries(entries)| + 1)
    ensures ReadValue(Encode(Dict(entries)) + t) == Ok(Dict(entries), |Encode(Dict(entries))|)
  {
    hide ReadValue, ReadEntries, EncodeEntries;
    ReadByKind(DICT, EncodeEntries(entries) + [END] + t);
    assert Encode(Dict(entries)) + t == [DICT] + (EncodeEntries(entries) + [END] + t);
  }

  lemma {:induction false} ReadsBack(v: Value, t: bytes)
    requires Fits(v)
    ensures ReadValue(Encode(v) + t) == Ok(v, |Encode(v)|)
    decreases v
  {
    match v {
      case Int(n) => LeafReadsBack(v, t);
      case Str(s) => LeafReadsBack(v, t);
      case List(items) =>
        ItemsReadBack(items, t);
        ListReadsBack(items, t);
      case Dict(entries) =>
        assert [] + entries == entries;
        EntriesReadBack([], entries, t);
        DictReadsBack(entries, t);
    }
    hide ReadValue, Encode;
  }

  lemma {:induction false} ItemsReadBack(items: seq<Value>, t: bytes)
    requires ItemsFit(items)
    ensures ReadItems(EncodeItems(items) + [END] + t) == Ok(items, |EncodeItems(items)| + 1)
    decreases items
  {
    var x := EncodeItems(items) + [END] + t;
    if |items| == 0 {
      assert x[0] == END;
    } else {
      var rest := EncodeItems(items[1..]) + [END] + t;
      var n := |Encode(items[0])|;
      assert x == Encode(items[0]) + rest;
      EncodeStart(items[0]);
      assert Fits(items[0]);
      ReadsBack(items[0], rest);
      assert x[n..] == rest;
      hide Encode, ReadValue, ReadItems;
      ReadsItem(x, items[0], n);
      ItemsReadBack(items[1..], t);
      assert [items[0]] + items[1..] == items;
    }
  }

  lemma EntryParts(k: Text, v: Value, rest: bytes)
    ensures var x := EncodeStr(k) + Encode(v) + rest;
            && |x| > 0 && IsDigit(x[0]) && ReadStr(x) == Ok(k, |EncodeStr(k)|)
            && x[|EncodeStr(k)|..] == Encode(v) + rest
            && x[|EncodeStr(k)| + |Encode(v)|..] == rest
  {
    var x := EncodeStr(k) + Encode(v) + rest;
    assert x == EncodeStr(k) + (Encode(v) + rest);
    StrReads(k, Encode(v) + rest);
    hide ReadStr, Encode, EncodeStr;
  }

  lemma MoveFirst(d: seq<Entry>, entries: seq<Entry>)
    requires |entries| > 0
    ensures d + [entries[0]] + entries[1..] == d + entries
  {
    assert entries == [entries[0]] + entries[1..];
  }

  /** One printed pair in front of rest, whose key is above those in d. */
  lemma {:induction false} EntryReadsBack(d: seq<Entry>, e: Entry, rest: bytes)
    requires ReadValue(Encode(e.value) + rest) == Ok(e.value, |Encode(e.value)|)
    requires forall i :: 0 <= i < |d| ==> Less(d[i].key, e.key)
    ensures ReadEntries(EncodeStr(e.key) + Encode(e.value) + rest, d)
         == Shift(|EncodeStr(e.key) + Encode(e.value)|, ReadEntries(rest, d + [e]))
  {
    var x := EncodeStr(e.key) + Encode(e.value) + rest;
    EntryParts(e.key, e.value, rest);
    InsertLast(d, e.key, e.value);
    hide *;
    ReadsPair(x, e.key, |EncodeStr(e.key)|, e.value, |Encode(e.value)|);
    ReadsEntry(x, d, e, |EncodeStr(e.key) + Encode(e.value)|);
  }

  lemma KeysBefore(d: seq<Entry>, entries: seq<Entry>)
    requires Sorted(d + entries) && |entries| > 0
    ensures forall i :: 0 <= i < |d| ==> Less(d[i].key, entries[0].key)
  {
    forall i | 0 <= i < |d| ensures Less(d[i].key, entries[0].key) {
      assert (d + entries)[i] == d[i] && (d + entries)[|d|] == entries[0];
    }
    hide Less;
  }

  lemma EntriesSplit(entries: seq<Entry>, t: bytes)
    requires |entries| > 0
    ensures var k, v, more := EncodeStr(entries[0].key), Encode(entries[0].value), EncodeEntries(entries[1..]);
            && EncodeEntries(entries) + [END] + t == k + v + (more + [END] + t)
            && |EncodeEntries(entries)| == |k| + |v| + |more|
  {
    hide Encode, EncodeStr;
  }

  lemma {:induction false} EntriesReadBack(d: seq<Entry>, entries: seq<Entry>, t: bytes)
    requires Sorted(d + entries) && EntriesFit(entries)
    ensures ReadEntries(EncodeEntries(entries) + [END] + t, d) == Ok(d + entries, |EncodeEntries(entries)| + 1)
    decreases entries
  {
    var x := EncodeEntries(entries) + [END] + t;
    if |entries| == 0 {
      assert x[0] == END && d + entries == d;
    } else {
      hide Encode, ReadValue, EncodeStr, Sorted, ReadEntries, Less, Fits, Insert;
      var e := entries[0];
      var rest := EncodeEntries(entries[1..]) + [END] + t;
      EntriesSplit(entries, t);
      hide EncodeEntries;
      KeysBefore(d, entries);
      MoveFirst(d, entries);
      ReadsBack(e.value, rest);
      EntryReadsBack(d, e, rest);
      EntriesReadBack(d + [e], entries[1..], t);
    }
  }

  /** Round trip: whatever stands behind it, a printed value is read back and exactly its bytes are used; and a
      stream that holds nothing else is accepted. */
  lemma RoundTrip(v: Value, t: bytes)
    requires Fits(v)
    ensures ReadValue(Encode(v) + t) == Ok(v, |Encode(v)|)
    ensures Decode(Encode(v) + t) == if t == [] then Ok(v, |Encode(v)|) else Reject
  {
    ReadsBack(v, t);
  }
}
