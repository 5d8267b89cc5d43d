/** Which bytes the info hash covers (src/cdpi_bencode.cpp). */
module BencodeInfo {
  import opened Bytes
  import opened Decimal
  import opened BencodeSpec
  import opened BencodeTheorems

  // ------------------------------------------------- a value ends where it ends

  /** The first n bytes are the same. */
  predicate Agree(x: bytes, y: bytes, n: nat) {
    n <= |x| && n <= |y| && x[..n] == y[..n]
  }

  lemma AgreeParts(x: bytes, y: bytes, n: nat, m: nat)
    requires Agree(x, y, n) && m <= n
    ensures Agree(x, y, m) && Agree(x[m..], y[m..], n - m)
    ensures n > 0 ==> |x| > 0 && |y| > 0 && x[0] == y[0]
  {
    assert x[..m] == x[..n][..m] && y[..m] == y[..n][..m];
    assert x[m..][..n - m] == x[..n][m..] && y[m..][..n - m] == y[..n][m..];
    assert n > 0 ==> x[0] == x[..n][0] && y[0] == y[..n][0];
  }

  lemma IndexOfStays(x: bytes, y: bytes, n: nat, c: byte)
    requires Agree(x, y, n) && 0 <= IndexOf(x, c) < n
    ensures IndexOf(y, c) == IndexOf(x, c)
  {
    var i := IndexOf(x, c);
    AgreeParts(x, y, n, i);
    AgreeParts(x[i..], y[i..], n - i, 0);
    FirstIndex(y, c, i);
  }

  lemma StrStays(x: bytes, y: bytes)
    requires |x| > 0 && IsDigit(x[0]) && ReadStr(x).Ok? && Agree(x, y, ReadStr(x).used)
    ensures |y| > 0 && IsDigit(y[0]) && ReadStr(y) == ReadStr(x)
  {
    var n := ReadStr(x).used;
    var colon := IndexOf(x, COLON);
    AgreeParts(x, y, n, colon);
    IndexOfStays(x, y, n, COLON);
    assert x[colon + 1..n] == x[..n][colon + 1..] && y[colon + 1..n] == y[..n][colon + 1..];
    hide Atoi;
  }

  lemma IntStays(x: bytes, y: bytes)
    requires |x| > 0 && x[0] == INT && ReadInt(x).Ok? && Agree(x, y, ReadInt(x).used)
    ensures |y| > 0 && y[0] == INT && ReadInt(y) == ReadInt(x)
  {
    var n := ReadInt(x).used;
    AgreeParts(x, y, n, 1);
    IndexOfStays(x[1..], y[1..], n - 1, END);
    AgreeParts(x[1..], y[1..], n - 1, IndexOf(x[1..], END));
    hide Atoi;
  }

  /** What is read depends on the bytes used alone. */
  lemma {:induction false} ValueStays(x: bytes, y: bytes)
    requires ReadValue(x).Ok? && Agree(x, y, ReadValue(x).used)
    ensures ReadValue(y) == ReadValue(x)
    decreases |x|, 0
  {
    AgreeParts(x, y, ReadValue(x).used, 1);
    hide Agree;
    if x[0] == DICT {
      EntriesStay(x[1..], y[1..], []);
      hide ReadEntries;
    } else if x[0] == LIST {
      ItemsStay(x[1..], y[1..]);
      hide ReadItems;
    } else if x[0] == INT {
      IntStays(x, y);
      hide ReadInt;
    } else {
      StrStays(x, y);
      hide ReadStr;
    }
  }

  lemma {:induction false} ItemsStay(x: bytes, y: bytes)
    requires ReadItems(x).Ok? && Agree(x, y, ReadItems(x).used)
    ensures ReadItems(y) == ReadItems(x)
    decreases |x|, 1
  {
    AgreeParts(x, y, ReadItems(x).used, 0);
    if !(|x| > 0 && x[0] == END) {
      var r := ReadValue(x);
      AgreeParts(x, y, ReadItems(x).used, r.used);
      hide Agree;
      ValueStays(x, y);
      hide ReadValue;
      ItemsStay(x[r.used..], y[r.used..]);
    }
  }

  lemma {:induction false} PairStays(x: bytes, y: bytes)
    requires |x| > 0 && IsDigit(x[0]) && ReadPair(x).Ok? && Agree(x, y, ReadPair(x).used)
    ensures |y| > 0 && IsDigit(y[0]) && ReadPair(y) == ReadPair(x)
    decreases |x|, 0
  {
    var n, m := ReadPair(x).used, ReadStr(x).used;
    var r := ReadValue(x[m..]);
    AgreeParts(x, y, n, m);
    hide Agree, ReadStr, ReadValue;
    StrStays(x, y);
    ValueStays(x[m..], y[m..]);
  }

  lemma {:induction false} EntriesStay(x: bytes, y: bytes, d: seq<Entry>)
    requires ReadEntries(x, d).Ok? && Agree(x, y, ReadEntries(x, d).used)
    ensures ReadEntries(y, d) == ReadEntries(x, d)
    decreases |x|, 1
  {
    var n := ReadEntries(x, d).used;
    AgreeParts(x, y, n, 0);
    hide ReadPair, Insert;
    if x[0] != END {
      var r := ReadPair(x);
      AgreeParts(x, y, n, r.used);
      hide Agree;
      PairStays(x, y);
      EntriesStay(x[r.used..], y[r.used..], Insert(d, r.value.key, r.value.value));
    }
  }

  // -------------------------------------------------------------- completions

  /** The slice is the bytes of the value, no more and no less. */
  predicate Exact(c: Completed) {
    ReadValue(c.slice) == Ok(c.value, |c.slice|)
  }

  ghost predicate AllExact(cs: seq<Completed>) {
    forall i :: 0 <= i < |cs| ==> Exact(cs[i])
  }

  lemma {:induction false} CompletionsExact(x: bytes)
    ensures AllExact(Completions(x))
    decreases |x|, 0
  {
    if |x| > 0 {
      if x[0] == DICT {
        EntryCompletionsExact(x[1..]);
      } else if x[0] == LIST {
        ItemCompletionsExact(x[1..]);
      }
    }
    hide Exact, EntryCompletions, ItemCompletions;
  }

  lemma {:induction false} ItemCompletionsExact(x: bytes)
    ensures AllExact(ItemCompletions(x))
    decreases |x|, 1
  {
    CompletionsExact(x);
    if !(|x| > 0 && x[0] == END) && ReadValue(x).Ok? {
      ItemCompletionsExact(x[ReadValue(x).used..]);
    }
    hide Exact, Completions, ReadValue;
  }

  lemma {:induction false} PairCompletionsExact(x: bytes)
    requires |x| > 0 && IsDigit(x[0])
    ensures AllExact(PairCompletions(x))
    decreases |x|, 0
  {
    if ReadStr(x).Ok? {
      var y := x[ReadStr(x).used..];
      CompletionsExact(y);
      var r := ReadValue(y);
      if r.Ok? {
        assert Agree(y, y[..r.used], r.used);
        ValueStays(y, y[..r.used]);
        assert Exact(Completed(ReadStr(x).value, r.value, y[..r.used]));
      }
    }
    hide Exact, Completions, ReadValue, ReadStr;
  }

  lemma {:induction false} EntryCompletionsExact(x: bytes)
    ensures AllExact(EntryCompletions(x))
    decreases |x|, 1
  {
    if |x| > 0 && IsDigit(x[0]) {
      PairCompletionsExact(x);
      hide Exact, PairCompletions, ReadPair;
      if ReadPair(x).Ok? { EntryCompletionsExact(x[ReadPair(x).used..]); }
    }
  }

  /** c is the last completed key that begins with "info". */
  predicate IsLastInfo(cs: seq<Completed>, i: nat) {
    i < |cs| && IsInfo(cs[i].key) && forall j :: i < j < |cs| ==> !IsInfo(cs[j].key)
  }

  lemma {:induction false} InfoSliceIsLast(cs: seq<Completed>, before: Option<bytes>)
    ensures (forall j :: 0 <= j < |cs| ==> !IsInfo(cs[j].key)) ==> InfoSlice(cs, before) == before
    ensures forall i: nat :: IsLastInfo(cs, i) ==> InfoSlice(cs, before) == Some(cs[i].slice)
    decreases |cs|
  {
    if |cs| > 0 {
      var n := |cs| - 1;
      InfoSliceIsLast(cs[..n], before);
      forall i: nat | IsLastInfo(cs, i) ensures InfoSlice(cs, before) == Some(cs[i].slice) {
        assert !IsInfo(cs[n].key) ==> IsLastInfo(cs[..n], i) && cs[..n][i] == cs[i];
      }
    }
  }

  lemma {:induction false} SomeLastInfo(cs: seq<Completed>, j: nat) returns (i: nat)
    requires j < |cs| && IsInfo(cs[j].key)
    ensures IsLastInfo(cs, i)
    decreases |cs|
  {
    var n := |cs| - 1;
    if IsInfo(cs[n].key) {
      i := n;
    } else {
      i := SomeLastInfo(cs[..n], j);
    }
  }

  /** The hashed slice is exactly the bytes consumed for the value of the last completed key that begins with
      "info"; read on their own, they give that value. Without such a key nothing is hashed. */
  lemma InfoSliceIsValue(x: bytes, before: Option<bytes>)
    ensures var cs := Completions(x);
            || (InfoSlice(cs, before) == before && forall j :: 0 <= j < |cs| ==> !IsInfo(cs[j].key))
            || (exists i: nat :: && IsLastInfo(cs, i) && InfoSlice(cs, before) == Some(cs[i].slice)
                                 && ReadValue(cs[i].slice) == Ok(cs[i].value, |cs[i].slice|))
  {
    var cs := Completions(x);
    InfoSliceIsLast(cs, before);
    CompletionsExact(x);
    if j :| 0 <= j < |cs| && IsInfo(cs[j].key) {
      var i := SomeLastInfo(cs, j);
      assert Exact(cs[i]);
    }
    hide InfoSlice, Completions, ReadValue;
  }

  // ------------------------------------------------- the info slice of a torrent

  /** The completions of a printed value: after its inner ones, every pair of a dictionary. */
  function CompletedIn(v: Value): seq<Completed>
    decreases v
  {
    match v
    case Int(_) => []
    case Str(_) => []
    case List(items) => CompletedItems(items)
    case Dict(entries) => CompletedEntries(entries)
  }

  function CompletedItems(items: seq<Value>): seq<Completed>
    decreases items
  {
    if |items| == 0 then [] else CompletedIn(items[0]) + CompletedItems(items[1..])
  }

  function CompletedEntries(entries: seq<Entry>): seq<Completed>
    decreases entries
  {
    if |entries| == 0 then []
    else
      CompletedIn(entries[0].value)
      + [Completed(entries[0].key, entries[0].value, Encode(entries[0].value))] + CompletedEntries(entries[1..])
  }

  lemma CompletionsByKind(kind: byte, body: bytes)
    ensures kind == DICT ==> Completions([kind] + body) == EntryCompletions(body)
    ensures kind == LIST ==> Completions([kind] + body) == ItemCompletions(body)
    ensures kind != DICT && kind != LIST ==> Completions([kind] + body) == []
  {
    assert ([kind] + body)[1..] == body;
    hide EntryCompletions, ItemCompletions;
  }

  lemma {:induction false} PrintedCompletions(v: Value, t: bytes)
    requires Fits(v)
    ensures Completions(Encode(v) + t) == CompletedIn(v)
    decreases v
  {
    hide Completions, ItemCompletions, EntryCompletions;
    match v {
      case Int(n) =>
        assert Encode(v) + t == [INT] + (PrintInt(n) + [END] + t);
        CompletionsByKind(INT, PrintInt(n) + [END] + t);
      case Str(s) =>
        DigitsRead(|s|);
        var x := Encode(v) + t;
        var first: byte := x[0];
        assert x == [first] + x[1..];
        CompletionsByKind(first, x[1..]);
      case List(items) =>
        ItemsCompleted(items, t);
        assert Encode(v) + t == [LIST] + (EncodeItems(items) + [END] + t);
        CompletionsByKind(LIST, EncodeItems(items) + [END] + t);
      case Dict(entries) =>
        EntriesCompleted(entries, t);
        assert Encode(v) + t == [DICT] + (EncodeEntries(entries) + [END] + t);
        CompletionsByKind(DICT, EncodeEntries(entries) + [END] + t);
    }
  }

  lemma {:induction false} ItemsCompleted(items: seq<Value>, t: bytes)
    requires ItemsFit(items)
    ensures ItemCompletions(EncodeItems(items) + [END] + t) == CompletedItems(items)
    decreases items
  {
    var x := EncodeItems(items) + [END] + t;
    if |items| == 0 {
      assert x[0] == END;
    } else {
      var rest := EncodeItems(items[1..]) + [END] + t;
      assert x == Encode(items[0]) + rest;
      EncodeStart(items[0]);
      assert Fits(items[0]);
      hide Encode, ReadValue, Completions, Fits;
      ReadsBack(items[0], rest);
      PrintedCompletions(items[0], rest);
      assert x[|Encode(items[0])|..] == rest;
      ItemsCompleted(items[1..], t);
    }
  }

  lemma EntryCompleted(e: Entry, rest: bytes)
    requires Fits(e.value)
    ensures EntryCompletions(EncodeStr(e.key) + Encode(e.value) + rest)
         == Completions(Encode(e.value) + rest) + [Completed(e.key, e.value, Encode(e.value))] + EntryCompletions(rest)
  {
    var x, m, n := EncodeStr(e.key) + Encode(e.value) + rest, |EncodeStr(e.key)|, |Encode(e.value)|;
    EntryParts(e.key, e.value, rest);
    ReadsBack(e.value, rest);
    assert (Encode(e.value) + rest)[..n] == Encode(e.value);
    hide Encode, ReadValue, ReadStr, Completions, EncodeStr, ReadPair;
    ReadsPair(x, e.key, m, e.value, n);
  }

  lemma {:induction false} EntriesCompleted(entries: seq<Entry>, t: bytes)
    requires EntriesFit(entries)
    ensures EntryCompletions(EncodeEntries(entries) + [END] + t) == CompletedEntries(entries)
    decreases entries
  {
    var x := EncodeEntries(entries) + [END] + t;
    if |entries| == 0 {
      assert x[0] == END;
    } else {
      var e := entries[0];
      var rest := EncodeEntries(entries[1..]) + [END] + t;
      assert x == EncodeStr(e.key) + Encode(e.value) + rest;
      hide Encode, ReadValue, Completions, EntryCompletions, EncodeStr, Fits;
      EntryCompleted(e, rest);
      PrintedCompletions(e.value, rest);
      EntriesCompleted(entries[1..], t);
    }
  }

  predicate NoInfo(cs: seq<Completed>) {
    forall j :: 0 <= j < |cs| ==> !IsInfo(cs[j].key)
  }

  /** A torrent: a dictionary whose only key beginning with "info", at any depth of what follows it, is key i.
      Then the hashed slice is the printed form of its value. */
  lemma TorrentInfo(entries: seq<Entry>, i: nat, t: bytes, before: Option<bytes>)
    requires Fits(Dict(entries)) && i < |entries| && IsInfo(entries[i].key)
    requires NoInfo(CompletedEntries(entries[i + 1..]))
    ensures InfoSlice(Completions(Encode(Dict(entries)) + t), before) == Some(Encode(entries[i].value))
  {
    PrintedCompletions(Dict(entries), t);
    LastInfoOfDict(entries, i, before);
    hide *;
  }

  lemma LastInfoOfDict(entries: seq<Entry>, i: nat, before: Option<bytes>)
    requires i < |entries| && IsInfo(entries[i].key)
    requires NoInfo(CompletedEntries(entries[i + 1..]))
    ensures InfoSlice(CompletedIn(Dict(entries)), before) == Some(Encode(entries[i].value))
  {
    CompletedSplit(entries, i);
    var cs, after := CompletedEntries(entries), CompletedEntries(entries[i + 1..]);
    assert CompletedIn(Dict(entries)) == cs;
    hide CompletedEntries, CompletedIn, Encode, InfoSlice, IsInfo;
    LastBeforeNone(cs, |cs| - |after| - 1, after);
    InfoSliceIsLast(cs, before);
  }

  lemma LastBeforeNone(cs: seq<Completed>, n: nat, after: seq<Completed>)
    requires n < |cs| && IsInfo(cs[n].key) && cs[n + 1..] == after && NoInfo(after)
    ensures IsLastInfo(cs, n)
  {
    hide IsInfo;
    forall j | n < j < |cs| ensures !IsInfo(cs[j].key) {
      assert cs[j] == after[j - n - 1];
    }
  }

  lemma {:induction false} CompletedSplit(entries: seq<Entry>, i: nat)
    requires i < |entries|
    ensures var cs, after := CompletedEntries(entries), CompletedEntries(entries[i + 1..]);
            var n := |cs| - |after| - 1;
            && n >= 0 && cs[n + 1..] == after
            && cs[n] == Completed(entries[i].key, entries[i].value, Encode(entries[i].value))
    decreases i
  {
    hide Encode, CompletedIn;
    if i > 0 {
      CompletedSplit(entries[1..], i - 1);
      assert entries[1..][i..] == entries[i + 1..];
    }
  }
}
