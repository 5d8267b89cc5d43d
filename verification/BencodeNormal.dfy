/** What reading any input yields: a value in normal form, in which the last of equal keys counts
    (src/cdpi_bencode.cpp). */
module BencodeNormal {
  import opened Bytes
  import opened Decimal
  import opened BencodeSpec
  import opened BencodeTheorems

  // ------------------------------------------------------------- dictionaries

  lemma {:induction false} InsertKeys(d: seq<Entry>, k: Text, v: Value, i: nat)
    requires i < |Insert(d, k, v)|
    ensures Insert(d, k, v)[i] == Entry(k, v) || Insert(d, k, v)[i] in d
    decreases |d|
  {
    hide Less;
    if |d| == 0 || Less(k, d[0].key) {
    } else if k != d[0].key && i > 0 {
      InsertKeys(d[1..], k, v, i - 1);
    }
  }

  lemma LessTransitive(a: bytes, b: bytes, c: bytes)
    requires Less(a, b) && Less(b, c)
    ensures Less(a, c)
  {
    LessIsStrictTotalOrder(a, b, c);
  }

  /** `m_dict[k] = v` keeps the keys strictly increasing. */
  lemma {:induction false} InsertKeepsSorted(d: seq<Entry>, k: Text, v: Value)
    requires Sorted(d)
    ensures Sorted(Insert(d, k, v))
    decreases |d|
  {
    if |d| > 0 {
      LessIsStrictTotalOrder(k, d[0].key, k);
      hide Less;
      SortedFront(d);
      if Less(k, d[0].key) {
        forall j | 0 <= j < |d| ensures Less(k, d[j].key) {
          if j > 0 { LessTransitive(k, d[0].key, d[j].key); }
        }
        hide Sorted;
        FrontSorted(Entry(k, v), d);
      } else if k == d[0].key {
        hide Sorted;
        FrontSorted(Entry(k, v), d[1..]);
      } else {
        hide Sorted;
        InsertKeepsSorted(d[1..], k, v);
        var rest := Insert(d[1..], k, v);
        forall j | 0 <= j < |rest| ensures Less(d[0].key, rest[j].key) {
          InsertKeys(d[1..], k, v, j);
        }
        FrontSorted(d[0], rest);
      }
    }
  }

  lemma SortedFront(d: seq<Entry>)
    requires Sorted(d) && |d| > 0
    ensures Sorted(d[1..]) && forall j :: 0 <= j < |d[1..]| ==> Less(d[0].key, d[1..][j].key)
  {
    hide Less;
  }

  lemma FrontSorted(e: Entry, d: seq<Entry>)
    requires Sorted(d) && forall j :: 0 <= j < |d| ==> Less(e.key, d[j].key)
    ensures Sorted([e] + d)
  {
    hide Less;
    var r := [e] + d;
    forall i, j | 0 <= i < j < |r| ensures Less(r[i].key, r[j].key) {
      if i > 0 { assert r[i] == d[i - 1] && r[j] == d[j - 1]; } else { assert r[j] == d[j - 1]; }
    }
  }

  /** Looking up after an assignment. */
  lemma {:induction false} LookupInsert(d: seq<Entry>, k: Text, v: Value, j: bytes)
    ensures Lookup(Insert(d, k, v), j) == if j == k then Some(v) else Lookup(d, j)
    decreases |d|
  {
    hide Less;
    if |d| == 0 || Less(k, d[0].key) {
      assert ([Entry(k, v)] + d)[1..] == d;
    } else if k == d[0].key {
      assert ([Entry(k, v)] + d[1..])[1..] == d[1..];
    } else {
      LookupInsert(d[1..], k, v, j);
      assert ([d[0]] + Insert(d[1..], k, v))[1..] == Insert(d[1..], k, v);
    }
  }

  /** The pairs of a dictionary as they stand in the input. */
  function Pairs(x: bytes): seq<Entry>
    decreases |x|
  {
    if |x| == 0 || !IsDigit(x[0]) || !ReadPair(x).Ok? then []
    else [ReadPair(x).value] + Pairs(x[ReadPair(x).used..])
  }

  /** The value of the last pair with key k. */
  function LastOf(ps: seq<Entry>, k: bytes): Option<Value> {
    if |ps| == 0 then None
    else if ps[|ps| - 1].key == k then Some(ps[|ps| - 1].value)
    else LastOf(ps[..|ps| - 1], k)
  }

  lemma {:induction false} LastOfCons(e: Entry, ps: seq<Entry>, k: bytes)
    ensures LastOf([e] + ps, k)
         == if LastOf(ps, k).Some? then LastOf(ps, k) else if e.key == k then Some(e.value) else None
    decreases |ps|
  {
    var all := [e] + ps;
    if |ps| == 0 {
      assert all[..0] == [];
    } else {
      assert all[..|all| - 1] == [e] + ps[..|ps| - 1];
      LastOfCons(e, ps[..|ps| - 1], k);
    }
  }

  lemma {:induction false} EntriesLastWins(x: bytes, d: seq<Entry>, k: bytes)
    requires ReadEntries(x, d).Ok?
    ensures Lookup(ReadEntries(x, d).value, k)
         == if LastOf(Pairs(x), k).Some? then LastOf(Pairs(x), k) else Lookup(d, k)
    decreases |x|
  {
    hide ReadPair, Insert, Less, Lookup;
    if x[0] != END {
      var e, n := ReadPair(x).value, ReadPair(x).used;
      EntriesLastWins(x[n..], Insert(d, e.key, e.value), k);
      LookupInsert(d, e.key, e.value, k);
      LastOfCons(e, Pairs(x[n..]), k);
      hide LastOf;
    }
  }

  // --------------------------------------------------------------- normal form

  lemma InsertFits(d: seq<Entry>, k: Text, v: Value)
    requires Sorted(d) && EntriesFit(d) && Fits(v)
    ensures Sorted(Insert(d, k, v)) && EntriesFit(Insert(d, k, v))
  {
    InsertKeepsSorted(d, k, v);
    forall i | 0 <= i < |Insert(d, k, v)|
      ensures Fits(Insert(d, k, v)[i].value)
    {
      InsertKeys(d, k, v, i);
    }
    hide Insert, Fits, Sorted;
  }

  lemma {:induction false} ReadFits(x: bytes)
    ensures ReadValue(x).Ok? ==> Fits(ReadValue(x).value)
    decreases |x|, 0
  {
    if |x| > 0 {
      if x[0] == DICT {
        EntriesReadFit(x[1..], []);
        hide ReadEntries;
      } else if x[0] == LIST {
        ItemsReadFit(x[1..]);
        hide ReadItems;
      }
      hide ReadStr, ReadInt, Sorted;
    }
  }

  lemma {:induction false} ItemsReadFit(x: bytes)
    ensures ReadItems(x).Ok? ==> ItemsFit(ReadItems(x).value)
    decreases |x|, 1
  {
    if !(|x| > 0 && x[0] == END) {
      ReadFits(x);
      var r := ReadValue(x);
      hide ReadValue, Fits;
      if r.Ok? { ItemsReadFit(x[r.used..]); }
    }
  }

  lemma {:induction false} EntriesReadFit(x: bytes, d: seq<Entry>)
    requires Sorted(d) && EntriesFit(d)
    ensures ReadEntries(x, d).Ok? ==> Sorted(ReadEntries(x, d).value) && EntriesFit(ReadEntries(x, d).value)
    decreases |x|, 1
  {
    if |x| > 0 && IsDigit(x[0]) {
      PairReadFits(x);
      var r := ReadPair(x);
      hide ReadPair, Insert, Sorted, EntriesFit, Fits;
      if r.Ok? {
        InsertFits(d, r.value.key, r.value.value);
        EntriesReadFit(x[r.used..], Insert(d, r.value.key, r.value.value));
      }
    }
    hide ReadPair, Insert, Sorted, EntriesFit;
  }

  lemma {:induction false} PairReadFits(x: bytes)
    requires |x| > 0 && IsDigit(x[0])
    ensures ReadPair(x).Ok? ==> Fits(ReadPair(x).value.value)
    decreases |x|, 0
  {
    if ReadStr(x).Ok? { ReadFits(x[ReadStr(x).used..]); }
    hide ReadStr, ReadValue, Fits;
  }

  /** Normal form: whatever was read, keys in any order or repeated, is a value whose dictionaries have strictly
      increasing keys, and printing it gives bytes that read back as the same value. */
  lemma NormalForm(x: bytes, t: bytes)
    requires ReadValue(x).Ok?
    ensures var v := ReadValue(x).value; Fits(v) && ReadValue(Encode(v) + t) == Ok(v, |Encode(v)|)
  {
    ReadFits(x);
    RoundTrip(ReadValue(x).value, t);
    hide *;
  }

  /** The last of equal keys counts. */
  lemma LastKeyWins(x: bytes, k: bytes)
    requires |x| > 0 && x[0] == DICT && ReadValue(x).Ok?
    ensures ReadValue(x).value.Dict? && Lookup(ReadValue(x).value.entries, k) == LastOf(Pairs(x[1..]), k)
  {
    EntriesLastWins(x[1..], [], k);
    hide ReadEntries, Lookup, LastOf, Pairs;
  }
}
