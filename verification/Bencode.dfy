/** `cdpi_bencode` as an object that reads from a stream with a position and appends to an output
    (src/cdpi_bencode.hpp, src/cdpi_bencode.cpp). */
module Bencode {
  import opened Bytes
  import opened Decimal
  import opened BencodeSpec

  /** What became of a call: bool in the source, or a point where its behaviour is undefined. */
  datatype Status = Done | Failed | Broken

  /** The result of a call that found r at position from and left the stream at position to. */
  predicate Came<T(==)>(r: Parsed<T>, status: Status, v: T, from: nat, to: nat) {
    match r
    case Ok(x, n) => status == Done && v == x && to == from + n
    case Reject => status == Failed
    case Undefined => status == Broken
  }

  lemma {:induction false} InfoSliceConcat(a: seq<Completed>, b: seq<Completed>, before: Option<bytes>)
    ensures InfoSlice(a + b, before) == InfoSlice(b, InfoSlice(a, before))
    decreases |b|
  {
    if |b| == 0 {
      assert a + b == a;
    } else {
      assert (a + b)[..|a + b| - 1] == a + b[..|b| - 1];
      InfoSliceConcat(a, b[..|b| - 1], before);
    }
  }

  lemma InfoSliceOne(c: Completed, cs: seq<Completed>, before: Option<bytes>)
    ensures InfoSlice([c] + cs, before) == InfoSlice(cs, if IsInfo(c.key) then Some(c.slice) else before)
  {
    InfoSliceConcat([c], cs, before);
    assert [c][..0] == [];
  }

  // ------------------------------------------------------- one round of a loop

  /** What a list is when n of its bytes gave l and the rest gives r. */
  function Listed(l: seq<Value>, n: nat, r: Parsed<seq<Value>>): Parsed<seq<Value>> {
    match r
    case Ok(vs, m) => Ok(l + vs, n + m)
    case Reject => Reject
    case Undefined => Undefined
  }

  predicate AtEnd(x: bytes) { |x| > 0 && x[0] == END }

  /** The list loop of x has l and used n bytes, hashed stands for the info slice, and rest is to be read. */
  predicate ListLeft(x: bytes, h: Option<bytes>, l: seq<Value>, n: nat, rest: bytes, hashed: Option<bytes>) {
    && ReadItems(x) == Listed(l, n, ReadItems(rest))
    && InfoSlice(ItemCompletions(x), h) == InfoSlice(ItemCompletions(rest), hashed)
  }

  lemma ListStarts(x: bytes, h: Option<bytes>)
    ensures ListLeft(x, h, [], 0, x, h)
  {
    var r := ReadItems(x);
    if r.Ok? { assert [] + r.value == r.value; }
    hide ReadItems, ItemCompletions, InfoSlice;
  }

  lemma ListEnds(x: bytes, h: Option<bytes>, l: seq<Value>, n: nat, rest: bytes, hashed: Option<bytes>)
    requires ListLeft(x, h, l, n, rest, hashed) && AtEnd(rest)
    ensures ReadItems(x) == Ok(l, n + 1) && hashed == InfoSlice(ItemCompletions(x), h)
  {
    assert ReadItems(rest) == Ok([], 1) && ItemCompletions(rest) == [];
    assert l + [] == l;
    hide ReadItems, ItemCompletions;
  }

  lemma ListGoes(x: bytes, h: Option<bytes>, l: seq<Value>, n: nat, rest: bytes, hashed: Option<bytes>)
    requires ListLeft(x, h, l, n, rest, hashed) && !AtEnd(rest)
    ensures var r := ReadValue(rest);
            var h' := InfoSlice(Completions(rest), hashed);
            && (r.Ok? ==> ListLeft(x, h, l + [r.value], n + r.used, rest[r.used..], h'))
            && (r.Reject? ==> ReadItems(x) == Reject) && (r.Undefined? ==> ReadItems(x) == Undefined)
            && (!r.Ok? ==> InfoSlice(ItemCompletions(x), h) == h')
  {
    var r := ReadValue(rest);
    hide ReadValue, Completions, InfoSlice;
    if r.Ok? {
      var more := ReadItems(rest[r.used..]);
      if more.Ok? { assert l + ([r.value] + more.value) == l + [r.value] + more.value; }
      InfoSliceConcat(Completions(rest), ItemCompletions(rest[r.used..]), hashed);
    } else {
      assert Completions(rest) + [] == Completions(rest);
    }
  }

  /** The same for the dictionary loop. */
  predicate DictLeft(x: bytes, h: Option<bytes>, d: seq<Entry>, n: nat, rest: bytes, hashed: Option<bytes>) {
    && ReadEntries(x, []) == Shift(n, ReadEntries(rest, d))
    && InfoSlice(EntryCompletions(x), h) == InfoSlice(EntryCompletions(rest), hashed)
  }

  lemma DictStarts(x: bytes, h: Option<bytes>)
    ensures DictLeft(x, h, [], 0, x, h)
  {
    hide ReadEntries, EntryCompletions, InfoSlice;
  }

  lemma DictEnds(x: bytes, h: Option<bytes>, d: seq<Entry>, n: nat, rest: bytes, hashed: Option<bytes>)
    requires DictLeft(x, h, d, n, rest, hashed) && (|rest| == 0 || !IsDigit(rest[0]))
    ensures hashed == InfoSlice(EntryCompletions(x), h)
    ensures ReadEntries(x, []) == if AtEnd(rest) then Ok(d, n + 1) else Reject
  {
    assert EntryCompletions(rest) == [];
    assert ReadEntries(rest, d) == if AtEnd(rest) then Ok(d, 1) else Reject;
    hide ReadEntries, EntryCompletions;
  }

  lemma DictGoes(x: bytes, h: Option<bytes>, d: seq<Entry>, n: nat, rest: bytes, hashed: Option<bytes>)
    requires DictLeft(x, h, d, n, rest, hashed) && |rest| > 0 && IsDigit(rest[0])
    ensures var r := ReadPair(rest);
            var h' := InfoSlice(PairCompletions(rest), hashed);
            && (r.Ok? ==>
                  DictLeft(x, h, Insert(d, r.value.key, r.value.value), n + r.used, rest[r.used..], h'))
            && (r.Reject? ==> ReadEntries(x, []) == Reject) && (r.Undefined? ==> ReadEntries(x, []) == Undefined)
            && (!r.Ok? ==> InfoSlice(EntryCompletions(x), h) == h')
  {
    hide ReadPair, PairCompletions, InfoSlice, Insert, ReadEntries, EntryCompletions, Shift, IsDigit;
    var r := ReadPair(rest);
    DictReads(rest, d, n);
    DictHashes(rest, hashed);
    if r.Ok? {
      assert DictLeft(x, h, Insert(d, r.value.key, r.value.value), n + r.used, rest[r.used..],
                      InfoSlice(PairCompletions(rest), hashed));
      hide DictLeft;
    }
  }

  lemma DictReads(x: bytes, d: seq<Entry>, n: nat)
    requires |x| > 0 && IsDigit(x[0])
    ensures var r := ReadPair(x);
            && (r.Ok? ==>
                  Shift(n, ReadEntries(x, d))
                  == Shift(n + r.used, ReadEntries(x[r.used..], Insert(d, r.value.key, r.value.value))))
            && (r.Reject? ==> Shift(n, ReadEntries(x, d)) == Reject)
            && (r.Undefined? ==> Shift(n, ReadEntries(x, d)) == Undefined)
  {
    hide ReadPair, Insert;
  }

  lemma DictHashes(x: bytes, h: Option<bytes>)
    requires |x| > 0 && IsDigit(x[0])
    ensures var r := ReadPair(x);
            var h' := InfoSlice(PairCompletions(x), h);
            InfoSlice(EntryCompletions(x), h) == if r.Ok? then InfoSlice(EntryCompletions(x[r.used..]), h') else h'
  {
    hide ReadPair, PairCompletions, InfoSlice;
    if ReadPair(x).Ok? {
      InfoSliceConcat(PairCompletions(x), EntryCompletions(x[ReadPair(x).used..]), h);
    } else {
      assert PairCompletions(x) + [] == PairCompletions(x);
    }
  }

  lemma PairKeyFails(x: bytes, h: Option<bytes>)
    requires |x| > 0 && IsDigit(x[0]) && !ReadStr(x).Ok?
    ensures ReadPair(x) == (if ReadStr(x).Reject? then Reject else Undefined)
    ensures InfoSlice(PairCompletions(x), h) == h
  {
  }

  lemma PairGoes(x: bytes, h: Option<bytes>)
    requires |x| > 0 && IsDigit(x[0]) && ReadStr(x).Ok?
    ensures var k, m := ReadStr(x).value, ReadStr(x).used;
            var y := x[m..];
            var r := ReadValue(y);
            var h' := InfoSlice(Completions(y), h);
            && (r.Ok? ==> ReadPair(x) == Ok(Entry(k, r.value), m + r.used))
            && (r.Reject? ==> ReadPair(x) == Reject) && (r.Undefined? ==> ReadPair(x) == Undefined)
            && InfoSlice(PairCompletions(x), h) == (if r.Ok? && IsInfo(k) then Some(y[..r.used]) else h')
  {
    var k, m := ReadStr(x).value, ReadStr(x).used;
    var y := x[m..];
    var r := ReadValue(y);
    hide ReadValue, Completions, ReadStr;
    if r.Ok? {
      var c := Completed(k, r.value, y[..r.used]);
      InfoSliceConcat(Completions(y), [c], h);
      InfoSliceOne(c, [], InfoSlice(Completions(y), h));
      assert [c] + [] == [c];
    } else {
      assert Completions(y) + [] == Completions(y);
    }
  }

  /** An istream that can seek. */
  class Input {
    const s: bytes
    var pos: nat

    constructor (text: bytes)
      ensures s == text && pos == 0 && Valid()
    {
      s, pos := text, 0;
    }

    ghost predicate Valid()
      reads this
    {
      pos <= |s|
    }

    ghost function Rest(): bytes
      requires Valid()
      reads this
    {
      s[pos..]
    }

    /** `peek`; None at the end. */
    method Peek() returns (c: Option<byte>)
      requires Valid()
      ensures c == if Rest() == [] then None else Some(Rest()[0])
    {
      c := if pos < |s| then Some(s[pos]) else None;
    }

    method Ignore()
      requires Valid() && Rest() != []
      modifies this
      ensures Valid() && pos == old(pos) + 1 && Rest() == old(Rest())[1..]
    {
      pos := pos + 1;
    }

    /** `get(buf, c)` and then `get` of c itself: the text in front of the first c, which is stepped over. None when
        there is no c or nothing in front of it: then the stream fails and the second `get` stores nothing. */
    method GetThrough(c: byte) returns (text: Option<bytes>)
      requires Valid()
      modifies this
      ensures Valid()
      ensures var n := IndexOf(old(Rest()), c);
              && text == (if n <= 0 then None else Some(old(Rest())[..n]))
              && (n > 0 ==> pos == old(pos) + n + 1 && Rest() == old(Rest())[n + 1..])
    {
      var i := pos;
      while i < |s| && s[i] != c
        invariant pos <= i <= |s|
        invariant c !in s[pos..i]
      {
        i := i + 1;
      }
      ghost var x := s[pos..];
      assert s[pos..i] == x[..i - pos];
      if i == |s| {
        assert x[..i - pos] == x;
        return None;
      }
      FirstIndex(x, c, i - pos);
      if i == pos {
        return None;
      }
      text := Some(s[pos..i]);
      pos := i + 1;
    }

    /** `read`; None when fewer than n bytes are left, which leaves the end of the buffer uninitialised. */
    method Read(n: nat) returns (data: Option<bytes>)
      requires Valid()
      modifies this
      ensures Valid()
      ensures data == (if n > |old(Rest())| then None else Some(old(Rest())[..n]))
      ensures data.Some? ==> pos == old(pos) + n && Rest() == old(Rest())[n..]
    {
      if pos + n > |s| {
        return None;
      }
      data := Some(s[pos..pos + n]);
      assert s[pos..][..n] == s[pos..pos + n];
      pos := pos + n;
    }

    method Seek(to: nat)
      requires to <= |s|
      modifies this
      ensures Valid() && pos == to
    {
      pos := to;
    }
  }

  class Decoder {
    var data: Option<Value>
    var infoBegin: nat
    var infoEnd: nat
    /** The bytes whose digest is `m_info_hash`. */
    var hashed: Option<bytes>

    constructor ()
      ensures data == None && hashed == None
    {
      data, infoBegin, infoEnd, hashed := None, 0, 0, None;
    }

    /** `read_str`. */
    method ReadString(input: Input) returns (status: Status, s: Text)
      requires input.Valid() && input.Rest() != [] && IsDigit(input.Rest()[0])
      modifies input
      ensures input.Valid()
      ensures Came(ReadStr(old(input.Rest())), status, s, old(input.pos), input.pos)
    {
      hide Atoi;
      s := [];
      ghost var x, colon := input.Rest(), IndexOf(input.Rest(), COLON);
      assert colon != 0;
      var num := input.GetThrough(COLON);
      if num.None? {
        return Broken, s;
      }
      var len := Atoi(num.value);
      if len.None? || len.value < 0 {
        return Broken, s;
      }
      var text := input.Read(len.value);
      if text.None? {
        return Broken, s;
      }
      assert x[colon + 1..][..len.value] == x[colon + 1..colon + 1 + len.value];
      return Done, text.value;
    }

    /** `dec_int`. */
    method DecInt(input: Input) returns (status: Status, v: Value)
      requires input.Valid() && input.Rest() != [] && input.Rest()[0] == INT
      modifies input
      ensures input.Valid()
      ensures Came(ReadInt(old(input.Rest())), status, v, old(input.pos), input.pos)
    {
      hide Atoi;
      v := Int(0);
      input.Ignore();
      var text := input.GetThrough(END);
      if text.None? {
        return Broken, v;
      }
      var n := Atoi(text.value);
      if n.None? {
        return Broken, v;
      }
      return Done, Int(n.value);
    }

    /** `calc_info_hash`: the stream is where it was. */
    method CalcInfoHash(input: Input)
      requires input.Valid() && infoBegin <= infoEnd <= |input.s|
      modifies input, this`hashed
      ensures input.pos == old(input.pos) && input.Valid()
      ensures hashed == Some(input.s[infoBegin..infoEnd])
    {
      var pos := input.pos;
      input.Seek(infoBegin);
      var info := input.Read(infoEnd - infoBegin);
      hashed := info;
      assert input.s[infoBegin..][..infoEnd - infoBegin] == input.s[infoBegin..infoEnd];
      input.Seek(pos);
    }

    /** `decode` of one value. */
    method DecodeValue(input: Input) returns (status: Status, v: Value)
      requires input.Valid()
      modifies input, this`infoBegin, this`infoEnd, this`hashed
      ensures input.Valid()
      ensures Came(ReadValue(old(input.Rest())), status, v, old(input.pos), input.pos)
      ensures hashed == InfoSlice(Completions(old(input.Rest())), old(hashed))
      decreases |input.s| - input.pos, 1
    {
      hide ReadEntries, ReadItems, EntryCompletions, ItemCompletions, ReadInt, ReadStr;
      v := Int(0);
      var c := input.Peek();
      if c.None? {
        return Failed, v;
      }
      if c.value == DICT {
        status, v := DecDict(input);
      } else if c.value == LIST {
        status, v := DecList(input);
      } else if c.value == INT {
        status, v := DecInt(input);
      } else if IsDigit(c.value) {
        var s;
        status, s := ReadString(input);
        v := Str(s);
      } else {
        return Failed, v;
      }
    }

    /** The loop of `dec_list`. */
    method DecItems(input: Input) returns (status: Status, l: seq<Value>)
      requires input.Valid()
      modifies input, this`infoBegin, this`infoEnd, this`hashed
      ensures input.Valid()
      ensures Came(ReadItems(old(input.Rest())), status, l, old(input.pos), input.pos)
      ensures hashed == InfoSlice(ItemCompletions(old(input.Rest())), old(hashed))
      decreases |input.s| - input.pos, 2
    {
      hide ReadValue, ReadItems, Completions, ItemCompletions, InfoSlice, ListLeft;
      ghost var x, from, h := input.Rest(), input.pos, hashed;
      l := [];
      ListStarts(x, h);
      while true
        invariant input.Valid() && from <= input.pos
        invariant ListLeft(x, h, l, input.pos - from, input.Rest(), hashed)
        decreases |input.s| - input.pos
      {
        ghost var y, p, before := input.Rest(), input.pos, hashed;
        var c := input.Peek();
        if c == Some(END) {
          ListEnds(x, h, l, p - from, y, before);
          input.Ignore();
          return Done, l;
        }
        ListGoes(x, h, l, p - from, y, before);
        var item;
        status, item := DecodeValue(input);
        if status != Done {
          return;
        }
        assert y[input.pos - p..] == input.Rest();
        l := l + [item];
      }
    }

    /** `dec_list`. */
    method DecList(input: Input) returns (status: Status, v: Value)
      requires input.Valid() && input.Rest() != [] && input.Rest()[0] == LIST
      modifies input, this`infoBegin, this`infoEnd, this`hashed
      ensures input.Valid()
      ensures Came(ReadValue(old(input.Rest())), status, v, old(input.pos), input.pos)
      ensures hashed == InfoSlice(Completions(old(input.Rest())), old(hashed))
      decreases |input.s| - input.pos, 0
    {
      ghost var x := input.Rest()[1..];
      assert ListAs(x, old(input.Rest()));
      hide ReadValue, ReadItems, Completions, ItemCompletions, InfoSlice;
      input.Ignore();
      var l;
      status, l := DecItems(input);
      v := List(l);
    }

    /** One round of the loop of `dec_dict`: a key, its value, and the info hash. */
    method DecPair(input: Input) returns (status: Status, e: Entry)
      requires input.Valid() && input.Rest() != [] && IsDigit(input.Rest()[0])
      modifies input, this`infoBegin, this`infoEnd, this`hashed
      ensures input.Valid()
      ensures Came(ReadPair(old(input.Rest())), status, e, old(input.pos), input.pos)
      ensures hashed == InfoSlice(PairCompletions(old(input.Rest())), old(hashed))
      decreases |input.s| - input.pos, 0
    {
      hide ReadValue, ReadStr, Completions, InfoSlice, ReadPair, PairCompletions;
      ghost var x, h := input.Rest(), hashed;
      if ReadStr(x).Ok? { PairGoes(x, h); } else { PairKeyFails(x, h); }
      var key;
      status, key := ReadString(input);
      e := Entry(key, Int(0));
      if status != Done {
        return;
      }
      var pos := input.pos;
      ghost var y := input.Rest();
      assert y == x[ReadStr(x).used..];
      var value;
      status, value := DecodeValue(input);
      e := Entry(key, value);
      if status != Done {
        return;
      }
      assert input.s[pos..input.pos] == y[..input.pos - pos];
      if IsInfo(key) {
        infoBegin, infoEnd := pos, input.pos;
        CalcInfoHash(input);
      }
    }

    /** The loop of `dec_dict`. */
    method DecEntries(input: Input) returns (status: Status, d: seq<Entry>)
      requires input.Valid()
      modifies input, this`infoBegin, this`infoEnd, this`hashed
      ensures input.Valid()
      ensures Came(ReadEntries(old(input.Rest()), []), status, d, old(input.pos), input.pos)
      ensures hashed == InfoSlice(EntryCompletions(old(input.Rest())), old(hashed))
      decreases |input.s| - input.pos, 2
    {
      hide ReadEntries, ReadPair, PairCompletions, EntryCompletions, InfoSlice, DictLeft, Insert;
      ghost var x, from, h := input.Rest(), input.pos, hashed;
      d := [];
      DictStarts(x, h);
      while true
        invariant input.Valid() && from <= input.pos
        invariant DictLeft(x, h, d, input.pos - from, input.Rest(), hashed)
        decreases |input.s| - input.pos
      {
        ghost var y, p, before := input.Rest(), input.pos, hashed;
        var c := input.Peek();
        if c == Some(END) {
          DictEnds(x, h, d, p - from, y, before);
          input.Ignore();
          return Done, d;
        }
        if c.None? || !IsDigit(c.value) {
          DictEnds(x, h, d, p - from, y, before);
          return Failed, d;
        }
        DictGoes(x, h, d, p - from, y, before);
        var e;
        status, e := DecPair(input);
        if status != Done {
          return;
        }
        assert y[input.pos - p..] == input.Rest();
        d := Insert(d, e.key, e.value);
      }
    }

    /** `dec_dict`. */
    method DecDict(input: Input) returns (status: Status, v: Value)
      requires input.Valid() && input.Rest() != [] && input.Rest()[0] == DICT
      modifies input, this`infoBegin, this`infoEnd, this`hashed
      ensures input.Valid()
      ensures Came(ReadValue(old(input.Rest())), status, v, old(input.pos), input.pos)
      ensures hashed == InfoSlice(Completions(old(input.Rest())), old(hashed))
      decreases |input.s| - input.pos, 0
    {
      ghost var x := input.Rest()[1..];
      assert DictAs(x, old(input.Rest()));
      hide ReadValue, ReadEntries, Completions, EntryCompletions, InfoSlice;
      input.Ignore();
      var d;
      status, d := DecEntries(input);
      v := Dict(d);
    }

    /** `decode` of a whole stream. A value with something behind it is kept, though the call fails. */
    method Decode(input: Input) returns (status: Status)
      requires input.Valid()
      modifies input, this
      ensures var r := ReadValue(old(input.Rest()));
              && data == (if r.Ok? then Some(r.value) else if r.Reject? then None else old(data))
              && status == (if r.Undefined? then Broken
                            else if BencodeSpec.Decode(old(input.Rest())).Ok? then Done else Failed)
      ensures hashed == InfoSlice(Completions(old(input.Rest())), old(hashed))
    {
      hide ReadValue, Completions;
      ghost var x := input.Rest();
      var v;
      status, v := DecodeValue(input);
      if status == Done {
        data := Some(v);
        var c := input.Peek();
        if c.Some? { status := Failed; }
      } else if status == Failed {
        data := None;
      }
    }
  }

  // ------------------------------------------------------------------ printing

  /** An ostream, or an evbuffer: text is appended. */
  class Output {
    var text: bytes

    constructor ()
      ensures text == []
    {
      text := [];
    }

    method Write(s: bytes)
      modifies this
      ensures text == old(text) + s
    {
      text := text + s;
    }
  }

  lemma Appended(t: bytes, x: bytes, y: bytes, z: bytes)
    ensures t + x + y + z == t + (x + y + z)
    ensures t + x + y == t + (x + y)
    ensures t + [] == t
  {
  }

  /** `encode_str` to an ostream. */
  method EncodeString(out: Output, s: Text)
    modifies out
    ensures out.text == old(out.text) + EncodeStr(s)
  {
    out.Write(DecText(|s|));
    out.Write([COLON]);
    out.Write(s);
    Appended(old(out.text), DecText(|s|), [COLON], s);
  }

  /** `encode` to an ostream. */
  method EncodeValue(out: Output, v: Value)
    modifies out
    ensures out.text == old(out.text) + Encode(v)
    decreases v, 1
  {
    match v {
      case Int(n) =>
        out.Write([INT]);
        out.Write(PrintInt(n));
        out.Write([END]);
        Appended(old(out.text), [INT], PrintInt(n), [END]);
      case Str(s) =>
        EncodeString(out, s);
      case List(items) =>
        out.Write([LIST]);
        EncodeList(out, v);
        out.Write([END]);
        Appended(old(out.text), [LIST], EncodeItems(items), [END]);
      case Dict(entries) =>
        out.Write([DICT]);
        EncodeDict(out, v);
        out.Write([END]);
        Appended(old(out.text), [DICT], EncodeEntries(entries), [END]);
    }
  }

  /** The loop of `encode_list`. */
  method EncodeList(out: Output, v: Value)
    requires v.List?
    modifies out
    ensures out.text == old(out.text) + EncodeItems(v.items)
    decreases v, 0
  {
    var i := 0;
    ghost var target := out.text + EncodeItems(v.items);
    while i < |v.items|
      invariant i <= |v.items|
      invariant out.text + EncodeItems(v.items[i..]) == target
    {
      ghost var before, item := out.text, Encode(v.items[i]);
      EncodeValue(out, v.items[i]);
      assert v.items[i..][1..] == v.items[i + 1..];
      Appended(before, item, EncodeItems(v.items[i + 1..]), []);
      i := i + 1;
      hide Encode;
    }
    Appended(out.text, [], [], []);
  }

  /** The loop of `encode_dict`. */
  method EncodeDict(out: Output, v: Value)
    requires v.Dict?
    modifies out
    ensures out.text == old(out.text) + EncodeEntries(v.entries)
    decreases v, 0
  {
    var i := 0;
    ghost var target := out.text + EncodeEntries(v.entries);
    while i < |v.entries|
      invariant i <= |v.entries|
      invariant out.text + EncodeEntries(v.entries[i..]) == target
    {
      var e := v.entries[i];
      ghost var before := out.text;
      EncodeString(out, e.key);
      EncodeValue(out, e.value);
      assert v.entries[i..][1..] == v.entries[i + 1..];
      Appended(before, EncodeStr(e.key), Encode(e.value), EncodeEntries(v.entries[i + 1..]));
      i := i + 1;
      hide Encode, EncodeStr;
    }
    Appended(out.text, [], [], []);
  }

  /** `encode_str` to an evbuffer. */
  method EvEncodeString(out: Output, s: Text)
    modifies out
    ensures out.text == old(out.text) + EvStr(s)
  {
    out.Write(PrintInt(ToInt(|s|)));
    out.Write([COLON]);
    out.Write(s);
    Appended(old(out.text), PrintInt(ToInt(|s|)), [COLON], s);
  }

  /** `encode` to an evbuffer. */
  method EvEncodeValue(out: Output, v: Value)
    modifies out
    ensures out.text == old(out.text) + EvEncode(v)
    decreases v, 1
  {
    match v {
      case Int(n) =>
        out.Write([INT] + PrintInt(n) + [END]);
      case Str(s) =>
        EvEncodeString(out, s);
      case List(items) =>
        out.Write([LIST]);
        EvEncodeList(out, v);
        out.Write([END]);
        Appended(old(out.text), [LIST], EvItems(items), [END]);
      case Dict(entries) =>
        out.Write([DICT]);
        EvEncodeDict(out, v);
        out.Write([END]);
        Appended(old(out.text), [DICT], EvEntries(entries), [END]);
    }
  }

  /** The loop of `encode_list`. */
  method EvEncodeList(out: Output, v: Value)
    requires v.List?
    modifies out
    ensures out.text == old(out.text) + EvItems(v.items)
    decreases v, 0
  {
    var i := 0;
    ghost var target := out.text + EvItems(v.items);
    while i < |v.items|
      invariant i <= |v.items|
      invariant out.text + EvItems(v.items[i..]) == target
    {
      ghost var before, item := out.text, EvEncode(v.items[i]);
      EvEncodeValue(out, v.items[i]);
      assert v.items[i..][1..] == v.items[i + 1..];
      Appended(before, item, EvItems(v.items[i + 1..]), []);
      i := i + 1;
      hide EvEncode;
    }
    Appended(out.text, [], [], []);
  }

  /** The loop of `encode_dict`. */
  method EvEncodeDict(out: Output, v: Value)
    requires v.Dict?
    modifies out
    ensures out.text == old(out.text) + EvEntries(v.entries)
    decreases v, 0
  {
    var i := 0;
    ghost var target := out.text + EvEntries(v.entries);
    while i < |v.entries|
      invariant i <= |v.entries|
      invariant out.text + EvEntries(v.entries[i..]) == target
    {
      var e := v.entries[i];
      ghost var before := out.text;
      EvEncodeString(out, e.key);
      EvEncodeValue(out, e.value);
      assert v.entries[i..][1..] == v.entries[i + 1..];
      Appended(before, EvStr(e.key), EvEncode(e.value), EvEntries(v.entries[i + 1..]));
      i := i + 1;
      hide EvEncode, EvStr;
    }
    Appended(out.text, [], [], []);
  }

  // ------------------------------------------------------ a body and its first byte

  /** How a list or a dictionary is read from its body. */
  predicate ListAs(body: bytes, x: bytes) {
    var r := ReadItems(body);
    && Completions(x) == ItemCompletions(body)
    && match r
       case Ok(l, n) => ReadValue(x) == Ok(List(l), n + 1)
       case Reject => ReadValue(x) == Reject
       case Undefined => ReadValue(x) == Undefined
  }

  predicate DictAs(body: bytes, x: bytes) {
    var r := ReadEntries(body, []);
    && Completions(x) == EntryCompletions(body)
    && match r
       case Ok(d, n) => ReadValue(x) == Ok(Dict(d), n + 1)
       case Reject => ReadValue(x) == Reject
       case Undefined => ReadValue(x) == Undefined
  }
}
