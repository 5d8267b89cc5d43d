/** Bencode values, their printed form, and what reading a byte stream yields
    (src/cdpi_bencode.hpp, src/cdpi_bencode.cpp; BEP 3). */
module BencodeSpec {
  import opened Bytes
  import opened Decimal

  const INT_MAX := 0x7FFF_FFFF

  /** `m_int`. */
  type Int32 = n: int | -INT_MAX - 1 <= n <= INT_MAX

  /** A `bencode_str`: its `m_len` is an int. */
  type Text = s: bytes | |s| <= INT_MAX

  datatype Value = Int(n: Int32) | Str(s: Text) | List(items: seq<Value>) | Dict(entries: seq<Entry>)

  datatype Entry = Entry(key: Text, value: Value)

  // 'd', 'e', 'i', 'l' and "info"
  const DICT: byte := 100
  const END: byte := 101
  const INT: byte := 105
  const LIST: byte := 108
  const INFO: bytes := [105, 110, 102, 111]

  // ---------------------------------------------------------------- std::map

  /** The order in which a `std::map` with `cdpi_bytes` keys holds and iterates its pairs. */
  ghost predicate Sorted(d: seq<Entry>) {
    forall i, j :: 0 <= i < j < |d| ==> Less(d[i].key, d[j].key)
  }

  /** `m_dict[k] = v` on a sorted list of pairs. */
  function Insert(d: seq<Entry>, k: Text, v: Value): seq<Entry> {
    if |d| == 0 || Less(k, d[0].key) then [Entry(k, v)] + d
    else if k == d[0].key then [Entry(k, v)] + d[1..]
    else [d[0]] + Insert(d[1..], k, v)
  }

  function Lookup(d: seq<Entry>, k: bytes): Option<Value> {
    if |d| == 0 then None else if d[0].key == k then Some(d[0].value) else Lookup(d[1..], k)
  }

  // ---------------------------------------------------------------- printing

  function PrintInt(n: int): bytes {
    if n < 0 then [MINUS] + DecText(-n) else DecText(n)
  }

  function EncodeStr(s: Text): bytes { DecText(|s|) + [COLON] + s }

  /** `encode` to an ostream. */
  function Encode(v: Value): (r: bytes)
    decreases v
  {
    match v
    case Int(n) => [INT] + PrintInt(n) + [END]
    case Str(s) => EncodeStr(s)
    case List(items) => [LIST] + EncodeItems(items) + [END]
    case Dict(entries) => [DICT] + EncodeEntries(entries) + [END]
  }

  function EncodeItems(items: seq<Value>): bytes
    decreases items
  {
    if |items| == 0 then [] else Encode(items[0]) + EncodeItems(items[1..])
  }

  function EncodeEntries(entries: seq<Entry>): bytes
    decreases entries
  {
    if |entries| == 0 then []
    else EncodeStr(entries[0].key) + Encode(entries[0].value) + EncodeEntries(entries[1..])
  }

  /** The cast to int in front of "%d". */
  function ToInt(n: nat): int {
    (n + 0x8000_0000) % 0x1_0000_0000 - 0x8000_0000
  }

  /** The evbuffer encoder casts lengths before it prints them. */
  function EvStr(s: Text): bytes { PrintInt(ToInt(|s|)) + [COLON] + s }

  /** `encode` to an evbuffer. */
  function EvEncode(v: Value): bytes
    decreases v
  {
    match v
    case Int(n) => [INT] + PrintInt(n) + [END]
    case Str(s) => EvStr(s)
    case List(items) => [LIST] + EvItems(items) + [END]
    case Dict(entries) => [DICT] + EvEntries(entries) + [END]
  }

  function EvItems(items: seq<Value>): bytes
    decreases items
  {
    if |items| == 0 then [] else EvEncode(items[0]) + EvItems(items[1..])
  }

  function EvEntries(entries: seq<Entry>): bytes
    decreases entries
  {
    if |entries| == 0 then []
    else EvStr(entries[0].key) + EvEncode(entries[0].value) + EvEntries(entries[1..])
  }

  // ----------------------------------------------------------------- reading

  /** A value and the bytes it took. `Undefined`: a character or a number is used that was not read, or a string
      is shorter than it announced, so that its end is uninitialised memory. */
  datatype Parsed<+T> = Ok(value: T, used: nat) | Reject | Undefined

  /** `atoi`; None outside the range of int. */
  function Atoi(t: bytes): Option<Int32> {
    var u := SkipSpace(t);
    var signed := |u| > 0 && (u[0] == MINUS || u[0] == PLUS);
    var n: int := DecRun(if signed then u[1..] else u, 0);
    if signed && u[0] == MINUS then if n > INT_MAX + 1 then None else Some(-n)
    else if n > INT_MAX then None
    else Some(n)
  }

  /** `read_str`: everything up to the colon goes through `atoi`. */
  function ReadStr(x: bytes): (r: Parsed<Text>)
    requires |x| > 0 && IsDigit(x[0])
    ensures r.Ok? ==> 0 < r.used <= |x|
  {
    var colon := IndexOf(x, COLON);
    if colon < 0 then Undefined
    else
      match Atoi(x[..colon])
      case None => Undefined
      case Some(n) =>
        if n < 0 || colon + 1 + n > |x| then Undefined
        else Ok(x[colon + 1..colon + 1 + n], colon + 1 + n)
  }

  /** `dec_int`: everything up to the 'e' goes through `atoi`; an empty number fails the stream. */
  function ReadInt(x: bytes): (r: Parsed<Value>)
    requires |x| > 0 && x[0] == INT
    ensures r.Ok? ==> 0 < r.used <= |x|
  {
    var e := IndexOf(x[1..], END);
    if e <= 0 then Undefined
    else
      match Atoi(x[1..][..e])
      case None => Undefined
      case Some(n) => Ok(Int(n), e + 2)
  }

  /** What follows in a list or dictionary: rest is read from n bytes further on. */
  function Shift<T>(n: nat, r: Parsed<T>): Parsed<T> {
    match r
    case Ok(v, m) => Ok(v, n + m)
    case Reject => Reject
    case Undefined => Undefined
  }

  /** `decode`. */
  function ReadValue(x: bytes): (r: Parsed<Value>)
    ensures r.Ok? ==> 0 < r.used <= |x|
    decreases |x|, 0
  {
    if |x| == 0 then Reject
    else if x[0] == DICT then
      match ReadEntries(x[1..], [])
      case Ok(d, n) => Ok(Dict(d), n + 1)
      case Reject => Reject
      case Undefined => Undefined
    else if x[0] == LIST then
      match ReadItems(x[1..])
      case Ok(l, n) => Ok(List(l), n + 1)
      case Reject => Reject
      case Undefined => Undefined
    else if x[0] == INT then ReadInt(x)
    else if IsDigit(x[0]) then
      match ReadStr(x)
      case Ok(s, n) => Ok(Str(s), n)
      case Reject => Reject
      case Undefined => Undefined
    else Reject
  }

  /** `dec_list` behind the 'l'. */
  function ReadItems(x: bytes): (r: Parsed<seq<Value>>)
    ensures r.Ok? ==> 0 < r.used <= |x|
    decreases |x|, 1
  {
    if |x| > 0 && x[0] == END then Ok([], 1)
    else
      match ReadValue(x)
      case Reject => Reject
      case Undefined => Undefined
      case Ok(v, n) =>
        match ReadItems(x[n..])
        case Ok(vs, m) => Ok([v] + vs, n + m)
        case Reject => Reject
        case Undefined => Undefined
  }

  /** A key and its value. */
  function ReadPair(x: bytes): (r: Parsed<Entry>)
    requires |x| > 0 && IsDigit(x[0])
    ensures r.Ok? ==> 0 < r.used <= |x|
    decreases |x|, 0
  {
    match ReadStr(x)
    case Reject => Reject
    case Undefined => Undefined
    case Ok(k, m) =>
      match ReadValue(x[m..])
      case Reject => Reject
      case Undefined => Undefined
      case Ok(v, n) => Ok(Entry(k, v), m + n)
  }

  /** `dec_dict` behind the 'd', with the pairs read so far. */
  function ReadEntries(x: bytes, d: seq<Entry>): (r: Parsed<seq<Entry>>)
    ensures r.Ok? ==> 0 < r.used <= |x|
    decreases |x|, 1
  {
    if |x| == 0 then Reject
    else if x[0] == END then Ok(d, 1)
    else if !IsDigit(x[0]) then Reject
    else
      match ReadPair(x)
      case Reject => Reject
      case Undefined => Undefined
      case Ok(e, n) => Shift(n, ReadEntries(x[n..], Insert(d, e.key, e.value)))
  }

  /** `decode` of a whole stream: one value and nothing behind it. */
  function Decode(x: bytes): Parsed<Value> {
    match ReadValue(x)
    case Ok(v, n) => if n == |x| then Ok(v, n) else Reject
    case Reject => Reject
    case Undefined => Undefined
  }

  // --------------------------------------------------------------- info hash

  /** A key whose value has been read, and the bytes of that value. */
  datatype Completed = Completed(key: bytes, value: Value, slice: bytes)

  /** The dictionary keys completed while reading, in the order of completion. */
  function Completions(x: bytes): seq<Completed>
    decreases |x|, 0
  {
    if |x| == 0 then []
    else if x[0] == DICT then EntryCompletions(x[1..])
    else if x[0] == LIST then ItemCompletions(x[1..])
    else []
  }

  function ItemCompletions(x: bytes): seq<Completed>
    decreases |x|, 1
  {
    if |x| > 0 && x[0] == END then []
    else
      var r := ReadValue(x);
      Completions(x) + (if r.Ok? then ItemCompletions(x[r.used..]) else [])
  }

  function EntryCompletions(x: bytes): seq<Completed>
    decreases |x|, 1
  {
    if |x| == 0 || !IsDigit(x[0]) then []
    else
      var r := ReadPair(x);
      PairCompletions(x) + (if r.Ok? then EntryCompletions(x[r.used..]) else [])
  }

  /** Those inside the value of a pair, then its own. */
  function PairCompletions(x: bytes): seq<Completed>
    requires |x| > 0 && IsDigit(x[0])
    decreases |x|, 0
  {
    match ReadStr(x)
    case Reject => []
    case Undefined => []
    case Ok(k, m) =>
      var r := ReadValue(x[m..]);
      Completions(x[m..]) + (if r.Ok? then [Completed(k, r.value, x[m..][..r.used])] else [])
  }

  /** `memcmp(key, "info", 4) == 0`. Keys are stored with a NUL behind them. */
  predicate IsInfo(k: bytes) { |k| >= 4 && k[..4] == INFO }

  /** The slice whose digest is `m_info_hash`. */
  function InfoSlice(cs: seq<Completed>, before: Option<bytes>): Option<bytes> {
    if |cs| == 0 then before
    else
      var last := cs[|cs| - 1];
      if IsInfo(last.key) then Some(last.slice) else InfoSlice(cs[..|cs| - 1], before)
  }
}
