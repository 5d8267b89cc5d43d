/** The two printers (src/cdpi_bencode.cpp). */
module BencodePrinters {
  import opened Bytes
  import opened BencodeSpec

  /** The cast changes no length. */
  lemma SameStr(s: Text)
    ensures EvStr(s) == EncodeStr(s)
  {
  }

  /** The evbuffer encoder yields the same bytes as the ostream one, for every value. */
  lemma {:induction false} PrintersAgree(v: Value)
    ensures EvEncode(v) == Encode(v)
    decreases v
  {
    match v {
      case Int(n) =>
      case Str(s) => SameStr(s);
      case List(items) => ItemsAgree(items);
      case Dict(entries) => EntriesAgree(entries);
    }
    hide EvItems, EncodeItems, EvEntries, EncodeEntries, EvStr, EncodeStr;
  }

  lemma {:induction false} ItemsAgree(items: seq<Value>)
    ensures EvItems(items) == EncodeItems(items)
    decreases items
  {
    if |items| > 0 {
      PrintersAgree(items[0]);
      ItemsAgree(items[1..]);
    }
    hide EvEncode, Encode;
  }

  lemma {:induction false} EntriesAgree(entries: seq<Entry>)
    ensures EvEntries(entries) == EncodeEntries(entries)
    decreases entries
  {
    if |entries| > 0 {
      SameStr(entries[0].key);
      PrintersAgree(entries[0].value);
      EntriesAgree(entries[1..]);
    }
    hide EvEncode, Encode, EvStr, EncodeStr;
  }
}
