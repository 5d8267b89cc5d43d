/** The chunked decoder inverts chunked encoding (src/cdpi_http.cpp; section 3.6.1 of RFC 2616). */
module HttpChunked {
  import opened Bytes
  import opened Decimal
  import opened HttpSpec
  import opened HttpParser
  import opened HttpSegmentation

  // ---------------------------------------------------------------- encoding

  /** A size line as it may stand on the wire: any spelling `parse_chunk_len` reads as n, extensions included. */
  predicate SizeLine(line: bytes, n: nat) {
    && IsLine(line) && |line| <= SIZE_CAP
    && (forall i :: 0 <= i < |line| - 1 ==> line[i] != LF)
    && ReadHex(line) == Some(n)
  }

  datatype RawChunk = RawChunk(size: bytes, data: bytes, el: bytes)

  type Chunk = c: RawChunk | |c.data| > 0 && SizeLine(c.size, |c.data|) && Blank(c.el)
    witness RawChunk([49, 10], [0], [10])

  function Wire(c: Chunk): bytes {
    c.size + (c.data + c.el)
  }

  function EncodeChunks(cs: seq<Chunk>, last: bytes): bytes {
    if |cs| == 0 then last else Wire(cs[0]) + EncodeChunks(cs[1..], last)
  }

  function Datas(cs: seq<Chunk>): seq<bytes> {
    seq(|cs|, i requires 0 <= i < |cs| => cs[i].data)
  }

  // ------------------------------------------------- the canonical size line

  function HexDigit(d: nat): byte
    requires d < 16
  {
    if d < 10 then 48 + d else 87 + d
  }

  function HexText(n: nat): bytes {
    if n < 16 then [HexDigit(n)] else HexText(n / 16) + [HexDigit(n % 16)]
  }

  lemma {:induction false} HexTextReads(n: nat, s: bytes)
    ensures HexRun(HexText(n) + s, 0) == HexRun(s, n)
    ensures forall i :: 0 <= i < |HexText(n)| ==> IsHexDigit(HexText(n)[i])
  {
    if n < 16 {
      assert ([HexDigit(n)] + s)[1..] == s;
    } else {
      var d := HexDigit(n % 16);
      HexTextReads(n / 16, [d] + s);
      assert HexText(n) + s == HexText(n / 16) + ([d] + s);
      assert ([d] + s)[1..] == s;
      assert HexRun([d] + s, n / 16) == HexRun(s, n / 16 * 16 + n % 16);
    }
  }

  function Pow16(k: nat): nat {
    if k == 0 then 1 else 16 * Pow16(k - 1)
  }

  lemma {:induction false} HexTextShort(n: nat, k: nat)
    requires k > 0 && n < Pow16(k)
    ensures 0 < |HexText(n)| <= k
    decreases k
  {
    if n >= 16 {
      assert n / 16 < Pow16(k - 1);
      assert Pow16(0) == 1;
      HexTextShort(n / 16, k - 1);
    }
  }

  /** Printing a length in hexadecimal gives a line that reads back as it. */
  lemma CanonicalSizeLine(n: nat)
    requires n <= INT_MAX
    ensures SizeLine(HexText(n) + [CR, LF], n)
  {
    var t := HexText(n);
    var line := t + [CR, LF];
    HexTextReads(n, [CR, LF]);
    assert Pow16(8) == 0x1_0000_0000 by {
      assert Pow16(1) == 16 && Pow16(2) == 256 && Pow16(3) == 4096 && Pow16(4) == 65536;
      assert Pow16(5) == 0x10_0000 && Pow16(6) == 0x100_0000 && Pow16(7) == 0x1000_0000;
    }
    HexTextShort(n, 8);
    assert forall i :: 0 <= i < |t| ==> line[i] == t[i];
    assert line[|t|] == CR;
    assert HexRun([CR, LF], n) == n;
    assert SkipSpace(line) == line;
  }

  // --------------------------------------------------------------- one chunk

  /** The parser between two chunks, with the data kept. */
  predicate BetweenChunks(h: Http) {
    h.phase == ChunkLen && h.bodyRead == 0 && WantsBody(h)
  }

  function AfterChunk(h: Http, data: bytes): Http {
    h.(chunkLen := |data|, chunks := h.chunks + [data], content := Concat(h.chunks + [data]))
  }

  /** The size line alone. */
  lemma SizeLineParses(h: Http, peer: Peer, size: bytes, n: nat, rest: bytes)
    requires BetweenChunks(h) && SizeLine(size, n)
    ensures var h1 := if n == 0 then h.(chunkLen := 0, phase := ChunkTrailer)
                      else h.(chunkLen := n, phase := ChunkBody, chunks := h.chunks + [[]]);
            Parse(h, peer, size + rest) == Parse(h1, peer, rest)
  {
    hide Parse, Handle, ReadHex, UpTo, StepChunkLen, WantsBody;
    UpToLine(size, rest, SIZE_CAP, LF);
    SizeLineGoes(h, peer, size + rest, n);
    ChunkLenHandled(h, peer, size + rest);
    ParseByHandlers(h, peer, size + rest);
    assert (size + rest)[|size|..] == rest;
    var hd := Handle(h, peer, size + rest);
    AfterNothing(Parse(hd.r.h, hd.r.peer, hd.r.rest));
  }

  lemma SizeLineGoes(h: Http, peer: Peer, input: bytes, n: nat)
    requires BetweenChunks(h) && SizeLine(UpTo(input, SIZE_CAP, LF), n)
    ensures var h1 := if n == 0 then h.(chunkLen := 0, phase := ChunkTrailer)
                      else h.(chunkLen := n, phase := ChunkBody, chunks := h.chunks + [[]]);
            StepChunkLen(h, peer, input) == Go(h1, peer, |UpTo(input, SIZE_CAP, LF)|, [])
  {
    hide ReadHex, UpTo, WantsBody;
  }

  /** The data of a chunk, whole or in part. */
  lemma ChunkDataParses(h: Http, peer: Peer, x: bytes, rest: bytes)
    requires h.phase == ChunkBody && h.bodyRead == 0 && WantsBody(h) && |h.chunks| > 0 && |x| <= h.chunkLen
    requires |x| < h.chunkLen ==> rest == []
    ensures var h1 := ChunkPart(h, x);
            Parse(h, peer, x + rest) ==
              (if |x| < h.chunkLen then Result(None, h1, peer, [], []) else Parse(h1.(phase := ChunkEl), peer, rest))
  {
    var h1 := ChunkPart(h, x);
    ChunkBlock(h, peer, x, rest);
    ParseByHandlers(h, peer, x + rest);
    ParseByHandlers(h1, peer, rest);
    if |x| < h.chunkLen {
      ChunkWaits(h1, peer, rest);
    } else {
      ChunkEnds(h1, peer, rest);
      AfterNothing(Parse(h1.(phase := ChunkEl), peer, rest));
    }
  }

  /** The line end after a chunk. */
  lemma ChunkElParses(h: Http, peer: Peer, el: bytes, rest: bytes)
    requires h.phase == ChunkEl && h.chunkLen > 0 && |h.chunks| > 0 && Blank(el)
    ensures var h1 := h.(phase := ChunkLen, bodyRead := 0, content := Concat(h.chunks));
            Parse(h, peer, el + rest) == After([Ev(ReadBody)], Parse(h1, peer, rest))
  {
    UpToLine(el, rest, EL_CAP, LF);
    ChunkElHandled(h, peer, el + rest);
    ParseByHandlers(h, peer, el + rest);
    assert (el + rest)[|el|..] == rest;
  }

  lemma WantsBodyIsAboutHeaders(h: Http, g: Http)
    requires g.header == h.header && g.mimes == h.mimes
    ensures WantsBody(g) == WantsBody(h)
  {
  }

  /** One chunk is appended to the list, and the content is all chunks so far. */
  lemma ChunkParses(h: Http, peer: Peer, c: Chunk, rest: bytes)
    requires BetweenChunks(h)
    ensures Parse(h, peer, Wire(c) + rest) == After([Ev(ReadBody)], Parse(AfterChunk(h, c.data), peer, rest))
    ensures BetweenChunks(AfterChunk(h, c.data))
  {
    hide Parse;
    hide ReadHex;
    var h1 := h.(chunkLen := |c.data|, phase := ChunkBody, chunks := h.chunks + [[]]);
    WantsBodyIsAboutHeaders(h, h1);
    WantsBodyIsAboutHeaders(h, AfterChunk(h, c.data));
    hide WantsBody;
    assert Wire(c) + rest == c.size + (c.data + (c.el + rest));
    SizeLineParses(h, peer, c.size, |c.data|, c.data + (c.el + rest));
    ChunkDataParses(h1, peer, c.data, c.el + rest);
    var h2 := ChunkPart(h1, c.data).(phase := ChunkEl);
    assert [] + c.data == c.data;
    assert (h.chunks + [[]])[|h.chunks| := c.data] == h.chunks + [c.data];
    ChunkElParses(h2, peer, c.el, rest);
  }

  // --------------------------------------------------------------- all chunks

  function Repeat(m: Mark, n: nat): seq<Mark> {
    if n == 0 then [] else [m] + Repeat(m, n - 1)
  }

  /** Where the decoder is after some chunks. */
  function AfterChunks(h: Http, cs: seq<Chunk>): Http
    decreases |cs|
  {
    if |cs| == 0 then h else AfterChunks(AfterChunk(h, cs[0].data), cs[1..])
  }

  lemma {:induction false} ChunksParse(h: Http, peer: Peer, cs: seq<Chunk>, tail: bytes)
    requires BetweenChunks(h)
    ensures BetweenChunks(AfterChunks(h, cs))
    ensures Parse(h, peer, EncodeChunks(cs, tail)) ==
              After(Repeat(Ev(ReadBody), |cs|), Parse(AfterChunks(h, cs), peer, tail))
    decreases |cs|
  {
    hide Parse;
    hide BetweenChunks;
    if |cs| == 0 {
      AfterNothing(Parse(h, peer, tail));
    } else {
      ChunkParses(h, peer, cs[0], EncodeChunks(cs[1..], tail));
      var h1 := AfterChunk(h, cs[0].data);
      ChunksParse(h1, peer, cs[1..], tail);
      AfterAfter([Ev(ReadBody)], Repeat(Ev(ReadBody), |cs| - 1),
                                  Parse(AfterChunks(h1, cs[1..]), peer, tail));
    }
  }

  /** After any number of chunk terminators the content is the concatenation of the chunks so far. */
  lemma {:induction false} ContentIsChunksSoFar(h: Http, cs: seq<Chunk>)
    ensures AfterChunks(h, cs).chunks == h.chunks + Datas(cs)
    ensures |cs| > 0 ==> AfterChunks(h, cs).content == Concat(h.chunks + Datas(cs))
    ensures AfterChunks(h, cs) == h.(chunkLen := AfterChunks(h, cs).chunkLen, chunks := h.chunks + Datas(cs),
                                     content := AfterChunks(h, cs).content)
    decreases |cs|
  {
    hide Concat;
    DatasFromFront(cs);
    if |cs| == 0 {
      assert h.chunks + Datas(cs) == h.chunks;
    } else {
      hide Datas;
      var h1 := AfterChunk(h, cs[0].data);
      ContentIsChunksSoFar(h1, cs[1..]);
      assert h1.chunks + Datas(cs[1..]) == h.chunks + Datas(cs);
      if |cs| == 1 {
        assert AfterChunks(h, cs) == h1;
        DatasFromFront(cs[1..]);
        assert [cs[0].data] + [] == [cs[0].data];
      }
    }
  }

  lemma DatasFromFront(cs: seq<Chunk>)
    ensures Datas(cs) == if |cs| == 0 then [] else [cs[0].data] + Datas(cs[1..])
  {
  }

  /** Decoding inverts encoding: from the first size line on, a non-empty list of non-empty chunks followed by a
      zero size line leaves their concatenation as content, and the parser in front of the trailer with
      whatever followed. */
  lemma ChunkedRoundTrip(h: Http, peer: Peer, cs: seq<Chunk>, last: bytes, rest: bytes)
    requires BetweenChunks(h) && h.chunks == [] && |cs| > 0 && SizeLine(last, 0)
    ensures var done := h.(phase := ChunkTrailer, chunkLen := 0, chunks := Datas(cs), content := Concat(Datas(cs)));
            Parse(h, peer, EncodeChunks(cs, last + rest)) ==
              After(Repeat(Ev(ReadBody), |cs|), Parse(done, peer, rest))
  {
    ChunksParse(h, peer, cs, last + rest);
    ContentIsChunksSoFar(h, cs);
    assert [] + Datas(cs) == Datas(cs);
    SizeLineParses(AfterChunks(h, cs), peer, last, 0, rest);
  }

  // ------------------------------------------------------------ cut anywhere

  /** Position k of the encoding lies strictly inside one of its size lines. */
  predicate InsideSizeLine(cs: seq<Chunk>, last: bytes, k: nat)
    decreases |cs|
  {
    if |cs| == 0 then 0 < k < |last|
    else 0 < k < |cs[0].size| || (k >= |Wire(cs[0])| && InsideSizeLine(cs[1..], last, k - |Wire(cs[0])|))
  }

  lemma PartOfLine(line: bytes, n: nat, k: nat)
    requires SizeLine(line, n) && k <= |line|
    ensures k < |line| ==> LF !in line[..k]
  {
    assert forall i :: 0 <= i < k ==> line[..k][i] == line[i];
  }

  /** The parser behind the size line of c. */
  function InChunk(h: Http, c: Chunk): Http {
    h.(chunkLen := |c.data|, phase := ChunkBody, chunks := h.chunks + [[]])
  }

  /** Inside the data of a chunk the parser simply waits; so it does inside its line end. */
  lemma PartOfDataWaits(h: Http, peer: Peer, c: Chunk, body: bytes)
    requires BetweenChunks(h) && body <= c.data && |body| < |c.data|
    ensures Parse(InChunk(h, c), peer, body).stop == None
  {
    WantsBodyIsAboutHeaders(h, InChunk(h, c));
    assert body + [] == body;
    ChunkDataParses(InChunk(h, c), peer, body, []);
  }

  lemma PartOfElWaits(h: Http, peer: Peer, c: Chunk, y: bytes)
    requires BetweenChunks(h) && y <= c.el && |y| < |c.el|
    ensures Parse(InChunk(h, c), peer, c.data + y).stop == None
  {
    WantsBodyIsAboutHeaders(h, InChunk(h, c));
    ChunkDataParses(InChunk(h, c), peer, c.data, y);
    PartOfEndOfLineWaits(ChunkPart(InChunk(h, c), c.data).(phase := ChunkEl), peer, c.el, y);
  }

  lemma PartOfChunkWaits(h: Http, peer: Peer, c: Chunk, k: nat)
    requires BetweenChunks(h) && |c.size| <= k < |Wire(c)|
    ensures Parse(h, peer, Wire(c)[..k]).stop == None
  {
    hide Parse, BetweenChunks, Wire, SizeLine, Blank;
    ChunkGood(c);
    CutChunk(c, k);
    var n := k - |c.size|;
    if n < |c.data| {
      SizeLineParses(h, peer, c.size, |c.data|, c.data[..n]);
      PartOfDataWaits(h, peer, c, c.data[..n]);
    } else {
      var y := c.el[..n - |c.data|];
      SizeLineParses(h, peer, c.size, |c.data|, c.data + y);
      PartOfElWaits(h, peer, c, y);
    }
  }

  lemma ChunkGood(c: Chunk)
    ensures SizeLine(c.size, |c.data|) && |c.data| > 0
  {
  }

  lemma CutChunk(c: Chunk, k: nat)
    requires |c.size| <= k < |Wire(c)|
    ensures var n := k - |c.size|;
            && (n < |c.data| ==> Wire(c)[..k] == c.size + c.data[..n])
            && (n >= |c.data| ==> n - |c.data| < |c.el| && Wire(c)[..k] == c.size + (c.data + c.el[..n - |c.data|]))
  {
  }

  lemma PartOfEndOfLineWaits(h: Http, peer: Peer, el: bytes, y: bytes)
    requires h.phase == ChunkEl && Blank(el) && y <= el && |y| < |el|
    ensures Parse(h, peer, y) == Result(None, h, peer, y, [])
  {
    assert UpTo(y, EL_CAP, LF) <= y;
    assert !Blank(UpTo(y, EL_CAP, LF));
    ChunkElHandled(h, peer, y);
    ParseByHandlers(h, peer, y);
  }

  /** Parsing a first part of an encoding stops on the exception exactly when the cut lies strictly inside
      a size line. */
  lemma {:induction false} ForbiddenCuts(h: Http, peer: Peer, cs: seq<Chunk>, last: bytes, k: nat)
    requires BetweenChunks(h) && SizeLine(last, 0) && k <= |EncodeChunks(cs, last)|
    ensures var r := Parse(h, peer, EncodeChunks(cs, last)[..k]);
            r.stop == (if InsideSizeLine(cs, last, k) then Some(SplitSizeLine) else None)
    decreases |cs|
  {
    hide Parse, BetweenChunks, SizeLine, Blank, Concat;
    var enc := EncodeChunks(cs, last);
    if |cs| == 0 {
      CutLast(h, peer, last, k);
    } else {
      var c := cs[0];
      ChunkGood(c);
      if k < |c.size| {
        assert enc[..k] == c.size[..k];
        PartOfSizeLine(h, peer, c.size, |c.data|, k);
      } else if k < |Wire(c)| {
        assert enc[..k] == Wire(c)[..k];
        PartOfChunkWaits(h, peer, c, k);
      } else {
        hide Wire;
        var m := k - |Wire(c)|;
        assert enc[..k] == Wire(c) + EncodeChunks(cs[1..], last)[..m];
        ChunkParses(h, peer, c, EncodeChunks(cs[1..], last)[..m]);
        ForbiddenCuts(AfterChunk(h, c.data), peer, cs[1..], last, m);
      }
    }
  }

  /** The zero size line, whole or in part. */
  lemma CutLast(h: Http, peer: Peer, last: bytes, k: nat)
    requires BetweenChunks(h) && SizeLine(last, 0) && k <= |last|
    ensures Parse(h, peer, last[..k]).stop == if 0 < k < |last| then Some(SplitSizeLine) else None
  {
    hide Parse, BetweenChunks, SizeLine;
    if k < |last| {
      PartOfSizeLine(h, peer, last, 0, k);
    } else {
      assert last[..k] == last + [];
      SizeLineParses(h, peer, last, 0, []);
      TrailerWaits(h.(chunkLen := 0, phase := ChunkTrailer), peer);
    }
  }

  lemma PartOfSizeLine(h: Http, peer: Peer, line: bytes, n: nat, k: nat)
    requires BetweenChunks(h) && SizeLine(line, n) && k < |line|
    ensures Parse(h, peer, line[..k]).stop == (if k > 0 then Some(SplitSizeLine) else None)
  {
    PartOfLine(line, n, k);
    if k > 0 {
      SplitOnlyInSizeLine(h, peer, line[..k]);
      hide Step;
    }
  }

  /** The decoder behind a whole encoding. */
  function Decoded(h: Http, cs: seq<Chunk>): Http {
    h.(phase := ChunkTrailer, chunkLen := 0, chunks := Datas(cs), content := Concat(Datas(cs)))
  }

  lemma WholeDecodes(h: Http, peer: Peer, cs: seq<Chunk>, last: bytes)
    requires BetweenChunks(h) && h.chunks == [] && |cs| > 0 && SizeLine(last, 0)
    ensures Parse(h, peer, EncodeChunks(cs, last)) == Result(None, Decoded(h, cs), peer, [], Repeat(Ev(ReadBody), |cs|))
  {
    ChunkedRoundTrip(h, peer, cs, last, []);
    TrailerWaits(Decoded(h, cs), peer);
    hide *;
    var done := Decoded(h, cs);
    assert last + [] == last;
    assert Repeat(Ev(ReadBody), |cs|) + [] == Repeat(Ev(ReadBody), |cs|);
  }

  lemma TrailerWaits(h: Http, peer: Peer)
    requires h.phase == ChunkTrailer
    ensures Parse(h, peer, []) == Result(None, h, peer, [], [])
  {
    assert UpTo([], HEAD_CAP, LF) == [];
  }

  /** Fed in pieces cut at any allowed points, the encoding decodes to the same content. */
  lemma {:induction false} ChunkedRoundTripInPieces(h: Http, peer: Peer, cs: seq<Chunk>, last: bytes,
                                                    pieces: seq<bytes>)
    requires BetweenChunks(h) && h.chunks == [] && |cs| > 0 && SizeLine(last, 0)
    requires Flat(pieces) == EncodeChunks(cs, last)
    requires forall i :: 0 <= i <= |pieces| ==> !InsideSizeLine(cs, last, |Flat(pieces[..i])|)
    ensures Feed(h, peer, [], pieces) == Result(None, Decoded(h, cs), peer, [], Repeat(Ev(ReadBody), |cs|))
  {
    WholeDecodes(h, peer, cs, last);
    QuietBetween(h, peer);
    NothingFed(h, peer);
    hide *;
    assert [] + Flat(pieces) == Flat(pieces);
    FeedNeverSplits(h, peer, cs, last, pieces, 0);
    assert pieces[0..] == pieces && Flat(pieces[..0]) == [] by { NoPieces(pieces); }
    FeedIsParse(h, peer, [], pieces);
  }

  lemma QuietBetween(h: Http, peer: Peer)
    requires BetweenChunks(h)
    ensures Quiet(h, peer, [])
  {
  }

  lemma NothingFed(h: Http, peer: Peer)
    requires BetweenChunks(h)
    ensures Parse(h, peer, []) == Result(None, h, peer, [], [])
  {
    QuietBetween(h, peer);
    hide Step;
  }

  lemma NoPieces(pieces: seq<bytes>)
    ensures pieces[0..] == pieces && Flat(pieces[..0]) == []
  {
  }

  /** No call stops inside a size line when no piece ends in one. */
  lemma {:induction false} FeedNeverSplits(h: Http, peer: Peer, cs: seq<Chunk>, last: bytes, pieces: seq<bytes>, i: nat)
    requires BetweenChunks(h) && SizeLine(last, 0) && i <= |pieces|
    requires Flat(pieces) == EncodeChunks(cs, last)
    requires forall j :: 0 <= j <= |pieces| ==> !InsideSizeLine(cs, last, |Flat(pieces[..j])|)
    ensures var r := Parse(h, peer, Flat(pieces[..i]));
            r.stop == None && Feed(r.h, r.peer, r.rest, pieces[i..]).stop == None
    decreases |pieces| - i
  {
    var enc := EncodeChunks(cs, last);
    FlatSplit(pieces, i);
    var a := Flat(pieces[..i]);
    assert enc[..|a|] == a;
    ForbiddenCuts(h, peer, cs, last, |a|);
    if i < |pieces| {
      FlatSplit(pieces, i + 1);
      FlatGrows(pieces, i);
      SegmentationDoesNotMatter(h, peer, a, pieces[i]);
      FeedNeverSplits(h, peer, cs, last, pieces, i + 1);
      var r := Parse(h, peer, a);
      assert pieces[i..][0] == pieces[i] && pieces[i..][1..] == pieces[i + 1..];
    }
  }

  lemma {:induction false} FlatSplit(pieces: seq<bytes>, i: nat)
    requires i <= |pieces|
    ensures Flat(pieces) == Flat(pieces[..i]) + Flat(pieces[i..])
    decreases i
  {
    if i == 0 {
      assert pieces[0..] == pieces;
    } else {
      FlatSplit(pieces[1..], i - 1);
      assert pieces[..i][1..] == pieces[1..][..i - 1];
      assert pieces[i..] == pieces[1..][i - 1..];
    }
  }

  lemma FlatGrows(pieces: seq<bytes>, i: nat)
    requires i < |pieces|
    ensures Flat(pieces[..i + 1]) == Flat(pieces[..i]) + pieces[i]
  {
    FlatSplit(pieces[..i + 1], i);
    assert pieces[..i + 1][..i] == pieces[..i];
    assert pieces[..i + 1][i..] == [pieces[i]];
    var one := [pieces[i]];
    assert one[1..] == [] && Flat(one) == pieces[i] + Flat(one[1..]);
  }
}
