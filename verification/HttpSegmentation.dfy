/** Where the stream was cut does not matter to the HTTP parser, except inside a chunk-size line
    (src/cdpi_http.cpp). */
module HttpSegmentation {
  import opened Bytes
  import opened HttpSpec

  /** o stays the outcome whatever bytes follow. */
  predicate Settled(o: Outcome) {
    o.Go? || (o.Stop? && o.reason != SplitSizeLine)
  }

  lemma LineSettled(a: bytes, b: bytes, cap: nat)
    requires IsLine(UpTo(a, cap, LF)) || |UpTo(a, cap, LF)| == cap
    ensures UpTo(a + b, cap, LF) == UpTo(a, cap, LF)
  {
    UpToStable(a, b, cap, LF);
  }

  lemma MethodSettles(h: Http, peer: Peer, a: bytes, b: bytes)
    requires Settled(StepMethod(h, peer, a))
    ensures StepMethod(h, peer, a + b) == StepMethod(h, peer, a)
  {
    LineSettled(a, b, METHOD_CAP);
  }

  lemma {:induction false} ResponseSettles(h: Http, peer: Peer, a: bytes, b: bytes)
    requires Settled(StepResponse(h, peer, a))
    ensures StepResponse(h, peer, a + b) == StepResponse(h, peer, a)
  {
    LineSettled(a, b, METHOD_CAP);
  }

  lemma HeadSettles(h: Http, peer: Peer, a: bytes, b: bytes)
    requires Settled(StepHead(h, peer, a))
    ensures StepHead(h, peer, a + b) == StepHead(h, peer, a)
  {
    LineSettled(a, b, HEAD_CAP);
  }

  lemma ChunkLenSettles(h: Http, peer: Peer, a: bytes, b: bytes)
    requires Settled(StepChunkLen(h, peer, a))
    ensures StepChunkLen(h, peer, a + b) == StepChunkLen(h, peer, a)
  {
    LineSettled(a, b, SIZE_CAP);
  }

  lemma ChunkElSettles(h: Http, peer: Peer, a: bytes, b: bytes)
    requires Settled(StepChunkEl(h, peer, a))
    ensures StepChunkEl(h, peer, a + b) == StepChunkEl(h, peer, a)
  {
    LineSettled(a, b, EL_CAP);
  }

  lemma BodySettles(h: Http, peer: Peer, a: bytes, b: bytes)
    ensures Settled(StepBody(h, peer, a)) ==> StepBody(h, peer, a + b) == StepBody(h, peer, a)
    ensures Settled(StepChunkBody(h, peer, a)) ==> StepChunkBody(h, peer, a + b) == StepChunkBody(h, peer, a)
  {
    assert |a| > 0 ==> (a + b)[0] == a[0];
  }

  lemma {:induction false} StepSettles(h: Http, peer: Peer, a: bytes, b: bytes)
    requires Settled(Step(h, peer, a))
    ensures Step(h, peer, a + b) == Step(h, peer, a)
  {
    match h.phase {
      case Method => MethodSettles(h, peer, a, b);
      case Response => ResponseSettles(h, peer, a, b);
      case Head => HeadSettles(h, peer, a, b);
      case ChunkTrailer => HeadSettles(h, peer, a, b);
      case Body => BodySettles(h, peer, a, b);
      case ChunkLen => ChunkLenSettles(h, peer, a, b);
      case ChunkBody => BodySettles(h, peer, a, b);
      case ChunkEl => ChunkElSettles(h, peer, a, b);
    }
  }

  /** A chunk-size line of which only a part has arrived. */
  predicate AtPartOfSizeLine(h: Http, rest: bytes) {
    h.phase == ChunkLen && 0 < |rest| < SIZE_CAP && LF !in rest
  }

  /** Parsing stops for a reason of its own exactly in front of a part of a size line. */
  lemma {:induction false} SplitOnlyInSizeLine(h: Http, peer: Peer, input: bytes)
    ensures var o := Step(h, peer, input);
            && (AtPartOfSizeLine(h, input) ==> o == Stop(SplitSizeLine, h, peer, 0, []))
            && (!AtPartOfSizeLine(h, input) ==>
                  (o.Stop? ==>
                     && o.reason != SplitSizeLine && o.used <= |input|
                     && !AtPartOfSizeLine(o.h, input[o.used..])))
  {
    StepShrinks(h, peer, input);
    if h.phase == ChunkLen {
      SizeLineCases(h, peer, input);
    } else {
      OtherReasons(h, peer, input);
    }
  }

  lemma SizeLineCases(h: Http, peer: Peer, input: bytes)
    ensures var o := StepChunkLen(h, peer, input);
            && (0 < |input| < SIZE_CAP && LF !in input ==> o == Stop(SplitSizeLine, h, peer, 0, []))
            && (o.Stop? ==> o.h == h && o.used == 0)
            && (o.Stop? && o.reason == SplitSizeLine ==> 0 < |input| < SIZE_CAP && LF !in input)
  {
    LineCases(input);
    hide UpTo, ReadHex, WantsBody;
  }

  /** A line is unfinished and short exactly on a proper part of a line. */
  lemma LineCases(input: bytes)
    ensures var line := UpTo(input, SIZE_CAP, LF);
            0 < |line| < SIZE_CAP && !IsLine(line) <==> 0 < |input| < SIZE_CAP && LF !in input
  {
    hide UpTo, IsLine;
    if 0 < |input| < SIZE_CAP && LF !in input { PartIsNoLine(input); }
    if 0 < |UpTo(input, SIZE_CAP, LF)| < SIZE_CAP && !IsLine(UpTo(input, SIZE_CAP, LF)) { NoLineIsPart(input); }
  }

  lemma PartIsNoLine(input: bytes)
    requires 0 < |input| < SIZE_CAP && LF !in input
    ensures UpTo(input, SIZE_CAP, LF) == input && !IsLine(input)
  {
    UpToIsTheOnlyOne(input, SIZE_CAP, LF, input);
    hide UpTo;
  }

  lemma NoLineIsPart(input: bytes)
    requires 0 < |UpTo(input, SIZE_CAP, LF)| < SIZE_CAP && !IsLine(UpTo(input, SIZE_CAP, LF))
    ensures 0 < |input| < SIZE_CAP && LF !in input
  {
    var line := UpTo(input, SIZE_CAP, LF);
    hide UpTo;
    assert line == input[..|line|] && |line| == |input|;
    assert line == input;
  }

  lemma OtherReasons(h: Http, peer: Peer, input: bytes)
    requires h.phase != ChunkLen
    ensures var o := Step(h, peer, input); o.Stop? ==> o.reason != SplitSizeLine && o.h.phase == h.phase
  {
    hide FieldsOf;
    hide UpTo;
    hide GetHeader;
    hide WithHeaderLine;
  }

  lemma {:induction false} ParseStep(h: Http, peer: Peer, input: bytes)
    requires Step(h, peer, input).Go?
    ensures var o := Step(h, peer, input);
            && o.used <= |input|
            && Measure(o.h, input[o.used..]) < Measure(h, input)
            && Parse(h, peer, input) == After(o.marks, Parse(o.h, o.peer, input[o.used..]))
  {
    StepShrinks(h, peer, input);
  }

  // The ways a step decides what `Parse` does.

  lemma {:induction false} ParseGoes(h: Http, peer: Peer, a: bytes, b: bytes)
    requires Step(h, peer, a).Go?
    ensures var o := Step(h, peer, a);
            && o.used <= |a|
            && Measure(o.h, a[o.used..]) < Measure(h, a)
            && Parse(h, peer, a) == After(o.marks, Parse(o.h, o.peer, a[o.used..]))
            && Parse(h, peer, a + b) == After(o.marks, Parse(o.h, o.peer, a[o.used..] + b))
  {
    hide *;
    var o := Step(h, peer, a);
    ParseStep(h, peer, a);
    StepSettles(h, peer, a, b);
    ParseStep(h, peer, a + b);
    assert (a + b)[o.used..] == a[o.used..] + b;
  }

  lemma {:induction false} ParseStops(h: Http, peer: Peer, a: bytes, b: bytes)
    requires Step(h, peer, a).Stop? && Step(h, peer, a).reason != SplitSizeLine
    ensures Parse(h, peer, a + b) == Parse(h, peer, a).(rest := Parse(h, peer, a).rest + b)
  {
    StepShrinks(h, peer, a);
    StepSettles(h, peer, a, b);
    assert (a + b)[Step(h, peer, a).used..] == a[Step(h, peer, a).used..] + b;
  }

  /** For every parser state and every cut of the input: unless the first call stopped for good, parsing the
      first part and then, from the state and residue that left, the second gives the same state, residue,
      stop and trace as parsing the whole; if it stopped for good, the whole stops there too. The first call
      stops for a reason the whole does not share exactly when the cut left a part of a chunk-size line. */
  lemma {:induction false} SegmentationDoesNotMatter(h: Http, peer: Peer, a: bytes, b: bytes)
    ensures var r := Parse(h, peer, a);
            && (r.stop.None? || r.stop == Some(SplitSizeLine) ==>
                  Parse(h, peer, a + b) == After(r.marks, Parse(r.h, r.peer, r.rest + b)))
            && (r.stop.Some? && r.stop != Some(SplitSizeLine) ==>
                  Parse(h, peer, a + b) == r.(rest := r.rest + b))
            && (r.stop == Some(SplitSizeLine) <==> AtPartOfSizeLine(r.h, r.rest))
    decreases Measure(h, a)
  {
    SplitOnlyInSizeLine(h, peer, a);
    var o := Step(h, peer, a);
    if o.Go? {
      ParseGoes(h, peer, a, b);
      SegmentationDoesNotMatter(o.h, o.peer, a[o.used..], b);
      var q := Parse(o.h, o.peer, a[o.used..]);
      AfterAfter(o.marks, q.marks, Parse(q.h, q.peer, q.rest + b));
    } else if o.Stop? && o.reason != SplitSizeLine {
      ParseStops(h, peer, a, b);
    } else {
      AfterNothing(Parse(h, peer, a + b));
      if o.Stop? { assert a[0..] == a; }
    }
  }

  // ------------------------------------------------------------ many segments

  /** `in_data` called once per segment: parse what is left plus the new segment, until the stream is given up. */
  function Feed(h: Http, peer: Peer, rest: bytes, pieces: seq<bytes>): Result
    decreases |pieces|
  {
    if |pieces| == 0 then Result(None, h, peer, rest, [])
    else
      var r := Parse(h, peer, rest + pieces[0]);
      if r.stop.Some? then r else After(r.marks, Feed(r.h, r.peer, r.rest, pieces[1..]))
  }

  /** Nothing of the input can be parsed yet. */
  predicate Quiet(h: Http, peer: Peer, rest: bytes) {
    Step(h, peer, rest) == Wait
  }

  lemma {:induction false} ParseEndsQuiet(h: Http, peer: Peer, input: bytes)
    ensures var r := Parse(h, peer, input);
            && (r.stop.None? ==> Quiet(r.h, r.peer, r.rest))
            && |r.rest| <= |input| && r.rest == input[|input| - |r.rest|..]
            && r.h.role == h.role && r.h.mimes == h.mimes
    decreases Measure(h, input)
  {
    StepShrinks(h, peer, input);
    StepKeepsRole(h, peer, input);
    hide Step;
    var o := Step(h, peer, input);
    if o.Go? {
      ParseEndsQuiet(o.h, o.peer, input[o.used..]);
    }
  }

  predicate KeepsRole(h: Http, o: Outcome) {
    !o.Wait? ==> o.h.role == h.role && o.h.mimes == h.mimes
  }

  lemma MethodKeepsRole(h: Http, peer: Peer, input: bytes)
    ensures KeepsRole(h, StepMethod(h, peer, input))
  {
    hide FieldsOf;
    hide UpTo;
  }

  lemma ResponseKeepsRole(h: Http, peer: Peer, input: bytes)
    ensures KeepsRole(h, StepResponse(h, peer, input))
  {
    hide FieldsOf;
    hide UpTo;
  }

  lemma HeadKeepsRole(h: Http, peer: Peer, input: bytes)
    ensures KeepsRole(h, StepHead(h, peer, input))
  {
    hide UpTo;
    hide GetHeader;
    hide Lower;
  }

  lemma {:induction false} StepKeepsRole(h: Http, peer: Peer, input: bytes)
    ensures KeepsRole(h, Step(h, peer, input))
  {
    match h.phase {
      case Method => MethodKeepsRole(h, peer, input);
      case Response => ResponseKeepsRole(h, peer, input);
      case Head => HeadKeepsRole(h, peer, input);
      case ChunkTrailer => HeadKeepsRole(h, peer, input);
      case _ =>
    }
  }

  /** Any number of segments, cut anywhere: unless some call stopped on a part of a size line, feeding them one
      by one is parsing their concatenation, except that bytes arriving after a stop are not kept. */
  lemma {:induction false} FeedIsParse(h: Http, peer: Peer, rest: bytes, pieces: seq<bytes>)
    requires Quiet(h, peer, rest)
    requires Feed(h, peer, rest, pieces).stop != Some(SplitSizeLine)
    ensures var f, p := Feed(h, peer, rest, pieces), Parse(h, peer, rest + Flat(pieces));
            && f.stop == p.stop && f.h == p.h && f.peer == p.peer && f.marks == p.marks
            && (f.stop.None? ==> f.rest == p.rest)
            && f.rest <= p.rest
    decreases |pieces|
  {
    hide Step;
    if |pieces| == 0 {
      assert rest + [] == rest;
    } else {
      var a, b := rest + pieces[0], Flat(pieces[1..]);
      assert rest + Flat(pieces) == a + b;
      SegmentationDoesNotMatter(h, peer, a, b);
      var r := Parse(h, peer, a);
      if r.stop.None? {
        ParseEndsQuiet(h, peer, a);
        FeedIsParse(r.h, r.peer, r.rest, pieces[1..]);
      }
    }
  }
}
