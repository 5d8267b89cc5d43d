/** Byte strings, reference-counted segments and the list-of-segments queue
    (src/cdpi_bytes.hpp, src/cdpi_bytes.cpp). */
module Bytes {

  type byte = x: int | 0 <= x < 256
  type bytes = seq<byte>

  const LF: byte := 10
  const CR: byte := 13
  const SP: byte := 32
  const COLON: byte := 58

  function Min(a: nat, b: nat): nat {
    if a < b then a else b
  }

  datatype Option<+T> = None | Some(value: T)

  /** Two bytes in network order. */
  function U16(s: bytes, i: nat): (n: nat)
    requires i + 2 <= |s|
    ensures n < 0x1_0000
  {
    s[i] as int * 256 + s[i + 1]
  }

  /** Pieces one behind the other: unfolded from the back, and from the front. */
  function Concat(c: seq<bytes>): bytes {
    if |c| == 0 then [] else Concat(c[..|c| - 1]) + c[|c| - 1]
  }

  function Flat(pieces: seq<bytes>): bytes {
    if |pieces| == 0 then [] else pieces[0] + Flat(pieces[1..])
  }

  /** Which is the same. */
  lemma {:induction false} ConcatIsFlat(c: seq<bytes>)
    ensures Concat(c) == Flat(c)
    decreases |c|
  {
    if |c| > 0 {
      ConcatIsFlat(c[1..]);
      ConcatFromFront(c);
    }
  }

  lemma {:induction false} ConcatFromFront(c: seq<bytes>)
    requires |c| > 0
    ensures Concat(c) == c[0] + Concat(c[1..])
    decreases |c|
  {
    var n := |c| - 1;
    if n > 0 {
      ConcatFromFront(c[..n]);
      assert c[..n][1..] == c[1..][..n - 1];
    } else {
      assert c[..0] == [] && c[1..] == [];
    }
  }

  // ---------------------------------------------------------------- ordering

  /** The sign `memcmp` returns for two blocks of one length. */
  function Memcmp(a: bytes, b: bytes): int
    requires |a| == |b|
  {
    if |a| == 0 then 0
    else if a[0] != b[0] then a[0] - b[0]
    else Memcmp(a[1..], b[1..])
  }

  /** `cdpi_bytes::operator<`, branch by branch. */
  predicate Less(a: bytes, b: bytes) {
    if |a| == |b| then
      Memcmp(a, b) < 0
    else
      var n := Min(|a|, |b|);
      var r := Memcmp(a[..n], b[..n]);
      if r < 0 then true else if r > 0 then false else |a| < |b|
  }

  /** Where a and b part: they agree before i, and a ends there or holds the smaller byte. */
  ghost predicate PartsAt(a: bytes, b: bytes, i: nat) {
    && i <= |a| && i < |b|
    && (forall k :: 0 <= k < i ==> a[k] == b[k])
    && (i < |a| ==> a[i] < b[i])
  }

  /** Lexicographic order with a proper prefix first. */
  ghost predicate Lexicographic(a: bytes, b: bytes) {
    exists i: nat :: PartsAt(a, b, i)
  }

  lemma {:induction false} MemcmpFirstDifference(a: bytes, b: bytes)
    requires |a| == |b|
    ensures Memcmp(a, b) == 0 <==> a == b
    ensures Memcmp(a, b) < 0 <==> exists i: nat :: i < |a| && PartsAt(a, b, i)
    ensures Memcmp(a, b) > 0 <==> exists i: nat :: i < |a| && PartsAt(b, a, i)
  {
    if |a| == 0 {
    } else if a[0] != b[0] {
      assert a[0] < b[0] ==> PartsAt(a, b, 0);
      assert b[0] < a[0] ==> PartsAt(b, a, 0);
    } else {
      MemcmpFirstDifference(a[1..], b[1..]);
      ConsParts(a, b);
      ConsParts(b, a);
      assert a == [a[0]] + a[1..] && b == [b[0]] + b[1..];
    }
  }

  lemma ConsParts(a: bytes, b: bytes)
    requires |a| == |b| > 0 && a[0] == b[0]
    ensures (exists i: nat :: i < |a| && PartsAt(a, b, i))
        <==> (exists i: nat :: i < |a[1..]| && PartsAt(a[1..], b[1..], i))
  {
    if i: nat :| i < |a| && PartsAt(a, b, i) {
      assert forall k :: 0 <= k < i - 1 ==> a[1..][k] == a[k + 1] == b[k + 1] == b[1..][k];
      assert PartsAt(a[1..], b[1..], i - 1);
    }
    if i: nat :| i < |a[1..]| && PartsAt(a[1..], b[1..], i) {
      assert forall k :: 1 <= k < i + 1 ==> a[k] == a[1..][k - 1] == b[1..][k - 1] == b[k];
      assert PartsAt(a, b, i + 1);
    }
  }

  /** `operator<` is the lexicographic order. */
  lemma LessIsLexicographic(a: bytes, b: bytes)
    ensures Less(a, b) <==> Lexicographic(a, b)
  {
    var n := Min(|a|, |b|);
    var a', b' := a[..n], b[..n];
    MemcmpFirstDifference(a', b');
    if |a| == |b| { assert a == a' && b == b'; }
    assert forall i: nat :: i < n ==> (PartsAt(a, b, i) <==> PartsAt(a', b', i));
    assert forall i: nat :: i < n ==> (PartsAt(b, a, i) <==> PartsAt(b', a', i));
    assert (forall k :: 0 <= k < n ==> a[k] == b[k]) ==> a' == b';
    if a' == b' && |a| < |b| {
      assert forall k :: 0 <= k < n ==> a[k] == a'[k] == b'[k] == b[k];
      assert PartsAt(a, b, |a|);
    }
  }

  /** The order of `std::map<cdpi_bytes, ...>` keys is a strict total one. */
  lemma LessIsStrictTotalOrder(a: bytes, b: bytes, c: bytes)
    ensures !Less(a, a)
    ensures Less(a, b) && Less(b, c) ==> Less(a, c)
    ensures Less(a, b) || a == b || Less(b, a)
    ensures !(Less(a, b) && Less(b, a))
  {
    LessIsLexicographic(a, a);
    LessIsLexicographic(a, b);
    LessIsLexicographic(b, a);
    LessIsLexicographic(b, c);
    LessIsLexicographic(a, c);
    if i: nat, j: nat :| PartsAt(a, b, i) && PartsAt(b, c, j) {
      assert PartsAt(a, c, Min(i, j));
    }
    var n := Min(|a|, |b|);
    MemcmpFirstDifference(a[..n], b[..n]);
    if Memcmp(a[..n], b[..n]) < 0 {
    } else if Memcmp(a[..n], b[..n]) > 0 {
      MemcmpAntisymmetric(a[..n], b[..n]);
    } else {
      if |a| == |b| { assert a == a[..n] == b[..n] == b; }
      MemcmpAntisymmetric(a[..n], b[..n]);
    }
    assert a[..|a|] == a && b[..|b|] == b;
  }

  lemma {:induction false} MemcmpAntisymmetric(a: bytes, b: bytes)
    requires |a| == |b|
    ensures Memcmp(a, b) == -Memcmp(b, a)
  {
    if |a| > 0 && a[0] == b[0] { MemcmpAntisymmetric(a[1..], b[1..]); }
  }

  // ---------------------------------------------------------------- scanning

  /** What `read_bytes_ec` copies out of a flat string: everything through the
      first c, at most len bytes. */
  function UpTo(s: bytes, len: nat, c: byte): (r: bytes)
    ensures r <= s && |r| <= len
    ensures forall i :: 0 <= i < |r| - 1 ==> r[i] != c
    ensures r == [] || r[|r| - 1] != c ==> |r| == Min(len, |s|)
  {
    if |s| == 0 || len == 0 then []
    else if s[0] == c then [c]
    else [s[0]] + UpTo(s[1..], len - 1, c)
  }

  /** True when a line scan found its line feed. */
  predicate IsLine(line: bytes) {
    |line| > 0 && line[|line| - 1] == LF
  }

  /** The three properties `UpTo` promises leave no freedom. */
  lemma {:induction false} UpToIsTheOnlyOne(s: bytes, len: nat, c: byte, r: bytes)
    requires r <= s && |r| <= len
    requires forall i :: 0 <= i < |r| - 1 ==> r[i] != c
    requires r == [] || r[|r| - 1] != c ==> |r| == Min(len, |s|)
    ensures r == UpTo(s, len, c)
  {
    var u := UpTo(s, len, c);
    assert u == s[..|u|] && r == s[..|r|];
    assert forall k :: 0 <= k < Min(|r|, |u|) ==> r[k] == s[k] == u[k];
  }

  /** A scan that stopped at its delimiter is not affected by what follows. */
  lemma UpToStable(a: bytes, b: bytes, len: nat, c: byte)
    requires var u := UpTo(a, len, c); (u != [] && u[|u| - 1] == c) || |u| == len
    ensures UpTo(a + b, len, c) == UpTo(a, len, c)
  {
    UpToIsTheOnlyOne(a + b, len, c, UpTo(a, len, c));
  }

  /** A line that contains its first line feed at the end is what the scan returns. */
  lemma UpToLine(line: bytes, rest: bytes, len: nat, c: byte)
    requires 0 < |line| <= len && line[|line| - 1] == c
    requires forall i :: 0 <= i < |line| - 1 ==> line[i] != c
    ensures UpTo(line + rest, len, c) == line
  {
    UpToIsTheOnlyOne(line + rest, len, c, line);
  }

  /** `find_char`: the first index of c, or -1. */
  function IndexOf(s: bytes, c: byte): (n: int)
    ensures -1 <= n < |s|
    ensures n == -1 ==> c !in s
    ensures n >= 0 ==> s[n] == c && c !in s[..n]
  {
    if |s| == 0 then -1
    else if s[0] == c then 0
    else
      var m := IndexOf(s[1..], c);
      if m < 0 then -1 else
        assert s[..m + 1] == [s[0]] + s[1..][..m];
        m + 1
  }

  lemma IndexOfFirst(p: bytes, c: byte, rest: bytes)
    requires c !in p
    ensures IndexOf(p + [c] + rest, c) == |p|
  {
    var s := p + [c] + rest;
    var n := IndexOf(s, c);
    assert s[|p|] == c;
    assert forall k :: 0 <= k < |p| ==> s[k] == p[k] && s[k] != c;
    assert forall k :: 0 <= k < n ==> s[..n][k] == s[k] && s[k] != c;
  }

  method FindChar(buf: array<byte>, from: nat, len: nat, c: byte) returns (n: int)
    requires from + len <= buf.Length
    ensures n == IndexOf(buf[from..from + len], c)
  {
    ghost var s := buf[from..from + len];
    n := 0;
    while n < len
      invariant 0 <= n <= len
      invariant c !in s[..n]
    {
      if buf[from + n] == c {
        FirstIndex(s, c, n);
        return;
      }
      n := n + 1;
    }
    assert s[..n] == s;
    return -1;
  }

  lemma FirstIndex(s: bytes, c: byte, n: nat)
    requires n < |s| && s[n] == c && c !in s[..n]
    ensures IndexOf(s, c) == n
  {
    assert s == s[..n] + [c] + s[n + 1..];
    IndexOfFirst(s[..n], c, s[n + 1..]);
  }

  // ---------------------------------------------------------------- segments

  /** A `cdpi_bytes`: a shared buffer and the window [pos, pos + len) on it. */
  datatype Slice = Slice(buf: bytes, pos: nat, len: nat)

  type Segment = s: Slice | s.pos + s.len <= |s.buf| witness Slice([], 0, 0)

  function View(s: Segment): (v: bytes)
    ensures |v| == s.len
  {
    s.buf[s.pos..s.pos + s.len]
  }

  function Flatten(segs: seq<Segment>): bytes {
    if |segs| == 0 then [] else View(segs[0]) + Flatten(segs[1..])
  }

  lemma FlattenHead(segs: seq<Segment>, i: nat)
    requires i < |segs|
    ensures Flatten(segs[i..]) == View(segs[i]) + Flatten(segs[i + 1..])
  {
    assert segs[i..][1..] == segs[i + 1..];
  }

  /** b with s written over it at position at. */
  ghost function Blit(b: bytes, at: nat, s: bytes): (r: bytes)
    requires at + |s| <= |b|
    ensures |r| == |b|
  {
    b[..at] + s + b[at + |s|..]
  }

  /** The `std::list<cdpi_bytes>` the incremental parsers are fed from. */
  class ByteQueue {
    var segs: seq<Segment>

    ghost function Data(): bytes
      reads this
    {
      Flatten(segs)
    }

    constructor ()
      ensures segs == [] && Data() == []
    {
      segs := [];
    }

    /** `skip_bytes`: drops exactly the first min(len, total) bytes. */
    method Skip(len: nat) returns (n: nat)
      modifies this
      ensures n == Min(len, |old(Data())|)
      ensures Data() == old(Data())[n..]
    {
      n := 0;
      while segs != []
        invariant n <= len && n <= |old(Data())|
        invariant Data() == old(Data())[n..]
        decreases |segs|
      {
        var remain := len - n;
        var it := segs[0];
        assert Data() == View(it) + Flatten(segs[1..]);
        if remain < it.len {
          ghost var rest := Flatten(segs[1..]);
          segs := [Slice(it.buf, it.pos + remain, it.len - remain)] + segs[1..];
          assert View(segs[0]) == View(it)[remain..];
          assert Data() == View(it)[remain..] + rest;
          assert old(Data())[n..][remain..] == View(it)[remain..] + rest;
          n := n + remain;
          return;
        }
        assert Flatten(segs[1..]) == old(Data())[n..][it.len..];
        n := n + it.len;
        segs := segs[1..];
      }
    }

    /** `read_bytes`: copies exactly the first min(len, total) bytes to buf[at..],
        leaving the queue and the rest of the buffer alone. */
    method Read(buf: array<byte>, at: nat, len: nat) returns (n: nat)
      requires at + len <= buf.Length
      modifies buf
      ensures n == Min(len, |Data()|)
      ensures buf[..] == Blit(old(buf[..]), at, Data()[..n])
    {
      ghost var all, orig := Data(), buf[..];
      n := 0;
      var i := 0;
      while i < |segs|
        invariant 0 <= i <= |segs| && n <= len && n <= |all|
        invariant all[n..] == Flatten(segs[i..])
        invariant Overwritten(buf, orig, at, all, n)
      {
        var remain := len - n;
        var it := segs[i];
        FlattenHead(segs, i);
        SliceHead(all, n, View(it), Flatten(segs[i + 1..]));
        if remain < it.len {
          CopyInto(buf, at + n, it, remain, orig, at, all);
          n := n + remain;
          OverwrittenIsBlit(buf, orig, at, all, n);
          return;
        }
        CopyInto(buf, at + n, it, it.len, orig, at, all);
        n := n + it.len;
        i := i + 1;
      }
      OverwrittenIsBlit(buf, orig, at, all, n);
    }

    /** `read_bytes_ec`: copies through the first c, at most len bytes. */
    method ReadThrough(buf: array<byte>, len: nat, c: byte) returns (n: nat)
      requires len <= buf.Length
      modifies buf
      ensures n == |UpTo(Data(), len, c)|
      ensures buf[..n] == UpTo(Data(), len, c)
    {
      ghost var all := Data();
      n := 0;
      var i := 0;
      while i < |segs|
        invariant 0 <= i <= |segs| && n <= len && n <= |all|
        invariant all[n..] == Flatten(segs[i..])
        invariant CopiedSoFar(buf, n, all, c)
      {
        FlattenHead(segs, i);
        SliceHead(all, n, View(segs[i]), Flatten(segs[i + 1..]));
        var full: bool;
        n, full := CopyThrough(buf, n, segs[i], len, c, all);
        if full {
          FoundIt(all, buf, n, len, c);
          return;
        }
        i := i + 1;
      }
      FoundIt(all, buf, n, len, c);
    }
  }

  /** buf holds the first n bytes of all, and none of them is c. */
  ghost predicate CopiedSoFar(buf: array<byte>, n: nat, all: bytes, c: byte)
    reads buf
  {
    n <= buf.Length && n <= |all| && forall k :: 0 <= k < n ==> buf[k] == all[k] && buf[k] != c
  }

  lemma SliceHead(all: bytes, n: nat, head: bytes, tail: bytes)
    requires n <= |all| && all[n..] == head + tail
    ensures n + |head| <= |all| && all[n..n + |head|] == head && all[n + |head|..] == tail
  {
    assert all[n..n + |head|] == all[n..][..|head|];
    assert all[n + |head|..] == all[n..][|head|..];
  }

  /** The inner loop of `read_bytes_ec`: one segment, until c is copied or no room is left for a byte. */
  method CopyThrough(buf: array<byte>, at: nat, s: Segment, len: nat, c: byte, ghost all: bytes)
    returns (n: nat, full: bool)
    requires at <= len <= buf.Length && CopiedSoFar(buf, at, all, c)
    requires at + s.len <= |all| && all[at..at + s.len] == View(s)
    modifies buf
    ensures at <= n <= len && n <= |all|
    ensures !full ==> CopiedSoFar(buf, n, all, c) && n == at + s.len
    ensures full ==> forall k :: 0 <= k < n ==> buf[k] == all[k]
    ensures full ==> forall k :: 0 <= k < n - 1 ==> buf[k] != c
    ensures full ==> n == len || (n > 0 && buf[n - 1] == c)
  {
    n := at;
    var j := 0;
    while j < s.len
      invariant 0 <= j <= s.len && n == at + j <= len
      invariant CopiedSoFar(buf, n, all, c)
    {
      if n >= len {
        return n, true;
      }
      assert View(s)[j] == all[n];
      buf[n] := s.buf[s.pos + j];
      n := n + 1;
      if s.buf[s.pos + j] == c {
        return n, true;
      }
      j := j + 1;
    }
    return n, false;
  }

  lemma FoundIt(all: bytes, buf: array<byte>, n: nat, len: nat, c: byte)
    requires n <= len <= buf.Length && n <= |all|
    requires forall k :: 0 <= k < n ==> buf[k] == all[k]
    requires forall k :: 0 <= k < n - 1 ==> buf[k] != c
    requires n == 0 || buf[n - 1] != c ==> n == Min(len, |all|)
    ensures buf[..n] == UpTo(all, len, c)
  {
    assert buf[..n] == all[..n];
    assert forall k :: 0 <= k < n ==> buf[..n][k] == buf[k];
    UpToIsTheOnlyOne(all, len, c, buf[..n]);
  }

  /** buf is orig with the first n bytes of all written at position at. */
  ghost predicate Overwritten(buf: array<byte>, orig: bytes, at: nat, all: bytes, n: nat)
    reads buf
  {
    && |orig| == buf.Length && at + n <= buf.Length && n <= |all|
    && (forall k :: at <= k < at + n ==> buf[k] == all[k - at])
    && (forall k :: 0 <= k < buf.Length && !(at <= k < at + n) ==> buf[k] == orig[k])
  }

  lemma OverwrittenIsBlit(buf: array<byte>, orig: bytes, at: nat, all: bytes, n: nat)
    requires Overwritten(buf, orig, at, all, n)
    ensures buf[..] == Blit(orig, at, all[..n])
  {
  }

  /** The `memcpy` of `read_bytes`. */
  method CopyInto(buf: array<byte>, to: nat, s: Segment, k: nat, ghost orig: bytes, ghost at: nat, ghost all: bytes)
    requires k <= s.len && at <= to && to + k <= buf.Length
    requires Overwritten(buf, orig, at, all, to - at)
    requires to - at + s.len <= |all| && all[to - at..to - at + s.len] == View(s)
    modifies buf
    ensures Overwritten(buf, orig, at, all, to - at + k)
  {
    assert forall i :: 0 <= i < s.len ==> all[to - at + i] == View(s)[i];
    forall i | 0 <= i < k {
      buf[to + i] := s.buf[s.pos + i];
    }
    assert forall i :: to <= i < to + k ==> buf[i] == View(s)[i - to];
  }
}
