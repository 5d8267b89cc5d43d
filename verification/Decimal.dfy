/** Decimal text, as stream extraction and `atoi` read it and stream insertion and "%d" print it. */
module Decimal {
  import opened Bytes

  const PLUS: byte := 43
  const MINUS: byte := 45

  predicate IsDigit(b: byte) { 48 <= b <= 57 }

  predicate IsSpace(b: byte) { b == SP || 9 <= b <= 13 }

  function SkipSpace(s: bytes): bytes {
    if |s| > 0 && IsSpace(s[0]) then SkipSpace(s[1..]) else s
  }

  /** Value of the longest run of digits at the front, continuing from acc. */
  function DecRun(s: bytes, acc: nat): nat {
    if |s| > 0 && IsDigit(s[0]) then DecRun(s[1..], acc * 10 + (s[0] - 48)) else acc
  }

  /** The digits of n, without leading zeros. */
  function DecText(n: nat): (t: bytes)
    ensures |t| > 0
  {
    if n < 10 then [48 + n] else DecText(n / 10) + [48 + n % 10]
  }

  lemma {:induction false} DecTextReads(n: nat, s: bytes)
    ensures DecRun(DecText(n) + s, 0) == DecRun(s, n)
    ensures forall i :: 0 <= i < |DecText(n)| ==> IsDigit(DecText(n)[i])
  {
    if n < 10 {
      assert ([48 + n] + s)[1..] == s;
    } else {
      var d: byte := 48 + n % 10;
      DecTextReads(n / 10, [d] + s);
      assert DecText(n) + s == DecText(n / 10) + ([d] + s);
      assert ([d] + s)[1..] == s;
      assert DecRun([d] + s, n / 10) == DecRun(s, n / 10 * 10 + n % 10);
    }
  }
}
