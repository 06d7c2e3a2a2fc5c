/** Text helpers: JavaScript's decimal rendering of integers and Array.prototype.join. */
module Strings {

  predicate IsDigit(c: char) {
    '0' <= c <= '9'
  }

  predicate AllDigits(s: string) {
    forall i :: 0 <= i < |s| ==> IsDigit(s[i])
  }

  function DigitChar(d: nat): (c: char)
    requires d < 10
    ensures IsDigit(c)
  {
    "0123456789"[d]
  }

  /** The decimal digits of n, most significant first, as `String(n)` prints them. */
  function NatToString(n: nat): (s: string)
    ensures |s| > 0 && AllDigits(s)
    decreases n
  {
    if n < 10 then [DigitChar(n)] else NatToString(n / 10) + [DigitChar(n % 10)]
  }

  /** The rendering of a BigInt by a template literal: an optional minus sign, then the digits. */
  function IntToString(i: int): string {
    if i < 0 then "-" + NatToString(-i) else NatToString(i)
  }

  /** `xs.join(sep)`. */
  function Join(xs: seq<string>, sep: string): string {
    if |xs| == 0 then ""
    else if |xs| == 1 then xs[0]
    else xs[0] + sep + Join(xs[1..], sep)
  }

  /** The concatenation of all strings in xs, front to back. */
  function Concat(xs: seq<string>): string {
    if xs == [] then "" else xs[0] + Concat(xs[1..])
  }

  lemma UnderscoreAt(x: string, d: string)
    ensures (x + "_" + d)[|x|] == '_'
  {
  }

  lemma DigitAfter(x: string, d: string, j: int)
    requires 0 <= j < |d|
    ensures (x + "_" + d)[|x| + 1 + j] == d[j]
  {
  }

  /** Splitting at the last '_' recovers a name and a digit suffix: `name + "_" + digits` is injective. */
  lemma {:induction false} SuffixedInjective(x: string, d1: string, y: string, d2: string)
    requires AllDigits(d1) && AllDigits(d2)
    requires x + "_" + d1 == y + "_" + d2
    ensures x == y && d1 == d2
  {
    var s := x + "_" + d1;
    if |d1| < |d2| {
      UnderscoreAt(x, d1);
      DigitAfter(y, d2, |x| - |y| - 1);
      assert false;
    } else if |d2| < |d1| {
      UnderscoreAt(y, d2);
      DigitAfter(x, d1, |y| - |x| - 1);
      assert false;
    }
    assert x == s[..|x|] == y;
    assert d1 == s[|x| + 1..] == d2;
  }

  lemma {:induction false} NatToStringLength(n: nat)
    ensures |NatToString(n)| == 1 <==> n < 10
  {
    if n >= 10 {
      assert |NatToString(n / 10)| > 0;
    }
  }

  /** Different numbers print differently. */
  lemma {:induction false} NatToStringInjective(n: nat, m: nat)
    requires NatToString(n) == NatToString(m)
    ensures n == m
    decreases n
  {
    NatToStringLength(n);
    NatToStringLength(m);
    var s := NatToString(n);
    if n < 10 {
      assert "0123456789"[n] == s[0] == "0123456789"[m];
    } else {
      assert s[|s| - 1] == DigitChar(n % 10) == DigitChar(m % 10);
      assert n % 10 == m % 10;
      assert s[..|s| - 1] == NatToString(n / 10) == NatToString(m / 10);
      NatToStringInjective(n / 10, m / 10);
    }
  }
}
