/** Decimal numerals, as f-strings print them and int() reads them, and names built from them. */
module Decimal {

  predicate IsDigit(c: char) { '0' <= c <= '9' }

  function DigitChar(d: nat): (c: char)
    requires d < 10
    ensures IsDigit(c)
  {
    "0123456789"[d]
  }

  function DigitValue(c: char): (d: nat)
    requires IsDigit(c)
    ensures d < 10
  {
    c as int - '0' as int
  }

  ghost predicate AllDigits(s: string) {
    forall k :: 0 <= k < |s| ==> IsDigit(s[k])
  }

  function ToDecimal(n: nat): (s: string)
    ensures |s| > 0 && AllDigits(s)
  {
    if n < 10 then [DigitChar(n)] else ToDecimal(n / 10) + [DigitChar(n % 10)]
  }

  function ParseDecimal(s: string): nat
    requires AllDigits(s)
  {
    if s == [] then 0 else 10 * ParseDecimal(s[..|s| - 1]) + DigitValue(s[|s| - 1])
  }

  /** The length of the longest prefix of digits. */
  function DigitRun(s: string): (k: nat)
    ensures k <= |s| && AllDigits(s[..k])
    ensures k < |s| ==> !IsDigit(s[k])
  {
    if s == [] || !IsDigit(s[0]) then 0
    else
      var k := DigitRun(s[1..]);
      assert s[..k + 1] == [s[0]] + s[1..][..k];
      k + 1
  }

  lemma {:induction false} DigitBack(d: nat)
    requires d < 10
    ensures DigitValue(DigitChar(d)) == d
  {
  }

  lemma {:induction false} ParseToDecimal(n: nat)
    ensures ParseDecimal(ToDecimal(n)) == n
    decreases n
  {
    DigitBack(n % 10);
    hide DigitValue, DigitChar;
    if n < 10 {
      assert ToDecimal(n)[..0] == [];
    } else {
      ParseToDecimal(n / 10);
      assert ToDecimal(n)[..|ToDecimal(n)| - 1] == ToDecimal(n / 10);
    }
  }

  lemma {:induction false} DigitRunStops(digits: string, rest: string)
    requires AllDigits(digits) && (rest == [] || !IsDigit(rest[0]))
    ensures DigitRun(digits + rest) == |digits|
    decreases |digits|
  {
    if digits == [] {
      assert digits + rest == rest;
    } else {
      DigitRunStops(digits[1..], rest);
      assert (digits + rest)[1..] == digits[1..] + rest;
    }
  }

  /** A numeral followed by a non-digit can be taken apart in only one way. */
  lemma {:induction false} NumeralThenRestInjective(a: nat, x: string, b: nat, y: string)
    requires x == [] || !IsDigit(x[0])
    requires y == [] || !IsDigit(y[0])
    requires ToDecimal(a) + x == ToDecimal(b) + y
    ensures a == b && x == y
  {
    var s := ToDecimal(a) + x;
    DigitRunStops(ToDecimal(a), x);
    DigitRunStops(ToDecimal(b), y);
    assert s[..|ToDecimal(a)|] == ToDecimal(a) && s[..|ToDecimal(b)|] == ToDecimal(b);
    assert s[|ToDecimal(a)|..] == x && s[|ToDecimal(b)|..] == y;
    ParseToDecimal(a);
    ParseToDecimal(b);
  }

  lemma {:induction false} NoColonAfter(p: string, a: nat, s: string, j: nat)
    requires s == p + ":" + ToDecimal(a) && j < |s| && s[j] == ':'
    ensures j <= |p|
  {
    assert forall t :: |p| < t < |s| ==> s[t] == ToDecimal(a)[t - |p| - 1] && IsDigit(s[t]);
  }

  /** Anything, a colon, a numeral: the last colon is the only place to cut. */
  lemma {:induction false} BeforeLastColonInjective(p: string, a: nat, q: string, b: nat)
    requires p + ":" + ToDecimal(a) == q + ":" + ToDecimal(b)
    ensures p == q && a == b
  {
    var s := p + ":" + ToDecimal(a);
    assert s[|p|] == ':' && s[|q|] == ':';
    NoColonAfter(p, a, s, |q|);
    NoColonAfter(q, b, s, |p|);
    assert s[..|p|] == p && s[..|q|] == q;
    assert s[|p| + 1..] == ToDecimal(a) && s[|q| + 1..] == ToDecimal(b);
    ParseToDecimal(a);
    ParseToDecimal(b);
  }
}
