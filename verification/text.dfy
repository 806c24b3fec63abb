/** Decimal rendering of integers (what `String(n)` and template literals do
    with a whole number) and the prefix tests on strings used by the storage
    namespace. */
module Text {

  predicate IsDigit(c: char) {
    '0' <= c <= '9'
  }

  predicate AllDigits(s: string) {
    forall i :: 0 <= i < |s| ==> IsDigit(s[i])
  }

  function DigitChar(d: nat): (c: char)
    requires d < 10
    ensures IsDigit(c)
  {
    ('0' as int + d) as char
  }

  function DigitValue(c: char): (d: nat)
    requires IsDigit(c)
    ensures d < 10
  {
    c as int - '0' as int
  }

  /** The decimal digits of `n`, most significant first, without leading zeros. */
  function NatToString(n: nat): (s: string)
    ensures |s| > 0 && AllDigits(s)
    ensures s[0] == '0' ==> n == 0
    decreases n
  {
    if n < 10 then [DigitChar(n)] else NatToString(n / 10) + [DigitChar(n % 10)]
  }

  /** `String(n)` for a whole number: a minus sign for negatives, then the digits. */
  function IntToString(n: int): (s: string)
    ensures |s| > 0
    ensures n >= 0 ==> s == NatToString(n)
    ensures n < 0 ==> s == "-" + NatToString(-n)
  {
    if n < 0 then "-" + NatToString(-n) else NatToString(n)
  }

  /** The value of a run of decimal digits. */
  function DigitsValue(s: string): nat
    requires AllDigits(s)
    decreases |s|
  {
    if s == [] then 0 else DigitsValue(s[..|s| - 1]) * 10 + DigitValue(s[|s| - 1])
  }

  lemma {:induction false} NatToStringRoundTrip(n: nat)
    ensures DigitsValue(NatToString(n)) == n
    decreases n
  {
    var s := NatToString(n);
    if n >= 10 {
      NatToStringRoundTrip(n / 10);
      assert s[..|s| - 1] == NatToString(n / 10);
    }
  }

  /** Distinct numbers print differently. */
  lemma NatToStringInjective(a: nat, b: nat)
    ensures NatToString(a) == NatToString(b) ==> a == b
  {
    NatToStringRoundTrip(a);
    NatToStringRoundTrip(b);
  }

  lemma IntToStringInjective(a: int, b: int)
    ensures IntToString(a) == IntToString(b) ==> a == b
  {
    if IntToString(a) == IntToString(b) {
      var sa, sb := IntToString(a), IntToString(b);
      if a < 0 && b < 0 {
        assert sa[1..] == NatToString(-a) && sb[1..] == NatToString(-b);
        NatToStringInjective(-a, -b);
      } else if a >= 0 && b >= 0 {
        NatToStringInjective(a, b);
      }
    }
  }

  predicate StartsWith(s: string, prefix: string) {
    |prefix| <= |s| && s[..|prefix|] == prefix
  }

  lemma StartsWithConcat(prefix: string, rest: string)
    ensures StartsWith(prefix + rest, prefix)
    ensures (prefix + rest)[|prefix|..] == rest
  {
    assert (prefix + rest)[..|prefix|] == prefix;
  }

  /** Two texts that differ only between a common head and a common tail
      differ nowhere. */
  /** A decimal numeral holds only digits and a minus sign. */
  lemma NoMarkInNumber(n: int, c: char)
    requires !IsDigit(c) && c != '-'
    ensures c !in IntToString(n)
  {
    var s := IntToString(n);
    if n < 0 {
      var d := NatToString(-n);
      assert s == "-" + d;
      assert forall i :: 1 <= i < |s| ==> s[i] == d[i - 1];
    }
  }

  /** Text split at the first occurrence of a mark that neither head
      contains: equal texts have equal heads and equal remainders. */
  lemma SplitAtMark(x: string, y: string, c: char, r1: string, r2: string)
    requires c !in x && c !in y && x + [c] + r1 == y + [c] + r2
    ensures x == y && r1 == r2
  {
    var s := x + [c] + r1;
    var t := y + [c] + r2;
    assert s[|x|] == c && t[|y|] == c;
    assert forall i :: 0 <= i < |x| ==> s[i] == x[i] != c;
    assert forall i :: 0 <= i < |y| ==> t[i] == y[i] != c;
    assert |x| == |y|;
    assert x == s[..|x|] && y == t[..|y|];
    assert r1 == s[|x| + 1..] && r2 == t[|y| + 1..];
  }

  lemma CancelAround(head: string, a: string, b: string, tail: string)
    requires head + a + tail == head + b + tail
    ensures a == b
  {
    StartsWithConcat(head, a + tail);
    StartsWithConcat(head, b + tail);
    assert head + a + tail == head + (a + tail);
    assert head + b + tail == head + (b + tail);
    assert a == (a + tail)[..|a|] && b == (b + tail)[..|b|];
  }
}
