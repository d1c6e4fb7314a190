/** Decimal rendering of natural numbers, as interpolated into storage keys. */
module Decimal {

  function Digit(d: nat): char
    requires d < 10
  {
    '0' + d as char
  }

  predicate IsDigit(c: char) {
    '0' <= c <= '9'
  }

  function Digits(n: nat): string {
    if n < 10 then [Digit(n)] else Digits(n / 10) + [Digit(n % 10)]
  }

  ghost predicate AllDigits(s: string) {
    forall i :: 0 <= i < |s| ==> IsDigit(s[i])
  }

  function ValueOf(s: string): nat
    requires forall i :: 0 <= i < |s| ==> IsDigit(s[i])
  {
    if s == [] then 0
    else
      var last := s[|s| - 1];
      assert IsDigit(last);
      10 * ValueOf(s[..|s| - 1]) + (last as int - '0' as int)
  }

  lemma {:induction false} DigitsReadBack(n: nat)
    ensures Digits(n) != [] && AllDigits(Digits(n)) && ValueOf(Digits(n)) == n
  {
    if n >= 10 {
      DigitsReadBack(n / 10);
      assert Digits(n)[..|Digits(n)| - 1] == Digits(n / 10);
    } else {
      assert ValueOf([]) == 0;
      assert Digits(n)[..0] == [];
    }
  }

  lemma DigitsInjective(a: nat, b: nat)
    requires Digits(a) == Digits(b)
    ensures a == b
  {
    DigitsReadBack(a);
    DigitsReadBack(b);
  }

  /** The first non-digit of a string marks the end of its leading number. */
  lemma LeadingDigits(p: string, q: string, separator: char, x: string, y: string)
    requires AllDigits(q) && !IsDigit(separator)
    requires p + [separator] + x == q + [separator] + y
    ensures |p| >= |q|
  {
    var s := q + [separator] + y;
    assert forall k :: 0 <= k < |q| ==> s[k] == q[k] && IsDigit(q[k]);
    assert (p + [separator] + x)[|p|] == separator;
  }

  /** A number followed by a non-digit can be read back unambiguously from the front of a string. */
  lemma NumberThenSeparator(a: nat, b: nat, separator: char, x: string, y: string)
    requires !IsDigit(separator)
    requires Digits(a) + [separator] + x == Digits(b) + [separator] + y
    ensures a == b && x == y
  {
    DigitsReadBack(a);
    DigitsReadBack(b);
    LeadingDigits(Digits(a), Digits(b), separator, x, y);
    LeadingDigits(Digits(b), Digits(a), separator, y, x);
    Reassociate(Digits(a), [separator], x);
    Reassociate(Digits(b), [separator], y);
    SplitAt(Digits(a), Digits(b), [separator] + x, [separator] + y);
    DigitsInjective(a, b);
    assert x == ([separator] + x)[1..];
  }

  lemma Reassociate(p: string, q: string, r: string)
    ensures p + q + r == p + (q + r)
  {
  }

  lemma SplitAt(p: string, q: string, x: string, y: string)
    requires |p| == |q| && p + x == q + y
    ensures p == q && x == y
  {
    assert p == (p + x)[..|p|] && x == (p + x)[|p|..];
    assert q == (q + y)[..|q|] && y == (q + y)[|q|..];
  }
}
