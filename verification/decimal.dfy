/**
 * Decimal rendering of naturals, as JavaScript's template literals print a
 * non-negative integer: the shortest digit string, with no sign, no padding
 * and no leading zero. `ParseDigits` reads such a string back.
 */
module Decimal {

  predicate IsDigit(c: char) {
    '0' <= c <= '9'
  }

  predicate AllDigits(s: string) {
    forall i :: 0 <= i < |s| ==> IsDigit(s[i])
  }

  /** The form `NatToString` produces: a non-empty digit string that starts
      with `'0'` only when it is the single digit `"0"`. */
  predicate Canonical(s: string) {
    |s| >= 1 && AllDigits(s) && (s[0] == '0' ==> |s| == 1)
  }

  function DigitChar(d: nat): (c: char)
    requires d < 10
    ensures IsDigit(c)
  {
    ('0' as int + d) as char
  }

  function DigitValue(c: char): (d: nat)
    requires IsDigit(c)
    ensures d < 10
  {
    c as int - '0' as int
  }

  /** Decimal digits of `n`, most significant first. */
  function NatToString(n: nat): (s: string)
    ensures Canonical(s)
    ensures n < 10 <==> |s| == 1
  {
    if n < 10 then [DigitChar(n)] else NatToString(n / 10) + [DigitChar(n % 10)]
  }

  /** The value of a string of decimal digits, most significant first. */
  function ParseDigits(s: string): nat
    requires AllDigits(s)
  {
    if |s| == 0 then 0 else ParseDigits(s[..|s| - 1]) * 10 + DigitValue(s[|s| - 1])
  }

  /** Printing a natural and reading it back gives the natural. */
  lemma {:induction false} ParsePrinted(n: nat)
    ensures ParseDigits(NatToString(n)) == n
  {
    if n >= 10 {
      var p := NatToString(n / 10);
      var s := NatToString(n);
      assert s[..|s| - 1] == p;
      ParsePrinted(n / 10);
    }
  }

  /** A digit string whose value is 0 consists of zeros only, so its first digit is `'0'`. */
  lemma {:induction false} ZeroValueLeadsWithZero(s: string)
    requires |s| >= 1 && AllDigits(s)
    requires ParseDigits(s) == 0
    ensures s[0] == '0'
  {
    if |s| > 1 {
      var p := s[..|s| - 1];
      assert p[0] == s[0];
      ZeroValueLeadsWithZero(p);
    }
  }

  /** Reading a canonical digit string and printing its value gives the string back. */
  lemma {:induction false} PrintParsed(s: string)
    requires Canonical(s)
    ensures NatToString(ParseDigits(s)) == s
  {
    if |s| > 1 {
      var p := s[..|s| - 1];
      var c := DigitValue(s[|s| - 1]);
      assert p[0] == s[0];
      var v := ParseDigits(p);
      if v == 0 {
        ZeroValueLeadsWithZero(p);
      }
      PrintParsed(p);
      var n := v * 10 + c;
      assert n / 10 == v && n % 10 == c;
      assert DigitChar(c) == s[|s| - 1];
      assert s == p + [s[|s| - 1]];
    }
  }
}
