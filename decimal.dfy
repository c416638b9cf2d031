/**
 * The decimal text JavaScript's `Number.prototype.toString()` produces for a
 * non-negative integer, and its inverse. Page ids become store keys through
 * this encoding, so its injectivity is what keeps two page ids from sharing a key.
 */
module Decimal {

  predicate IsDigit(c: char) {
    '0' <= c <= '9'
  }

  /** Every character of `s` is a decimal digit. */
  predicate IsDecimal(s: string) {
    forall i :: 0 <= i < |s| ==> IsDigit(s[i])
  }

  /** The way `toString` writes numbers: at least one digit, no leading zero. */
  predicate IsCanonical(s: string) {
    |s| > 0 && IsDecimal(s) && (s[0] == '0' ==> |s| == 1)
  }

  function DigitChar(d: nat): (c: char)
    requires d < 10
    ensures IsDigit(c)
  {
    ('0' as int + d) as char
  }

  function DigitValue(c: char): (d: nat)
    requires IsDigit(c)
    ensures d < 10 && DigitChar(d) == c
  {
    c as int - '0' as int
  }

  /** `n.toString()` for a non-negative integer `n`. */
  function ToString(n: nat): (s: string)
    ensures IsCanonical(s)
    decreases n
  {
    if n < 10 then [DigitChar(n)] else ToString(n / 10) + [DigitChar(n % 10)]
  }

  /** The number a string of decimal digits denotes. */
  function Parse(s: string): (n: nat)
    requires IsDecimal(s)
    decreases |s|
  {
    if s == [] then 0 else 10 * Parse(s[..|s| - 1]) + DigitValue(s[|s| - 1])
  }

  /** Reading back the text of `n` gives `n`. */
  lemma {:induction false} ParseToString(n: nat)
    ensures Parse(ToString(n)) == n
    decreases n
  {
    var s := ToString(n);
    if n < 10 {
      assert s[..|s| - 1] == [];
    } else {
      ParseToString(n / 10);
      assert s[..|s| - 1] == ToString(n / 10);
    }
  }

  /** Distinct numbers have distinct texts. */
  lemma ToStringInjective(a: nat, b: nat)
    ensures ToString(a) == ToString(b) <==> a == b
  {
    if ToString(a) == ToString(b) {
      ParseToString(a);
      ParseToString(b);
    }
  }

  /** A digit string with a non-zero first digit denotes a positive number. */
  lemma {:induction false} ParsePositive(s: string)
    requires IsDecimal(s) && |s| > 0 && s[0] != '0'
    ensures Parse(s) > 0
    decreases |s|
  {
    if |s| > 1 {
      var p := s[..|s| - 1];
      assert p[0] == s[0];
      ParsePositive(p);
    } else {
      assert s[..|s| - 1] == [];
      assert DigitChar(0) == '0';
    }
  }

  /** Every canonical digit string is the text of the number it denotes. */
  lemma {:induction false} ToStringParse(s: string)
    requires IsCanonical(s)
    ensures ToString(Parse(s)) == s
    decreases |s|
  {
    var p := s[..|s| - 1];
    var d := DigitValue(s[|s| - 1]);
    if |s| == 1 {
      assert p == [];
      assert s == [DigitChar(d)];
    } else {
      assert p[0] == s[0] && s[0] != '0';
      assert IsCanonical(p);
      ParsePositive(p);
      ToStringParse(p);
      var n := Parse(s);
      assert n == 10 * Parse(p) + d;
      assert n / 10 == Parse(p) && n % 10 == d;
      assert s == p + [s[|s| - 1]];
    }
  }
}
