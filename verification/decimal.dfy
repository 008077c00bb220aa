/** Decimal numerals, and a reader that stops at a given terminator. */
module Decimal {

  predicate Digit(c: char) { '0' <= c <= '9' }

  function DigitOf(n: nat): (c: char)
    requires n < 10
    ensures Digit(c)
  {
    '0' + n as char
  }

  function ValueOf(c: char): (n: nat)
    requires Digit(c)
    ensures n < 10
  {
    c as nat - '0' as nat
  }

  /** The numeral without leading zeros. */
  function Numeral(n: nat): (r: string)
    ensures r != "" && forall i | 0 <= i < |r| :: Digit(r[i])
  {
    if n < 10 then [DigitOf(n)] else Numeral(n / 10) + [DigitOf(n % 10)]
  }

  function Value(s: string): nat
    requires forall i | 0 <= i < |s| :: Digit(s[i])
  {
    if s == "" then 0 else 10 * Value(s[..|s| - 1]) + ValueOf(s[|s| - 1])
  }

  lemma {:induction false} NumeralValue(n: nat)
    ensures Value(Numeral(n)) == n
  {
    if n >= 10 {
      NumeralValue(n / 10);
      assert Numeral(n)[..|Numeral(n)| - 1] == Numeral(n / 10);
    } else {
      assert Numeral(n)[..0] == "";
    }
  }

  /** How many digits `s` begins with. */
  function DigitCount(s: string): (r: nat)
    ensures r <= |s| && forall i | 0 <= i < r :: Digit(s[i])
    ensures r < |s| ==> !Digit(s[r])
  {
    if s == "" || !Digit(s[0]) then 0 else 1 + DigitCount(s[1..])
  }

  lemma {:induction false} DigitCountStops(digits: string, rest: string)
    requires forall i | 0 <= i < |digits| :: Digit(digits[i])
    requires rest == "" || !Digit(rest[0])
    ensures DigitCount(digits + rest) == |digits|
  {
    if digits == "" {
      assert digits + rest == rest;
    } else {
      DigitCountStops(digits[1..], rest);
      assert (digits + rest)[1..] == digits[1..] + rest;
    }
  }
}
