/** Decimal text of a natural number, as a template literal prints the value of `Date.now()`. */
module Decimal {

  /** The digit character for `d`. */
  function DigitChar(d: nat): char
    requires d < 10
  {
    (('0' as int) + d) as char
  }

  /** The value of a digit character, or 0 for anything else. */
  function DigitValue(c: char): nat
  {
    if '0' <= c <= '9' then (c as int) - ('0' as int) else 0
  }

  /** The shortest decimal numeral of `n`, without sign or leading zeros. */
  function ToText(n: nat): string
  {
    if n < 10 then [DigitChar(n)] else ToText(n / 10) + [DigitChar(n % 10)]
  }

  /** Reads a string of digits most significant first. */
  function FromText(s: string): nat
  {
    if s == [] then 0 else 10 * FromText(s[..|s| - 1]) + DigitValue(s[|s| - 1])
  }

  /** Reading the printed numeral gives the number back. */
  lemma {:induction false} FromToText(n: nat)
    ensures FromText(ToText(n)) == n
  {
    if n >= 10 {
      var s := ToText(n);
      assert s[..|s| - 1] == ToText(n / 10);
      FromToText(n / 10);
    }
  }

  /** Distinct numbers print as distinct numerals. */
  lemma ToTextInjective(a: nat, b: nat)
    requires ToText(a) == ToText(b)
    ensures a == b
  {
    FromToText(a);
    FromToText(b);
  }
}
