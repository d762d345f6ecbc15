/** Decimal numerals. */
module Decimal {
  import opened Text

  predicate Digits(s: string) { forall i | 0 <= i < |s| :: IsDigit(s[i]) }

  function DigitChar(d: nat): char
    requires d < 10
  {
    ('0' as int + d) as char
  }

  function DigitOf(c: char): nat
    requires IsDigit(c)
  {
    c as int - '0' as int
  }

  /** Shortest numeral of `n`. */
  function NumText(n: nat): (s: string)
    ensures s != "" && Digits(s)
  {
    if n < 10 then [DigitChar(n)] else NumText(n / 10) + [DigitChar(n % 10)]
  }

  /** Number a digit string denotes; leading zeros allowed. */
  function Value(s: string): nat
    requires Digits(s)
  {
    if s == "" then 0 else 10 * Value(s[..|s| - 1]) + DigitOf(s[|s| - 1])
  }

  lemma {:induction false} ValueOfText(n: nat)
    ensures Value(NumText(n)) == n
  {
    if n >= 10 {
      ValueOfText(n / 10);
      assert NumText(n)[..|NumText(n)| - 1] == NumText(n / 10);
    }
  }
}
