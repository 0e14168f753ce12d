/** Decimal numerals, as printed in placeholders and list lengths. */
module Digits {
  import opened Seqs


  predicate IsDigit(c: char) { '0' <= c <= '9' }

  function DigitChar(d: nat): (c: char)
    requires d < 10
    ensures IsDigit(c) && DigitValue(c) == d
  {
    ['0', '1', '2', '3', '4', '5', '6', '7', '8', '9'][d]
  }

  function DigitValue(c: char): nat
    requires IsDigit(c)
  {
    c as int - '0' as int
  }

  function Numeral(n: nat): (s: string)
    ensures s != [] && forall c | c in s :: IsDigit(c)
  {
    if n < 10 then [DigitChar(n)] else Numeral(n / 10) + [DigitChar(n % 10)]
  }

  function ReadNumeral(s: string): nat
    requires forall c | c in s :: IsDigit(c)
  {
    if s == [] then 0 else 10 * ReadNumeral(s[..|s| - 1]) + DigitValue(s[|s| - 1])
  }

  /** Reading a printed numeral gives the number back, so two numbers never print alike. */
  lemma {:induction false} NumeralRoundTrip(n: nat)
    ensures ReadNumeral(Numeral(n)) == n
  {
    var s := Numeral(n);
    if n < 10 {
      assert s[..|s| - 1] == [];
    } else {
      assert s[..|s| - 1] == Numeral(n / 10);
      NumeralRoundTrip(n / 10);
    }
  }

  lemma NumeralInjective(m: nat, n: nat)
    requires Numeral(m) == Numeral(n)
    ensures m == n
  {
    NumeralRoundTrip(m);
    NumeralRoundTrip(n);
  }

  lemma PrefixedInjective(prefix: string, m: nat, n: nat)
    requires prefix + Numeral(m) == prefix + Numeral(n)
    ensures m == n
  {
    SamePrefix(prefix, Numeral(m), Numeral(n));
    NumeralInjective(m, n);
  }
}
