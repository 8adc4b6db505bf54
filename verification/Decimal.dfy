/** Decimal numerals of natural numbers. */
module Decimal {

  predicate IsDigit(c: char) { '0' <= c <= '9' }

  predicate AllDigits(s: string) { forall c <- s :: IsDigit(c) }

  function DigitChar(d: nat): char
    requires d < 10
  {
    '0' + d as char
  }

  function DigitValue(c: char): nat
    requires IsDigit(c)
  {
    (c - '0') as nat
  }

  function Print(n: nat): string {
    if n < 10 then [DigitChar(n)] else Print(n / 10) + [DigitChar(n % 10)]
  }

  function Read(s: string): nat
    requires AllDigits(s)
  {
    if s == [] then 0 else 10 * Read(s[..|s| - 1]) + DigitValue(s[|s| - 1])
  }

  /** A numeral reads back as its number, has only digits, and no leading zero above zero. */
  lemma {:induction false} ReadPrint(n: nat)
    ensures AllDigits(Print(n)) && Read(Print(n)) == n
    ensures |Print(n)| > 0 && (n > 0 ==> Print(n)[0] != '0')
  {
    if n >= 10 {
      ReadPrint(n / 10);
      var s := Print(n);
      assert s[..|s| - 1] == Print(n / 10);
    } else {
      var s := Print(n);
      assert s[..|s| - 1] == [];
    }
  }

  /** Ten is written with two digits, and a zero behind a numeral multiplies by ten. */
  lemma BaseIsTen(n: nat)
    requires n > 0
    ensures Print(10) == "10" && Print(10 * n) == Print(n) + "0"
  {
    assert Print(1) == ['1'] && Print(10) == Print(1) + ['0'];
  }

  lemma PrintInjective(m: nat, n: nat)
    requires Print(m) == Print(n)
    ensures m == n
  {
    ReadPrint(m);
    ReadPrint(n);
  }
}
