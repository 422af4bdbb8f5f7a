/** Decimal text as printed by the %d verb, with its reader. */
module Text {

  const DIGITS: string := "0123456789"

  predicate IsDigit(c: char) { '0' <= c <= '9' }

  function DigitValue(c: char): int { c as int - '0' as int }

  function Natural(n: nat): string {
    if n < 10 then [DIGITS[n]] else Natural(n / 10) + [DIGITS[n % 10]]
  }

  function Decimal(n: int): string {
    if n < 0 then "-" + Natural(-n) else Natural(n)
  }

  predicate AllDigits(s: string) { s != "" && forall i :: 0 <= i < |s| ==> IsDigit(s[i]) }

  predicate IsNumeral(s: string) {
    AllDigits(s) || (s != "" && s[0] == '-' && AllDigits(s[1..]))
  }

  function ReadNatural(s: string): int {
    if s == "" then 0 else ReadNatural(s[..|s| - 1]) * 10 + DigitValue(s[|s| - 1])
  }

  function ReadDecimal(s: string): int {
    if s != "" && s[0] == '-' then -ReadNatural(s[1..]) else ReadNatural(s)
  }

  lemma {:induction false} NaturalReads(n: nat)
    ensures AllDigits(Natural(n)) && ReadNatural(Natural(n)) == n
  {
    if n < 10 {
      assert Natural(n) == [DIGITS[n]];
      assert ReadNatural(Natural(n)[..0]) == 0;
    } else {
      NaturalReads(n / 10);
      var s := Natural(n);
      assert s[..|s| - 1] == Natural(n / 10);
      assert s[|s| - 1] == DIGITS[n % 10];
    }
  }

  /** Printing an integer in decimal is undone by the reader, hence injective. */
  lemma {:induction false} DecimalReads(n: int)
    ensures IsNumeral(Decimal(n)) && ReadDecimal(Decimal(n)) == n
  {
    hide Natural, ReadNatural;
    if n < 0 {
      var s := Natural(-n);
      NaturalReads(-n);
      assert ("-" + s)[1..] == s;
    } else {
      NaturalReads(n);
      assert IsDigit(Natural(n)[0]);
    }
  }

  lemma DecimalChars(n: int)
    ensures forall i :: 0 <= i < |Decimal(n)| ==> IsDigit(Decimal(n)[i]) || Decimal(n)[i] == '-'
  {
    DecimalReads(n);
    if n < 0 { NaturalReads(-n); }
  }
}
