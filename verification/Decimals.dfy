/** Decimal numerals, as the %d verb prints them. */
module Decimals {
  function DigitChar(d: nat): char
    requires d < 10
  {
    ('0' as int + d) as char
  }

  function PrintNat(n: nat): string {
    if n < 10 then [DigitChar(n)] else PrintNat(n / 10) + [DigitChar(n % 10)]
  }

  /** The %d verb. */
  function PrintInt(n: int): string {
    if n < 0 then "-" + PrintNat(-n) else PrintNat(n)
  }

  predicate IsDigit(c: char) { '0' as int <= c as int <= '9' as int }

  predicate AllDigits(s: string) { s != "" && forall i :: 0 <= i < |s| ==> IsDigit(s[i]) }

  function NatOf(s: string): nat
    requires forall i :: 0 <= i < |s| ==> IsDigit(s[i])
  {
    if s == "" then 0
    else
      assert IsDigit(s[|s| - 1]);
      10 * NatOf(s[..|s| - 1]) + (s[|s| - 1] as int - '0' as int)
  }

  lemma {:induction false} PrintNatReads(n: nat)
    ensures AllDigits(PrintNat(n)) && NatOf(PrintNat(n)) == n
  {
    if n >= 10 {
      PrintNatReads(n / 10);
      var front := PrintNat(n / 10);
      assert PrintNat(n)[..|PrintNat(n)| - 1] == front;
    }
  }

  /** No numeral of a number is shorter than the printed one. */
  lemma {:induction false} PrintNatMinimal(s: string)
    requires AllDigits(s)
    ensures |PrintNat(NatOf(s))| <= |s|
  {
    if |s| > 1 {
      var front := s[..|s| - 1];
      assert IsDigit(s[|s| - 1]) && forall i :: 0 <= i < |front| ==> front[i] == s[i];
      PrintNatMinimal(front);
      assert NatOf(s) / 10 == NatOf(front);
    }
  }
}
