/** Decimal rendering of naturals, as `%d` and `strconv.Itoa` print them. */
module Decimal {

  predicate IsDigit(c: char) {
    '0' <= c <= '9'
  }

  function DigitChar(d: nat): (c: char)
    requires d < 10
    ensures IsDigit(c) && DigitValue(c) == d
  {
    (d + 48) as char
  }

  function DigitValue(c: char): (d: nat)
    requires IsDigit(c)
    ensures d < 10 && c as nat == '0' as nat + d
  {
    c as nat - 48
  }

  function Itoa(n: nat): (s: string)
    ensures s != []
    ensures forall i :: 0 <= i < |s| ==> IsDigit(s[i])
  {
    if n < 10 then [DigitChar(n)] else Itoa(n / 10) + [DigitChar(n % 10)]
  }

  predicate AllDigits(s: string) {
    forall i :: 0 <= i < |s| ==> IsDigit(s[i])
  }

  /** The number a digit string denotes. */
  function Atoi(s: string): nat
    requires AllDigits(s)
  {
    if s == [] then 0 else Atoi(s[..|s| - 1]) * 10 + DigitValue(s[|s| - 1])
  }

  lemma {:induction false} AtoiItoa(n: nat)
    ensures Atoi(Itoa(n)) == n
  {
    if n >= 10 {
      AtoiItoa(n / 10);
      var s := Itoa(n);
      assert s[..|s| - 1] == Itoa(n / 10);
    }
  }

  /** There is no leading zero, except for zero itself. */
  lemma {:induction false} ItoaCanonical(n: nat)
    ensures Itoa(n)[0] == '0' <==> n == 0
    ensures n == 0 ==> Itoa(n) == "0"
  {
    if n >= 10 {
      ItoaCanonical(n / 10);
    }
  }
}
