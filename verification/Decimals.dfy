/** Numbers as printed in decimal. */
module Decimals {
  function Digit(d: nat): char
    requires d < 10
  {
    '0' + d as char
  }

  // What printf("%d") prints.
  function Decimal(n: nat): (s: string)
    ensures |s| > 0 && AllDigits(s)
  {
    if n < 10 then [Digit(n)] else Decimal(n / 10) + [Digit(n % 10)]
  }

  predicate AllDigits(s: string) { forall i :: 0 <= i < |s| ==> '0' <= s[i] <= '9' }

  // The number that decimal digits denote, behind those that denote `before`.
  function ValueFrom(before: nat, s: string): nat
    requires AllDigits(s)
    decreases |s|
  {
    if s == [] then before else 10 * ValueFrom(before, s[..|s| - 1]) + (s[|s| - 1] as int - '0' as int)
  }

  function Value(s: string): nat
    requires AllDigits(s)
  {
    ValueFrom(0, s)
  }

  lemma {:induction false} DecimalValue(n: nat)
    ensures Value(Decimal(n)) == n
  {
    if n < 10 {
      assert Decimal(n)[..0] == [] && ValueFrom(0, []) == 0;
    } else {
      DecimalValue(n / 10);
      assert Decimal(n)[..|Decimal(n)| - 1] == Decimal(n / 10);
    }
  }

  // Nothing in front of the first digit that counts.
  lemma {:induction false} NoLeadingZero(n: nat)
    ensures n > 0 ==> Decimal(n)[0] != '0'
    ensures n == 0 ==> Decimal(n) == "0"
  {
    if n >= 10 {
      NoLeadingZero(n / 10);
    }
  }

  // Reading from the left: the first digit joins those before it.
  lemma {:induction false} ShiftIn(before: nat, s: string)
    requires AllDigits(s) && s != ""
    ensures ValueFrom(before, s) == ValueFrom(10 * before + (s[0] as int - '0' as int), s[1..])
    decreases |s|
  {
    if |s| == 1 {
      assert s[..0] == [] && s[1..] == [];
    } else {
      var init := s[..|s| - 1];
      ShiftIn(before, init);
      assert init[1..] == s[1..][..|s| - 2];
    }
  }
}
