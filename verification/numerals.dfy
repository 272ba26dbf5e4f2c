/** Decimal numerals, as the standard library writes unsigned integers. */
module Numerals {

  predicate Digit(c: char) { '0' <= c <= '9' }

  function Decimal(n: nat): (text: string)
    ensures text != [] && forall i | 0 <= i < |text| :: Digit(text[i])
  {
    (if n < 10 then [] else Decimal(n / 10)) + [('0' as int + n % 10) as char]
  }

  /** The number a run of digits stands for. */
  function Amount(text: string): (n: nat)
    requires forall i | 0 <= i < |text| :: Digit(text[i])
  {
    if text == [] then 0
    else
      assert Digit(text[|text| - 1]);
      Amount(text[..|text| - 1]) * 10 + (text[|text| - 1] as int - '0' as int)
  }

  lemma {:induction false} AmountOfDecimal(n: nat)
    ensures Amount(Decimal(n)) == n
  {
    var text := Decimal(n);
    var front := if n < 10 then [] else Decimal(n / 10);
    assert text[..|text| - 1] == front;
    if n >= 10 { AmountOfDecimal(n / 10); }
  }

  lemma {:induction false} DecimalInjective(m: nat, n: nat)
    requires Decimal(m) == Decimal(n)
    ensures m == n
  {
    AmountOfDecimal(m);
    AmountOfDecimal(n);
  }
}
