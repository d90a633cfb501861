// Decimal text of a natural number, as a template literal prints it in a record ID.
module Decimal {
  const DIGITS := "0123456789"

  function Digits(n: nat): (s: string)
    ensures |s| > 0
  {
    if n < 10 then [DIGITS[n]] else Digits(n / 10) + [DIGITS[n % 10]]
  }

  lemma {:induction false} DigitsInjective(a: nat, b: nat)
    requires Digits(a) == Digits(b)
    ensures a == b
  {
    var da, db := Digits(a), Digits(b);
    assert da[|da| - 1] == DIGITS[a % 10] && db[|db| - 1] == DIGITS[b % 10];
    assert a % 10 == b % 10;
    if a >= 10 && b >= 10 {
      assert da[..|da| - 1] == Digits(a / 10) && db[..|db| - 1] == Digits(b / 10);
      DigitsInjective(a / 10, b / 10);
    }
  }
}
