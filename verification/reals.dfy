// Products of reals, kept apart from the solver's own treatment of squares.
module Reals {
  function Times(x: real, y: real): real { x * y }

  function Square(x: real): real { Times(x, x) }

  lemma TimesPositive(x: real, y: real)
    requires x > 0.0 && y > 0.0
    ensures Times(x, y) > 0.0
  {
  }

  lemma TimesGrows(a: real, b: real, c: real)
    requires a <= b && c >= 0.0
    ensures Times(a, c) <= Times(b, c) && Times(c, a) <= Times(c, b)
    ensures a < b && c > 0.0 ==> Times(a, c) < Times(b, c)
  {
    assert (b - a) * c >= 0.0;
    if a < b && c > 0.0 {
      TimesPositive(b - a, c);
      assert Times(b - a, c) == Times(b, c) - Times(a, c);
    }
  }

  lemma TimesNegated(x: real, y: real)
    ensures Times(-x, -y) == Times(x, y)
  {
  }

  lemma SquarePositive(x: real)
    requires x > 0.0
    ensures Square(x) > 0.0
  {
    hide Times;
    TimesPositive(x, x);
  }

  lemma SquareGrows(r: real, d: real)
    requires 0.0 <= r < d
    ensures Square(r) < Square(d)
  {
    TimesGrows(r, d, r);
    TimesGrows(r, d, d);
    hide Times;
  }

  lemma SquareNegated(x: real)
    ensures Square(-x) == Square(x)
  {
    hide Times;
    TimesNegated(x, x);
  }

  lemma SquareNotNegative(x: real)
    ensures Square(x) >= 0.0
  {
    if x > 0.0 { SquarePositive(x); }
    else if x < 0.0 { SquarePositive(-x); SquareNegated(x); }
  }
}
