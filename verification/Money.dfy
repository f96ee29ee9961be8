/** Rounding of exact amounts to cents. A decimal with two places is an integer number of cents. */
module Money {

  /** The amount a number of cents stands for. */
  function Amount(cents: int): real {
    cents as real / 100.0
  }

  /** Nearest integer, ties away from zero (ROUND_HALF_UP). */
  function NearestAway(y: real): int {
    if y >= 0.0 then (y + 0.5).Floor else -((-y + 0.5).Floor)
  }

  /** Nearest integer, ties to the even neighbour (the default rounding of `quantize` and `round`). */
  function NearestEven(y: real): int {
    var low := y.Floor;
    var rest := y - low as real;
    if rest < 0.5 || (rest == 0.5 && low % 2 == 0) then low else low + 1
  }

  function HalfUp(x: real): int {
    NearestAway(x * 100.0)
  }

  function HalfEven(x: real): int {
    NearestEven(x * 100.0)
  }

  /**
   `c` is the cent value ROUND_HALF_UP prescribes for `x`: within half a cent, and on a tie not the one nearer
   to zero.
   */
  ghost predicate IsHalfUp(x: real, c: int) {
    && -0.5 <= c as real - x * 100.0 <= 0.5
    && (c as real - x * 100.0 == 0.5 ==> x >= 0.0)
    && (c as real - x * 100.0 == -0.5 ==> x < 0.0)
  }

  lemma HalfUpExact(x: real, c: int)
    ensures HalfUp(x) == c <==> IsHalfUp(x, c)
  {
    var y := x * 100.0;
    var n := HalfUp(x);
    if y >= 0.0 {
      assert n as real <= y + 0.5 < n as real + 1.0;
    } else {
      assert (-n) as real <= -y + 0.5 < (-n) as real + 1.0;
    }
  }

  lemma HalfUpOfCents(c: int)
    ensures HalfUp(Amount(c)) == c
  {
    HalfUpExact(Amount(c), c);
  }

  /** `c` is the cent value of `x` under round-half-to-even: within half a cent, and even on a tie. */
  ghost predicate IsHalfEven(x: real, c: int) {
    && -0.5 <= c as real - x * 100.0 <= 0.5
    && (c as real - x * 100.0 == 0.5 || c as real - x * 100.0 == -0.5 ==> c % 2 == 0)
  }

  lemma HalfEvenExact(x: real, c: int)
    ensures HalfEven(x) == c <==> IsHalfEven(x, c)
  {
    var y := x * 100.0;
    var low := y.Floor;
    assert low as real <= y < low as real + 1.0;
    if IsHalfEven(x, c) {
      assert c == low || c == low + 1;
    }
  }

  lemma HalfEvenNear(x: real)
    ensures -0.5 <= HalfEven(x) as real - x * 100.0 <= 0.5
  {
  }

  lemma NearestEvenMonotone(x: real, y: real)
    requires x <= y
    ensures NearestEven(x) <= NearestEven(y)
  {
    assert x.Floor <= y.Floor;
  }

  lemma ProductNotNegative(x: real, y: real)
    requires 0.0 <= x && 0.0 <= y
    ensures 0.0 <= x * y
  {
  }

  lemma QuotientMonotone(x: real, y: real, d: real)
    requires x <= y && d > 0.0
    ensures x / d <= y / d
  {
    ProductNotNegative(y - x, 1.0 / d);
    assert y / d - x / d == (y - x) * (1.0 / d);
  }
}
