/** Java's narrowing `(int)` cast of a double and Java's `int` division.
    Both round toward zero, unlike Dafny's `.Floor` and Euclidean `/`. */
module JavaNumerics {

  /** `(int) x`: drops the fractional part, rounding toward zero.
      (Saturation at the `int` range and NaN are not modelled: the model's reals are finite.) */
  function Trunc(x: real): int
  {
    if x >= 0.0 then x.Floor else -((-x).Floor)
  }

  /** The cast keeps the integer part: it never moves away from zero and
      moves toward it by less than one. */
  lemma TruncBounds(x: real)
    ensures 0.0 <= x ==> 0 <= Trunc(x) && Trunc(x) as real <= x < Trunc(x) as real + 1.0
    ensures x < 0.0 ==> Trunc(x) <= 0 && Trunc(x) as real - 1.0 < x <= Trunc(x) as real
  {
  }

  /** Casting a negated double negates the cast: `(int) (-1 * x) == -((int) x)`.
      This is what lets a translation by the truncated position be undone exactly. */
  lemma TruncNeg(x: real)
    ensures Trunc(-1.0 * x) == -Trunc(x)
  {
    if x > 0.0 {
      assert -1.0 * x < 0.0;
      assert -(-1.0 * x) == x;
    } else if x < 0.0 {
      assert -1.0 * x > 0.0;
    }
  }

  /** Java's `a / b` on `int` for a positive divisor: the quotient rounded toward zero. */
  function Quot(a: int, b: int): (q: int)
    requires b > 0
    ensures 0 <= a ==> 0 <= q && q * b <= a < q * b + b
    ensures a < 0 ==> q <= 0 && q * b - b < a <= q * b
  {
    if a >= 0 then DivBounds(a, b); a / b
    else DivBounds(-a, b); -((-a) / b)
  }

  /** Euclidean division of a non-negative number brackets it between consecutive multiples. */
  lemma DivBounds(a: int, b: int)
    requires a >= 0 && b > 0
    ensures 0 <= a / b && (a / b) * b <= a < (a / b) * b + b
  {
  }

  /** Dividing an exact multiple of ten by ten gives the factor back, whatever its sign. */
  lemma QuotOfTenfold(k: int)
    ensures Quot(k * 10, 10) == k
  {
    if k < 0 {
      assert -(k * 10) == (-k) * 10;
      assert ((-k) * 10) / 10 == -k;
    }
  }
}
