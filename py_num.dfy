/**
 * Python's numeric conventions over exact reals: `round` (half to even,
 * optionally to `n` decimal places), `int()` (truncation toward zero),
 * truthiness of an optional number and the `a or b` operator on optional
 * numbers. Binary floating-point artefacts are not modelled.
 */
module PyNum {
  import opened Wrappers

  function Abs(x: real): (r: real)
    ensures r >= 0.0
    ensures r == x || r == -x
  {
    if x < 0.0 then -x else x
  }

  function Max(a: real, b: real): (r: real)
    ensures r >= a && r >= b
    ensures r == a || r == b
  {
    if a >= b then a else b
  }

  function Min(a: real, b: real): (r: real)
    ensures r <= a && r <= b
    ensures r == a || r == b
  {
    if a <= b then a else b
  }

  /** Decimal places passed to `round(x, n)` anywhere in the system: 0 to 3. */
  type Places = n: nat | n <= 3

  /** 10^n for the decimal places in use. */
  function Scale(n: Places): (r: real)
    ensures r >= 1.0
  {
    if n == 0 then 1.0 else if n == 1 then 10.0 else if n == 2 then 100.0 else 1000.0
  }

  /** `k` is `x` rounded to the nearest integer, the even neighbour on a tie. */
  predicate IsHalfEvenRounding(k: int, x: real)
  {
    var d := k as real - x;
    -0.5 <= d <= 0.5 && (d == 0.5 || d == -0.5 ==> k % 2 == 0)
  }

  /** Every number has a half-to-even rounding: the floor or the next integer. */
  lemma HalfEvenRoundingExists(x: real)
    ensures exists k :: IsHalfEvenRounding(k, x)
  {
    var f := x.Floor;
    var d := x - f as real;
    if d < 0.5 || (d == 0.5 && f % 2 == 0) {
      assert IsHalfEvenRounding(f, x);
    } else {
      assert IsHalfEvenRounding(f + 1, x);
    }
  }

  /** Python 3 `round(x)`: nearest integer, ties to the even neighbour. */
  function RoundHalfEven(x: real): (r: int)
    ensures r as real - x <= 0.5 && x - r as real <= 0.5
  {
    HalfEvenRoundingExists(x);
    var k :| IsHalfEvenRounding(k, x);
    k
  }

  /** `round(x)` as a number (Python returns an `int`; it is used as a number). */
  function RoundInt(x: real): (r: real)
    ensures Abs(r - x) <= 0.5
    ensures r.Floor as real == r
  {
    RoundHalfEven(x) as real
  }

  /** Python 3 `round(x, n)`: the nearest multiple of 10^-n, ties to even. */
  function Round(x: real, n: Places): real
  {
    RoundHalfEven(x * Scale(n)) as real / Scale(n)
  }

  /** `round(x, n)` is within half a unit of the last kept place. */
  lemma RoundAccuracy(x: real, n: Places)
    ensures Abs(Round(x, n) - x) * 2.0 * Scale(n) <= 1.0
  {
    var sc := Scale(n);
    var k := RoundHalfEven(x * sc);
    assert Abs(k as real - x * sc) <= 0.5;
    assert (k as real / sc - x) * sc == k as real - x * sc;
  }

  lemma RoundAccuracy1(x: real)
    ensures Abs(Round(x, 1) - x) * 20.0 <= 1.0
  {
    RoundAccuracy(x, 1);
  }

  lemma RoundAccuracy2(x: real)
    ensures Abs(Round(x, 2) - x) * 200.0 <= 1.0
  {
    RoundAccuracy(x, 2);
  }

  /** On an exact tie the even neighbour is chosen. */
  lemma RoundHalfEvenTie(x: real)
    requires RoundHalfEven(x) as real - x == 0.5 || x - RoundHalfEven(x) as real == 0.5
    ensures RoundHalfEven(x) % 2 == 0
  {
  }

  lemma RoundHalfEvenOfInt(n: int)
    ensures RoundHalfEven(n as real) == n
  {
  }

  lemma RoundHalfEvenMonotone(x: real, y: real)
    requires x <= y
    ensures RoundHalfEven(x) <= RoundHalfEven(y)
  {
  }

  lemma RoundHalfEvenNegate(x: real)
    ensures RoundHalfEven(-x) == -RoundHalfEven(x)
  {
  }

  /** Multiplying by a non-negative factor keeps order. */
  lemma MulMonotone(k: real, a: real, b: real)
    requires k >= 0.0 && a <= b
    ensures k * a <= k * b
  {
    assert k * b - k * a == k * (b - a);
  }

  /** Scaling a non-negative amount by a fraction in [0, 1] keeps it between zero and itself. */
  lemma MulFractionBound(k: real, d: real)
    requires k >= 0.0 && 0.0 <= d <= 1.0
    ensures 0.0 <= k * d <= k
  {
    MulMonotone(k, d, 1.0);
    MulMonotone(k, 0.0, d);
  }

  /** Comparing a quotient by a positive divisor is comparing the dividend with the scaled bound. */
  lemma QuotientBound(x: real, y: real, c: real)
    requires y > 0.0
    ensures x / y <= c <==> x <= c * y
    ensures c < x / y <==> c * y < x
  {
    var q := x / y;
    assert q * y == x;
    assert (q - c) * y == x - c * y;
  }

  lemma RoundIntMonotone(x: real, y: real)
    requires x <= y
    ensures RoundInt(x) <= RoundInt(y)
  {
    RoundHalfEvenMonotone(x, y);
  }

  lemma RoundIntOfInt(n: int)
    ensures RoundInt(n as real) == n as real
  {
    RoundHalfEvenOfInt(n);
  }

  lemma RoundMonotone(x: real, y: real, n: Places)
    requires x <= y
    ensures Round(x, n) <= Round(y, n)
  {
    // one case per scale keeps the arithmetic linear
    if n == 0 {
      RoundHalfEvenMonotone(x, y);
    } else if n == 1 {
      RoundHalfEvenMonotone(x * 10.0, y * 10.0);
    } else if n == 2 {
      RoundHalfEvenMonotone(x * 100.0, y * 100.0);
    } else {
      RoundHalfEvenMonotone(x * 1000.0, y * 1000.0);
    }
  }

  /** A value that already has at most `n` decimals is left alone by `round(_, n)`. */
  lemma RoundExact(k: int, n: Places)
    ensures Round(k as real / Scale(n), n) == k as real / Scale(n)
  {
    var q := k as real / Scale(n);
    assert q * Scale(n) == k as real;
    RoundHalfEvenOfInt(k);
  }

  /** Python truthiness of an optional number: present and non-zero. */
  predicate Truthy(o: Option<real>)
  {
    o.Some? && o.value != 0.0
  }

  /** `float(x) if x else None`: a zero or missing number becomes `None`. */
  function IfTruthy(o: Option<real>): (r: Option<real>)
    ensures r.Some? <==> Truthy(o)
    ensures r.Some? ==> r == o
  {
    if Truthy(o) then o else None
  }

  /** Python `a or b` on optional numbers: `a` when truthy, else `b`. */
  function Or(a: Option<real>, b: Option<real>): (r: Option<real>)
    ensures Truthy(a) ==> r == a
    ensures !Truthy(a) ==> r == b
    ensures r.Some? ==> a.Some? || b.Some?
  {
    if Truthy(a) then a else b
  }

  /** Python `int(x)` on a number: truncation toward zero. */
  function Trunc(x: real): (r: int)
    ensures Abs(r as real) <= Abs(x)
    ensures Abs(x - r as real) < 1.0
    ensures x >= 0.0 ==> r >= 0
    ensures x <= 0.0 ==> r <= 0
  {
    if x >= 0.0 then x.Floor else -((-x).Floor)
  }
}
