/** Fixed-precision arithmetic.  Every stored decimal has eight places, so it is an integer
    count of 1e-8 units and the comparison epsilon is exactly one unit.  Products and quotients
    are exact rationals n/d until they are quantized. */
module Fixed {

  const SCALE: int := 100_000_000
  const EPSILON: int := 1

  /** Display quanta, in units: cents for money; percentages are kept in hundredths. */
  const CENT: int := 1_000_000

  /** n/d rounded to the nearest integer, ties away from zero (ROUND_HALF_UP). */
  function RoundDiv(n: int, d: int): (r: int)
    requires d > 0
  {
    if n >= 0 then (2 * n + d) / (2 * d) else -((d - 2 * n) / (2 * d))
  }

  /** What "nearest, ties away from zero" means, without saying how it is computed. */
  predicate IsNearest(n: int, d: int, r: int) {
    && -d <= 2 * (n - r * d) <= d
    && (n >= 0 ==> 2 * (n - r * d) < d)
    && (n < 0 ==> -d < 2 * (n - r * d))
  }

  lemma DivBounds(x: int, y: int)
    requires y > 0
    ensures (x / y) * y <= x < (x / y) * y + y
  {
  }

  lemma RoundDivIsNearest(n: int, d: int)
    requires d > 0
    ensures IsNearest(n, d, RoundDiv(n, d))
  {
    var r := RoundDiv(n, d);
    if n >= 0 {
      DivBounds(2 * n + d, 2 * d);
      assert r * (2 * d) == 2 * (r * d);
    } else {
      DivBounds(d - 2 * n, 2 * d);
      assert (-r) * (2 * d) == -2 * (r * d);
    }
  }

  lemma DifferenceOfMultiples(a: int, b: int, d: int)
    ensures (a - b) * d == a * d - b * d
  {
  }

  lemma PositiveMultiple(k: int, d: int)
    requires k >= 1 && d > 0
    ensures k * d >= d
  {
  }

  lemma MulMonotone(a: int, b: int, k: int)
    requires a <= b && 0 <= k
    ensures a * k <= b * k
  {
    if k > 0 && a < b { PositiveMultiple(b - a, k); }
    DifferenceOfMultiples(b, a, k);
  }

  /** Multiples of d closer than d to each other are equal. */
  lemma MultipleGap(a: int, b: int, d: int)
    requires d > 0
    requires -d < a * d - b * d < d
    ensures a == b
  {
    DifferenceOfMultiples(a, b, d);
    DifferenceOfMultiples(b, a, d);
    if a > b {
      PositiveMultiple(a - b, d);
    } else if a < b {
      PositiveMultiple(b - a, d);
    }
  }

  /** Quantizing has exactly one admissible result, and RoundDiv is it. */
  lemma NearestIsUnique(n: int, d: int, r: int)
    requires d > 0
    ensures IsNearest(n, d, r) <==> r == RoundDiv(n, d)
  {
    RoundDivIsNearest(n, d);
    if IsNearest(n, d, r) {
      MultipleGap(r, RoundDiv(n, d), d);
    }
  }

  /** A rational between two integers stays between them when it is quantized. */
  lemma RoundDivBetween(n: int, d: int, lo: int, hi: int)
    requires d > 0
    requires lo * d <= n <= hi * d
    ensures lo <= RoundDiv(n, d) <= hi
  {
    RoundDivIsNearest(n, d);
    var r := RoundDiv(n, d);
    DifferenceOfMultiples(lo, r, d);
    DifferenceOfMultiples(r, hi, d);
    if r < lo {
      PositiveMultiple(lo - r, d);
    } else if r > hi {
      PositiveMultiple(r - hi, d);
    }
  }

  lemma RoundDivExact(k: int, d: int)
    requires d > 0
    ensures RoundDiv(k * d, d) == k
  {
    RoundDivBetween(k * d, d, k, k);
  }

  lemma RoundDivByOne(n: int)
    ensures RoundDiv(n, 1) == n
  {
    RoundDivExact(n, 1);
  }

  /** Money and percentages are shown with two places. */
  function Display(units: int): int { RoundDiv(units, CENT) * CENT }

  function Abs(x: int): int { if x < 0 then -x else x }

  function Max(x: int, y: int): int { if x < y then y else x }
}
