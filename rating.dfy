/** The rating formula: 80 * speed, halved for a used ship, divided by the
    number of years from the production year to 3019 inclusive, rounded to
    two decimal places with ties away from zero.  A ship service whose `rate`
    collaborator is this formula is `FormulaRated`. */
module Ratings {

  /** Rounds a nonnegative value to hundredths, a tie going up (HALF_UP). */
  function RoundToCents(x: real): (r: real)
    requires x >= 0.0
    ensures r >= 0.0
    ensures (r * 100.0).Floor as real == r * 100.0
    ensures x - 0.005 < r <= x + 0.005
  {
    (x * 100.0 + 0.5).Floor as real / 100.0
  }

  /** Rounding to cents never reverses an order. */
  lemma RoundToCentsMonotone(x: real, y: real)
    requires 0.0 <= x <= y
    ensures RoundToCents(x) <= RoundToCents(y)
  {
    var a, b := (x * 100.0 + 0.5).Floor, (y * 100.0 + 0.5).Floor;
    assert a as real <= x * 100.0 + 0.5 <= y * 100.0 + 0.5 < b as real + 1.0;
    assert a <= b;
  }

  /** The unrounded rating. */
  function Exact(speed: real, used: bool, year: int): real
    requires year < 3020
  {
    80.0 * speed * (if used then 0.5 else 1.0) / (3019 - year + 1) as real
  }

  /** The rating of a ship of the given speed, usage and production year; the
      year lies below 3020, since the divisor is then at least one. */
  function Rating(speed: real, used: bool, year: int): (r: real)
    requires speed >= 0.0 && year < 3020
    ensures Exact(speed, used, year) - 0.005 < r <= Exact(speed, used, year) + 0.005
    ensures (r * 100.0).Floor as real == r * 100.0
  {
    DividedStaysNonnegative(80.0 * speed * (if used then 0.5 else 1.0), (3019 - year + 1) as real);
    RoundToCents(Exact(speed, used, year))
  }

  lemma DividedStaysNonnegative(x: real, d: real)
    requires x >= 0.0 && d >= 1.0
    ensures 0.0 <= x / d <= x
  {
  }

  /** The worked example: speed 0.5, new, built in 2800 gives 40/220 = 0.1818...,
      which rounds to 0.18. */
  lemma RatingOfExample()
    ensures Rating(0.5, false, 2800) == 0.18
  {
    assert Exact(0.5, false, 2800) == 40.0 / 220.0;
    assert (40.0 / 220.0 * 100.0 + 0.5).Floor == 18;
  }

  /** For a speed the create check accepts, the rating lies in 0 .. 79.2. */
  lemma RatingBounds(speed: real, used: bool, year: int)
    requires 0.01 <= speed <= 0.99 && year < 3020
    ensures 0.0 <= Rating(speed, used, year) <= 79.2
  {
    var top := 80.0 * speed * (if used then 0.5 else 1.0);
    DividedStaysNonnegative(top, (3019 - year + 1) as real);
    assert top <= 79.2;
    RoundToCentsMonotone(Exact(speed, used, year), 79.2);
    assert (79.2 * 100.0 + 0.5).Floor == 7920;
  }

  /** A faster ship is never rated lower. */
  lemma RatingGrowsWithSpeed(slower: real, faster: real, used: bool, year: int)
    requires 0.0 <= slower <= faster && year < 3020
    ensures Rating(slower, used, year) <= Rating(faster, used, year)
  {
    var k := if used then 0.5 else 1.0;
    var d := (3019 - year + 1) as real;
    assert 80.0 * slower * k <= 80.0 * faster * k;
    QuotientMonotone(80.0 * slower * k, 80.0 * faster * k, d, d);
    DividedStaysNonnegative(80.0 * slower * k, d);
    RoundToCentsMonotone(Exact(slower, used, year), Exact(faster, used, year));
  }

  /** A newer ship is never rated lower. */
  lemma RatingGrowsWithYear(speed: real, used: bool, older: int, newer: int)
    requires speed >= 0.0 && older <= newer < 3020
    ensures Rating(speed, used, older) <= Rating(speed, used, newer)
  {
    var top := 80.0 * speed * (if used then 0.5 else 1.0);
    QuotientMonotone(top, top, (3019 - newer + 1) as real, (3019 - older + 1) as real);
    DividedStaysNonnegative(top, (3019 - older + 1) as real);
    RoundToCentsMonotone(Exact(speed, used, older), Exact(speed, used, newer));
  }

  /** A used ship is never rated above an otherwise equal new one; before
      rounding its rating is exactly half. */
  lemma UsedRatesNoHigher(speed: real, year: int)
    requires speed >= 0.0 && year < 3020
    ensures Exact(speed, true, year) * 2.0 == Exact(speed, false, year)
    ensures Rating(speed, true, year) <= Rating(speed, false, year)
  {
    var d := (3019 - year + 1) as real;
    var top := 80.0 * speed;
    assert Exact(speed, true, year) == (top * 0.5) / d;
    assert Exact(speed, false, year) == top / d;
    HalfQuotient(top, d);
    QuotientMonotone(top * 0.5, top, d, d);
    DividedStaysNonnegative(top * 0.5, d);
    RoundToCentsMonotone(Exact(speed, true, year), Exact(speed, false, year));
  }

  lemma HalfQuotient(x: real, d: real)
    requires d >= 1.0
    ensures (x * 0.5) / d * 2.0 == x / d
  {
    assert (x * 0.5) / d * d == x * 0.5;
    assert x / d * d == x;
  }

  lemma QuotientMonotone(x: real, y: real, c: real, d: real)
    requires 0.0 <= x <= y && 1.0 <= c <= d
    ensures x / d <= y / c
  {
    assert x / d <= x / c by {
      assert x / d * d == x == x / c * c;
    }
    assert x / c <= y / c;
  }
}
