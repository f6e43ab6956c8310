/** Rounding to hundredths, on exact numbers: `round(x, 2)` takes ties to the even neighbour (section 4.3.1
    of IEEE 754-2019), a NUMERIC(5, 2) column takes ties away from zero. */
module Rounding {

  function HalfEven(x: real): int {
    var below := x.Floor;
    var fraction := x - below as real;
    if fraction < 0.5 then below
    else if fraction > 0.5 then below + 1
    else if below % 2 == 0 then below
    else below + 1
  }

  function Round2(x: real): real { HalfEven(x * 100.0) as real / 100.0 }

  function HalfAway(x: real): int { if x >= 0.0 then (x + 0.5).Floor else -((0.5 - x).Floor) }

  /** The value a NUMERIC(5, 2) column holds after `x` is stored in it. */
  function Column(x: real): real { HalfAway(x * 100.0) as real / 100.0 }

  predicate FitsColumn(x: real) { -1000.0 < Column(x) < 1000.0 }

  predicate IsHundredths(x: real) { (x * 100.0).Floor as real == x * 100.0 }

  // --- What rounding keeps ----------------------------------------------------

  lemma {:induction false} NearestHundredth(x: real)
    ensures -0.005 <= Round2(x) - x <= 0.005
    ensures -0.005 <= Column(x) - x <= 0.005
    ensures IsHundredths(Round2(x)) && IsHundredths(Column(x))
  {
    var n := HalfEven(x * 100.0);
    assert Round2(x) * 100.0 == n as real;
    assert (n as real).Floor == n;
    var m := HalfAway(x * 100.0);
    assert Column(x) * 100.0 == m as real;
    assert (m as real).Floor == m;
  }

  /** `round(x, 2)` is the nearest hundredth, and of two equally near ones the even one. */
  lemma {:induction false} TiesToEven(x: real) returns (n: int)
    ensures Round2(x) == n as real / 100.0
    ensures n as real - 0.5 <= x * 100.0 <= n as real + 0.5
    ensures x * 100.0 == n as real - 0.5 || x * 100.0 == n as real + 0.5 ==> n % 2 == 0
  {
    n := HalfEven(x * 100.0);
  }

  /** A column holds the nearest hundredth, and of two equally near ones the one further from zero. */
  lemma {:induction false} TiesAwayFromZero(x: real) returns (n: int)
    ensures Column(x) == n as real / 100.0
    ensures x >= 0.0 ==> n as real - 0.5 <= x * 100.0 < n as real + 0.5
    ensures x < 0.0 ==> n as real - 0.5 < x * 100.0 <= n as real + 0.5
  {
    n := HalfAway(x * 100.0);
  }

  /** The scores a column takes are those that do not round up to a fourth digit. */
  lemma {:induction false} FitsExactlyWhen(x: real)
    ensures FitsColumn(x) <==> -999.995 < x < 999.995
  {
    var n := TiesAwayFromZero(x);
  }

  lemma {:induction false} HalfEvenMonotone(x: real, y: real)
    requires x <= y
    ensures HalfEven(x) <= HalfEven(y)
  {
    assert x.Floor <= y.Floor;
  }

  lemma {:induction false} Round2Monotone(x: real, y: real)
    requires x <= y
    ensures Round2(x) <= Round2(y)
  {
    HalfEvenMonotone(x * 100.0, y * 100.0);
  }

  lemma {:induction false} Round2Exact(x: real)
    requires IsHundredths(x)
    ensures Round2(x) == x && Column(x) == x
  {
    var n := (x * 100.0).Floor;
    assert x * 100.0 == n as real;
    assert (n as real + 0.5).Floor == n;
    assert (0.5 - n as real).Floor == -n;
  }

  /** Rounding never leaves an interval whose ends are whole hundredths. */
  lemma {:induction false} Round2Within(low: real, x: real, high: real)
    requires IsHundredths(low) && IsHundredths(high) && low <= x <= high
    ensures low <= Round2(x) <= high
  {
    Round2Monotone(low, x);
    Round2Monotone(x, high);
    Round2Exact(low);
    Round2Exact(high);
  }
}
