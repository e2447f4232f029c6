/** The two roundings the source uses, on exact numbers.

    `Decimal.quantize(..., ROUND_HALF_UP)` rounds ties away from zero; Python's
    `round(x, n)` rounds ties to the even neighbour. */
module Rounding {

  function Abs(x: real): (r: real)
    ensures r >= 0.0 && (r == x || r == -x)
  {
    if x < 0.0 then -x else x
  }

  /** ROUND_HALF_UP of a non-negative amount counted in units. */
  function HalfUpUnits(x: real): (n: int)
    requires x >= 0.0
    ensures n >= 0
    ensures -0.5 < n as real - x <= 0.5
  {
    (x + 0.5).Floor
  }

  /** `quantize(Decimal("0.01"), rounding=ROUND_HALF_UP)`. */
  function RoundHalfUp2(x: real): (r: real)
    ensures Abs(r - x) <= 0.005
    ensures x >= 0.0 ==> r >= 0.0
    ensures x <= 0.0 ==> r <= 0.0
  {
    if x >= 0.0 then HalfUpUnits(x * 100.0) as real / 100.0
    else -(HalfUpUnits(-x * 100.0) as real / 100.0)
  }

  lemma HalfUpUnitsMonotone(x: real, y: real)
    requires 0.0 <= x <= y
    ensures HalfUpUnits(x) <= HalfUpUnits(y)
  {
  }

  /** Rounding never reverses the order of two prices. */
  lemma RoundHalfUp2Monotone(x: real, y: real)
    requires x <= y
    ensures RoundHalfUp2(x) <= RoundHalfUp2(y)
  {
    if 0.0 <= x {
      HalfUpUnitsMonotone(x * 100.0, y * 100.0);
    } else if y < 0.0 {
      HalfUpUnitsMonotone(-y * 100.0, -x * 100.0);
    }
  }

  lemma WholeCents(n: int)
    ensures (n as real / 100.0 * 100.0).Floor == n
    ensures n as real / 100.0 * 100.0 == n as real
  {
  }

  /** The rounded price is a whole number of cents within half a cent, and a tie goes away from zero. */
  lemma HalfUpIsTheNearestCent(x: real)
    ensures var r := RoundHalfUp2(x);
      && (r * 100.0).Floor as real == r * 100.0
      && -0.005 < Abs(r) - Abs(x) <= 0.005
  {
    if x >= 0.0 {
      WholeCents(HalfUpUnits(x * 100.0));
    } else {
      WholeCents(-HalfUpUnits(-x * 100.0));
    }
  }

  /** Ties to even, counted in units. */
  function HalfEvenUnits(x: real): (n: int)
    ensures Abs(n as real - x) <= 0.5
  {
    var f := x.Floor;
    var d := x - f as real;
    if d < 0.5 || (d == 0.5 && f % 2 == 0) then f else f + 1
  }

  /** Python's `round(x, 2)`. */
  function Round2(x: real): (r: real)
    ensures Abs(r - x) <= 0.005
  {
    HalfEvenUnits(x * 100.0) as real / 100.0
  }

  /** Python's `round(x, 4)`. */
  function Round4(x: real): (r: real)
    ensures Abs(r - x) <= 0.00005
  {
    HalfEvenUnits(x * 10000.0) as real / 10000.0
  }

  /** The nearest whole number; of two equally near ones, the even. */
  lemma HalfEvenIsTheNearest(x: real)
    ensures var n := HalfEvenUnits(x);
      Abs(n as real - x) <= 0.5 && (Abs(n as real - x) == 0.5 ==> n % 2 == 0)
  {
  }

  /** Two decimals and four: the nearest multiple, the even one of two. */
  lemma RoundedIsTheNearest(x: real)
    ensures Round2(x) * 100.0 == HalfEvenUnits(x * 100.0) as real
    ensures Round4(x) * 10000.0 == HalfEvenUnits(x * 10000.0) as real
  {
  }

  /** A two-cent band tested after `round(x, 2)` is exactly a 2.5-cent band on x. */
  lemma Round2Band(x: real)
    requires x >= 0.0
    ensures Round2(x) > 0.02 <==> x > 0.025
  {
    var n := HalfEvenUnits(x * 100.0);
    assert Round2(x) > 0.02 <==> n > 2;
  }
}
