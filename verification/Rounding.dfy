/** Rounding of non-negative amounts to whole units of the last currency digit, in four modes. */
module Rounding {
  import opened Decimals

  datatype Mode = HalfUp | HalfEven | Down | Up

  lemma {:induction false} PowerPositive(scale: nat)
    ensures Power10(scale) >= 1
  {
    if scale > 0 {
      PowerPositive(scale - 1);
    }
  }

  /** The number of units nearest to `x` in this mode. */
  function Round(x: real, mode: Mode): int {
    var below := x.Floor;
    var rest := x - below as real;
    match mode
    case Down => below
    case Up => if rest > 0.0 then below + 1 else below
    case HalfUp => if rest >= 0.5 then below + 1 else below
    case HalfEven =>
      if rest > 0.5 then below + 1
      else if rest < 0.5 then below
      else if below % 2 == 0 then below
      else below + 1
  }

  function Times(a: real, b: real): real {
    a * b
  }

  /** An exact amount in units of the last digit, before rounding. */
  function InUnits(amount: real, scale: nat): real {
    amount * Power10(scale) as real
  }

  function Money(amount: real, scale: nat, mode: Mode): int {
    Round(InUnits(amount, scale), mode)
  }

  function Amount(units: int, scale: nat): real {
    PowerPositive(scale);
    units as real / Power10(scale) as real
  }

  /** No mode moves an amount by a whole unit, and the two halves move it by half a unit at most. */
  lemma RoundIsClose(x: real, mode: Mode)
    ensures -1.0 < Round(x, mode) as real - x < 1.0
    ensures mode.HalfUp? || mode.HalfEven? ==> -0.5 <= Round(x, mode) as real - x <= 0.5
    ensures mode.Down? ==> Round(x, mode) as real <= x
    ensures mode.Up? ==> x <= Round(x, mode) as real
  {
    assert x.Floor as real <= x < x.Floor as real + 1.0;
  }

  /** `n` is the one whole number that `x` is rounded to in this mode. */
  predicate Nearest(x: real, n: int, mode: Mode) {
    match mode
    case Down => n as real <= x < n as real + 1.0
    case Up => n as real - 1.0 < x <= n as real
    case HalfUp => n as real - 0.5 <= x < n as real + 0.5
    case HalfEven =>
      && n as real - 0.5 <= x <= n as real + 0.5
      && (x == n as real - 0.5 || x == n as real + 0.5 ==> n % 2 == 0)
  }

  lemma NearestIsOne(x: real, m: int, n: int, mode: Mode)
    requires Nearest(x, m, mode) && Nearest(x, n, mode)
    ensures m == n
  {
  }

  lemma RoundIsNearest(x: real, mode: Mode)
    ensures Nearest(x, Round(x, mode), mode)
  {
    assert x.Floor as real <= x < x.Floor as real + 1.0;
  }

  lemma MoneyIsNearest(amount: real, scale: nat, mode: Mode)
    ensures Nearest(amount * Power10(scale) as real, Money(amount, scale, mode), mode)
  {
    RoundIsNearest(InUnits(amount, scale), mode);
  }

  lemma RoundIsMonotone(x: real, y: real, mode: Mode)
    requires x <= y
    ensures Round(x, mode) <= Round(y, mode)
  {
    if x.Floor < y.Floor {
      assert Round(x, mode) <= x.Floor + 1 <= y.Floor <= Round(y, mode);
    } else {
      assert x.Floor == y.Floor;
    }
  }

  lemma RoundKeepsWhole(n: int, mode: Mode)
    ensures Round(n as real, mode) == n
  {
    assert (n as real).Floor == n;
  }

  lemma AmountInUnits(units: int, scale: nat)
    ensures InUnits(Amount(units, scale), scale) == units as real
  {
    PowerPositive(scale);
    TimesThenOver(units as real, Power10(scale) as real);
  }

  lemma TimesThenOver(a: real, c: real)
    requires c > 0.0
    ensures a / c * c == a
  {
  }

  /** Rounding an amount that is rounded to this scale already changes nothing. */
  lemma MoneyKeepsUnits(units: int, scale: nat, mode: Mode)
    ensures Money(Amount(units, scale), scale, mode) == units
  {
    AmountInUnits(units, scale);
    RoundKeepsWhole(units, mode);
  }

  lemma MoneyIsMonotone(a: real, b: real, scale: nat, mode: Mode)
    requires a <= b
    ensures Money(a, scale, mode) <= Money(b, scale, mode)
  {
    PowerPositive(scale);
    Scaled(a, b, Power10(scale) as real);
    RoundIsMonotone(InUnits(a, scale), InUnits(b, scale), mode);
  }

  lemma Scaled(a: real, b: real, c: real)
    requires a <= b && c >= 0.0
    ensures a * c <= b * c
  {
    assert (b - a) * c >= 0.0;
  }

  lemma MoneyNotNegative(a: real, scale: nat, mode: Mode)
    requires a >= 0.0
    ensures Money(a, scale, mode) >= 0
  {
    MoneyIsMonotone(0.0, a, scale, mode);
    RoundKeepsWhole(0, mode);
  }

  lemma AmountIsMonotone(m: int, n: int, scale: nat)
    requires m <= n
    ensures Amount(m, scale) <= Amount(n, scale)
  {
    PowerPositive(scale);
    Divided(m as real, n as real, Power10(scale) as real);
  }

  lemma Divided(a: real, b: real, c: real)
    requires a <= b && c > 0.0
    ensures a / c <= b / c
  {
    assert b / c - a / c == (b - a) / c;
  }
}
