/** The rate controller of module-loopback.c, over the reals: by how much the
    sink input's rate departs from the base rate to correct a latency difference. */
module LoopbackRate {

  function Abs(d: int): nat {
    if d < 0 then -d else d
  }

  /** rate_controller, over the reals. */
  function RateController(base: nat, adjustTime: nat, difference: int): int
    requires adjustTime > 0
  {
    var minCycles := Abs(difference) as real / adjustTime as real / 0.01 + 1.0;
    (base as real * (1.0 + difference as real / minCycles / adjustTime as real)).Floor
  }

  /** The relative deviation from the base rate. */
  function Deviation(adjustTime: nat, difference: int): real
    requires adjustTime > 0
  {
    difference as real / (100.0 * Abs(difference) as real + adjustTime as real)
  }

  lemma Quotients(d: real, a: real, t: real)
    requires t > 0.0 && a >= 0.0
    ensures a / t / 0.01 + 1.0 > 0.0 && 100.0 * a + t > 0.0
    ensures d / (a / t / 0.01 + 1.0) / t == d / (100.0 * a + t)
  {
  }

  lemma RateIs(base: nat, adjustTime: nat, difference: int) returns (x: real)
    requires adjustTime > 0
    ensures x == Deviation(adjustTime, difference) && -0.01 < x < 0.01
    ensures (difference >= 0 ==> x >= 0.0) && (difference <= 0 ==> x <= 0.0)
    ensures RateController(base, adjustTime, difference) == (base as real * (1.0 + x)).Floor
  {
    x := Deviation(adjustTime, difference);
    DeviationBounded(adjustTime, difference);
    Quotients(difference as real, Abs(difference) as real, adjustTime as real);
  }

  /** The deviation stays strictly within one percent and has the sign of the difference. */
  lemma DeviationBounded(adjustTime: nat, difference: int)
    requires adjustTime > 0
    ensures -0.01 < Deviation(adjustTime, difference) < 0.01
    ensures difference >= 0 ==> Deviation(adjustTime, difference) >= 0.0
    ensures difference <= 0 ==> Deviation(adjustTime, difference) <= 0.0
  {
  }

  lemma DeviationGrows(adjustTime: nat, a: int, b: int)
    requires adjustTime > 0 && a <= b
    ensures Deviation(adjustTime, a) <= Deviation(adjustTime, b)
  {
    DeviationBounded(adjustTime, a);
    DeviationBounded(adjustTime, b);
    if 0 <= a || b <= 0 {
      var t := adjustTime as real;
      var p, q := 100.0 * Abs(a) as real + t, 100.0 * Abs(b) as real + t;
      CrossMultiplied(a as real, p, b as real, q, t);
    }
  }

  lemma CrossMultiplied(a: real, p: real, b: real, q: real, t: real)
    requires t > 0.0 && a <= b
    requires || (a >= 0.0 && p == 100.0 * a + t && q == 100.0 * b + t)
             || (b <= 0.0 && p == t - 100.0 * a && q == t - 100.0 * b)
    ensures p > 0.0 && q > 0.0 && a / p <= b / q
  {
    var x, y := a / p, b / q;
    assert x * p == a && y * q == b;
    assert a * q - b * p == (a - b) * t;
    assert (a - b) * t <= 0.0;
    assert x * p * q <= y * q * p;
    assert (x - y) * (p * q) <= 0.0;
    assert p * q > 0.0;
  }

  /** Strictly within one percent, but for rounding down. */
  predicate Within(base: nat, rate: int) {
    0.99 * base as real - 1.0 < rate as real < 1.01 * base as real
  }

  /** The rate stays strictly within one percent of the base rate (up to the
      rounding), is the base rate when there is nothing to correct, and moves to
      the right side of it, the further the larger the difference. */
  lemma RateBounded(base: nat, adjustTime: nat, difference: int)
    requires adjustTime > 0 && base > 0
    ensures Within(base, RateController(base, adjustTime, difference))
    ensures difference >= 0 ==> RateController(base, adjustTime, difference) >= base
    ensures difference <= 0 ==> RateController(base, adjustTime, difference) <= base
  {
    var x := RateIs(base, adjustTime, difference);
    FloorWithin(base, x);
  }

  lemma FloorWithin(base: nat, x: real)
    requires base > 0 && -0.01 < x < 0.01
    ensures Within(base, (base as real * (1.0 + x)).Floor)
    ensures x >= 0.0 ==> (base as real * (1.0 + x)).Floor >= base
    ensures x <= 0.0 ==> (base as real * (1.0 + x)).Floor <= base
  {
    var v := Product(base as real, x);
    Rounded(base, v, base as real * (1.0 + x));
  }

  lemma Product(b: real, x: real) returns (v: real)
    requires b > 0.0 && -0.01 < x < 0.01
    ensures b * (1.0 + x) == b + v
    ensures -(b / 100.0) < v < b / 100.0
    ensures (x >= 0.0 ==> v >= 0.0) && (x <= 0.0 ==> v <= 0.0)
  {
    v := b * x;
    Above(b, x, v);
    Below(b, x, v);
    Expanded(b, x, v);
  }

  lemma Above(b: real, x: real, v: real)
    requires b > 0.0 && -0.01 < x && v == b * x
    ensures -(b / 100.0) < v
  {
  }

  lemma Below(b: real, x: real, v: real)
    requires b > 0.0 && x < 0.01 && v == b * x
    ensures v < b / 100.0
  {
  }

  lemma Expanded(b: real, x: real, v: real)
    requires b > 0.0 && v == b * x
    ensures b * (1.0 + x) == b + v
    ensures (x >= 0.0 ==> v >= 0.0) && (x <= 0.0 ==> v <= 0.0)
  {
  }

  lemma Rounded(base: nat, v: real, w: real)
    requires -(base as real / 100.0) < v < base as real / 100.0 && w == base as real + v
    ensures Within(base, w.Floor)
    ensures (v >= 0.0 ==> w.Floor >= base) && (v <= 0.0 ==> w.Floor <= base)
  {
  }

  lemma RateMonotone(base: nat, adjustTime: nat, a: int, b: int)
    requires adjustTime > 0 && a <= b
    ensures RateController(base, adjustTime, a) <= RateController(base, adjustTime, b)
  {
    var x, y := Deviations(base, adjustTime, a, b);
    FloorGrows(base as real, x, y);
  }

  lemma Deviations(base: nat, adjustTime: nat, a: int, b: int) returns (x: real, y: real)
    requires adjustTime > 0 && a <= b
    ensures x <= y
    ensures RateController(base, adjustTime, a) == (base as real * (1.0 + x)).Floor
    ensures RateController(base, adjustTime, b) == (base as real * (1.0 + y)).Floor
  {
    x := RateIs(base, adjustTime, a);
    y := RateIs(base, adjustTime, b);
    DeviationGrows(adjustTime, a, b);
  }

  lemma FloorGrows(b: real, x: real, y: real)
    requires b >= 0.0 && x <= y
    ensures (b * (1.0 + x)).Floor <= (b * (1.0 + y)).Floor
  {
  }
}
