/**
 * The decision rule of the two oldest revisions, which hard-code the
 * tunables: target pressure 10 000, back-off coefficient 20 capped at 1,
 * tighten coefficient 10 capped at 0.01. Both ratios are integer divisions
 * taken before squaring, so each factor takes one of two values only.
 * Also the decision part of their `Adjust`: the new memory is the limit
 * scaled by `1 + factor` and truncated, and a 200 answer resets the
 * integral.
 */
module LegacyRule {
  import opened Wrappers
  import opened MachineInt
  import opened Api

  const TargetPressure: int := 10 * 1000
  const CoeffBackOff: int := 20
  const MaxBackOff: real := 1.0
  const CoeffProbe: int := 10
  const MaxProbe: real := 0.01

  /**
   * The back-off factor above the target. The operands of both divisions
   * are positive here, so Go's truncating `/` and Dafny's agree.
   */
  function BackOffFactor(integral: i64): (r: real)
    requires integral > TargetPressure
    ensures 0.0 <= r <= MaxBackOff
  {
    var diff := integral / TargetPressure;
    MinReal(Square((diff / CoeffBackOff) as real) * MaxBackOff, MaxBackOff)
  }

  /** The tighten factor, negative or zero; `max(Integral, 1)` keeps a negative integral from dividing. */
  function TightenFactor(integral: i64): (r: real)
    ensures -MaxProbe <= r <= 0.0
  {
    var diff := TargetPressure / MaxInt(integral, 1);
    -MinReal(Square((diff / CoeffProbe) as real) * MaxProbe, MaxProbe)
  }

  /**
   * `delta := total - PrevTotal; Integral += delta` in int64: the integral
   * moves by the change of the cumulative total, modulo 2^64, and can
   * become negative when the total falls.
   */
  function AddDelta(integral: i64, prevTotal: i64, total: i64): (r: i64)
    ensures r == WrapI64(integral + total - prevTotal)
    ensures -TwoTo63 <= integral + total - prevTotal < TwoTo63 ==> r == integral + total - prevTotal
  {
    var delta := total - prevTotal;
    WrapI64AddRight(integral, delta);
    assert integral + delta == integral + total - prevTotal;
    WrapI64(integral + WrapI64(delta))
  }

  /** A whole number squared is at least 1 exactly when it is at least 1. */
  lemma SquareOfNat(k: nat)
    ensures k >= 1 ==> Square(k as real) >= 1.0
    ensures k == 0 ==> Square(k as real) == 0.0
  {
    if k >= 1 {
      assert (k as real) * (k as real) >= 1.0 * (k as real);
    }
  }

  /** The back-off factor is exactly 1 from an integral of 200 000 on, and exactly 0 below it. */
  lemma BackOffIsStep(integral: i64)
    requires integral > TargetPressure
    ensures BackOffFactor(integral) == if integral >= 200_000 then 1.0 else 0.0
  {
    var diff := integral / TargetPressure;
    var k := diff / CoeffBackOff;
    assert k >= 1 <==> integral >= 200_000 by {
      assert diff >= 20 <==> integral >= 200_000;
    }
    SquareOfNat(k);
  }

  /** Multiplying by a natural keeps the order. */
  lemma MulMonotone(a: nat, b: nat, m: nat)
    requires a <= b
    ensures a * m <= b * m
  {
    assert b * m == a * m + (b - a) * m;
  }

  /** A quotient of naturals reaches `q` exactly when `q` copies of the divisor fit in the dividend. */
  lemma QuotientAtLeast(n: nat, m: nat, q: nat)
    requires m > 0
    ensures n / m >= q <==> q * m <= n
  {
    var d := n / m;
    assert n == d * m + n % m && n % m < m;
    if d >= q {
      MulMonotone(q, d, m);
    } else {
      MulMonotone(d + 1, q, m);
      assert (d + 1) * m == d * m + m;
    }
  }

  /** The tighten factor is exactly -0.01 while `max(Integral, 1)` is at most 1 000, and 0 above. */
  lemma TightenIsStep(integral: i64)
    ensures TightenFactor(integral) == if MaxInt(integral, 1) <= 1000 then -MaxProbe else 0.0
  {
    var m := MaxInt(integral, 1);
    var diff := TargetPressure / m;
    QuotientAtLeast(TargetPressure, m, 10);
    var k := diff / CoeffProbe;
    assert k >= 1 <==> m <= 1000;
    SquareOfNat(k);
  }

  /** The outcome of one decision: the factor to adjust by, if any, and the next grace countdown. */
  datatype Step = Step(factor: Option<real>, graceTicks: i64)

  /**
   * Back off above the target, otherwise count the grace ticks down, and
   * tighten once they are exhausted; an adjusting step restarts the
   * countdown at `Interval - 1`.
   */
  function Decide(integral: i64, graceTicks: i64, interval: i64): (r: Step)
    ensures r.factor.Some? <==> integral > TargetPressure || graceTicks <= 0
    ensures r.factor.Some? ==> r.graceTicks == WrapI64(interval - 1)
    ensures r.factor.None? ==> r.graceTicks == graceTicks - 1
    ensures integral > TargetPressure ==>
      r.factor == Some(if integral >= 200_000 then 1.0 else 0.0)
    ensures integral <= TargetPressure && graceTicks <= 0 ==>
      r.factor == Some(if MaxInt(integral, 1) <= 1000 then -MaxProbe else 0.0)
  {
    if integral > TargetPressure then
      BackOffIsStep(integral);
      Step(Some(BackOffFactor(integral)), WrapI64(interval - 1))
    else if graceTicks > 0 then
      Step(None, graceTicks - 1)
    else
      TightenIsStep(integral);
      Step(Some(TightenFactor(integral)), WrapI64(interval - 1))
  }

  /** `int(float64(Limit) * (1 + factor))`, reduced modulo 2^64 when out of range. */
  function NewMemory(limit: i64, factor: real): (r: i64)
    ensures -TwoTo63 <= Trunc(limit as real * (1.0 + factor)) < TwoTo63 ==>
      r == Trunc(limit as real * (1.0 + factor))
    ensures factor == 0.0 ==> r == limit
  {
    WrapI64(Trunc(limit as real * (1.0 + factor)))
  }

  datatype Patch = Patched(memory: i64) | Failed

  /** The PATCH is sent for every factor, 0 included; only a 200 counts as done. */
  function Adjust(limit: i64, factor: real, resp: Response): (r: Patch)
    ensures r.Patched? <==> resp == Status(StatusOK)
    ensures r.Patched? ==> r.memory == NewMemory(limit, factor)
  {
    if resp == Status(StatusOK) then Patched(NewMemory(limit, factor)) else Failed
  }

  /** The integral after `Adjust`: 0 after a successful patch, otherwise as it was. */
  function IntegralAfter(integral: i64, p: Patch): (r: i64)
    ensures r == 0 || r == integral
    ensures p.Failed? ==> r == integral
    ensures p.Patched? ==> r == 0
  {
    if p.Patched? then 0 else integral
  }
}
