/**
 * The decision step of the current revision: from the stats of one
 * container, a signed memory factor (back off under pressure, wait out the
 * grace ticks, then tighten) and a signed CPU factor (follow the average
 * use), then the clamped new limits and the patch outcome.
 */
module Kondense {
  import opened MachineInt
  import opened Stats
  import opened Api

  /** Factors of smaller magnitude than this on both resources leave the container alone. */
  const Threshold: real := 0.01

  /** A memory factor together with the memory state after the decision. */
  datatype Decision = Decision(factor: real, mem: Memory)

  /** The back-off magnitude: the squared pressure ratio over the constant coefficient, capped at `MaxInc`. */
  function BackOff(m: Memory): real {
    var diff := m.integral / MaxInt(1, m.targetPressure);
    MinReal(Square(diff as real / DefaultMemCoeffInc) * m.maxInc, m.maxInc)
  }

  /** The tighten magnitude: the squared inverse ratio over `CoeffDec`, capped at `MaxDec`. */
  function Tighten(m: Memory): real
    requires m.coeffDec != 0.0
  {
    var diff := m.targetPressure / MaxInt(m.integral, 1);
    MinReal(Square(diff as real / m.coeffDec) * m.maxDec, m.maxDec)
  }

  /**
   * `KondenseMemory`. Above the target pressure the factor is positive and
   * the grace countdown restarts at `Interval - 1` (in uint64, so an
   * interval of 0 gives 2^64 - 1); during the countdown the factor is 0;
   * when it reaches 0 the factor is negative and the countdown restarts.
   * Only the countdown changes.
   */
  function KondenseMemory(m: Memory): (d: Decision)
    requires m.coeffDec != 0.0
    ensures d.mem.(graceTicks := m.graceTicks) == m
    ensures m.integral > m.targetPressure ==>
      && d.mem.graceTicks == SubU64(m.interval, 1)
      && (m.maxInc >= 0.0 ==> 0.0 <= d.factor <= m.maxInc)
    ensures m.integral <= m.targetPressure && m.graceTicks > 0 ==>
      d.factor == 0.0 && d.mem.graceTicks == m.graceTicks - 1
    ensures m.integral <= m.targetPressure && m.graceTicks == 0 ==>
      && d.mem.graceTicks == SubU64(m.interval, 1)
      && (m.maxDec >= 0.0 ==> -m.maxDec <= d.factor <= 0.0)
    ensures m.interval >= 1 ==> d.mem.graceTicks < m.interval || d.mem.graceTicks < m.graceTicks
    ensures m.integral > m.targetPressure ==> d.factor == BackOff(m)
    ensures m.integral <= m.targetPressure && m.graceTicks == 0 ==> d.factor == -Tighten(m)
    ensures m.integral > m.targetPressure && m.maxInc > 0.0 ==>
      && d.factor > 0.0
      && (d.factor == m.maxInc <==>
            (m.integral / MaxInt(1, m.targetPressure)) as real >= DefaultMemCoeffInc)
    ensures (m.integral <= m.targetPressure && m.graceTicks == 0 && m.targetPressure != 0
             && m.maxDec > 0.0 && m.coeffDec > 0.0) ==>
      && d.factor < 0.0
      && (d.factor == -m.maxDec <==>
            (m.targetPressure / MaxInt(m.integral, 1)) as real >= m.coeffDec)
  {
    if m.integral > m.targetPressure then
      var diff := m.integral / MaxInt(1, m.targetPressure);
      assert diff >= 0;
      if m.maxInc > 0.0 then
        BackOffShape(m);
        Decision(BackOff(m), m.(graceTicks := SubU64(m.interval, 1)))
      else
        Decision(BackOff(m), m.(graceTicks := SubU64(m.interval, 1)))
    else if m.graceTicks > 0 then
      Decision(0.0, m.(graceTicks := m.graceTicks - 1))
    else
      var diff := m.targetPressure / MaxInt(m.integral, 1);
      assert diff >= 0;
      if m.targetPressure != 0 && m.maxDec > 0.0 && m.coeffDec > 0.0 then
        TightenShape(m);
        Decision(-Tighten(m), m.(graceTicks := SubU64(m.interval, 1)))
      else
        Decision(-Tighten(m), m.(graceTicks := SubU64(m.interval, 1)))
  }

  /** `x^2 >= 1` exactly when `x >= 1`, for non-negative `x`. */
  lemma SquareAtLeastOne(x: real)
    requires x >= 0.0
    ensures Square(x) >= 1.0 <==> x >= 1.0
  {
    if x < 1.0 {
      assert x * x <= x * 1.0;
    } else {
      assert x * x >= 1.0 * x;
    }
  }

  /** `min(s * cap, cap)` for a positive scale: positive, at most `cap`, and `cap` exactly when `s >= 1`. */
  lemma CappedShape(s: real, cap: real)
    requires s > 0.0 && cap > 0.0
    ensures 0.0 < MinReal(s * cap, cap) <= cap
    ensures MinReal(s * cap, cap) == cap <==> s >= 1.0
  {
    if s >= 1.0 {
      assert s * cap >= 1.0 * cap;
    } else {
      assert s * cap < 1.0 * cap;
      assert s * cap > 0.0 * cap;
    }
  }

  /**
   * Back-off is strictly positive for a positive `MaxInc`, and it saturates
   * at `MaxInc` exactly when the integral is at least 20 times the target
   * pressure (the constant coefficient), rounded down by the integer ratio.
   */
  lemma BackOffShape(m: Memory)
    requires m.integral > m.targetPressure && m.maxInc > 0.0
    ensures 0.0 < BackOff(m) <= m.maxInc
    ensures BackOff(m) == m.maxInc <==>
      (m.integral / MaxInt(1, m.targetPressure)) as real >= DefaultMemCoeffInc
  {
    var diff := m.integral / MaxInt(1, m.targetPressure);
    assert diff >= 1 by {
      assert m.integral >= MaxInt(1, m.targetPressure);
    }
    var x := diff as real / DefaultMemCoeffInc;
    SquareAtLeastOne(x);
    assert Square(x) > 0.0;
    CappedShape(Square(x), m.maxInc);
  }

  /** The per-container `CoeffInc` plays no part in the memory decision. */
  lemma BackOffIgnoresCoeffInc(m: Memory, c: real)
    requires m.coeffDec != 0.0
    ensures KondenseMemory(m.(coeffInc := c)).factor == KondenseMemory(m).factor
  {
    var m1 := m.(coeffInc := c);
    assert BackOff(m1) == BackOff(m);
    assert Tighten(m1) == Tighten(m);
  }

  /**
   * With a non-zero target pressure and positive `MaxDec`/`CoeffDec`, a
   * tighten step always shrinks the limit, and it shrinks by the full
   * `MaxDec` exactly when the integer ratio of target to integral reaches
   * `CoeffDec`.
   */
  lemma TightenShape(m: Memory)
    requires m.integral <= m.targetPressure && m.targetPressure != 0
    requires m.maxDec > 0.0 && m.coeffDec > 0.0
    ensures 0.0 < Tighten(m) <= m.maxDec
    ensures Tighten(m) == m.maxDec <==>
      (m.targetPressure / MaxInt(m.integral, 1)) as real >= m.coeffDec
  {
    var diff := m.targetPressure / MaxInt(m.integral, 1);
    assert diff >= 1 by {
      assert m.targetPressure >= MaxInt(m.integral, 1);
    }
    var x := diff as real / m.coeffDec;
    SquareAtLeastOne(x);
    RatioAtLeastOne(diff as real, m.coeffDec);
    assert Square(x) > 0.0;
    CappedShape(Square(x), m.maxDec);
  }

  /** Successive memory decisions while the integral stays at or below the target. */
  function QuietTicks(m: Memory, n: nat): (r: Memory)
    requires m.coeffDec != 0.0
    ensures r.coeffDec == m.coeffDec
    decreases n
  {
    if n == 0 then m else QuietTicks(KondenseMemory(m).mem, n - 1)
  }

  /**
   * Without pressure, a countdown of `g` ticks is waited out one tick at a
   * time with factor 0 each, and the tick after it tightens: the grace
   * period lasts exactly `GraceTicks` decisions.
   */
  lemma {:induction false} GraceCountdown(m: Memory, n: nat)
    requires m.coeffDec != 0.0
    requires m.integral <= m.targetPressure && n <= m.graceTicks
    ensures QuietTicks(m, n) == m.(graceTicks := m.graceTicks - n)
    ensures forall k :: 0 <= k < n ==> KondenseMemory(QuietTicks(m, k)).factor == 0.0
    ensures n == m.graceTicks ==>
      KondenseMemory(QuietTicks(m, n)).mem.graceTicks == SubU64(m.interval, 1)
    decreases n
  {
    if n > 0 {
      var m1 := KondenseMemory(m).mem;
      assert m1 == m.(graceTicks := m.graceTicks - 1);
      GraceCountdown(m1, n - 1);
      forall k | 0 <= k < n
        ensures KondenseMemory(QuietTicks(m, k)).factor == 0.0
      {
        if k > 0 {
          assert QuietTicks(m, k) == QuietTicks(m1, k - 1);
        }
      }
    }
  }

  /**
   * `KondenseCPU`: the wanted limit is the average use over the target
   * average (at least 0.1); the factor is the relative gap to the current
   * limit, grown quadratically and capped at `MaxInc` upwards, and floored
   * at `-MaxDec` downwards.
   */
  function KondenseCpu(c: Cpu): (r: real)
    requires c.limit != 0
    ensures var ratio := c.avg as real / MaxReal(0.1, c.targetAvg) / c.limit as real;
      && (ratio > 1.0 ==> r <= c.maxInc && (c.maxInc > 0.0 ==> r > 0.0))
      && (ratio <= 1.0 ==> -c.maxDec <= r && (c.maxDec >= 0.0 ==> r <= 0.0))
      && (ratio <= 1.0 && -c.maxDec <= ratio - 1.0 ==> r == ratio - 1.0)
      && (ratio <= 1.0 && ratio - 1.0 < -c.maxDec ==> r == -c.maxDec)
    ensures var ratio := c.avg as real / MaxReal(0.1, c.targetAvg) / c.limit as real;
      var grown := ratio - 1.0 + Square(c.coeff * (ratio - 1.0));
      && (ratio > 1.0 ==> (r == c.maxInc <==> grown >= c.maxInc))
      && (ratio > 1.0 && grown < c.maxInc ==> r == grown && r >= ratio - 1.0)
  {
    var newLimit := c.avg as real / MaxReal(0.1, c.targetAvg);
    var adj := newLimit / c.limit as real - 1.0;
    if adj > 0.0 then MinReal(adj + Square(c.coeff * adj), c.maxInc)
    else MaxReal(adj, -c.maxDec)
  }

  /** For a positive divisor, the quotient is at least 1 exactly when the dividend is at least the divisor. */
  lemma RatioAtLeastOne(a: real, b: real)
    requires b > 0.0
    ensures a / b >= 1.0 <==> a >= b
  {
    var q := a / b;
    assert q * b == a;
    if q >= 1.0 {
      assert (q - 1.0) * b >= 0.0;
    } else {
      assert (1.0 - q) * b > 0.0;
    }
  }

  /** For a positive divisor, the quotient exceeds 1 exactly when the dividend exceeds the divisor. */
  lemma RatioAboveOne(a: real, b: real)
    requires b > 0.0
    ensures a / b > 1.0 <==> a > b
  {
    var q := a / b;
    assert q * b == a;
    if q > 1.0 {
      assert (q - 1.0) * b > 0.0;
    } else {
      assert (1.0 - q) * b >= 0.0;
    }
  }

  /**
   * For a positive limit and positive caps, the CPU factor stays within
   * `[-MaxDec, MaxInc]` and is positive exactly when the wanted limit
   * exceeds the current one.
   */
  lemma CpuFactorSign(c: Cpu)
    requires c.limit > 0 && c.maxInc > 0.0 && c.maxDec >= 0.0
    ensures -c.maxDec <= KondenseCpu(c) <= c.maxInc
    ensures KondenseCpu(c) > 0.0 <==>
      c.avg as real / MaxReal(0.1, c.targetAvg) > c.limit as real
  {
    var newLimit := c.avg as real / MaxReal(0.1, c.targetAvg);
    var l := c.limit as real;
    RatioAboveOne(newLimit, l);
  }

  // ---------------------------------------------------------------------
  // Adjust
  // ---------------------------------------------------------------------

  /** `uint64(x)` of a float: truncation toward zero, reduced modulo 2^64 when out of range. */
  function ToU64(x: real): u64 {
    WrapU64(Trunc(x))
  }

  /** The new memory limit: the scaled current limit clamped into `[Min, Max]`. */
  function NewMemory(m: Memory, factor: real): (r: u64)
    ensures r <= m.max
    ensures m.min <= m.max ==> m.min <= r
    ensures m.min <= ToU64(m.limit as real * (1.0 + factor)) <= m.max ==>
      r == ToU64(m.limit as real * (1.0 + factor))
    ensures ToU64(m.limit as real * (1.0 + factor)) < m.min <= m.max ==> r == m.min
    ensures ToU64(m.limit as real * (1.0 + factor)) > m.max ==> r == m.max
    ensures m.max < m.min ==> r == m.max
  {
    ClampInt(ToU64(m.limit as real * (1.0 + factor)), m.min, m.max)
  }

  /** The new CPU limit in millicores, clamped into `[Min, Max]`. */
  function NewCpu(c: Cpu, factor: real): (r: real)
    ensures r <= c.max
    ensures c.min <= c.max ==> c.min <= r
    ensures c.min <= ToU64(c.limit as real * (1.0 + factor)) as real <= c.max ==>
      r == ToU64(c.limit as real * (1.0 + factor)) as real
    ensures ToU64(c.limit as real * (1.0 + factor)) as real < c.min <= c.max ==> r == c.min
    ensures ToU64(c.limit as real * (1.0 + factor)) as real > c.max ==> r == c.max
    ensures c.max < c.min ==> r == c.max
  {
    ClampReal(ToU64(c.limit as real * (1.0 + factor)) as real, c.min, c.max)
  }

  datatype AdjustOutcome =
      /** Both clamped limits equal the current ones: nothing is sent. */
    | Unchanged
    | Patched(memory: u64, cpu: real)
      /** A 401: the token is renewed and the adjustment is retried. */
    | RenewToken
    | SendFailed
    | Rejected(code: int)

  datatype Adjusted = Adjusted(outcome: AdjustOutcome, stats: Stats)

  /** Whether the clamped limits differ from the current ones, compared as uint64. */
  predicate Changes(s: Stats, memFactor: real, cpuFactor: real) {
    NewMemory(s.mem, memFactor) != I64ToU64(s.mem.limit)
    || NewCpu(s.cpu, cpuFactor) != I64ToU64(s.cpu.limit) as real
  }

  /**
   * `Adjust`, given the answer to the PATCH: nothing is sent when neither
   * limit changes; the integral is reset after a 200 and only then; every
   * other answer leaves the stats as they were.
   */
  function Adjust(s: Stats, memFactor: real, cpuFactor: real, resp: Response): (r: Adjusted)
    ensures !Changes(s, memFactor, cpuFactor) ==> r == Adjusted(Unchanged, s)
    ensures r.stats != s ==> r.outcome.Patched?
    ensures r.outcome.Patched? <==> Changes(s, memFactor, cpuFactor) && resp == Status(StatusOK)
    ensures r.outcome.Patched? ==>
      && r.outcome.memory == NewMemory(s.mem, memFactor)
      && r.outcome.cpu == NewCpu(s.cpu, cpuFactor)
      && r.stats == s.(mem := s.mem.(integral := 0))
    ensures Changes(s, memFactor, cpuFactor) && resp == Status(StatusUnauthorized) ==>
      r.outcome == RenewToken
    ensures Changes(s, memFactor, cpuFactor) && resp == TransportError ==> r.outcome == SendFailed
    ensures (Changes(s, memFactor, cpuFactor) && resp.Status? && resp.code != StatusOK
             && resp.code != StatusUnauthorized) ==> r.outcome == Rejected(resp.code)
  {
    if !Changes(s, memFactor, cpuFactor) then Adjusted(Unchanged, s)
    else
      match resp
      case TransportError => Adjusted(SendFailed, s)
      case Status(code) =>
        if code == StatusUnauthorized then Adjusted(RenewToken, s)
        else if code != StatusOK then Adjusted(Rejected(code), s)
        else
          Adjusted(Patched(NewMemory(s.mem, memFactor), NewCpu(s.cpu, cpuFactor)),
                   s.(mem := s.mem.(integral := 0)))
  }

  /** Both factors are below the threshold in magnitude. */
  predicate Negligible(memFactor: real, cpuFactor: real) {
    AbsReal(memFactor) < Threshold && AbsReal(cpuFactor) < Threshold
  }

  /**
   * `KondenseContainer`: the memory decision is taken (moving the grace
   * countdown), the CPU factor computed, and `Adjust` called unless both
   * factors are negligible.
   */
  function KondenseContainer(s: Stats, resp: Response): (r: Adjusted)
    requires s.mem.coeffDec != 0.0 && s.cpu.limit != 0
    ensures var d := KondenseMemory(s.mem);
      var cpuFactor := KondenseCpu(s.cpu);
      && (Negligible(d.factor, cpuFactor) ==> r == Adjusted(Unchanged, s.(mem := d.mem)))
      && (!Negligible(d.factor, cpuFactor) ==>
            r == Adjust(s.(mem := d.mem), d.factor, cpuFactor, resp))
    ensures r.stats.cpu == s.cpu && r.stats.lastUpdate == s.lastUpdate
    ensures r.stats.mem.graceTicks == KondenseMemory(s.mem).mem.graceTicks
  {
    var d := KondenseMemory(s.mem);
    var cpuFactor := KondenseCpu(s.cpu);
    var s1 := s.(mem := d.mem);
    if Negligible(d.factor, cpuFactor) then Adjusted(Unchanged, s1)
    else Adjust(s1, d.factor, cpuFactor, resp)
  }

  /** A container with no pressure that is still in its grace period is never patched. */
  lemma GraceMeansNoPatch(s: Stats, resp: Response)
    requires s.mem.coeffDec != 0.0 && s.cpu.limit != 0
    requires s.mem.integral <= s.mem.targetPressure && s.mem.graceTicks > 0
    requires AbsReal(KondenseCpu(s.cpu)) < Threshold
    ensures KondenseContainer(s, resp).outcome == Unchanged
    ensures KondenseContainer(s, resp).stats == s.(mem := s.mem.(graceTicks := s.mem.graceTicks - 1))
  {
  }
}
