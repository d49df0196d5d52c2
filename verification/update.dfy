/**
 * One read of a container's `memory.pressure` and `cpu.stat`, concatenated
 * into one text: the memory `total` feeds the pressure integral, the CPU
 * `usage_usec` feeds a bounded FIFO window of probes whose extremes give
 * the average CPU use.
 */
module Update {
  import opened Wrappers
  import opened MachineInt
  import opened Strings
  import opened Decimal
  import opened Stats

  /** The number of space-separated tokens of a well-formed read. */
  const StatsTokens: nat := 15

  datatype UpdateError =
      /** All three attempts to read the cgroup files failed. */
    | ReadFailed
    | UnexpectedStats
    | BadMemoryTotal
    | BadCpuTotal
      /** `Probes[1:]` on an empty window, which panics: the configured interval is 0. */
    | EmptyWindowSlice

  /** Token 4, `total=<N>\nfull`, stripped to `<N>`. */
  function MemoryTotalText(tok: string): string {
    TrimSuffix(TrimPrefix(tok, "total="), "\nfull")
  }

  /** Token 9, `<N>\nuser_usec`, stripped to `<N>`. */
  function CpuTotalText(tok: string): string {
    TrimSuffix(tok, "\nuser_usec")
  }

  // ---------------------------------------------------------------------
  // Memory
  // ---------------------------------------------------------------------

  /** The integral step: add the growth of the cumulative total, in uint64. */
  function AddTotal(m: Memory, total: u64): Memory {
    var delta := SubU64(total, m.prevTotal);
    m.(prevTotal := total, integral := AddU64(m.integral, delta))
  }

  /** `UpdateMemStats`: on a parse failure the memory state is unchanged. */
  function UpdateMemStats(m: Memory, txt: seq<string>): (r: Result<Memory, UpdateError>)
    requires |txt| > 4
    ensures r.Ok? <==> ParseUint(MemoryTotalText(txt[4])).Parsed?
    ensures r.Err? ==> r.error == BadMemoryTotal
    ensures r.Ok? ==>
      var total := ParseUint(MemoryTotalText(txt[4])).n;
      && r.value.prevTotal == total
      && r.value.integral == WrapU64(m.integral + total - m.prevTotal)
      && r.value.(prevTotal := m.prevTotal, integral := m.integral) == m
  {
    match ParseUint(MemoryTotalText(txt[4]))
    case Parsed(total) =>
      AddTotalIntegral(m, total);
      Ok(AddTotal(m, total))
    case _ => Err(BadMemoryTotal)
  }

  /** Successive integral steps. */
  function AddTotals(m: Memory, totals: seq<u64>): Memory
    decreases |totals|
  {
    if |totals| == 0 then m else AddTotals(AddTotal(m, totals[0]), totals[1..])
  }

  /**
   * Between two resets the integral telescopes: it grows by the last total
   * minus the total it started from, modulo 2^64.
   */
  lemma IntegralTelescopes(m: Memory, totals: seq<u64>)
    requires |totals| > 0
    ensures AddTotals(m, totals).prevTotal == totals[|totals| - 1]
    ensures AddTotals(m, totals).integral ==
      WrapU64(m.integral + totals[|totals| - 1] - m.prevTotal)
  {
    IntegralTelescopesTo(m, totals, totals[|totals| - 1]);
  }

  /** `IntegralTelescopes`, with the last total named `last`. */
  lemma {:induction false} IntegralTelescopesTo(m: Memory, totals: seq<u64>, last: u64)
    requires |totals| > 0 && totals[|totals| - 1] == last
    ensures AddTotals(m, totals).prevTotal == last
    ensures AddTotals(m, totals).integral == WrapU64(m.integral + last - m.prevTotal)
    decreases |totals|
  {
    var m1 := AddTotal(m, totals[0]);
    AddTotalIntegral(m, totals[0]);
    assert AddTotals(m, totals) == AddTotals(m1, totals[1..]);
    if |totals| > 1 {
      assert totals[1..][|totals[1..]| - 1] == last;
      IntegralTelescopesTo(m1, totals[1..], last);
      TelescopeStep(m, m1, last);
    } else {
      assert totals[0] == last;
    }
  }

  /** Two successive steps of the integral add up to one step over both. */
  lemma TelescopeStep(m: Memory, m1: Memory, last: int)
    requires m1.integral == WrapU64(m.integral + m1.prevTotal - m.prevTotal)
    ensures WrapU64(m1.integral + last - m1.prevTotal) == WrapU64(m.integral + last - m.prevTotal)
  {
    var x, y := m.integral + m1.prevTotal - m.prevTotal, last - m1.prevTotal;
    WrapAddLeft(x, y);
    assert m1.integral + last - m1.prevTotal == WrapU64(x) + y;
    assert x + y == m.integral + last - m.prevTotal;
  }

  /** One integral step adds the growth of the total modulo 2^64. */
  lemma AddTotalIntegral(m: Memory, total: u64)
    ensures AddTotal(m, total).integral == WrapU64(m.integral + total - m.prevTotal)
  {
    var x, y := total as int - m.prevTotal as int, m.integral as int;
    WrapAddLeft(x, y);
    assert AddTotal(m, total).integral == WrapU64(WrapU64(x) + y);
    assert x + y == m.integral + total - m.prevTotal;
  }

  // ---------------------------------------------------------------------
  // CPU
  // ---------------------------------------------------------------------

  /**
   * The window step: when the window holds `interval` probes the oldest is
   * dropped, then the new probe is appended. A full window of size 0 cannot
   * be sliced.
   */
  function Push(window: seq<Probe>, p: Probe, interval: int): (r: Option<seq<Probe>>)
    ensures r.None? <==> |window| == 0 && interval == 0
    ensures r.Some? ==>
      && |r.value| == (if |window| == interval then |window| else |window| + 1)
      && r.value[|r.value| - 1] == p
  {
    if |window| == interval then
      if |window| == 0 then None else Some(window[1..] + [p])
    else Some(window + [p])
  }

  /** The most recent `n` probes of `ps`, all of them if there are fewer. */
  function Latest(ps: seq<Probe>, n: nat): (r: seq<Probe>)
    ensures |r| == MinInt(|ps|, n)
  {
    ps[|ps| - MinInt(|ps|, n)..]
  }

  /** `int(interval)`: a `uint64` read as a 64-bit `int`. */
  function GoInt(interval: u64): (r: int)
    ensures interval < TwoTo63 ==> r == interval
    ensures interval >= TwoTo63 ==> r < 0
  {
    WrapI64(interval)
  }

  /** Pushing probes one after another, stopping at the first failed slice. */
  function PushAll(window: seq<Probe>, ps: seq<Probe>, interval: int): Option<seq<Probe>>
    decreases |ps|
  {
    if |ps| == 0 then Some(window)
    else
      match Push(window, ps[0], interval)
      case None => None
      case Some(w) => PushAll(w, ps[1..], interval)
  }

  /**
   * With an interval of at least one, a window of the latest probes stays
   * the window of the latest probes: never longer than the interval, the
   * oldest dropped first, the rest in arrival order, the new probe last.
   */
  lemma PushKeepsLatest(ps: seq<Probe>, p: Probe, interval: nat)
    requires interval >= 1
    ensures Push(Latest(ps, interval), p, interval) == Some(Latest(ps + [p], interval))
  {
    var w := Latest(ps, interval);
    var ps' := ps + [p];
    if |ps| >= interval {
      assert w[1..] + [p] == ps'[|ps'| - interval..];
    } else {
      assert w == ps;
      assert Latest(ps', interval) == ps';
    }
  }

  /** Fed from an empty window, the window is always the latest `interval` probes. */
  lemma {:induction false} PushAllKeepsLatest(done: seq<Probe>, ps: seq<Probe>, interval: nat)
    requires interval >= 1
    ensures PushAll(Latest(done, interval), ps, interval) == Some(Latest(done + ps, interval))
    decreases |ps|
  {
    if |ps| == 0 {
      assert done + ps == done;
    } else {
      PushKeepsLatest(done, ps[0], interval);
      PushAllKeepsLatest(done + [ps[0]], ps[1..], interval);
      assert done + [ps[0]] + ps[1..] == done + ps;
    }
  }

  /** One push, as seen from the outside: the length bound, what is dropped, what is kept. */
  lemma PushWindow(window: seq<Probe>, p: Probe, interval: int)
    requires |window| <= interval
    ensures Push(window, p, interval).Some? <==> interval >= 1
    ensures Push(window, p, interval).Some? ==>
      var w := Push(window, p, interval).value;
      && |w| <= interval
      && w[|w| - 1] == p
      && (|window| == interval ==> w[..|w| - 1] == window[1..])
      && (|window| < interval ==> w[..|w| - 1] == window)
  {
    if interval >= 1 {
      var w := Push(window, p, interval).value;
      if |window| == interval {
        assert w[..|w| - 1] == window[1..];
      } else {
        assert w[..|w| - 1] == window;
      }
    }
  }

  /** Milli-CPUs between two probes: usage growth per microsecond of wall time, times 1000. */
  function AverageMilliCpu(oldest: Probe, newest: Probe): (r: nat)
    ensures r <= 1000 * (SubU64(newest.total, oldest.total) as int)
    ensures newest.t - oldest.t <= 1 ==> r == 1000 * (SubU64(newest.total, oldest.total) as int)
    ensures var den := MaxInt(1, newest.t - oldest.t);
      r * den <= 1000 * (SubU64(newest.total, oldest.total) as int) < (r + 1) * den
  {
    var delta := SubU64(newest.total, oldest.total);
    var t := newest.t - oldest.t;
    var den := MaxInt(1, t);
    var d := MaxReal(1.0, t as real);
    assert d == den as real;
    var avg := delta as real / d;
    assert avg >= 0.0;
    var x := avg * 1000.0;
    QuotientScale(delta as real, d, 1000.0);
    assert (1000 * (delta as int)) as real == delta as real * 1000.0;
    var r := Trunc(x);
    FloorQuotient(1000 * (delta as int), den, x, r);
    assert r >= 0;
    AtMostMultiple(r, den);
    r
  }

  /** A non-negative number is at most any positive multiple of itself. */
  lemma AtMostMultiple(r: int, den: int)
    requires r >= 0 && den >= 1
    ensures r <= r * den
  {
    assert r * den == r + r * (den - 1);
  }

  /** Scaling a quotient scales its dividend. */
  lemma QuotientScale(a: real, d: real, k: real)
    requires d != 0.0
    ensures (a / d) * k == (a * k) / d
  {
    var q := a / d;
    assert q * d == a;
    assert (q * k) * d == a * k;
  }

  /** A real quotient `a / den` lying in `[r, r + 1)` brackets `a` between `r * den` and `(r + 1) * den`. */
  lemma FloorQuotient(a: int, den: int, x: real, r: int)
    requires den >= 1 && x == a as real / den as real
    requires r as real <= x < r as real + 1.0
    ensures r * den <= a < (r + 1) * den
  {
    var d := den as real;
    assert x * d == a as real;
    ScaleLess(r as real, x, d, true);
    ScaleLess(x, r as real + 1.0, d, false);
    CastProduct(r, den);
    CastProduct(r + 1, den);
  }

  /** Scaling by a positive factor keeps `<=` (or `<`). */
  lemma ScaleLess(u: real, v: real, k: real, weak: bool)
    requires k > 0.0 && (if weak then u <= v else u < v)
    ensures if weak then u * k <= v * k else u * k < v * k
  {
    assert v * k - u * k == (v - u) * k;
  }

  /** The product of two integers, as a real, is the product of the reals. */
  lemma CastProduct(a: int, b: int)
    ensures (a * b) as real == a as real * b as real
  {
  }

  /** Dividing a non-negative number by at least 1 does not make it larger. */
  lemma QuotientAtMost(a: real, d: real)
    requires a >= 0.0 && d >= 1.0
    ensures a / d <= a
  {
    var q := a / d;
    assert q * d == a;
    assert q >= 0.0;
    assert q * (d - 1.0) >= 0.0;
  }

  /** `UpdateCPUStats`: on a parse failure or a failed slice the CPU state is unchanged. */
  function UpdateCpuStats(c: Cpu, txt: seq<string>, now: int): (r: Result<Cpu, UpdateError>)
    requires |txt| > 9
    ensures !ParseUint(CpuTotalText(txt[9])).Parsed? ==> r == Err(BadCpuTotal)
    ensures ParseUint(CpuTotalText(txt[9])).Parsed? ==>
      var p := Probe(ParseUint(CpuTotalText(txt[9])).n, now);
      match Push(c.probes, p, GoInt(c.interval))
      case None => r == Err(EmptyWindowSlice)
      case Some(w) =>
        && r.Ok?
        && r.value.probes == w
        && (|w| == 1 ==> r.value.avg == c.avg)
        && (|w| >= 2 ==> r.value.avg == AverageMilliCpu(w[0], w[|w| - 1]))
        && r.value.(probes := c.probes, avg := c.avg) == c
  {
    match ParseUint(CpuTotalText(txt[9]))
    case Parsed(total) =>
      ParseUintSpec(CpuTotalText(txt[9]));
      var p := Probe(total, now);
      (match Push(c.probes, p, GoInt(c.interval))
       case None => Err(EmptyWindowSlice)
       case Some(w) =>
         if |w| == 1 then Ok(c.(probes := w))
         else Ok(c.(probes := w, avg := AverageMilliCpu(w[0], w[|w| - 1]))))
    case _ => Err(BadCpuTotal)
  }

  // ---------------------------------------------------------------------
  // A whole read
  // ---------------------------------------------------------------------

  /**
   * The outcome of one read: the stats and the error returned, or a crash.
   * The panic of `Probes[1:]` runs in the container's goroutine and takes
   * the whole sidecar down, so nothing of the stats survives it.
   */
  datatype Updated = Updated(stats: Stats, err: Option<UpdateError>) | Crashed

  /**
   * `UpdateStats`, given the outcome of reading the cgroup files (`None`
   * when every attempt failed) and the time the read succeeded: the stamp
   * is taken first, then the memory part, then the CPU part; an error
   * stops there, keeping what was already changed, and the empty-window
   * slice crashes.
   */
  function UpdateStats(s: Stats, output: Option<string>, now: int): (r: Updated)
    ensures output.None? ==> r == Updated(s, Some(ReadFailed))
    ensures r.Updated? && output.Some? ==> r.stats.lastUpdate == now
    ensures r.Updated? ==> r.err != Some(EmptyWindowSlice)
    ensures (r.Crashed? || r.err.None?) ==> output.Some? && |Split(output.value, ' ')| == StatsTokens
    ensures output.Some? && |Split(output.value, ' ')| != StatsTokens ==>
      r == Updated(s.(lastUpdate := now), Some(UnexpectedStats))
    ensures output.Some? && |Split(output.value, ' ')| == StatsTokens ==>
      var txt := Split(output.value, ' ');
      match UpdateMemStats(s.mem, txt)
      case Err(e) => r == Updated(s.(lastUpdate := now), Some(e))
      case Ok(m) =>
        match UpdateCpuStats(s.cpu, txt, now)
        case Err(e) =>
          if e == EmptyWindowSlice then r == Crashed
          else r == Updated(s.(lastUpdate := now, mem := m), Some(e))
        case Ok(c) => r == Updated(s.(lastUpdate := now, mem := m, cpu := c), None)
  {
    match output
    case None => Updated(s, Some(ReadFailed))
    case Some(out) =>
      var s1 := s.(lastUpdate := now);
      var txt := Split(out, ' ');
      if |txt| != StatsTokens then Updated(s1, Some(UnexpectedStats))
      else
        match UpdateMemStats(s1.mem, txt)
        case Err(e) => Updated(s1, Some(e))
        case Ok(m) =>
          var s2 := s1.(mem := m);
          match UpdateCpuStats(s2.cpu, txt, s2.lastUpdate)
          case Err(EmptyWindowSlice) => Crashed
          case Err(e) => Updated(s2, Some(e))
          case Ok(c) => Updated(s2.(cpu := c), None)
  }

  /**
   * With a CPU interval of 0, which `getCPUInterval` accepts, the window
   * stays empty, so the first read whose memory and CPU totals both parse
   * crashes the sidecar.
   */
  lemma ZeroIntervalCrashes(s: Stats, out: string, now: int)
    requires s.cpu.interval == 0 && s.cpu.probes == []
    requires |Split(out, ' ')| == StatsTokens
    requires UpdateMemStats(s.mem, Split(out, ' ')).Ok?
    requires ParseUint(CpuTotalText(Split(out, ' ')[9])).Parsed?
    ensures UpdateStats(s, Some(out), now) == Crashed
  {
    assert GoInt(0) == 0;
  }

  // ---------------------------------------------------------------------
  // The read as the reconciler runs it, on the whole map
  // ---------------------------------------------------------------------

  /** The `CStats` map and the error after one read, or a crash. */
  datatype MapUpdated = MapUpdated(cstats: map<string, Stats>, err: Option<UpdateError>) | MapCrashed

  /**
   * `UpdateStats` on the reconciler's `CStats` map. A successful read
   * stamps the container's entry before anything else, and a container
   * with no entry has a nil record there, so that stamp panics.
   */
  function UpdateEntry(cs: map<string, Stats>, name: string, output: Option<string>, now: int): (r: MapUpdated)
    ensures output.None? ==> r == MapUpdated(cs, Some(ReadFailed))
    ensures name !in cs ==> (r.MapCrashed? <==> output.Some?)
    ensures name in cs ==> (r.MapCrashed? <==> UpdateStats(cs[name], output, now).Crashed?)
    ensures r.MapUpdated? ==>
      && r.cstats.Keys == cs.Keys
      && (forall k :: k in cs && k != name ==> r.cstats[k] == cs[k])
    ensures r.MapUpdated? && name in cs ==>
      var u := UpdateStats(cs[name], output, now);
      r.cstats[name] == u.stats && r.err == u.err
  {
    match output
    case None => MapUpdated(cs, Some(ReadFailed))
    case Some(_) =>
      if name !in cs then MapCrashed
      else
        match UpdateStats(cs[name], output, now)
        case Crashed => MapCrashed
        case Updated(s, err) => MapUpdated(cs[name := s], err)
  }
}
