/**
 * `KondenseContainer` of container.go: one tick for one container. The
 * output of `cat /sys/fs/cgroup/memory.pressure` is read (`None` when any
 * of the three `kubectl exec` calls fails), token 4 feeds the signed
 * integral, token 1 the `avg10` average, and the fixed-constant rule
 * decides whether to patch.
 */
module LegacyContainer {
  import opened Wrappers
  import opened MachineInt
  import opened Strings
  import opened Decimal
  import opened Api
  import opened LegacyRule
  import opened LegacyResources
  import PodExclude
  import Update

  datatype Outcome =
      /** Excluded, or the cgroup files could not be read. */
    | Skipped
      /** Fewer than five tokens, or no entry for the container: Go panics. */
    | Panicked
      /** A token did not parse; what was updated before stays updated. */
    | Stopped
      /** Within the grace countdown: no patch. */
    | Waited
    | Adjusted(patch: Patch)

  datatype Tick = Tick(res: map<string, Resources>, outcome: Outcome)

  /** Token 1, `avg10=<X>`, stripped to `<X>`. */
  function Avg10Text(tok: string): string {
    TrimPrefix(tok, "avg10=")
  }

  /** The pressure after the integral step, given a parsed total. */
  function Accumulated(p: Pressure, total: i64): Pressure {
    p.(prevTotal := total, integral := AddDelta(p.integral, p.prevTotal, total))
  }

  /** The decision and its effects on a pressure whose integral is already updated. */
  function Decided(p: Pressure, resp: Response): (Pressure, Outcome) {
    var step := Decide(p.integral, p.graceTicks, p.interval);
    match step.factor
    case None => (p.(graceTicks := step.graceTicks), Waited)
    case Some(f) =>
      var patch := Adjust(p.limit, f, resp);
      (p.(integral := IntegralAfter(p.integral, patch), graceTicks := step.graceTicks), Adjusted(patch))
  }

  /** Fewer than five space-separated tokens: indexing token 4 panics. */
  predicate TooShort(output: string) {
    |Split(output, ' ')| < 5
  }

  /** Token 4 read as an int64 total, when there is one. */
  function TotalOf(output: string): (r: Option<int>)
    ensures TooShort(output) ==> r.None?
    ensures !TooShort(output) ==>
      var t := ParseInt(Update.MemoryTotalText(Split(output, ' ')[4]));
      (r.Some? <==> t.Parsed?) && (r.Some? ==> r.value == t.n)
    ensures r.Some? ==> !TooShort(output) && -TwoTo63 <= r.value < TwoTo63
  {
    var toks := Split(output, ' ');
    if |toks| < 5 then None
    else
      match ParseInt(Update.MemoryTotalText(toks[4]))
      case Parsed(n) => Some(n)
      case _ => None
  }

  /**
   * The work on an existing entry once the total has parsed: the integral
   * step, then, when `avg10` parsed, storing it and applying the rule.
   */
  function Process(p: Pressure, total: i64, avg: Option<real>, resp: Response): (r: (Pressure, Outcome))
    ensures var q := r.0;
      var integral := AddDelta(p.integral, p.prevTotal, total);
      && q.prevTotal == total
      && q.(prevTotal := p.prevTotal, integral := p.integral, avg10 := p.avg10,
            graceTicks := p.graceTicks) == p
      && (if r.1.Adjusted? && r.1.patch.Patched? then q.integral == 0 else q.integral == integral)
      && (r.1.Stopped? <==> avg.None?)
      && (r.1.Stopped? ==> q.avg10 == p.avg10 && q.graceTicks == p.graceTicks)
      && (avg.Some? ==> q.avg10 == avg.value)
      && (r.1.Waited? <==> avg.Some? && integral <= TargetPressure && p.graceTicks > 0)
      && (r.1.Waited? ==> q.graceTicks == p.graceTicks - 1)
      && (r.1.Adjusted? <==> avg.Some? && (integral > TargetPressure || p.graceTicks <= 0))
      && (r.1.Adjusted? ==>
            && q.graceTicks == WrapI64(p.interval - 1)
            && r.1.patch == Adjust(p.limit, RuleFactor(integral), resp))
      && (r.1.Stopped? || r.1.Waited? || r.1.Adjusted?)
  {
    var p1 := Accumulated(p, total);
    match avg
    case None => (p1, Stopped)
    case Some(a) => Decided(p1.(avg10 := a), resp)
  }

  /** The factor the fixed rule gives for an updated integral, spelled out. */
  function RuleFactor(integral: int): real {
    if integral > TargetPressure then (if integral >= 200_000 then 1.0 else 0.0)
    else if MaxInt(integral, 1) <= 1000 then -MaxProbe else 0.0
  }

  /**
   * One tick of container.go for container `name`: skipped when excluded or
   * unreadable; otherwise the integral and previous total are updated from
   * token 4, `avg10` from token 1, and the fixed rule waits, or patches and
   * restarts the countdown.
   */
  function KondenseContainer(
    res: map<string, Resources>, annotations: map<string, string>, name: string,
    output: Option<string>, parseFloat: string -> Option<real>, resp: Response): (r: Tick)
    ensures name in PodExclude.ContainersToExclude(annotations) || output.None? ==>
      r == Tick(res, Skipped)
    ensures r.outcome.Panicked? <==>
      && name !in PodExclude.ContainersToExclude(annotations) && output.Some?
      && (TooShort(output.value) || (TotalOf(output.value).Some? && name !in res))
    ensures !r.outcome.Panicked? ==>
      && r.res.Keys == res.Keys
      && (forall k :: k in res && k != name ==> r.res[k] == res[k])
    ensures (name !in PodExclude.ContainersToExclude(annotations) && output.Some?
             && !TooShort(output.value) && TotalOf(output.value).None?) ==>
      r == Tick(res, Stopped)
    ensures r.res != res ==>
      name !in PodExclude.ContainersToExclude(annotations) && output.Some?
      && TotalOf(output.value).Some? && name in res
    ensures (name !in PodExclude.ContainersToExclude(annotations) && output.Some?
             && TotalOf(output.value).Some? && name in res) ==>
      var p := res[name].memory;
      var q := r.res[name].memory;
      var integral := AddDelta(p.integral, p.prevTotal, TotalOf(output.value).value);
      var avg := parseFloat(Avg10Text(Split(output.value, ' ')[1]));
      && q.prevTotal == TotalOf(output.value).value
      && q.(prevTotal := p.prevTotal, integral := p.integral, avg10 := p.avg10,
            graceTicks := p.graceTicks) == p
      && (if r.outcome.Adjusted? && r.outcome.patch.Patched? then q.integral == 0
          else q.integral == integral)
      && (r.outcome.Stopped? ==> q.avg10 == p.avg10 && q.graceTicks == p.graceTicks)
      && (r.outcome.Waited? ==>
            integral <= TargetPressure && p.graceTicks > 0 && q.graceTicks == p.graceTicks - 1)
      && (r.outcome.Adjusted? ==>
            && (integral > TargetPressure || p.graceTicks <= 0)
            && q.graceTicks == WrapI64(p.interval - 1)
            && r.outcome.patch == Adjust(p.limit, RuleFactor(integral), resp))
      && (r.outcome.Stopped? || r.outcome.Waited? || r.outcome.Adjusted?)
      && (r.outcome.Stopped? <==> avg.None?)
      && (avg.Some? ==> q.avg10 == avg.value)
      && (r.outcome.Waited? <==> avg.Some? && integral <= TargetPressure && p.graceTicks > 0)
      && (r.outcome.Adjusted? <==> avg.Some? && (integral > TargetPressure || p.graceTicks <= 0))
  {
    if name in PodExclude.ContainersToExclude(annotations) || output.None? then Tick(res, Skipped)
    else
      var toks := Split(output.value, ' ');
      if |toks| < 5 then Tick(res, Panicked)
      else
        match TotalOf(output.value)
        case None => Tick(res, Stopped)
        case Some(total) =>
          if name !in res then Tick(res, Panicked)
          else
            var (q, outcome) := Process(res[name].memory, total, parseFloat(Avg10Text(toks[1])), resp);
            Tick(res[name := Resources(q)], outcome)
  }
}
