/**
 * The per-container configuration of the current revision: every tunable is
 * read from an environment variable `<NAME>_<RESOURCE>_<TUNABLE>`, where
 * `<NAME>` is the container name upper-cased, and each falls back to its
 * default when the variable is unset, unreadable or out of range.
 * `InitCStats` creates the stats entry of each managed container once and
 * refreshes its memory limit on every tick.
 */
module Config {
  import opened Wrappers
  import opened MachineInt
  import opened Strings
  import opened Decimal
  import opened Stats
  import opened Registry
  import Utils
  import Update

  /** A Kubernetes quantity: `Value()`, rounded up to an int64, and `AsApproximateFloat64()`. */
  datatype Quantity = Quantity(value: i64, approx: real)

  /**
   * The process environment, together with the two foreign parsers the
   * getters call: `resource.ParseQuantity` and `strconv.ParseFloat`, each
   * `None` where the foreign parser returns an error.
   */
  datatype Environment = Environment(
    vars: map<string, string>,
    parseQuantity: string -> Option<Quantity>,
    parseFloat: string -> Option<real>)

  function VarName(container: string, suffix: string): string {
    ToUpper(container) + suffix
  }

  // ---------------------------------------------------------------------
  // The four kinds of variable
  // ---------------------------------------------------------------------

  /** A present variable whose quantity parses with a positive `Value()`. */
  predicate PositiveQuantity(e: Environment, key: string) {
    key in e.vars && e.parseQuantity(e.vars[key]).Some?
      && e.parseQuantity(e.vars[key]).value.value > 0
  }

  /** A byte count given as a quantity: its `Value()` when positive, else the default. */
  function QuantityBytes(e: Environment, key: string, default: u64): (r: u64)
    ensures PositiveQuantity(e, key) ==> r == e.parseQuantity(e.vars[key]).value.value
    ensures !PositiveQuantity(e, key) ==> r == default
  {
    if PositiveQuantity(e, key) then e.parseQuantity(e.vars[key]).value.value else default
  }

  /** A present variable that `ParseUint` accepts. */
  predicate ValidUint(e: Environment, key: string) {
    key in e.vars && ParseUint(e.vars[key]).Parsed?
  }

  /** A decimal uint64; with `nonZero`, 0 is rejected too. */
  function UintVar(e: Environment, key: string, default: u64, nonZero: bool): (r: u64)
    ensures ValidUint(e, key) && !(nonZero && ParseUint(e.vars[key]).n == 0) ==>
      r == ParseUint(e.vars[key]).n
    ensures !ValidUint(e, key) ==> r == default
    ensures nonZero && ValidUint(e, key) && ParseUint(e.vars[key]).n == 0 ==> r == default
  {
    if ValidUint(e, key) then
      ParseUintSpec(e.vars[key]);
      var n := ParseUint(e.vars[key]).n;
      if nonZero && n == 0 then default else n
    else default
  }

  /** A present variable that `ParseFloat` accepts, positive and, with `fraction`, below 1. */
  predicate AcceptedFloat(e: Environment, key: string, fraction: bool) {
    key in e.vars && e.parseFloat(e.vars[key]).Some?
      && var v := e.parseFloat(e.vars[key]).value;
         if fraction then 0.0 < v < 1.0 else 0.0 < v
  }

  /** A float: positive, or with `fraction` strictly between 0 and 1; else the default. */
  function FloatVar(e: Environment, key: string, default: real, fraction: bool): (r: real)
    ensures AcceptedFloat(e, key, fraction) ==> r == e.parseFloat(e.vars[key]).value
    ensures !AcceptedFloat(e, key, fraction) ==> r == default
  {
    if AcceptedFloat(e, key, fraction) then e.parseFloat(e.vars[key]).value else default
  }

  // ---------------------------------------------------------------------
  // Memory tunables
  // ---------------------------------------------------------------------

  /** `getMemoryMin`: always positive. */
  function MemoryMin(e: Environment, name: string): (r: u64)
    ensures r > 0
    ensures VarName(name, "_MEMORY_MIN") !in e.vars ==> r == DefaultMemMin
    ensures PositiveQuantity(e, VarName(name, "_MEMORY_MIN")) ==>
      r == e.parseQuantity(e.vars[VarName(name, "_MEMORY_MIN")]).value.value
    ensures !PositiveQuantity(e, VarName(name, "_MEMORY_MIN")) ==> r == DefaultMemMin
  {
    QuantityBytes(e, VarName(name, "_MEMORY_MIN"), DefaultMemMin)
  }

  /** `getMemoryMax`: always positive. */
  function MemoryMax(e: Environment, name: string): (r: u64)
    ensures r > 0
    ensures VarName(name, "_MEMORY_MAX") !in e.vars ==> r == DefaultMemMax
    ensures PositiveQuantity(e, VarName(name, "_MEMORY_MAX")) ==>
      r == e.parseQuantity(e.vars[VarName(name, "_MEMORY_MAX")]).value.value
    ensures !PositiveQuantity(e, VarName(name, "_MEMORY_MAX")) ==> r == DefaultMemMax
  {
    QuantityBytes(e, VarName(name, "_MEMORY_MAX"), DefaultMemMax)
  }

  /** `getMemoryInterval`: any decimal uint64, 0 included; the default only on a parse failure. */
  function MemoryInterval(e: Environment, name: string): (r: u64)
    ensures ValidUint(e, VarName(name, "_MEMORY_INTERVAL")) ==>
      r == ParseUint(e.vars[VarName(name, "_MEMORY_INTERVAL")]).n
    ensures !ValidUint(e, VarName(name, "_MEMORY_INTERVAL")) ==> r == DefaultMemInterval
  {
    UintVar(e, VarName(name, "_MEMORY_INTERVAL"), DefaultMemInterval, false)
  }

  /** `getMemoryTargetPressure`: never 0. */
  function MemoryTargetPressure(e: Environment, name: string): (r: u64)
    ensures r != 0
    ensures (ValidUint(e, VarName(name, "_MEMORY_TARGET_PRESSURE"))
             && ParseUint(e.vars[VarName(name, "_MEMORY_TARGET_PRESSURE")]).n != 0) ==>
      r == ParseUint(e.vars[VarName(name, "_MEMORY_TARGET_PRESSURE")]).n
    ensures !(ValidUint(e, VarName(name, "_MEMORY_TARGET_PRESSURE"))
              && ParseUint(e.vars[VarName(name, "_MEMORY_TARGET_PRESSURE")]).n != 0) ==>
      r == DefaultMemTargetPressure
  {
    UintVar(e, VarName(name, "_MEMORY_TARGET_PRESSURE"), DefaultMemTargetPressure, true)
  }

  /** `getMemoryMaxInc`: always positive. */
  function MemoryMaxInc(e: Environment, name: string): (r: real)
    ensures r > 0.0
    ensures AcceptedFloat(e, VarName(name, "_MEMORY_MAX_INC"), false) ==>
      r == e.parseFloat(e.vars[VarName(name, "_MEMORY_MAX_INC")]).value
    ensures !AcceptedFloat(e, VarName(name, "_MEMORY_MAX_INC"), false) ==> r == DefaultMemMaxInc
  {
    FloatVar(e, VarName(name, "_MEMORY_MAX_INC"), DefaultMemMaxInc, false)
  }

  /** `getMemoryMaxDec`: strictly between 0 and 1. */
  function MemoryMaxDec(e: Environment, name: string): (r: real)
    ensures 0.0 < r < 1.0
    ensures AcceptedFloat(e, VarName(name, "_MEMORY_MAX_DEC"), true) ==>
      r == e.parseFloat(e.vars[VarName(name, "_MEMORY_MAX_DEC")]).value
    ensures !AcceptedFloat(e, VarName(name, "_MEMORY_MAX_DEC"), true) ==> r == DefaultMemMaxDec
  {
    FloatVar(e, VarName(name, "_MEMORY_MAX_DEC"), DefaultMemMaxDec, true)
  }

  /** `getMemoryCoeffInc`: always positive, and read from the `_MAX_INC` variable. */
  function MemoryCoeffInc(e: Environment, name: string): (r: real)
    ensures r > 0.0
    ensures AcceptedFloat(e, VarName(name, "_MEMORY_MAX_INC"), false) ==>
      r == e.parseFloat(e.vars[VarName(name, "_MEMORY_MAX_INC")]).value
    ensures !AcceptedFloat(e, VarName(name, "_MEMORY_MAX_INC"), false) ==> r == DefaultMemCoeffInc
  {
    FloatVar(e, VarName(name, "_MEMORY_MAX_INC"), DefaultMemCoeffInc, false)
  }

  /** `getMemoryCoeffDec`: always positive. */
  function MemoryCoeffDec(e: Environment, name: string): (r: real)
    ensures r > 0.0
    ensures AcceptedFloat(e, VarName(name, "_MEMORY_COEFF_DEC"), false) ==>
      r == e.parseFloat(e.vars[VarName(name, "_MEMORY_COEFF_DEC")]).value
    ensures !AcceptedFloat(e, VarName(name, "_MEMORY_COEFF_DEC"), false) ==> r == DefaultMemCoeffDec
  {
    FloatVar(e, VarName(name, "_MEMORY_COEFF_DEC"), DefaultMemCoeffDec, false)
  }

  /**
   * `getMemoryCoeffInc` and `getMemoryMaxInc` read the same variable, so
   * they agree whenever it holds a valid value, and differ (20 against 1)
   * whenever it does not.
   */
  lemma CoeffIncReadsMaxInc(e: Environment, name: string)
    ensures AcceptedFloat(e, VarName(name, "_MEMORY_MAX_INC"), false) <==>
      MemoryCoeffInc(e, name) == MemoryMaxInc(e, name)
  {
  }

  // ---------------------------------------------------------------------
  // CPU tunables
  // ---------------------------------------------------------------------

  /** A present variable whose quantity parses with a positive approximate value. */
  predicate PositiveApprox(e: Environment, key: string) {
    key in e.vars && e.parseQuantity(e.vars[key]).Some?
      && e.parseQuantity(e.vars[key]).value.approx > 0.0
  }

  /** `getCPUMin`: the quantity's approximate float when positive. */
  function CpuMin(e: Environment, name: string, d: CpuDefaults): (r: real)
    ensures PositiveApprox(e, VarName(name, "_CPU_MIN")) ==>
      r == e.parseQuantity(e.vars[VarName(name, "_CPU_MIN")]).value.approx
    ensures !PositiveApprox(e, VarName(name, "_CPU_MIN")) ==> r == d.min
    ensures d.min > 0.0 ==> r > 0.0
  {
    var key := VarName(name, "_CPU_MIN");
    if PositiveApprox(e, key) then e.parseQuantity(e.vars[key]).value.approx else d.min
  }

  /** `getCPUMax`: the quantity's `Value()` when positive. */
  function CpuMax(e: Environment, name: string, d: CpuDefaults): (r: real)
    ensures PositiveQuantity(e, VarName(name, "_CPU_MAX")) ==>
      r == e.parseQuantity(e.vars[VarName(name, "_CPU_MAX")]).value.value as real
    ensures !PositiveQuantity(e, VarName(name, "_CPU_MAX")) ==> r == d.max
    ensures d.max > 0.0 ==> r > 0.0
  {
    var key := VarName(name, "_CPU_MAX");
    if PositiveQuantity(e, key) then e.parseQuantity(e.vars[key]).value.value as real else d.max
  }

  /** `getCPUInterval`: any decimal uint64, 0 included. */
  function CpuInterval(e: Environment, name: string, d: CpuDefaults): (r: u64)
    ensures ValidUint(e, VarName(name, "_CPU_INTERVAL")) ==>
      r == ParseUint(e.vars[VarName(name, "_CPU_INTERVAL")]).n
    ensures !ValidUint(e, VarName(name, "_CPU_INTERVAL")) ==> r == d.interval
  {
    UintVar(e, VarName(name, "_CPU_INTERVAL"), d.interval, false)
  }

  /** `getCPUTargetPressure`: never 0 when the default is not. */
  function CpuTargetPressure(e: Environment, name: string, d: CpuDefaults): (r: u64)
    ensures d.targetPressure != 0 ==> r != 0
    ensures (ValidUint(e, VarName(name, "_CPU_TARGET_PRESSURE"))
             && ParseUint(e.vars[VarName(name, "_CPU_TARGET_PRESSURE")]).n != 0) ==>
      r == ParseUint(e.vars[VarName(name, "_CPU_TARGET_PRESSURE")]).n
    ensures !(ValidUint(e, VarName(name, "_CPU_TARGET_PRESSURE"))
              && ParseUint(e.vars[VarName(name, "_CPU_TARGET_PRESSURE")]).n != 0) ==>
      r == d.targetPressure
  {
    UintVar(e, VarName(name, "_CPU_TARGET_PRESSURE"), d.targetPressure, true)
  }

  /** `getCPUMaxInc`: positive when the default is. */
  function CpuMaxInc(e: Environment, name: string, d: CpuDefaults): (r: real)
    ensures d.maxInc > 0.0 ==> r > 0.0
    ensures AcceptedFloat(e, VarName(name, "_CPU_MAX_INC"), false) ==>
      r == e.parseFloat(e.vars[VarName(name, "_CPU_MAX_INC")]).value
    ensures !AcceptedFloat(e, VarName(name, "_CPU_MAX_INC"), false) ==> r == d.maxInc
  {
    FloatVar(e, VarName(name, "_CPU_MAX_INC"), d.maxInc, false)
  }

  /** `getCPUMaxDec`: either the default or a user value strictly between 0 and 1. */
  function CpuMaxDec(e: Environment, name: string, d: CpuDefaults): (r: real)
    ensures r == d.maxDec || 0.0 < r < 1.0
    ensures AcceptedFloat(e, VarName(name, "_CPU_MAX_DEC"), true) ==>
      r == e.parseFloat(e.vars[VarName(name, "_CPU_MAX_DEC")]).value
    ensures !AcceptedFloat(e, VarName(name, "_CPU_MAX_DEC"), true) ==> r == d.maxDec
  {
    FloatVar(e, VarName(name, "_CPU_MAX_DEC"), d.maxDec, true)
  }

  /** `getCPUCoeffInc`: like its memory twin, read from the `_MAX_INC` variable. */
  function CpuCoeffInc(e: Environment, name: string, d: CpuDefaults): (r: real)
    ensures d.coeffInc > 0.0 ==> r > 0.0
    ensures AcceptedFloat(e, VarName(name, "_CPU_MAX_INC"), false) ==>
      r == e.parseFloat(e.vars[VarName(name, "_CPU_MAX_INC")]).value
    ensures !AcceptedFloat(e, VarName(name, "_CPU_MAX_INC"), false) ==> r == d.coeffInc
  {
    FloatVar(e, VarName(name, "_CPU_MAX_INC"), d.coeffInc, false)
  }

  /** `getCPUCoeffDec`: positive when the default is. */
  function CpuCoeffDec(e: Environment, name: string, d: CpuDefaults): (r: real)
    ensures d.coeffDec > 0.0 ==> r > 0.0
    ensures AcceptedFloat(e, VarName(name, "_CPU_COEFF_DEC"), false) ==>
      r == e.parseFloat(e.vars[VarName(name, "_CPU_COEFF_DEC")]).value
    ensures !AcceptedFloat(e, VarName(name, "_CPU_COEFF_DEC"), false) ==> r == d.coeffDec
  {
    FloatVar(e, VarName(name, "_CPU_COEFF_DEC"), d.coeffDec, false)
  }

  // ---------------------------------------------------------------------
  // Stats initialisation
  // ---------------------------------------------------------------------

  /** The entry `InitCStats` creates for a container it has not seen before, limit still 0. */
  function Fresh(e: Environment, name: string, d: CpuDefaults): Stats {
    var interval := MemoryInterval(e, name);
    var cpuInterval := CpuInterval(e, name, d);
    Stats(
      Memory(0, 0, 0, 0,
        MemoryTargetPressure(e, name),
        MemoryMaxInc(e, name), MemoryMaxDec(e, name),
        MemoryCoeffInc(e, name), MemoryCoeffDec(e, name),
        MemoryMin(e, name), MemoryMax(e, name),
        0.0, 0.0, 0.0,
        interval, interval),
      Cpu(0, CpuMin(e, name, d), CpuMax(e, name, d), 0, 0.0, 0.0, [],
        cpuInterval, cpuInterval,
        CpuTargetPressure(e, name, d),
        CpuMaxInc(e, name, d), CpuMaxDec(e, name, d),
        CpuCoeffInc(e, name, d), CpuCoeffDec(e, name, d)),
      0)
  }

  function WithMemLimit(s: Stats, limit: i64): Stats {
    s.(mem := s.mem.(limit := limit))
  }

  /**
   * `InitCStats`: for each status not named in `EXCLUDE`, the entry is
   * created from the environment if missing, and its memory limit set.
   */
  function InitCStats(cs: map<string, Stats>, sts: seq<ContainerStatus>, e: Environment, d: CpuDefaults)
    : (r: map<string, Stats>)
    ensures cs.Keys <= r.Keys
  {
    InitAllKeys(cs, sts, Utils.ContainersToExclude(e.vars), n => Fresh(e, n, d), WithMemLimit);
    InitAll(cs, sts, Utils.ContainersToExclude(e.vars), n => Fresh(e, n, d), WithMemLimit)
  }

  /** Two entries that differ at most in their memory limit. */
  predicate SameExceptLimit(a: Stats, b: Stats) {
    a.(mem := a.mem.(limit := b.mem.limit)) == b
  }

  /**
   * `InitCStats` adds an entry for exactly the managed containers it has not
   * seen, so a container the exclusion list names never gets one.
   */
  lemma InitCStatsKeys(cs: map<string, Stats>, sts: seq<ContainerStatus>, e: Environment, d: CpuDefaults)
    ensures InitCStats(cs, sts, e, d).Keys ==
      cs.Keys + ManagedNames(sts, Utils.ContainersToExclude(e.vars))
    ensures forall k :: k in InitCStats(cs, sts, e, d) && k !in cs ==>
      k !in Utils.ContainersToExclude(e.vars)
  {
    var ex := Utils.ContainersToExclude(e.vars);
    InitAllKeys(cs, sts, ex, n => Fresh(e, n, d), WithMemLimit);
  }

  /**
   * An existing entry is never re-initialised and a new entry is the fresh
   * record: in both cases only the memory limit differs. Every entry's limit
   * is that of the container's last status, and an entry with no such status
   * is left exactly as it was.
   */
  lemma InitCStatsEntries(cs: map<string, Stats>, sts: seq<ContainerStatus>, e: Environment, d: CpuDefaults)
    ensures var r := InitCStats(cs, sts, e, d);
      var ex := Utils.ContainersToExclude(e.vars);
      && (forall k :: k in r && k in cs ==> SameExceptLimit(r[k], cs[k]))
      && (forall k :: k in r && k !in cs ==> SameExceptLimit(r[k], Fresh(e, k, d)))
      && (forall k :: k in r && LastLimit(sts, k, ex).Some? ==>
            r[k].mem.limit == LastLimit(sts, k, ex).value)
      && (forall k :: k in r && LastLimit(sts, k, ex).None? ==> k in cs && r[k] == cs[k])
  {
    var ex := Utils.ContainersToExclude(e.vars);
    var create := n => Fresh(e, n, d);
    var r := InitCStats(cs, sts, e, d);
    assert Overwrites(WithMemLimit);
    InitAllEntries(cs, sts, ex, create, WithMemLimit);
    forall k | k in r
      ensures k in cs ==> SameExceptLimit(r[k], cs[k])
      ensures k !in cs ==> SameExceptLimit(r[k], Fresh(e, k, d))
      ensures LastLimit(sts, k, ex).Some? ==> r[k].mem.limit == LastLimit(sts, k, ex).value
      ensures LastLimit(sts, k, ex).None? ==> k in cs && r[k] == cs[k]
    {
      var last := LastLimit(sts, k, ex);
      var base := if k in cs then cs[k] else Fresh(e, k, d);
      EntryOfKey(cs, k, last, base, r[k]);
    }
  }

  /** One entry after the pass: the base entry with at most its limit replaced. */
  lemma EntryOfKey(cs: map<string, Stats>, k: string, last: Option<i64>, base: Stats, v: Stats)
    requires last.None? ==> k in cs && v == cs[k]
    requires k in cs ==> base == cs[k]
    requires last.Some? ==> v == WithMemLimit(base, last.value)
    ensures SameExceptLimit(v, base)
    ensures last.Some? ==> v.mem.limit == last.value
  {
  }

  /** A freshly created entry starts its grace countdowns at the full interval. */
  lemma FreshGraceTicks(e: Environment, name: string, d: CpuDefaults)
    ensures Fresh(e, name, d).mem.graceTicks == Fresh(e, name, d).mem.interval
    ensures Fresh(e, name, d).cpu.graceTicks == Fresh(e, name, d).cpu.interval
    ensures Fresh(e, name, d).mem.integral == 0 && Fresh(e, name, d).mem.prevTotal == 0
    ensures Fresh(e, name, d).cpu.probes == []
  {
  }

  /**
   * `getCPUInterval` accepts 0, and a container configured so crashes the
   * sidecar at the first read whose memory and CPU totals parse.
   */
  lemma ZeroCpuIntervalCrashes(e: Environment, name: string, d: CpuDefaults, limit: i64,
                               out: string, now: int)
    requires ValidUint(e, VarName(name, "_CPU_INTERVAL"))
    requires ParseUint(e.vars[VarName(name, "_CPU_INTERVAL")]).n == 0
    requires var txt := Split(out, ' ');
      && |txt| == Update.StatsTokens
      && Update.UpdateMemStats(WithMemLimit(Fresh(e, name, d), limit).mem, txt).Ok?
      && ParseUint(Update.CpuTotalText(txt[9])).Parsed?
    ensures Update.UpdateStats(WithMemLimit(Fresh(e, name, d), limit), Some(out), now) == Update.Crashed
  {
    var s := WithMemLimit(Fresh(e, name, d), limit);
    assert s.cpu.interval == 0 && s.cpu.probes == [];
    Update.ZeroIntervalCrashes(s, out, now);
  }

  /**
   * `InitCStats` only creates entries for container statuses, but every
   * spec container is reconciled: one with no status and no earlier entry
   * crashes the sidecar at its first successful read.
   */
  lemma UnlistedContainerCrashes(cs: map<string, Stats>, sts: seq<ContainerStatus>, e: Environment,
                                 d: CpuDefaults, name: string, out: string, now: int)
    requires name !in cs
    requires forall i :: 0 <= i < |sts| ==> sts[i].name != name
    ensures Update.UpdateEntry(InitCStats(cs, sts, e, d), name, Some(out), now) == Update.MapCrashed
  {
    InitCStatsKeys(cs, sts, e, d);
    assert name !in ManagedNames(sts, Utils.ContainersToExclude(e.vars));
  }
}
