/**
 * The per-container controller state of the current revision: one `Stats`
 * record per managed container, holding the memory loop's integral and
 * tunables and the CPU loop's probe window, together with the memory
 * defaults the configuration falls back to.
 */
module Stats {
  import opened MachineInt

  const DefaultMemInterval: u64 := 2
  const DefaultMemTargetPressure: u64 := 10_000
  const DefaultMemMaxInc: real := 1.0
  const DefaultMemMaxDec: real := 0.01
  const DefaultMemCoeffInc: real := 20.0
  const DefaultMemCoeffDec: real := 10.0
  /** 10M bytes. */
  const DefaultMemMin: u64 := 10_000_000
  /** 100G bytes. */
  const DefaultMemMax: u64 := 100_000_000_000

  /**
   * The CPU defaults, whose values are not part of this model: every
   * statement about the CPU tunables holds for whatever values they take.
   */
  datatype CpuDefaults = CpuDefaults(
    min: real, max: real, interval: u64, targetPressure: u64,
    maxInc: real, maxDec: real, coeffInc: real, coeffDec: real)

  /** The memory loop: limit in bytes, PSI `total` bookkeeping, tunables, grace countdown. */
  datatype Memory = Memory(
    limit: i64,
    prevTotal: u64,
    integral: u64,
    current: i64,
    targetPressure: u64,
    maxInc: real,
    maxDec: real,
    coeffInc: real,
    coeffDec: real,
    min: u64,
    max: u64,
    avg10: real,
    avg60: real,
    avg300: real,
    graceTicks: u64,
    interval: u64)

  /** One cumulative `usage_usec` reading of `cpu.stat`, stamped in microseconds. */
  datatype Probe = Probe(total: u64, t: int)

  /** The CPU loop: limit in millicores, clamp range, probe window and average. */
  datatype Cpu = Cpu(
    limit: i64,
    min: real,
    max: real,
    avg: nat,
    targetAvg: real,
    coeff: real,
    probes: seq<Probe>,
    graceTicks: u64,
    interval: u64,
    targetPressure: u64,
    maxInc: real,
    maxDec: real,
    coeffInc: real,
    coeffDec: real)

  /** A container's state; `lastUpdate` is the microsecond stamp of the last successful read. */
  datatype Stats = Stats(mem: Memory, cpu: Cpu, lastUpdate: int)

  /** The defaults admit the values the configuration checks demand of user input. */
  lemma DefaultsAreValid()
    ensures 0 < DefaultMemMin < DefaultMemMax
    ensures 0.0 < DefaultMemMaxDec < 1.0
    ensures DefaultMemTargetPressure != 0
    ensures DefaultMemInterval >= 1
    ensures DefaultMemMaxInc > 0.0 && DefaultMemCoeffInc > 0.0 && DefaultMemCoeffDec > 0.0
  {
  }
}
