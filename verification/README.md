# kondense, modelled in Dafny

Kondense is a Kubernetes sidecar. It resizes the memory (and CPU) limits of
the other containers in its pod with a pressure-driven feedback loop. It
reads each container's cgroup `memory.pressure` and `cpu.stat`. It keeps a
running integral of the PSI `total` counter and a window of CPU probes. A
small decision rule with a grace countdown turns these into a signed resize
factor, and a strategic-merge PATCH carries the clamped new limits.

This project models that core as pure functions over immutable records, and
proves what each step promises. Go's machine integers are written out:
`uint64`/`int64` wrap modulo 2^64, and float-to-integer conversions truncate
toward zero. Resize factors are exact reals.

The repository holds several revisions of the same controller that do not
compile together, so each revision is its own module:

- **Newest revision** (`pkg/controller`: stats.go, init.go, update.go, kondense.go; `pkg/utils`):
  - `Stats`: the record types and defaults.
  - `Config`: the environment-variable validators and `InitCStats`.
  - `Update`: stats ingestion, the integral and the FIFO probe window.
  - `Kondense`: the memory and CPU decisions, the clamp and the decision part of `Adjust`.
  - `Utils`: the `EXCLUDE` list and the PSI record parser `parseMemPsiOutput`.
- **Older revisions** (container.go, controller.go, initialize.go, resources.go, `pkg/controller/utils.go`):
  - `LegacyRule`: the hard-coded rule whose factors are exactly 0/1 or 0/−0.01.
  - `LegacyContainer`: one tick of container.go.
  - `LegacyLoop`: one iteration of controller.go's polling loop.
  - `LegacyInitialize`: `InitializeRes`.
  - `LegacyResources`: the `Pressure` record and its `String` rendering, with a reader proving the rendering recoverable.
  - `PodExclude`: the `unagex.com/kondense-exclude` annotation.
- **cAdvisor-based controller** (`internal/controller`):
  - `Cadvisor`: `GetCadvisorData`.
  - `PodReconciler`: the QoS-condition guard of `Reconcile`, `keepCreatePredicate` and the watch filter.
- **Shared modules**:
  - `Registry`: the comma-split name list and the generic status pass behind `InitCStats`, `InitializeRes` and the legacy loop.
  - `Wrappers`, `MachineInt`, `Strings` and `Decimal`: the Go standard-library behaviour the core relies on (`strings.Split`/`Join`/`TrimPrefix`, `strconv.ParseUint`/`ParseInt`/`FormatInt`, integer wrap-around).

Three behaviours of the code worth noting:

- `parseUint` (pkg/utils/utils.go:112-115) drops the error of `strconv.ParseUint`. On overflow that function returns the maximum value, so an overflowing PSI total becomes 2^64 − 1 (`Utils.ParseUintLenient`).
- `keepCreatePredicate` sets no `GenericFunc`, and `predicate.Funcs` admits an event whose function is unset. The predicate therefore admits both create and generic events (`PodReconciler.KeepCreate`).
- initialize.go calls `containerToExclude(pod)`. No function of that name is part of this model. It is modelled as `containersToExclude(pod)` of pkg/controller/utils.go, the annotation split.

Inputs stand in for what the code obtains from outside:

- The cgroup text read by `kubectl exec`/`cat` is an `Option<string>`; `None` means every attempt failed.
- The PATCH answer is an `Api.Response`: a transport failure or an HTTP status.
- `resource.ParseQuantity` and `strconv.ParseFloat` are functions returning an option.
- The cAdvisor query and `calculateCPUusage` are functions.
- The answers of `Get` and of the status update are datatypes.
- The time of a successful read is a number.

## Model

| member | source | states |
|---|---|---|
| Stats.DefaultsAreValid | pkg/controller/stats.go:3-15 | The default memory clamp range is non-empty and positive. The default `MaxDec` is strictly inside (0, 1). The default target pressure is non-zero. The default interval is at least 1. The default `MaxInc`, `CoeffInc` and `CoeffDec` are positive. |
| Utils.ContainersToExclude | pkg/utils/utils.go:17-25 | With `EXCLUDE` unset the list is empty. When set, it is a non-empty list of comma-free pieces that re-join with "," to the value. An empty value gives exactly one empty name. |
| Utils.ParseUintLenient | pkg/utils/utils.go:112-115 | A valid decimal uint64 is read exactly. A digit string too large for uint64 becomes 2^64 − 1. |
| Utils.MatchAtWellFormed | pkg/utils/utils.go:81 | A match of the record pattern at a position ends after it, within the text, and yields a well-formed record: each of its seven digit groups is a non-empty run of digits. |
| Utils.MatchAtRendered | pkg/utils/utils.go:81 | The text a match covers is exactly the rendering of the record it yields: kind, the three labelled `digits.digits` averages, ` total=` and the digit total. |
| Utils.MatchAtComplete | pkg/utils/utils.go:81-82 | Conversely, a well-formed record whose rendering is written at a position and is not followed by a digit is matched there, yielding that record and ending right after the rendering. |
| Utils.FindAllWellFormed | pkg/utils/utils.go:81-82 | Every record that `FindAllStringSubmatch` returns has all its groups non-empty runs of digits. |
| Utils.ParseMemPsiOutput | pkg/utils/utils.go:79-87 | The parse fails with the source's message exactly when fewer than two records match. What a success holds is stated by `ParseMemPsiOutputSpec`. |
| Utils.CollectLastWins | pkg/utils/utils.go:89-102 | After the loop over the matches, `Some` holds the metrics of the last `some` record and `Full` those of the last `full` record. A part with no record of its kind keeps its initial value. |
| Utils.ParseMemPsiOutputSpec | pkg/utils/utils.go:79-105 | The parse fails exactly when fewer than two records match. On success each part is the metrics of the last record of its kind, or zeros when there is none. |
| Utils.SomeOnlyAccepted | pkg/utils/utils.go:84-102 | Two or more `some` records and no `full` record are accepted, with `Full` left at zero. |
| Config.MemoryMin | pkg/controller/init.go:54-73 | `UPPER(name)_MEMORY_MIN` is read as a quantity. Its `Value()` is used when positive. An absent variable, one that does not parse, or a value ≤ 0 gives the default. The result is always positive. |
| Config.MemoryMax | pkg/controller/init.go:96-115 | The same rule for `_MEMORY_MAX`, with its own default: the positive `Value()`, otherwise the default. Always positive. |
| Config.CpuMin | pkg/controller/init.go:75-94 | The quantity's approximate float when positive, else the default. The result is positive whenever the default is. |
| Config.CpuMax | pkg/controller/init.go:117-136 | The quantity's `Value()` when positive, else the default. The result is positive whenever the default is. |
| Config.MemoryInterval | pkg/controller/init.go:138-151 | Any decimal uint64 is accepted, 0 included. The default is used only when the variable is absent or does not parse. |
| Config.CpuInterval | pkg/controller/init.go:153-166 | The same rule for `_CPU_INTERVAL`. |
| Config.MemoryTargetPressure | pkg/controller/init.go:168-186 | A parsed non-zero uint64 is used as given. An absent, unparsable or zero variable gives the default. The result is never 0. |
| Config.CpuTargetPressure | pkg/controller/init.go:188-206 | A parsed non-zero uint64 is used as given; an absent, unparsable or zero variable gives the default. The result is never 0 when the default is not. |
| Config.MemoryMaxInc | pkg/controller/init.go:208-226 | A parsed positive float is used as given. Otherwise, absent, unparsable or ≤ 0, the default. Always positive. |
| Config.CpuMaxInc | pkg/controller/init.go:228-246 | The same rule with the CPU default; positive whenever the default is. |
| Config.MemoryMaxDec | pkg/controller/init.go:248-266 | A parsed float strictly inside (0, 1) is used as given. Otherwise, including 0 and 1, the default. Always strictly inside (0, 1). |
| Config.CpuMaxDec | pkg/controller/init.go:268-286 | A parsed float strictly inside (0, 1) is used as given; otherwise the default. So the result is the default or a value strictly inside (0, 1). |
| Config.MemoryCoeffInc | pkg/controller/init.go:288-306 | Read from the `_MEMORY_MAX_INC` variable. A valid value is used as given, otherwise the default 20; always positive. |
| Config.CpuCoeffInc | pkg/controller/init.go:308-326 | Read from the `_CPU_MAX_INC` variable, like its memory twin. |
| Config.MemoryCoeffDec | pkg/controller/init.go:328-346 | A parsed positive float is used as given. Otherwise, absent, unparsable or ≤ 0, the default. Always positive. |
| Config.CpuCoeffDec | pkg/controller/init.go:348-366 | The same rule with the CPU default. |
| Config.CoeffIncReadsMaxInc | pkg/controller/init.go:288-306 | `CoeffInc` equals `MaxInc` exactly when `_MEMORY_MAX_INC` holds a valid value; otherwise they are the defaults 20 and 1. |
| Config.InitCStatsKeys | pkg/controller/init.go:15-52 | The pass adds an entry for exactly the non-excluded status names not yet present, so a name in `EXCLUDE` never gets one. |
| Config.InitCStatsEntries | pkg/controller/init.go:15-52 | An existing entry is never re-initialised; a new one is the fresh record; in both cases only `Mem.Limit` differs. The limit is that of the last status naming the container. An entry no status names is unchanged. |
| Config.InitCStats | pkg/controller/init.go:15-52 | The pass never drops an entry. Which entries it adds and what they hold is stated by `InitCStatsKeys` and `InitCStatsEntries`. |
| Config.FreshGraceTicks | pkg/controller/init.go:22-47 | A fresh entry starts both grace countdowns at the interval, with a zero integral and total and an empty probe window. |
| Config.ZeroCpuIntervalCrashes | pkg/controller/init.go:153-166 | `_CPU_INTERVAL=0` is accepted. A fresh entry so configured crashes the sidecar at its first read whose memory and CPU totals parse. |
| Config.UnlistedContainerCrashes | pkg/controller/init.go:15-52 | A spec container with neither a status nor an earlier entry has no entry after `InitCStats`, so its first successful read crashes the sidecar. |
| Update.UpdateStats | pkg/controller/update.go:14-61 | A failed read is an error that changes nothing. Otherwise the stamp is set first. Output that does not split on spaces into exactly 15 tokens is rejected. Then the memory update runs, then the CPU update. An error stops the sequence, keeping the earlier changes. The `Probes[1:]` panic of an empty full window is a crash, not an error. |
| Update.UpdateEntry | pkg/controller/update.go:14-32 | On the whole `CStats` map: a failed read is an error that changes nothing. A successful read of a container without an entry crashes on the nil record. Otherwise the read is `UpdateStats` on that entry: it crashes exactly when that does, and only that entry changes. |
| Update.UpdateMemStats | pkg/controller/update.go:63-78 | It succeeds exactly when token 4, stripped of `total=` and `\nfull`, parses as uint64. On failure the state is unchanged. On success `PrevTotal` is the new total, `Integral` grows by `total − PrevTotal` modulo 2^64, and nothing else changes. |
| Update.IntegralTelescopes | pkg/controller/update.go:73-75 | Over successive updates the integral grows by the last total minus the starting `PrevTotal`, modulo 2^64. |
| Update.UpdateCpuStats | pkg/controller/update.go:80-116 | A token 9 that does not parse is an error that changes nothing. A full window of size 0 cannot be sliced. The new probe carries the parsed total and the time of the read. With one probe `Avg` is unchanged; otherwise it is the average of the oldest and newest probes. Nothing else changes. |
| Update.ZeroIntervalCrashes | pkg/controller/update.go:89-92 | With CPU interval 0 and an empty window, every read whose memory and CPU totals parse crashes: the window is full at size 0 and cannot be sliced. |
| Update.GoInt | pkg/controller/update.go:89 | `int(Interval)` is the interval itself below 2^63 and negative above. |
| Update.Push | pkg/controller/update.go:89-98 | The push fails only on an empty window with interval 0. Otherwise the window keeps its length when it was full and grows by one when not, and the new probe is last. |
| Update.PushKeepsLatest | pkg/controller/update.go:89-98 | For an interval of at least 1, pushing onto the window of the latest `Interval` probes gives the window of the latest `Interval` probes, the new one included. |
| Update.PushAllKeepsLatest | pkg/controller/update.go:89-98 | Over any sequence of pushes the window is the latest `Interval` probes in arrival order. |
| Update.PushWindow | pkg/controller/update.go:89-98 | For a window no longer than the interval, a push succeeds exactly when the interval is at least 1. The window then stays within the interval, the oldest probe is dropped exactly when the window was full, the earlier probes keep their order, and the new probe is last. |
| Update.AverageMilliCpu | pkg/controller/update.go:105-113 | The average is 1000 times the usage growth divided by the elapsed time (at least 1 µs), truncated: r·t ≤ 1000·delta < (r + 1)·t. So it never exceeds 1000·delta, and it equals that bound when the probes are at most 1 µs apart. |
| Kondense.KondenseMemory | pkg/controller/kondense.go:26-52 | Only `GraceTicks` changes. Above the target the factor is the back-off magnitude and the countdown restarts at `Interval − 1` in uint64. With a positive `MaxInc` that factor is positive, and it is exactly `MaxInc` iff the integer ratio of integral to target reaches the constant `DefaultMemCoeffInc`. During the countdown the factor is 0 and the countdown drops by one. At 0 the factor is minus the tighten magnitude and the countdown restarts. With a non-zero target and positive `MaxDec`/`CoeffDec` it is negative, and exactly `−MaxDec` iff the ratio of target to integral reaches `CoeffDec`. |
| Kondense.BackOffShape | pkg/controller/kondense.go:29-37 | For a positive `MaxInc` the back-off factor is positive. It reaches `MaxInc` exactly when the integer ratio of integral to target is at least the constant `DefaultMemCoeffInc`. |
| Kondense.BackOffIgnoresCoeffInc | pkg/controller/kondense.go:31-33 | The per-container `CoeffInc` plays no part in the memory factor. |
| Kondense.TightenShape | pkg/controller/kondense.go:46-51 | With a non-zero target and positive `MaxDec` and `CoeffDec`, a tighten step has magnitude in (0, MaxDec]. It is the full `MaxDec` exactly when the integer ratio of target to integral reaches `CoeffDec`. |
| Kondense.GraceCountdown | pkg/controller/kondense.go:39-51 | Without pressure a countdown of g ticks gives g decisions with factor 0, each dropping it by one, and the next decision tightens. |
| Kondense.KondenseCpu | pkg/controller/kondense.go:54-66 | The factor is built from the relative gap g between `Avg / max(0.1, TargetAvg)` and the limit. A positive gap becomes g + (Coeff·g)², which is the factor while it stays below `MaxInc` and is at least g; otherwise the factor is exactly `MaxInc`. A non-positive gap is the factor when it is at least `−MaxDec`, and below that the factor is exactly `−MaxDec`. |
| Kondense.CpuFactorSign | pkg/controller/kondense.go:57-65 | For a positive limit and caps the factor lies in [−MaxDec, MaxInc]. It is positive exactly when the wanted limit exceeds the current one. |
| Kondense.NewMemory | pkg/controller/kondense.go:72-73 | The new memory is the truncated scaled limit clamped to `[Min, Max]`: the value itself when in range, `Min` below it, `Max` above it, and `Max` whenever `Max < Min`. |
| Kondense.NewCpu | pkg/controller/kondense.go:75-76 | The same clamp for the CPU limit: the value when in range, `Min` below, `Max` above, `Max` whenever `Max < Min`. |
| Kondense.Adjust | pkg/controller/kondense.go:68-136 | Nothing is sent when neither clamped limit differs from the current one. The stats change only on a successful patch. That happens exactly when something changes and the answer is 200; it then carries the clamped limits, and only `Integral` changes, to 0. When something changes, a 401 asks for a token renewal, a transport failure is `SendFailed`, and any other status is `Rejected` with that code, each with the stats unchanged. |
| Kondense.KondenseContainer | pkg/controller/kondense.go:15-24 | The memory decision always moves the countdown. When both factors are below 0.01 in magnitude nothing is patched; otherwise the result is that of `Adjust`. The CPU state is untouched. |
| Kondense.GraceMeansNoPatch | pkg/controller/kondense.go:15-52 | A container without pressure, inside its grace period and with a negligible CPU factor, is not patched, and only its countdown drops by one. |
| Registry.NameList | pkg/controller/utils.go:13-21 | An absent key gives no names. A present value splits into a non-empty list of comma-free pieces that re-join to it. An empty value gives one empty name. |
| Registry.LastLimitManaged | pkg/controller/initialize.go:10-25 | A name gets a limit from the pass exactly when some non-excluded status carries it. |
| Registry.InitAllKeys | pkg/controller/initialize.go:10-25 | The status pass adds entries for exactly the non-excluded status names. |
| Registry.InitAllEntries | pkg/controller/initialize.go:10-25 | After the pass an unnamed entry is untouched. Any other entry is the existing or the fresh one, with the limit of the last status naming it. |
| PodExclude.ContainersToExclude | pkg/controller/utils.go:13-21 | Without the `unagex.com/kondense-exclude` annotation the list is empty. Otherwise it is the comma split of the annotation, re-joining to it, and an empty annotation gives one empty name. |
| LegacyInitialize.InitializeRes | pkg/controller/initialize.go:9-26 | The pass never drops an entry: every container already tracked is still tracked afterwards. |
| LegacyInitialize.InitializeResSpec | pkg/controller/initialize.go:9-26 | Excluded statuses are skipped. A new entry has grace countdown and interval 6, everything else zero, and the status's limit. An existing entry keeps all but its limit. An entry no status names is unchanged. |
| LegacyResources.MemoryText | pkg/controller/resources.go:11-17 | The rendering starts with `memory: {` and ends with `}`. |
| LegacyResources.MemoryTextIsFormat | pkg/controller/resources.go:11-17 | The rendering is exactly `memory: {limit: L, prevTotal: P, integral: I, current: C}` with signed decimals. |
| LegacyResources.MemoryTextRoundTrip | pkg/controller/resources.go:12-16 | Reading a rendering back gives limit, prevTotal, integral and current, in that order. |
| LegacyResources.StringDeterminesFourFields | pkg/controller/resources.go:11-31 | Two records render alike exactly when limit, prevTotal, integral and current agree. The averages, countdown and interval are not rendered. |
| LegacyRule.AddDelta | pkg/controller/container.go:65-67 | The integral moves by `total − PrevTotal` in int64, modulo 2^64, and is exact (possibly negative) when in range. |
| LegacyRule.BackOffFactor | pkg/controller/container.go:83-89 | The back-off factor lies in [0, 1]; `BackOffIsStep` pins it to those two values. |
| LegacyRule.TightenFactor | pkg/controller/container.go:104-108 | The tighten factor lies in [−0.01, 0]; `TightenIsStep` pins it to those two values. |
| LegacyRule.BackOffIsStep | pkg/controller/container.go:83-89 | Above 10 000 the back-off factor is exactly 1 from an integral of 200 000 on, and 0 below. |
| LegacyRule.TightenIsStep | pkg/controller/container.go:104-108 | The tighten factor is exactly −0.01 while `max(Integral, 1) ≤ 1000`, and 0 above. |
| LegacyRule.Decide | pkg/controller/container.go:82-115 | An adjustment happens exactly when the integral exceeds 10 000 or the countdown is ≤ 0, and then the countdown becomes `Interval − 1`. Otherwise the countdown drops by one. The factor takes the step values above. |
| LegacyRule.NewMemory | pkg/controller/container.go:126 | The new memory is `Limit·(1 + factor)` truncated, and equals the limit for factor 0. |
| LegacyRule.Adjust | pkg/controller/container.go:118-157 | The patch counts as done exactly on a 200 answer, carrying the new memory. |
| LegacyRule.IntegralAfter | pkg/controller/container.go:148-154 | The integral is 0 after a successful patch and unchanged after a failed one. |
| LegacyContainer.TotalOf | pkg/controller/container.go:56-63 | There is no total when there are fewer than five tokens. Otherwise there is one exactly when token 4, stripped of `total=`/`\nfull`, parses as an int64, and it is the parsed value. |
| LegacyContainer.Process | pkg/controller/container.go:64-116 | The per-entry step once the total has parsed. `PrevTotal` becomes the total and the integral accumulates; fields outside the pressure state are untouched. A missing `avg10` stops with the countdown and `avg10` unchanged. A present one is stored. The rule waits, decrementing the countdown, exactly when the integral is ≤ 10 000 and the countdown > 0. Otherwise it adjusts with the rule's factor, restarts the countdown at interval − 1, and zeroes the integral only after a successful patch. |
| LegacyContainer.KondenseContainer | pkg/controller/container.go:20-116 | An excluded or unreadable container is left alone. Fewer than five tokens, or a parsed total for a container with no entry, panics. An unparsable total stops with nothing changed. Otherwise only that container's entry changes: `PrevTotal` becomes the total and the integral accumulates. An `avg10` that does not parse stops there. A parsed one is stored, and the rule then waits exactly when the integral is ≤ 10 000 and the countdown > 0, or else patches (the integral 0 after a successful patch) and restarts the countdown. |
| LegacyLoop.String | pkg/controller/controller.go:28-34 | The loop's record renders so that limit, prevTotal, integral and current read back in that order. |
| LegacyLoop.TotalOf | pkg/controller/controller.go:130-137 | There is a total exactly when token 4, stripped of `total=`/`\nfull`, parses as an int64, and it is the parsed value. |
| LegacyLoop.Step | pkg/controller/controller.go:130-175 | An unparsable total changes nothing. Otherwise `PrevTotal` becomes the total, the integral accumulates, the countdown follows the rule, the integral is zeroed only by a successful patch, and nothing else changes. |
| LegacyLoop.StatusPass | pkg/controller/controller.go:76-90 | The status pass never drops an entry; `StatusPassEntries` states what it adds and refreshes. |
| LegacyLoop.SpecPass | pkg/controller/controller.go:92-177 | The spec pass panics exactly when some non-excluded spec container is readable and its `memory.pressure` has fewer than five tokens. |
| LegacyLoop.Tick | pkg/controller/controller.go:56-178 | A failed `Get` of the pod changes nothing. The iteration panics exactly when the spec pass does, and otherwise never drops an entry. |
| LegacyLoop.SpecPassFrame | pkg/controller/controller.go:92-100 | The spec pass never removes an entry, creates entries only for unlisted spec names, and leaves listed and unnamed entries as they were. |
| LegacyLoop.SpecPassEntry | pkg/controller/controller.go:92-176 | A non-excluded spec container starts from its entry, or the all-zero record when it has none. It keeps that record when it cannot be read. Otherwise it ends as one `Step` on its `memory.pressure` tokens: accumulation, the rule and the patch answer. |
| LegacyLoop.TickEntry | pkg/controller/controller.go:56-177 | The same for a whole iteration: the spec pass starts from the status pass's records. A container with a status starts refreshed, and one without starts from the all-zero record. |
| LegacyLoop.ExcludedUntouched | pkg/controller/controller.go:69-100 | A name in the exclusion annotation is skipped by both passes: its entry is kept as it was and none is created. |
| LegacyLoop.StatusPassEntries | pkg/controller/controller.go:76-90 | A container first seen in the status pass starts with countdown and interval 6. A known container keeps all but its limit, which is refreshed. |
| LegacyLoop.ZeroIntervalNeverWaits | pkg/controller/controller.go:156-175 | A record with interval 0 and a countdown ≤ 0 adjusts and gets countdown −1, so it never waits again. |
| Cadvisor.GetCadvisorData | internal/controller/cadvisor.go:29-97 | A status count different from the spec count gives an empty map, requeued after 1 s, with no error. Every exit that does not finish gives an empty map. A requeue comes with no error and waits 1 to 6 s. |
| Cadvisor.Collect | internal/controller/cadvisor.go:39-96 | A finished pass keeps every name it started with; the early exits are stated by `CollectEarlyExit` and `CollectFirstRefusal`. |
| Cadvisor.CollectFirstRefusal | internal/controller/cadvisor.go:40-81 | The first non-excluded status that is not ready decides the pass, with an empty map. A missing id requeues after 1 s. A non-`docker://` id, a failed query, or a number of container infos other than one is the matching error. Too few samples requeue. |
| Cadvisor.GetCadvisorDataRefusal | internal/controller/cadvisor.go:29-81 | The same outcomes for `GetCadvisorData` on a pod whose status and spec counts agree. |
| Cadvisor.CollectEarlyExit | internal/controller/cadvisor.go:40-96 | Every early exit of the loop discards the entries already computed. A requeue waits between 1 and 6 s with no error. |
| Cadvisor.SampleWait | internal/controller/cadvisor.go:70-81 | With n < 5 samples the result is an empty map and a requeue after 5 − n + 1 seconds, between 2 and 6. |
| Cadvisor.CollectReady | internal/controller/cadvisor.go:42-67 | A finished pass means every non-excluded status had a non-empty `docker://` id, and its prefix-stripped id was queried and gave one container info with at least 5 samples. |
| Cadvisor.CollectKeys | internal/controller/cadvisor.go:40-96 | A finished pass has an entry for exactly the non-excluded container names. |
| Cadvisor.CollectKeeps | internal/controller/cadvisor.go:89-92 | An entry is only ever written for the status being read. |
| Cadvisor.CollectLast | internal/controller/cadvisor.go:84-92 | On success each container maps to the last memory sample of its last status and the CPU use of its samples. |
| Cadvisor.ExcludedNeverCollected | internal/controller/cadvisor.go:30-44 | A name in `unagex.com/resources-managed-exclude` never appears in the result. |
| PodReconciler.HasUnfeasible | internal/controller/controller.go:55-59 | The condition loop finds a `DynamicResizeUnfeasible` condition exactly when one exists. |
| PodReconciler.Reconcile | internal/controller/controller.go:40-86 | NotFound gives an empty result and no error. Another `Get` failure is an error. A non-Guaranteed pod that has the condition gets no update and no requeue. Otherwise exactly one `DynamicResizeUnfeasible` condition with status "true" is appended. A conflict then requeues after 1 s without error, another failure is an error. A Guaranteed pod returns the cAdvisor requeue or error, and goes on to the patch step only when `GetCadvisorData` finished. |
| PodReconciler.ReconcileIdempotent | internal/controller/controller.go:53-77 | Reconciling again after the status update writes nothing more: the condition is added at most once. |
| PodReconciler.KeepCreate | internal/controller/controller.go:136-148 | Update and delete events are dropped and every other event, create and generic, is kept. |
| PodReconciler.Requests | internal/controller/controller.go:151-165 | The filter gives exactly one request, carrying the object's namespace and name, when `app.kubernetes.io/resources-managed-by` is `kondense`. A missing label or another value gives none. |

## Left out

- Kondense.KondenseCpu: requires a non-zero CPU limit. The source divides by `Cpu.Limit`, which nothing in pkg/controller sets, and Go's float division by zero gives Inf/NaN, which reals do not model.
- Kondense.KondenseMemory: requires a non-zero `CoeffDec`. Every getter returns a positive value; a zero would give Inf/NaN in Go.
- Kondense.KondenseContainer: carries both requirements above, through the two decisions it calls.
- Floating point: factors, averages and CPU limits are exact reals. The IEEE rounding of `math.Pow`, of `float64(delta)` and of `ParseFloat`, as well as Inf/NaN, is not modelled. A float-to-integer conversion out of range, which Go leaves implementation-defined, is modelled as wrap-around modulo 2^64.
- `calculateCPUusage` (internal/controller/cadvisor.go:99-112) is an input function of the samples, each of which carries the CPU total and timestamp it reads: its value is a float ratio of durations, and the `uint64` subtraction, the `Duration` conversions and a zero time difference (Inf/NaN) are not modelled.
- The averages of the PSI records are their exact decimal values; the rounding `parseFloat` does is not modelled.
- Kondense.NewCpu: kondense.go compares the `uint64` `newCPU` with the `float64` `Cpu.Min`/`Cpu.Max`, which Go does not accept as written. The model reads the CPU limits as reals, truncates the scaled limit as `uint64(...)` does, and clamps in the reals.
- Strings.ToUpper: only ASCII letters are upper-cased. Go's `strings.ToUpper` maps all of Unicode, which matters for no valid (DNS-1123) container name.
- Update.UpdateCpuStats: the microsecond conversion of the time difference is an exact integer. `Duration` overflow and the range of `uint64(avgCPU * 1000)` are not modelled.
- Subprocess and file I/O: the `kubectl exec`/`cat` commands and the 3-try retry loop (pkg/controller/update.go:17-32) become one optional output. The `cpu.pressure` and `memory.current` reads of the legacy code matter only when they fail, and then count as no output.
- HTTP and Kubernetes plumbing: building and sending the PATCH, `getK8SClient`, `GetRawClient`, `GetClient` and the service-account file reads become the PATCH answer. A failure of any of them is a transport error.
- The 401 token renewal and its recursive retry (pkg/controller/kondense.go:105-118) become the `RenewToken` outcome. `GetBearerToken` and its fatal log are not modelled.
- The patch step of the cAdvisor reconciler (internal/controller/controller.go:87-133) and internal/controller/patch.go: `Reconcile` stops at a `toPatch` flag.
- The `LastTransitionTime` of the appended condition, all `time.Now` stamps and the sleeps: the time of a successful read is a parameter.
- Concurrency: goroutines, the `WaitGroup` and the bearer-token mutex (pkg/controller/reconcile.go, kondense.go); the polling loops of pkg/controller/reconcile.go and cmd/main.go; `SetupWithManager`'s builder chain; pkg/manager/manager.go.
- Logging, including the `%.2f` rounding of logged factors (pkg/controller/kondense.go:124-125).
- The CPU default constants are not declared in stats.go, so they are a parameter (`Stats.CpuDefaults`) and every statement holds for any values.
- `containerToExclude`, called by initialize.go, is not part of this model; it is taken to be the annotation split of pkg/controller/utils.go.
- LegacyLoop.Tick: the command outputs and PATCH answers are functions of the container name, so a name listed twice in the spec reads the same output both times.
- example/jvm/Main.java is a demo workload with nothing to verify.
