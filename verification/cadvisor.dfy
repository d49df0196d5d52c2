/**
 * `GetCadvisorData` of the cAdvisor-based controller: for each container
 * status not named in `unagex.com/resources-managed-exclude`, the last
 * memory sample and the CPU use over the samples cAdvisor returns for the
 * container's docker id. Any problem ends the pass early with an empty
 * map, a requeue or an error. The cAdvisor query and the CPU-use
 * computation are inputs.
 */
module Cadvisor {
  import opened Wrappers
  import opened MachineInt
  import opened Strings
  import Registry

  /** The number of samples asked for and needed. */
  const Count: nat := 5

  const ExcludeAnnotation: string := "unagex.com/resources-managed-exclude"
  const DockerPrefix: string := "docker://"

  /** `ctrl.Result`: the requeue flag and the delay in seconds. */
  datatype CtrlResult = CtrlResult(requeue: bool, requeueAfter: nat)

  const Done: CtrlResult := CtrlResult(false, 0)

  /**
   * One cAdvisor sample: the memory usage, the cumulative CPU time in
   * nanoseconds and the time the sample was taken, in nanoseconds.
   */
  datatype Sample = Sample(memoryUsage: u64, cpuTotal: u64, timestamp: int)

  /** What cAdvisor returns for one container: its samples, oldest first. */
  datatype ContainerInfo = ContainerInfo(samples: seq<Sample>)

  datatype CStatus = CStatus(name: string, containerID: string)

  datatype Pod = Pod(annotations: map<string, string>, statuses: seq<CStatus>, specContainers: nat)

  /** The usage recorded for one container. */
  datatype Usage = Usage(memoryUsage: u64, cpuUsage: real)

  datatype CadvisorError = NotDocker | QueryFailed | NotOneContainer(got: nat)

  datatype Collected = Collected(ress: map<string, Usage>, result: CtrlResult, err: Option<CadvisorError>)

  /** The query for a stripped container id; `None` when it fails. */
  type Query = string -> Option<seq<ContainerInfo>>

  /** A status whose data can be read: a docker id, one container info, enough samples. */
  predicate Ready(st: CStatus, query: Query) {
    && st.containerID != ""
    && HasPrefix(st.containerID, DockerPrefix)
    && query(TrimPrefix(st.containerID, DockerPrefix)).Some?
    && |query(TrimPrefix(st.containerID, DockerPrefix)).value| == 1
    && |query(TrimPrefix(st.containerID, DockerPrefix)).value[0].samples| >= Count
  }

  /** The usage of a ready status: its last memory sample and the CPU use of all its samples. */
  function UsageOf(st: CStatus, query: Query, cpuUsage: seq<Sample> -> real): Usage
    requires Ready(st, query)
  {
    var samples := query(TrimPrefix(st.containerID, DockerPrefix)).value[0].samples;
    Usage(samples[|samples| - 1].memoryUsage, cpuUsage(samples))
  }

  /** The loop over the statuses, `acc` holding the usages so far. */
  function Collect(
    sts: seq<CStatus>, ex: seq<string>, query: Query, cpuUsage: seq<Sample> -> real,
    acc: map<string, Usage>): (r: Collected)
    ensures Succeeded(r) ==> acc.Keys <= r.ress.Keys
    decreases |sts|
  {
    if |sts| == 0 then Collected(acc, Done, None)
    else
      var st := sts[0];
      if st.name in ex then Collect(sts[1..], ex, query, cpuUsage, acc)
      else if st.containerID == "" then Collected(map[], CtrlResult(true, 1), None)
      else if !HasPrefix(st.containerID, DockerPrefix) then Collected(map[], Done, Some(NotDocker))
      else
        match query(TrimPrefix(st.containerID, DockerPrefix))
        case None => Collected(map[], Done, Some(QueryFailed))
        case Some(infos) =>
          if |infos| != 1 then Collected(map[], Done, Some(NotOneContainer(|infos|)))
          else if |infos[0].samples| < Count then
            Collected(map[], CtrlResult(true, Count - |infos[0].samples| + 1), None)
          else Collect(sts[1..], ex, query, cpuUsage, acc[st.name := UsageOf(st, query, cpuUsage)])
  }

  /** A finished pass: no requeue and no error. */
  predicate Succeeded(c: Collected) {
    !c.result.requeue && c.err.None?
  }

  function GetCadvisorData(pod: Pod, query: Query, cpuUsage: seq<Sample> -> real): (r: Collected)
    ensures |pod.statuses| != pod.specContainers ==> r == Collected(map[], CtrlResult(true, 1), None)
    ensures !Succeeded(r) ==> r.ress == map[]
    ensures r.result.requeue ==> r.err.None? && 1 <= r.result.requeueAfter <= Count + 1
  {
    if |pod.statuses| != pod.specContainers then Collected(map[], CtrlResult(true, 1), None)
    else
      var ex := Registry.NameList(pod.annotations, ExcludeAnnotation);
      CollectEarlyExit(pod.statuses, ex, query, cpuUsage, map[]);
      Collect(pod.statuses, ex, query, cpuUsage, map[])
  }

  /** Every early exit discards what was collected; a requeue waits 1 to 6 seconds. */
  lemma {:induction false} CollectEarlyExit(
    sts: seq<CStatus>, ex: seq<string>, query: Query, cpuUsage: seq<Sample> -> real,
    acc: map<string, Usage>)
    ensures var c := Collect(sts, ex, query, cpuUsage, acc);
      && (!Succeeded(c) ==> c.ress == map[])
      && (c.result.requeue ==> c.err.None? && 1 <= c.result.requeueAfter <= Count + 1)
      && (Succeeded(c) ==> c.result == Done)
    decreases |sts|
  {
    if |sts| > 0 {
      var st := sts[0];
      if st.name in ex {
        CollectEarlyExit(sts[1..], ex, query, cpuUsage, acc);
      } else if st.containerID != "" && HasPrefix(st.containerID, DockerPrefix) {
        match query(TrimPrefix(st.containerID, DockerPrefix))
        case None =>
        case Some(infos) =>
          if |infos| == 1 && |infos[0].samples| >= Count {
            CollectEarlyExit(sts[1..], ex, query, cpuUsage, acc[st.name := UsageOf(st, query, cpuUsage)]);
          }
      }
    }
  }

  /**
   * How a status that is not ready ends the pass: a missing id requeues
   * after 1 s, an id without the `docker://` prefix, a failed query or a
   * number of container infos other than one is an error, and too few
   * samples requeue for the samples still missing plus one second. Every
   * one of them discards the usages collected so far.
   */
  predicate RefusedAs(st: CStatus, query: Query, c: Collected) {
    var q := query(TrimPrefix(st.containerID, DockerPrefix));
    && c.ress == map[]
    && (st.containerID == "" ==> c.result == CtrlResult(true, 1) && c.err.None?)
    && (st.containerID != "" && !HasPrefix(st.containerID, DockerPrefix) ==>
          c.result == Done && c.err == Some(NotDocker))
    && (st.containerID != "" && HasPrefix(st.containerID, DockerPrefix) && q.None? ==>
          c.result == Done && c.err == Some(QueryFailed))
    && (st.containerID != "" && HasPrefix(st.containerID, DockerPrefix) && q.Some? && |q.value| != 1 ==>
          c.result == Done && c.err == Some(NotOneContainer(|q.value|)))
    && (st.containerID != "" && HasPrefix(st.containerID, DockerPrefix) && q.Some? && |q.value| == 1
        && |q.value[0].samples| < Count ==>
          c.result == CtrlResult(true, Count - |q.value[0].samples| + 1) && c.err.None?)
  }

  /**
   * The first non-excluded status that is not ready decides the outcome of
   * the pass, whatever follows it.
   */
  lemma {:induction false} CollectFirstRefusal(
    sts: seq<CStatus>, ex: seq<string>, query: Query, cpuUsage: seq<Sample> -> real,
    acc: map<string, Usage>, i: nat)
    requires i < |sts| && sts[i].name !in ex && !Ready(sts[i], query)
    requires forall j :: 0 <= j < i && sts[j].name !in ex ==> Ready(sts[j], query)
    ensures RefusedAs(sts[i], query, Collect(sts, ex, query, cpuUsage, acc))
    decreases i
  {
    if i > 0 {
      var tail := sts[1..];
      assert sts[0].name !in ex ==> Ready(sts[0], query);
      var acc1 := Next(sts[0], ex, query, cpuUsage, acc);
      assert Collect(sts, ex, query, cpuUsage, acc) == Collect(tail, ex, query, cpuUsage, acc1);
      forall j | 0 <= j < i - 1 && tail[j].name !in ex ensures Ready(tail[j], query) {
        assert tail[j] == sts[j + 1];
      }
      assert tail[i - 1] == sts[i];
      CollectFirstRefusal(tail, ex, query, cpuUsage, acc1, i - 1);
    }
  }

  /** `GetCadvisorData` on a pod whose status and spec counts agree ends at its first unready status. */
  lemma GetCadvisorDataRefusal(pod: Pod, query: Query, cpuUsage: seq<Sample> -> real, i: nat)
    requires |pod.statuses| == pod.specContainers
    requires var ex := Registry.NameList(pod.annotations, ExcludeAnnotation);
      && i < |pod.statuses| && pod.statuses[i].name !in ex && !Ready(pod.statuses[i], query)
      && forall j :: 0 <= j < i && pod.statuses[j].name !in ex ==> Ready(pod.statuses[j], query)
    ensures RefusedAs(pod.statuses[i], query, GetCadvisorData(pod, query, cpuUsage))
  {
    var ex := Registry.NameList(pod.annotations, ExcludeAnnotation);
    CollectFirstRefusal(pod.statuses, ex, query, cpuUsage, map[], i);
  }

  /** Waiting for samples: with `n < 5` samples the delay is `5 - n + 1` seconds, between 2 and 6. */
  lemma SampleWait(sts: seq<CStatus>, ex: seq<string>, query: Query, cpuUsage: seq<Sample> -> real,
                   acc: map<string, Usage>)
    requires |sts| > 0 && sts[0].name !in ex
    requires sts[0].containerID != "" && HasPrefix(sts[0].containerID, DockerPrefix)
    requires var q := query(TrimPrefix(sts[0].containerID, DockerPrefix));
      q.Some? && |q.value| == 1 && |q.value[0].samples| < Count
    ensures var c := Collect(sts, ex, query, cpuUsage, acc);
      var n := |query(TrimPrefix(sts[0].containerID, DockerPrefix)).value[0].samples|;
      && c == Collected(map[], CtrlResult(true, Count - n + 1), None)
      && 2 <= c.result.requeueAfter <= 6
  {
  }

  /** The statuses after index `i` do not repeat its name. */
  predicate LastOfName(sts: seq<CStatus>, i: int)
    requires 0 <= i < |sts|
  {
    forall j :: i < j < |sts| ==> sts[j].name != sts[i].name
  }

  /** The names of the statuses the exclusion list does not name. */
  function Managed(sts: seq<CStatus>, ex: seq<string>): set<string> {
    set i | 0 <= i < |sts| && sts[i].name !in ex :: sts[i].name
  }

  lemma ManagedCons(sts: seq<CStatus>, ex: seq<string>)
    requires |sts| > 0
    ensures Managed(sts, ex) == Managed(sts[1..], ex) + (if sts[0].name in ex then {} else {sts[0].name})
  {
    var tail := sts[1..];
    forall k | k in Managed(sts, ex)
      ensures k in Managed(tail, ex) + (if sts[0].name in ex then {} else {sts[0].name})
    {
      var i :| 0 <= i < |sts| && sts[i].name !in ex && sts[i].name == k;
      if i > 0 { assert tail[i - 1] == sts[i]; }
    }
    forall k | k in Managed(tail, ex) ensures k in Managed(sts, ex) {
      var i :| 0 <= i < |tail| && tail[i].name !in ex && tail[i].name == k;
      assert sts[i + 1] == tail[i];
    }
  }

  /** The usages collected for the first status onwards, when the pass goes on past it. */
  function Next(st: CStatus, ex: seq<string>, query: Query, cpuUsage: seq<Sample> -> real,
                acc: map<string, Usage>): map<string, Usage>
    requires st.name !in ex ==> Ready(st, query)
  {
    if st.name in ex then acc else acc[st.name := UsageOf(st, query, cpuUsage)]
  }

  /** A finished pass went past its first status, and every non-excluded status was ready. */
  lemma {:induction false} CollectReady(
    sts: seq<CStatus>, ex: seq<string>, query: Query, cpuUsage: seq<Sample> -> real,
    acc: map<string, Usage>)
    requires Succeeded(Collect(sts, ex, query, cpuUsage, acc))
    ensures forall i :: 0 <= i < |sts| && sts[i].name !in ex ==> Ready(sts[i], query)
    ensures |sts| > 0 ==>
      && (sts[0].name !in ex ==> Ready(sts[0], query))
      && Collect(sts, ex, query, cpuUsage, acc) ==
         Collect(sts[1..], ex, query, cpuUsage, Next(sts[0], ex, query, cpuUsage, acc))
    decreases |sts|
  {
    if |sts| > 0 {
      var tail := sts[1..];
      assert sts[0].name !in ex ==> Ready(sts[0], query);
      CollectReady(tail, ex, query, cpuUsage, Next(sts[0], ex, query, cpuUsage, acc));
      forall i | 0 <= i < |sts| && sts[i].name !in ex ensures Ready(sts[i], query) {
        if i > 0 { assert tail[i - 1] == sts[i]; }
      }
    }
  }

  /** A finished pass records a usage for exactly the non-excluded names, on top of `acc`. */
  lemma {:induction false} CollectKeys(
    sts: seq<CStatus>, ex: seq<string>, query: Query, cpuUsage: seq<Sample> -> real,
    acc: map<string, Usage>)
    requires Succeeded(Collect(sts, ex, query, cpuUsage, acc))
    ensures Collect(sts, ex, query, cpuUsage, acc).ress.Keys == acc.Keys + Managed(sts, ex)
    decreases |sts|
  {
    if |sts| == 0 {
      assert Managed(sts, ex) == {};
    } else {
      CollectReady(sts, ex, query, cpuUsage, acc);
      CollectKeys(sts[1..], ex, query, cpuUsage, Next(sts[0], ex, query, cpuUsage, acc));
      ManagedCons(sts, ex);
    }
  }

  /** A finished pass keeps what `acc` holds for a name no non-excluded status carries. */
  lemma {:induction false} CollectKeeps(
    sts: seq<CStatus>, ex: seq<string>, query: Query, cpuUsage: seq<Sample> -> real,
    acc: map<string, Usage>, k: string)
    requires Succeeded(Collect(sts, ex, query, cpuUsage, acc))
    requires k in acc && k !in Managed(sts, ex)
    ensures var r := Collect(sts, ex, query, cpuUsage, acc).ress; k in r && r[k] == acc[k]
    decreases |sts|
  {
    if |sts| > 0 {
      CollectReady(sts, ex, query, cpuUsage, acc);
      ManagedCons(sts, ex);
      CollectKeeps(sts[1..], ex, query, cpuUsage, Next(sts[0], ex, query, cpuUsage, acc), k);
    }
  }

  /**
   * In a finished pass the usage recorded for a name is that of the last
   * status carrying it: the last memory sample of its container.
   */
  lemma {:induction false} CollectLast(
    sts: seq<CStatus>, ex: seq<string>, query: Query, cpuUsage: seq<Sample> -> real,
    acc: map<string, Usage>)
    requires Succeeded(Collect(sts, ex, query, cpuUsage, acc))
    ensures var r := Collect(sts, ex, query, cpuUsage, acc).ress;
      forall i :: 0 <= i < |sts| && sts[i].name !in ex && LastOfName(sts, i) ==>
        Ready(sts[i], query) && sts[i].name in r && r[sts[i].name] == UsageOf(sts[i], query, cpuUsage)
    decreases |sts|
  {
    if |sts| > 0 {
      var tail := sts[1..];
      CollectReady(sts, ex, query, cpuUsage, acc);
      var acc1 := Next(sts[0], ex, query, cpuUsage, acc);
      CollectLast(tail, ex, query, cpuUsage, acc1);
      forall i | 0 <= i < |sts| && sts[i].name !in ex && LastOfName(sts, i)
        ensures Ready(sts[i], query)
        ensures var r := Collect(sts, ex, query, cpuUsage, acc).ress;
          sts[i].name in r && r[sts[i].name] == UsageOf(sts[i], query, cpuUsage)
      {
        if i > 0 {
          assert tail[i - 1] == sts[i];
          assert LastOfName(tail, i - 1) by {
            forall j | i - 1 < j < |tail| ensures tail[j].name != tail[i - 1].name {
              assert tail[j] == sts[j + 1];
            }
          }
        } else {
          assert sts[0].name !in Managed(tail, ex) by {
            forall j | 0 <= j < |tail| ensures tail[j].name != sts[0].name {
              assert tail[j] == sts[j + 1];
            }
          }
          CollectKeeps(tail, ex, query, cpuUsage, acc1, sts[0].name);
        }
      }
    }
  }

  /** A name in the exclusion annotation never appears in the result. */
  lemma ExcludedNeverCollected(pod: Pod, query: Query, cpuUsage: seq<Sample> -> real, k: string)
    requires k in Registry.NameList(pod.annotations, ExcludeAnnotation)
    ensures k !in GetCadvisorData(pod, query, cpuUsage).ress
  {
    var r := GetCadvisorData(pod, query, cpuUsage);
    if |pod.statuses| == pod.specContainers && Succeeded(r) {
      var ex := Registry.NameList(pod.annotations, ExcludeAnnotation);
      CollectKeys(pod.statuses, ex, query, cpuUsage, map[]);
    }
  }
}
