/**
 * `InitializeRes` of the oldest revision: every container status not
 * named in the exclusion annotation gets a `Resources` entry the first time
 * it is seen (grace countdown and interval 6, everything else 0), and its
 * memory limit is refreshed on every call.
 */
module LegacyInitialize {
  import opened MachineInt
  import opened Registry
  import opened LegacyResources
  import PodExclude

  const DefaultTicks: i64 := 6

  /** The entry created for a container seen for the first time. */
  const FreshResources: Resources :=
    Resources(Pressure(0, 0, 0, 0, 0.0, 0.0, 0.0, DefaultTicks, DefaultTicks))

  function WithLimit(r: Resources, limit: i64): Resources {
    r.(memory := r.memory.(limit := limit))
  }

  function InitializeRes(res: map<string, Resources>, sts: seq<ContainerStatus>,
                         annotations: map<string, string>): (r: map<string, Resources>)
    ensures res.Keys <= r.Keys
  {
    InitAllKeys(res, sts, PodExclude.ContainersToExclude(annotations), _ => FreshResources, WithLimit);
    InitAll(res, sts, PodExclude.ContainersToExclude(annotations), _ => FreshResources, WithLimit)
  }

  /**
   * Excluded statuses are skipped; a new entry is the fresh record with the
   * status's limit; an existing entry keeps its integral, totals and
   * countdown, only its limit refreshed; an entry no status names is
   * untouched.
   */
  lemma InitializeResSpec(res: map<string, Resources>, sts: seq<ContainerStatus>,
                          annotations: map<string, string>)
    ensures var r := InitializeRes(res, sts, annotations);
      var ex := PodExclude.ContainersToExclude(annotations);
      && r.Keys == res.Keys + ManagedNames(sts, ex)
      && (forall k :: k in r && k !in res ==>
            LastLimit(sts, k, ex).Some?
            && r[k] == WithLimit(FreshResources, LastLimit(sts, k, ex).value))
      && (forall k :: k in res && LastLimit(sts, k, ex).Some? ==>
            r[k] == WithLimit(res[k], LastLimit(sts, k, ex).value))
      && (forall k :: k in res && LastLimit(sts, k, ex).None? ==> r[k] == res[k])
      && (forall k :: k in ex ==> LastLimit(sts, k, ex).None?)
  {
    var ex := PodExclude.ContainersToExclude(annotations);
    var create := _ => FreshResources;
    var r := InitializeRes(res, sts, annotations);
    assert Overwrites(WithLimit);
    InitAllKeys(res, sts, ex, create, WithLimit);
    InitAllEntries(res, sts, ex, create, WithLimit);
    forall k | k in ex ensures LastLimit(sts, k, ex).None? {
      LastLimitExcluded(sts, k, ex);
    }
  }
}
