/**
 * What every revision's initialisation loop shares: a comma-separated list
 * of container names read from one entry of a string map, and the pass over
 * the pod's container statuses that skips the listed names, creates an
 * entry for a container seen for the first time and refreshes its memory
 * limit on every pass.
 */
module Registry {
  import opened Wrappers
  import opened MachineInt
  import opened Strings

  /** The comma-separated names under `key`; none when the key is absent. */
  function NameList(m: map<string, string>, key: string): (r: seq<string>)
    ensures key !in m ==> r == []
    ensures key in m ==> |r| >= 1 && Separated(r, ',') && Join(r, ',') == m[key]
    ensures key in m && m[key] == "" ==> r == [""]
  {
    if key in m then
      SplitSeparated(m[key], ',');
      JoinSplit(m[key], ',');
      Split(m[key], ',')
    else []
  }

  /** A pod container status: its name and the `Value()` of its allocated memory. */
  datatype ContainerStatus = ContainerStatus(name: string, memoryLimit: i64)

  /** Setting the limit twice is setting it once, to the second value. */
  ghost predicate Overwrites<S(!new)>(withLimit: (S, i64) -> S) {
    forall x: S, a: i64, b: i64 :: withLimit(withLimit(x, a), b) == withLimit(x, b)
  }

  /** One status: skipped when excluded; otherwise the existing or a fresh entry, with the status's limit. */
  function InitOne<S>(
    cs: map<string, S>, st: ContainerStatus, excluded: seq<string>,
    create: string -> S, withLimit: (S, i64) -> S): map<string, S>
  {
    if st.name in excluded then cs
    else
      var base := if st.name in cs then cs[st.name] else create(st.name);
      cs[st.name := withLimit(base, st.memoryLimit)]
  }

  /** The whole pass, statuses in order. */
  function InitAll<S>(
    cs: map<string, S>, sts: seq<ContainerStatus>, excluded: seq<string>,
    create: string -> S, withLimit: (S, i64) -> S): map<string, S>
    decreases |sts|
  {
    if |sts| == 0 then cs
    else InitAll(InitOne(cs, sts[0], excluded, create, withLimit), sts[1..], excluded, create, withLimit)
  }

  /** The names of the statuses the exclusion list does not name. */
  function ManagedNames(sts: seq<ContainerStatus>, excluded: seq<string>): set<string> {
    set i | 0 <= i < |sts| && sts[i].name !in excluded :: sts[i].name
  }

  /** The memory limit of the last non-excluded status named `name`. */
  function LastLimit(sts: seq<ContainerStatus>, name: string, excluded: seq<string>): Option<i64>
    decreases |sts|
  {
    if |sts| == 0 then None
    else
      var later := LastLimit(sts[1..], name, excluded);
      if later.Some? then later
      else if sts[0].name == name && name !in excluded then Some(sts[0].memoryLimit)
      else None
  }

  /** What the pass leaves under `k`, given the limit of the last status naming it. */
  function Expected<S>(
    cs: map<string, S>, k: string, last: Option<i64>,
    create: string -> S, withLimit: (S, i64) -> S): S
    requires last.None? ==> k in cs
  {
    match last
    case None => cs[k]
    case Some(l) => withLimit(if k in cs then cs[k] else create(k), l)
  }

  lemma ManagedNamesCons(sts: seq<ContainerStatus>, ex: seq<string>)
    requires |sts| > 0
    ensures ManagedNames(sts, ex) ==
      ManagedNames(sts[1..], ex) + (if sts[0].name in ex then {} else {sts[0].name})
  {
    var tail := sts[1..];
    forall k | k in ManagedNames(sts, ex)
      ensures k in ManagedNames(tail, ex) + (if sts[0].name in ex then {} else {sts[0].name})
    {
      var i :| 0 <= i < |sts| && sts[i].name !in ex && sts[i].name == k;
      if i > 0 { assert tail[i - 1] == sts[i]; }
    }
    forall k | k in ManagedNames(tail, ex) ensures k in ManagedNames(sts, ex) {
      var i :| 0 <= i < |tail| && tail[i].name !in ex && tail[i].name == k;
      assert sts[i + 1] == tail[i];
    }
  }

  /** A name has a last status exactly when it is a managed name. */
  lemma {:induction false} LastLimitManaged(sts: seq<ContainerStatus>, k: string, ex: seq<string>)
    ensures LastLimit(sts, k, ex).Some? <==> k in ManagedNames(sts, ex)
    decreases |sts|
  {
    if |sts| == 0 {
      assert ManagedNames(sts, ex) == {};
    } else {
      LastLimitManaged(sts[1..], k, ex);
      ManagedNamesCons(sts, ex);
    }
  }

  /** A listed name has no last status. */
  lemma {:induction false} LastLimitExcluded(sts: seq<ContainerStatus>, k: string, ex: seq<string>)
    requires k in ex
    ensures LastLimit(sts, k, ex).None?
    decreases |sts|
  {
    if |sts| > 0 {
      LastLimitExcluded(sts[1..], k, ex);
    }
  }

  /**
   * The pass adds an entry for exactly the managed containers not yet
   * present, so a listed name never gets one.
   */
  lemma {:induction false} InitAllKeys<S>(
    cs: map<string, S>, sts: seq<ContainerStatus>, ex: seq<string>,
    create: string -> S, withLimit: (S, i64) -> S)
    ensures InitAll(cs, sts, ex, create, withLimit).Keys == cs.Keys + ManagedNames(sts, ex)
    decreases |sts|
  {
    if |sts| == 0 {
      assert ManagedNames(sts, ex) == {};
    } else {
      InitAllKeys(InitOne(cs, sts[0], ex, create, withLimit), sts[1..], ex, create, withLimit);
      ManagedNamesCons(sts, ex);
    }
  }

  /**
   * Every entry after the pass: an entry no status names is untouched; any
   * other is the existing entry, or the fresh one when there was none, with
   * the limit of the last status naming it. An existing entry is therefore
   * never re-created.
   */
  lemma {:induction false} InitAllEntries<S(!new)>(
    cs: map<string, S>, sts: seq<ContainerStatus>, ex: seq<string>,
    create: string -> S, withLimit: (S, i64) -> S)
    requires Overwrites(withLimit)
    ensures var r := InitAll(cs, sts, ex, create, withLimit);
      forall k :: k in r ==>
        (LastLimit(sts, k, ex).None? ==> k in cs)
        && r[k] == Expected(cs, k, LastLimit(sts, k, ex), create, withLimit)
    decreases |sts|
  {
    var r := InitAll(cs, sts, ex, create, withLimit);
    if |sts| > 0 {
      var cs1 := InitOne(cs, sts[0], ex, create, withLimit);
      InitAllEntries(cs1, sts[1..], ex, create, withLimit);
      forall k | k in r
        ensures (LastLimit(sts, k, ex).None? ==> k in cs)
        ensures r[k] == Expected(cs, k, LastLimit(sts, k, ex), create, withLimit)
      {
        var later := LastLimit(sts[1..], k, ex);
        if later.Some? && k == sts[0].name && k !in ex {
          var base := if k in cs then cs[k] else create(k);
          assert cs1[k] == withLimit(base, sts[0].memoryLimit);
          assert r[k] == withLimit(withLimit(base, sts[0].memoryLimit), later.value);
        }
      }
    }
  }
}
