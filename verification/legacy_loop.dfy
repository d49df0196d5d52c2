/**
 * One iteration of the polling loop of controller.go, the oldest revision:
 * a status pass that creates and refreshes entries, then a spec pass that
 * reads each container's `memory.pressure`, updates the signed integral
 * and applies the fixed-constant rule. The pod, the command outputs and
 * the PATCH answers are inputs.
 */
module LegacyLoop {
  import opened Wrappers
  import opened MachineInt
  import opened Strings
  import opened Decimal
  import opened Api
  import opened Registry
  import opened LegacyRule
  import LegacyResources
  import PodExclude
  import Update

  /** controller.go's own memory record, without the PSI averages. */
  datatype Pressure = Pressure(
    limit: i64,
    prevTotal: i64,
    integral: i64,
    current: i64,
    graceTicks: i64,
    interval: i64)

  datatype Resources = Resources(memory: Pressure)

  /** `Resources.String` of controller.go: the same line as resources.go renders. */
  function String(r: Resources): (s: string)
    ensures LegacyResources.ParseMemoryText(s) ==
      Some((r.memory.limit as int, r.memory.prevTotal as int, r.memory.integral as int,
            r.memory.current as int))
  {
    var m := r.memory;
    LegacyResources.MemoryTextRoundTrip(m.limit, m.prevTotal, m.integral, m.current);
    LegacyResources.MemoryText(m.limit, m.prevTotal, m.integral, m.current)
  }

  /** The pod as this loop reads it. */
  datatype Pod = Pod(annotations: map<string, string>, statuses: seq<ContainerStatus>, containers: seq<string>)

  const DefaultTicks: i64 := 6

  /** The entry of a container first seen in the status pass. */
  const StatusEntry: Resources := Resources(Pressure(0, 0, 0, 0, DefaultTicks, DefaultTicks))

  /** The entry of a container first seen in the spec pass: all zero, interval included. */
  const SpecEntry: Resources := Resources(Pressure(0, 0, 0, 0, 0, 0))

  function WithLimit(r: Resources, limit: i64): Resources {
    r.(memory := r.memory.(limit := limit))
  }

  /** The status pass never drops an entry. */
  function StatusPass(res: map<string, Resources>, pod: Pod): (r: map<string, Resources>)
    ensures res.Keys <= r.Keys
  {
    InitAllKeys(res, pod.statuses, PodExclude.ContainersToExclude(pod.annotations), _ => StatusEntry, WithLimit);
    InitAll(res, pod.statuses, PodExclude.ContainersToExclude(pod.annotations), _ => StatusEntry, WithLimit)
  }

  /** Token 4 read as an int64 total; `None` on a parse error. Requires five tokens. */
  function TotalOf(toks: seq<string>): (r: Option<int>)
    requires |toks| >= 5
    ensures r.Some? <==> ParseInt(Update.MemoryTotalText(toks[4])).Parsed?
    ensures r.Some? ==> r.value == ParseInt(Update.MemoryTotalText(toks[4])).n
    ensures r.Some? ==> -TwoTo63 <= r.value < TwoTo63
  {
    match ParseInt(Update.MemoryTotalText(toks[4]))
    case Parsed(n) => Some(n)
    case _ => None
  }

  /**
   * The integral step and the rule for one container's record, given its
   * `memory.pressure` tokens: the record is unchanged on a parse error.
   */
  function Step(p: Pressure, toks: seq<string>, resp: Response): (q: Pressure)
    requires |toks| >= 5
    ensures TotalOf(toks).None? ==> q == p
    ensures TotalOf(toks).Some? ==>
      var total := TotalOf(toks).value;
      var integral := AddDelta(p.integral, p.prevTotal, total);
      var d := Decide(integral, p.graceTicks, p.interval);
      && q.prevTotal == total
      && q.(prevTotal := p.prevTotal, integral := p.integral, graceTicks := p.graceTicks) == p
      && q.graceTicks == d.graceTicks
      && (d.factor.None? ==> q.integral == integral)
      && (d.factor.Some? && resp == Status(StatusOK) ==> q.integral == 0)
      && (d.factor.Some? && resp != Status(StatusOK) ==> q.integral == integral)
  {
    match TotalOf(toks)
    case None => p
    case Some(total) =>
      var integral := AddDelta(p.integral, p.prevTotal, total);
      var d := Decide(integral, p.graceTicks, p.interval);
      match d.factor
      case None => p.(prevTotal := total, integral := integral, graceTicks := d.graceTicks)
      case Some(f) =>
        var patch := Adjust(p.limit, f, resp);
        p.(prevTotal := total, integral := IntegralAfter(integral, patch), graceTicks := d.graceTicks)
  }

  /** A container the spec pass reaches whose `memory.pressure` has fewer than five tokens. */
  predicate PanicsAt(names: seq<string>, ex: seq<string>, output: string -> Option<string>, i: int)
    requires 0 <= i < |names|
  {
    names[i] !in ex && output(names[i]).Some? && |Split(output(names[i]).value, ' ')| < 5
  }

  /**
   * The spec pass over `names`: listed names are skipped, a missing entry
   * is created as the all-zero record, an unreadable container is left for
   * the next tick, and fewer than five tokens panics (`None`).
   */
  function SpecPass(
    res: map<string, Resources>, names: seq<string>, ex: seq<string>,
    output: string -> Option<string>, resp: string -> Response): (r: Option<map<string, Resources>>)
    ensures r.None? <==> exists i :: 0 <= i < |names| && PanicsAt(names, ex, output, i)
    decreases |names|
  {
    if |names| == 0 then Some(res)
    else
      var n := names[0];
      if n in ex then
        PanicsShift(names, ex, output);
        SpecPass(res, names[1..], ex, output, resp)
      else
        var res1 := if n in res then res else res[n := SpecEntry];
        match output(n)
        case None =>
          PanicsShift(names, ex, output);
          SpecPass(res1, names[1..], ex, output, resp)
        case Some(out) =>
          var toks := Split(out, ' ');
          if |toks| < 5 then
            assert PanicsAt(names, ex, output, 0);
            None
          else
            var res2 := res1[n := Resources(Step(res1[n].memory, toks, resp(n)))];
            PanicsShift(names, ex, output);
            SpecPass(res2, names[1..], ex, output, resp)
  }

  /** Past a first name that does not panic, the panicking names are those of the rest. */
  lemma PanicsShift(names: seq<string>, ex: seq<string>, output: string -> Option<string>)
    requires |names| > 0 && !PanicsAt(names, ex, output, 0)
    ensures (exists i :: 0 <= i < |names| && PanicsAt(names, ex, output, i)) <==>
      (exists i :: 0 <= i < |names[1..]| && PanicsAt(names[1..], ex, output, i))
  {
    var tail := names[1..];
    if exists i :: 0 <= i < |names| && PanicsAt(names, ex, output, i) {
      var i :| 0 <= i < |names| && PanicsAt(names, ex, output, i);
      assert i > 0 && tail[i - 1] == names[i];
      assert PanicsAt(tail, ex, output, i - 1);
    }
    if exists i :: 0 <= i < |tail| && PanicsAt(tail, ex, output, i) {
      var i :| 0 <= i < |tail| && PanicsAt(tail, ex, output, i);
      assert tail[i] == names[i + 1];
      assert PanicsAt(names, ex, output, i + 1);
    }
  }

  /**
   * One iteration. A failed `Get` of the pod (`None`) skips it; `None` as
   * the result is a panic.
   */
  function Tick(
    res: map<string, Resources>, pod: Option<Pod>,
    output: string -> Option<string>, resp: string -> Response): (r: Option<map<string, Resources>>)
    ensures pod.None? ==> r == Some(res)
    ensures r.None? <==> (pod.Some? &&
      exists i :: 0 <= i < |pod.value.containers| &&
        PanicsAt(pod.value.containers, PodExclude.ContainersToExclude(pod.value.annotations), output, i))
    ensures r.Some? ==> res.Keys <= r.value.Keys
  {
    match pod
    case None => Some(res)
    case Some(p) =>
      var ex := PodExclude.ContainersToExclude(p.annotations);
      SpecPassFrame(StatusPass(res, p), p.containers, ex, output, resp);
      SpecPass(StatusPass(res, p), p.containers, ex, output, resp)
  }

  /** The spec pass never touches a listed name, nor a name it is not given. */
  lemma {:induction false} SpecPassFrame(
    res: map<string, Resources>, names: seq<string>, ex: seq<string>,
    output: string -> Option<string>, resp: string -> Response)
    ensures var r := SpecPass(res, names, ex, output, resp);
      r.Some? ==>
        && res.Keys <= r.value.Keys
        && (forall k :: k in r.value && k !in res ==> k in names && k !in ex)
        && (forall k :: k in res && (k in ex || k !in names) ==> r.value[k] == res[k])
    decreases |names|
  {
    if |names| > 0 {
      var n := names[0];
      if n in ex {
        SpecPassFrame(res, names[1..], ex, output, resp);
      } else {
        var res1 := if n in res then res else res[n := SpecEntry];
        match output(n)
        case None =>
          SpecPassFrame(res1, names[1..], ex, output, resp);
        case Some(out) =>
          var toks := Split(out, ' ');
          if |toks| >= 5 {
            var res2 := res1[n := Resources(Step(res1[n].memory, toks, resp(n)))];
            SpecPassFrame(res2, names[1..], ex, output, resp);
          }
      }
    }
  }

  /**
   * What the spec pass does to a container it reaches: its record (the
   * existing one, or the all-zero record when it has none) is left as it
   * is when the container cannot be read, and is otherwise advanced by one
   * `Step` on its `memory.pressure` tokens. Container names are unique
   * within a pod, so the name occurs once.
   */
  lemma {:induction false} SpecPassEntry(
    res: map<string, Resources>, names: seq<string>, ex: seq<string>,
    output: string -> Option<string>, resp: string -> Response, i: nat)
    requires i < |names| && names[i] !in ex
    requires names[i] !in names[..i] && names[i] !in names[i + 1..]
    requires SpecPass(res, names, ex, output, resp).Some?
    ensures var n := names[i];
      var r := SpecPass(res, names, ex, output, resp).value;
      var base := if n in res then res[n].memory else Pressure(0, 0, 0, 0, 0, 0);
      && n in r
      && (output(n).None? ==> r[n] == Resources(base))
      && (output(n).Some? ==>
            && |Split(output(n).value, ' ')| >= 5
            && r[n] == Resources(Step(base, Split(output(n).value, ' '), resp(n))))
    decreases i
  {
    var n := names[i];
    var n0 := names[0];
    var tail := names[1..];
    var res1 := if n0 in res then res else res[n0 := SpecEntry];
    if i == 0 {
      match output(n0)
      case None =>
        SpecPassFrame(res1, tail, ex, output, resp);
      case Some(out) =>
        var toks := Split(out, ' ');
        var res2 := res1[n0 := Resources(Step(res1[n0].memory, toks, resp(n0)))];
        SpecPassFrame(res2, tail, ex, output, resp);
    } else {
      assert n0 == names[..i][0];
      assert tail[i - 1] == n && tail[..i - 1] == names[1..i] && tail[i..] == names[i + 1..];
      assert n !in tail[..i - 1] by { assert names[1..i] == names[..i][1..]; }
      if n0 in ex {
        SpecPassEntry(res, tail, ex, output, resp, i - 1);
      } else {
        match output(n0)
        case None =>
          SpecPassEntry(res1, tail, ex, output, resp, i - 1);
        case Some(out) =>
          var toks := Split(out, ' ');
          var res2 := res1[n0 := Resources(Step(res1[n0].memory, toks, resp(n0)))];
          SpecPassEntry(res2, tail, ex, output, resp, i - 1);
      }
    }
  }

  /**
   * The same for a whole iteration: the spec pass runs on the entries the
   * status pass leaves, so a container with a status starts from its
   * refreshed record and one without from the all-zero record.
   */
  lemma TickEntry(
    res: map<string, Resources>, pod: Pod,
    output: string -> Option<string>, resp: string -> Response, i: nat)
    requires var ex := PodExclude.ContainersToExclude(pod.annotations);
      && i < |pod.containers| && pod.containers[i] !in ex
      && pod.containers[i] !in pod.containers[..i] && pod.containers[i] !in pod.containers[i + 1..]
    requires Tick(res, Some(pod), output, resp).Some?
    ensures var n := pod.containers[i];
      var r := Tick(res, Some(pod), output, resp).value;
      var s := StatusPass(res, pod);
      var base := if n in s then s[n].memory else Pressure(0, 0, 0, 0, 0, 0);
      && n in r
      && (output(n).None? ==> r[n] == Resources(base))
      && (output(n).Some? ==>
            && |Split(output(n).value, ' ')| >= 5
            && r[n] == Resources(Step(base, Split(output(n).value, ' '), resp(n))))
  {
    var ex := PodExclude.ContainersToExclude(pod.annotations);
    SpecPassEntry(StatusPass(res, pod), pod.containers, ex, output, resp, i);
  }

  /**
   * A name in the exclusion annotation is skipped by both passes: its entry,
   * if any, is kept as it was, and none is created.
   */
  lemma ExcludedUntouched(
    res: map<string, Resources>, pod: Pod,
    output: string -> Option<string>, resp: string -> Response, k: string)
    requires k in PodExclude.ContainersToExclude(pod.annotations)
    requires Tick(res, Some(pod), output, resp).Some?
    ensures var r := Tick(res, Some(pod), output, resp).value;
      (k in r <==> k in res) && (k in res ==> r[k] == res[k])
  {
    var ex := PodExclude.ContainersToExclude(pod.annotations);
    var create := _ => StatusEntry;
    var s := StatusPass(res, pod);
    assert Overwrites(WithLimit);
    InitAllKeys(res, pod.statuses, ex, create, WithLimit);
    InitAllEntries(res, pod.statuses, ex, create, WithLimit);
    LastLimitExcluded(pod.statuses, k, ex);
    LastLimitManaged(pod.statuses, k, ex);
    SpecPassFrame(s, pod.containers, ex, output, resp);
  }

  /**
   * A container first seen in the status pass starts with grace countdown
   * and interval 6 and its status's limit; a container already known keeps
   * everything but its limit.
   */
  lemma StatusPassEntries(res: map<string, Resources>, pod: Pod)
    ensures var r := StatusPass(res, pod);
      var ex := PodExclude.ContainersToExclude(pod.annotations);
      && r.Keys == res.Keys + ManagedNames(pod.statuses, ex)
      && (forall k :: k in r && k !in res ==>
            r[k].memory == StatusEntry.memory.(limit := r[k].memory.limit))
      && (forall k :: k in r && k in res ==>
            r[k].memory == res[k].memory.(limit := r[k].memory.limit))
  {
    var ex := PodExclude.ContainersToExclude(pod.annotations);
    var create := _ => StatusEntry;
    assert Overwrites(WithLimit);
    InitAllKeys(res, pod.statuses, ex, create, WithLimit);
    InitAllEntries(res, pod.statuses, ex, create, WithLimit);
  }

  /**
   * A record with interval 0, as the spec pass creates, gets a countdown of
   * -1 from its first adjustment on, so it never waits again: every
   * readable tick adjusts.
   */
  lemma {:induction false} ZeroIntervalNeverWaits(p: Pressure, toks: seq<string>, resp: Response)
    requires |toks| >= 5 && TotalOf(toks).Some?
    requires p.interval == 0 && p.graceTicks <= 0
    ensures var d := Decide(AddDelta(p.integral, p.prevTotal, TotalOf(toks).value), p.graceTicks, p.interval);
      d.factor.Some? && d.graceTicks == -1
    ensures Step(p, toks, resp).graceTicks == -1 && Step(p, toks, resp).interval == 0
  {
    assert WrapI64(0 - 1) == -1;
  }
}
