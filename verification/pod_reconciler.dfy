/**
 * The reconciler of the cAdvisor-based controller: the guard on the pod's
 * quality-of-service class, which records a `DynamicResizeUnfeasible`
 * condition once on a pod that is not `Guaranteed`; the hand-off to
 * `GetCadvisorData`; the event predicate; and the watch filter that
 * turns a labelled pod into one reconcile request. The API server's
 * answers are inputs.
 */
module PodReconciler {
  import opened Wrappers
  import Cadvisor

  const Guaranteed: string := "Guaranteed"
  const UnfeasibleType: string := "DynamicResizeUnfeasible"
  const UnfeasibleMessage: string :=
    "dynamic resize is only allowed for a pod with a quality of service of guaranteed"
  const ManagedByLabel: string := "app.kubernetes.io/resources-managed-by"
  const ManagedByValue: string := "kondense"

  /** A pod condition; its transition time, a clock reading, is not modelled. */
  datatype Condition = Condition(kind: string, status: string, message: string)

  /** The condition the guard appends. */
  const Unfeasible: Condition := Condition(UnfeasibleType, "true", UnfeasibleMessage)

  /** The pod as the reconciler reads it; `data` is what `GetCadvisorData` looks at. */
  datatype Pod = Pod(qosClass: string, conditions: seq<Condition>, data: Cadvisor.Pod)

  /** The answer to `Get` of the requested pod. */
  datatype GetAnswer = NotFound | GetFailed | Found(pod: Pod)

  /** The answer to the status update. */
  datatype UpdateAnswer = UpdateOk | UpdateConflict | UpdateFailed

  datatype ReconcileError = GetPodFailed | StatusUpdateFailed | CadvisorFailed(e: Cadvisor.CadvisorError)

  /**
   * What one reconcile does: the result and error it returns, the
   * conditions it writes to the pod status if it writes any, and whether it
   * goes on to the patch step.
   */
  datatype Outcome = Outcome(
    result: Cadvisor.CtrlResult,
    err: Option<ReconcileError>,
    statusUpdate: Option<seq<Condition>>,
    toPatch: bool)

  function Returned(result: Cadvisor.CtrlResult, err: Option<ReconcileError>): Outcome {
    Outcome(result, err, None, false)
  }

  /** The loop over the conditions: is one of type `DynamicResizeUnfeasible`? */
  function HasUnfeasible(cs: seq<Condition>): (b: bool)
    ensures b <==> exists i :: 0 <= i < |cs| && cs[i].kind == UnfeasibleType
    decreases |cs|
  {
    if |cs| == 0 then false
    else if cs[0].kind == UnfeasibleType then
      assert cs[0].kind == UnfeasibleType;
      true
    else
      var b := HasUnfeasible(cs[1..]);
      assert b ==> exists i :: 0 <= i < |cs| && cs[i].kind == UnfeasibleType by {
        if b {
          var j :| 0 <= j < |cs[1..]| && cs[1..][j].kind == UnfeasibleType;
          assert cs[j + 1] == cs[1..][j];
        }
      }
      assert (exists i :: 0 <= i < |cs| && cs[i].kind == UnfeasibleType) ==> b by {
        if exists i :: 0 <= i < |cs| && cs[i].kind == UnfeasibleType {
          var i :| 0 <= i < |cs| && cs[i].kind == UnfeasibleType;
          assert i > 0;
          assert cs[1..][i - 1] == cs[i];
        }
      }
      b
  }

  /** The number of conditions of type `DynamicResizeUnfeasible`. */
  function CountUnfeasible(cs: seq<Condition>): nat
    decreases |cs|
  {
    if |cs| == 0 then 0
    else (if cs[0].kind == UnfeasibleType then 1 else 0) + CountUnfeasible(cs[1..])
  }

  lemma {:induction false} CountUnfeasibleAppend(cs: seq<Condition>, c: Condition)
    ensures CountUnfeasible(cs + [c]) == CountUnfeasible(cs) + (if c.kind == UnfeasibleType then 1 else 0)
    decreases |cs|
  {
    if |cs| == 0 {
      assert CountUnfeasible([c]) == (if c.kind == UnfeasibleType then 1 else 0) + CountUnfeasible([]);
    } else {
      assert (cs + [c])[1..] == cs[1..] + [c];
      CountUnfeasibleAppend(cs[1..], c);
    }
  }

  lemma {:induction false} CountUnfeasibleZero(cs: seq<Condition>)
    ensures CountUnfeasible(cs) == 0 <==> !HasUnfeasible(cs)
    decreases |cs|
  {
    if |cs| > 0 {
      CountUnfeasibleZero(cs[1..]);
    }
  }

  /** `Reconcile` up to the patch step. */
  function Reconcile(get: GetAnswer, update: UpdateAnswer,
                     query: Cadvisor.Query, cpuUsage: seq<Cadvisor.Sample> -> real): (r: Outcome)
    ensures get.NotFound? ==> r == Returned(Cadvisor.Done, None)
    ensures get.GetFailed? ==> r == Returned(Cadvisor.Done, Some(GetPodFailed))
    ensures r.statusUpdate.Some? <==>
      get.Found? && get.pod.qosClass != Guaranteed && !HasUnfeasible(get.pod.conditions)
    ensures r.statusUpdate.Some? ==>
      && r.statusUpdate.value == get.pod.conditions + [Unfeasible]
      && CountUnfeasible(r.statusUpdate.value) == 1
      && !r.toPatch
      && r.result == (if update.UpdateConflict? then Cadvisor.CtrlResult(false, 1) else Cadvisor.Done)
      && (r.err.Some? <==> update.UpdateFailed?)
    ensures get.Found? && get.pod.qosClass != Guaranteed && HasUnfeasible(get.pod.conditions) ==>
      r == Returned(Cadvisor.Done, None)
    ensures r.toPatch <==>
      get.Found? && get.pod.qosClass == Guaranteed &&
      Cadvisor.Succeeded(Cadvisor.GetCadvisorData(get.pod.data, query, cpuUsage))
    ensures get.Found? && get.pod.qosClass == Guaranteed && !r.toPatch ==>
      var c := Cadvisor.GetCadvisorData(get.pod.data, query, cpuUsage);
      && r.result == c.result && r.statusUpdate.None?
      && (r.err.Some? <==> c.err.Some?)
      && (c.err.Some? ==> r.err == Some(CadvisorFailed(c.err.value)))
  {
    match get
    case NotFound => Returned(Cadvisor.Done, None)
    case GetFailed => Returned(Cadvisor.Done, Some(GetPodFailed))
    case Found(pod) =>
      if pod.qosClass != Guaranteed then
        if HasUnfeasible(pod.conditions) then Returned(Cadvisor.Done, None)
        else
          var conds := pod.conditions + [Unfeasible];
          CountUnfeasibleZero(pod.conditions);
          CountUnfeasibleAppend(pod.conditions, Unfeasible);
          match update
          case UpdateConflict => Outcome(Cadvisor.CtrlResult(false, 1), None, Some(conds), false)
          case UpdateFailed => Outcome(Cadvisor.Done, Some(StatusUpdateFailed), Some(conds), false)
          case UpdateOk => Outcome(Cadvisor.Done, None, Some(conds), false)
      else
        var c := Cadvisor.GetCadvisorData(pod.data, query, cpuUsage);
        if c.result.requeue || c.err.Some? then
          Returned(c.result, if c.err.Some? then Some(CadvisorFailed(c.err.value)) else None)
        else Outcome(Cadvisor.Done, None, None, true)
  }

  /**
   * Reconciling again a pod whose status update went through writes
   * nothing more: the condition is added at most once, whatever the
   * answers.
   */
  lemma ReconcileIdempotent(pod: Pod, update: UpdateAnswer, update2: UpdateAnswer,
                            query: Cadvisor.Query, cpuUsage: seq<Cadvisor.Sample> -> real)
    requires pod.qosClass != Guaranteed
    ensures var r := Reconcile(Found(pod), update, query, cpuUsage);
      var after := if r.statusUpdate.Some? then pod.(conditions := r.statusUpdate.value) else pod;
      && HasUnfeasible(after.conditions)
      && Reconcile(Found(after), update2, query, cpuUsage) == Returned(Cadvisor.Done, None)
  {
    var r := Reconcile(Found(pod), update, query, cpuUsage);
    if r.statusUpdate.Some? {
      var cs := r.statusUpdate.value;
      assert cs[|cs| - 1].kind == UnfeasibleType;
    }
  }

  /** The event kinds controller-runtime hands to a predicate. */
  datatype Event = CreateEvent | UpdateEvent | DeleteEvent | GenericEvent

  /**
   * `keepCreatePredicate`: create and update/delete are set explicitly;
   * generic events go to the unset `GenericFunc`, which `predicate.Funcs`
   * answers with true.
   */
  function KeepCreate(e: Event): (keep: bool)
    ensures keep <==> !(e.UpdateEvent? || e.DeleteEvent?)
  {
    match e
    case CreateEvent => true
    case UpdateEvent => false
    case DeleteEvent => false
    case GenericEvent => true
  }

  /** A watched object: its namespace, name and labels. */
  datatype Object = Object(namespace: string, name: string, labels: map<string, string>)

  datatype Request = Request(namespace: string, name: string)

  /** A Go map lookup: the empty string for a missing key. */
  function Lookup(m: map<string, string>, key: string): string {
    if key in m then m[key] else ""
  }

  /** The map function of the watch: one request for a pod labelled as managed by kondense. */
  function Requests(o: Object): (r: seq<Request>)
    ensures |r| <= 1
    ensures |r| == 1 <==> ManagedByLabel in o.labels && o.labels[ManagedByLabel] == ManagedByValue
    ensures forall q :: q in r ==> q.namespace == o.namespace && q.name == o.name
  {
    if Lookup(o.labels, ManagedByLabel) != ManagedByValue then []
    else [Request(o.namespace, o.name)]
  }
}
