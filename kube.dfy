/**
 * The Kubernetes objects the core reads (only the fields it consumes) and the condition-list
 * helpers of k8s.io/apimachinery's `meta` package that status.go calls.
 */
module Kube {
  import opened Outcomes
  import opened Int32

  /**
   * Object metadata. `controllerUID` is the UID of the owner reference marked as controller,
   * i.e. what `metav1.GetControllerOfNoCopy` finds, or None when it finds nothing.
   */
  datatype ObjectMeta = ObjectMeta(
    namespace: string,
    name: string,
    uid: string,
    generation: int,
    labels: map<string, string>,
    controllerUID: Option<string>)

  datatype Container = Container(name: string, image: string)

  datatype ContainerStatus = ContainerStatus(name: string, ready: bool, running: bool)

  datatype Pod = Pod(meta: ObjectMeta, containers: seq<Container>, containerStatuses: seq<ContainerStatus>)

  datatype Service = Service(meta: ObjectMeta)

  datatype StatefulSetStatus = StatefulSetStatus(
    observedGeneration: int,
    readyReplicas: int32,
    availableReplicas: int32,
    updatedReplicas: int32,
    currentReplicas: int32)

  /** A StatefulSet; `replicas` is `*Spec.Replicas`, which the API server always defaults. */
  datatype StatefulSet = StatefulSet(meta: ObjectMeta, replicas: int32, status: StatefulSetStatus)

  /** Go's `labels[key]`: the value, or "" when the key is absent. */
  function LabelValue(labels: map<string, string>, key: string): (v: string)
    ensures key !in labels ==> v == ""
    ensures key in labels ==> v == labels[key]
  {
    if key in labels then labels[key] else ""
  }

  datatype ConditionStatus = ConditionTrue | ConditionFalse | ConditionUnknown

  /** A metav1.Condition; times are seconds, with ZeroTime for the zero `metav1.Time`. */
  datatype Condition = Condition(
    conditionType: string,
    status: ConditionStatus,
    observedGeneration: int,
    lastTransitionTime: int,
    reason: string,
    message: string)

  const ZeroTime: int := 0

  /** Index of the first condition of the given type. */
  function FindStatusConditionIndex(conditions: seq<Condition>, conditionType: string): (r: Option<nat>)
    ensures r.Some? ==> r.value < |conditions| && conditions[r.value].conditionType == conditionType
    ensures r.Some? ==> forall j :: 0 <= j < r.value ==> conditions[j].conditionType != conditionType
    ensures r.None? <==> forall j :: 0 <= j < |conditions| ==> conditions[j].conditionType != conditionType
  {
    if |conditions| == 0 then None
    else if conditions[0].conditionType == conditionType then Some(0)
    else match FindStatusConditionIndex(conditions[1..], conditionType)
      case None => None
      case Some(i) => Some(i + 1)
  }

  /** `meta.FindStatusCondition`: the first condition of the given type, if any. */
  function FindStatusCondition(conditions: seq<Condition>, conditionType: string): (r: Option<Condition>)
    ensures r.Some? ==> r.value in conditions && r.value.conditionType == conditionType
    ensures r.Some? ==>
      (FindStatusConditionIndex(conditions, conditionType).Some? &&
       r.value == conditions[FindStatusConditionIndex(conditions, conditionType).value])
    ensures r.None? <==> forall c :: c in conditions ==> c.conditionType != conditionType
  {
    match FindStatusConditionIndex(conditions, conditionType)
    case None => None
    case Some(i) => Some(conditions[i])
  }

  /** The transition time SetStatusCondition stamps: the new condition's own, or now when it has none. */
  function StampTime(c: Condition, now: int): int {
    if c.lastTransitionTime == ZeroTime then now else c.lastTransitionTime
  }

  /** An existing condition after `meta.SetStatusCondition` has merged `c` into it. */
  function MergeCondition(existing: Condition, c: Condition, now: int): Condition {
    existing.(
      status := c.status,
      lastTransitionTime := if existing.status != c.status then StampTime(c, now) else existing.lastTransitionTime,
      reason := c.reason,
      message := c.message,
      observedGeneration := c.observedGeneration)
  }

  /**
   * `meta.SetStatusCondition`: upsert `c` by its type. The first existing condition of that type takes
   * the new status, reason, message and observed generation and keeps its transition time unless
   * its status changes; otherwise `c` is appended with its transition time stamped.
   */
  function SetStatusCondition(conditions: seq<Condition>, c: Condition, now: int): (r: seq<Condition>)
    ensures FindStatusCondition(conditions, c.conditionType).None? ==> |r| == |conditions| + 1
    ensures FindStatusCondition(conditions, c.conditionType).Some? ==> |r| == |conditions|
    ensures forall j :: 0 <= j < |conditions| && FindStatusConditionIndex(conditions, c.conditionType) != Some(j) ==> r[j] == conditions[j]
    ensures FindStatusConditionIndex(conditions, c.conditionType).Some? ==>
      FindStatusConditionIndex(r, c.conditionType) == FindStatusConditionIndex(conditions, c.conditionType)
    ensures var f := FindStatusCondition(r, c.conditionType);
      && f.Some? && f.value.status == c.status && f.value.reason == c.reason
      && f.value.message == c.message && f.value.observedGeneration == c.observedGeneration
    ensures var before := FindStatusCondition(conditions, c.conditionType);
      var after := FindStatusCondition(r, c.conditionType).value;
      after.lastTransitionTime ==
        if before.Some? && before.value.status == c.status then before.value.lastTransitionTime
        else StampTime(c, now)
  {
    match FindStatusConditionIndex(conditions, c.conditionType)
    case None =>
      var r := conditions + [c.(lastTransitionTime := StampTime(c, now))];
      assert FindStatusConditionIndex(r, c.conditionType) == Some(|conditions|) by {
        FindIndexOfAppended(conditions, r[|conditions|]);
      }
      r
    case Some(i) =>
      var r := conditions[i := MergeCondition(conditions[i], c, now)];
      assert FindStatusConditionIndex(r, c.conditionType) == Some(i) by {
        FindIndexAfterUpdate(conditions, i, r[i]);
      }
      r
  }

  lemma FindIndexOfAppended(conditions: seq<Condition>, c: Condition)
    requires FindStatusConditionIndex(conditions, c.conditionType).None?
    ensures FindStatusConditionIndex(conditions + [c], c.conditionType) == Some(|conditions|)
  {
    var r := FindStatusConditionIndex(conditions + [c], c.conditionType);
    assert (conditions + [c])[|conditions|] == c;
  }

  lemma FindIndexAfterUpdate(conditions: seq<Condition>, i: nat, c: Condition)
    requires FindStatusConditionIndex(conditions, c.conditionType) == Some(i)
    ensures FindStatusConditionIndex(conditions[i := c], c.conditionType) == Some(i)
  {
    var r := FindStatusConditionIndex(conditions[i := c], c.conditionType);
    assert conditions[i := c][i] == c;
  }

  /** Setting the same condition twice leaves the list as the first call left it, whatever the clock says. */
  lemma SetStatusConditionIdempotent(conditions: seq<Condition>, c: Condition, now1: int, now2: int)
    ensures var once := SetStatusCondition(conditions, c, now1);
      SetStatusCondition(once, c, now2) == once
  {
  }
}
