/**
 * The status calculation of the ScyllaDBDatacenter controller: per-rack status from the rack's
 * StatefulSet, the aggregated counters, the Prewarmed condition, and the write-only-on-change
 * status update.
 */
module DatacenterStatus {
  import opened Outcomes
  import opened Int32
  import opened Kube
  import opened ScyllaAPI

  /**
   * The collaborators status.go calls whose code is not part of this model, as uninterpreted
   * functions. Those that look at the datacenter see its metadata and spec, never its status.
   */
  datatype Helpers = Helpers(
    // naming.ImageToVersion
    imageToVersion: string -> Result<string>,
    // naming.ScyllaVersion
    scyllaVersion: seq<Container> -> Result<string>,
    // naming.StatefulSetNameForRack
    statefulSetNameForRack: (RackSpec, ObjectMeta, ScyllaDBDatacenterSpec) -> string,
    // naming.MemberServiceName
    memberServiceName: (RackSpec, ObjectMeta, ScyllaDBDatacenterSpec, int) -> string,
    // naming.PodNameFromService
    podNameFromService: Service -> string,
    // controllerhelpers.GetRackNodeCount
    getRackNodeCount: (ScyllaDBDatacenterSpec, string) -> Result<int32>,
    // controllerhelpers.IsScyllaDBIgnitionContainerReady
    isScyllaDBIgnitionContainerReady: Pod -> bool,
    // controllerhelpers.IsDelayedVolumeMountContainerRunning
    isDelayedVolumeMountContainerRunning: Pod -> bool)

  /** The pod lister's cache, by namespace and name. */
  type PodCache = map<(string, string), Pod>

  const RackNameLabel: string := "scylla/rack"
  const ForeignPodError: string := "foreign pod"
  const AsExpectedReason: string := "AsExpected"
  const NotAllNodesPrewarmedReason: string := "NotAllNodesPrewarmed"
  const NotAllNodesPrewarmedMessage: string := "Not all nodes are prewarmed yet."

  /** `podLister.Pods(namespace).Get(name)`: the cached pod, or a not-found error. */
  function GetPod(pods: PodCache, namespace: string, name: string): (r: Result<Pod>)
    ensures r.Ok? <==> (namespace, name) in pods
    ensures r.Ok? ==> r.value == pods[(namespace, name)]
  {
    if (namespace, name) in pods then Ok(pods[(namespace, name)])
    else Err("pods \"" + name + "\" not found")
  }

  /** The name of the StatefulSet's ordinal-0 pod, `<sts>-0`. */
  function FirstMemberName(sts: StatefulSet): string {
    sts.meta.name + "-0"
  }

  /** The pod's controller owner reference points at this very StatefulSet object. */
  predicate ControlledBy(pod: Pod, sts: StatefulSet) {
    pod.meta.controllerUID == Some(sts.meta.uid)
  }

  /**
   * getScyllaVersion: the ScyllaDB version running in the rack's first member, which must be
   * controlled by the StatefulSet itself and not by an older object of the same name.
   */
  function GetScyllaVersion(h: Helpers, pods: PodCache, sts: StatefulSet): (r: Result<string>)
    ensures var key := (sts.meta.namespace, FirstMemberName(sts));
      r.Ok? <==> key in pods && ControlledBy(pods[key], sts) && h.scyllaVersion(pods[key].containers).Ok?
    ensures var key := (sts.meta.namespace, FirstMemberName(sts));
      r.Ok? ==> r.value == h.scyllaVersion(pods[key].containers).value
    ensures var key := (sts.meta.namespace, FirstMemberName(sts));
      key in pods && !ControlledBy(pods[key], sts) ==> r == Err(ForeignPodError)
  {
    match GetPod(pods, sts.meta.namespace, FirstMemberName(sts))
    case Err(e) => Err(e)
    case Ok(firstMember) =>
      if firstMember.meta.controllerUID.None? || firstMember.meta.controllerUID.value != sts.meta.uid then
        Err(ForeignPodError)
      else
        h.scyllaVersion(firstMember.containers)
  }

  /** The version a fallible lookup yields, or "" when it failed. */
  function VersionOrEmpty(r: Result<string>): string {
    if r.Ok? then r.value else ""
  }

  /** The status of a rack whose StatefulSet has not been observed: all zero and stale. */
  const UnobservedRackStatus: RackStatus := RackStatus("", "", "", 0, 0, 0, 0, 0, true)

  /** What calculateRackStatus computes for a rack whose StatefulSet lookup yielded `sts`. */
  function RackStatusOf(h: Helpers, pods: PodCache, sdc: ScyllaDBDatacenter, sts: Option<StatefulSet>): RackStatus {
    match sts
    case None => UnobservedRackStatus
    case Some(s) =>
      var updatedVersion := VersionOrEmpty(h.imageToVersion(sdc.spec.scyllaDBImage));
      RackStatus(
        name := LabelValue(s.meta.labels, RackNameLabel),
        currentVersion := if s.replicas == 0 then updatedVersion else VersionOrEmpty(GetScyllaVersion(h, pods, s)),
        updatedVersion := updatedVersion,
        nodes := s.replicas,
        currentNodes := s.status.currentReplicas,
        updatedNodes := s.status.updatedReplicas,
        readyNodes := s.status.readyReplicas,
        availableNodes := s.status.availableReplicas,
        stale := s.status.observedGeneration < s.meta.generation)
  }

  /** calculateRackStatus: start from the unobserved status and fill it in from the StatefulSet. */
  method CalculateRackStatus(h: Helpers, pods: PodCache, sdc: ScyllaDBDatacenter, sts: Option<StatefulSet>)
    returns (status: RackStatus)
    ensures status == RackStatusOf(h, pods, sdc, sts)
    ensures sts.None? ==>
      && status.nodes == 0 && status.currentNodes == 0 && status.updatedNodes == 0
      && status.readyNodes == 0 && status.availableNodes == 0 && status.stale
      && status.name == "" && status.currentVersion == "" && status.updatedVersion == ""
    ensures sts.Some? ==>
      && status.name == LabelValue(sts.value.meta.labels, RackNameLabel)
      && status.nodes == sts.value.replicas
      && status.readyNodes == sts.value.status.readyReplicas
      && status.availableNodes == sts.value.status.availableReplicas
      && status.updatedNodes == sts.value.status.updatedReplicas
      && status.currentNodes == sts.value.status.currentReplicas
    ensures status.stale <==> sts.None? || sts.value.status.observedGeneration < sts.value.meta.generation
    ensures sts.Some? ==> status.updatedVersion == VersionOrEmpty(h.imageToVersion(sdc.spec.scyllaDBImage))
    ensures sts.Some? && status.nodes == 0 ==> status.currentVersion == status.updatedVersion
    ensures sts.Some? && status.nodes != 0 ==>
      (status.currentVersion != "" ==> GetScyllaVersion(h, pods, sts.value).Ok?) &&
      (GetScyllaVersion(h, pods, sts.value).Ok? ==> status.currentVersion == GetScyllaVersion(h, pods, sts.value).value)
  {
    status := UnobservedRackStatus;
    if sts.None? {
      return;
    }
    var s := sts.value;
    status := status.(name := LabelValue(s.meta.labels, RackNameLabel));
    status := status.(nodes := s.replicas);
    status := status.(readyNodes := s.status.readyReplicas);
    status := status.(availableNodes := s.status.availableReplicas);
    status := status.(updatedNodes := s.status.updatedReplicas);
    status := status.(currentNodes := s.status.currentReplicas);
    status := status.(stale := s.status.observedGeneration < s.meta.generation);

    var scyllaDBImageVersion := VersionOrEmpty(h.imageToVersion(sdc.spec.scyllaDBImage));
    status := status.(updatedVersion := scyllaDBImageVersion);

    if status.nodes == 0 {
      status := status.(currentVersion := scyllaDBImageVersion);
    } else {
      var version := GetScyllaVersion(h, pods, s);
      if version.Ok? {
        status := status.(currentVersion := version.value);
      }
    }
  }

  /** The three counters that are aggregated over the racks. */
  datatype Counter = NodesCounter | ReadyNodesCounter | AvailableNodesCounter

  function Count(rack: RackStatus, c: Counter): int32 {
    match c
    case NodesCounter => rack.nodes
    case ReadyNodesCounter => rack.readyNodes
    case AvailableNodesCounter => rack.availableNodes
  }

  function AggregateField(status: ScyllaDBDatacenterStatus, c: Counter): Option<int32> {
    match c
    case NodesCounter => status.nodes
    case ReadyNodesCounter => status.readyNodes
    case AvailableNodesCounter => status.availableNodes
  }

  /** The mathematical sum of a counter over the racks. */
  function Total(racks: seq<RackStatus>, c: Counter): int {
    if |racks| == 0 then 0 else Total(racks[..|racks| - 1], c) + Count(racks[|racks| - 1], c)
  }

  /** The sum as Go's int32 arithmetic computes it. */
  function Aggregate(racks: seq<RackStatus>, c: Counter): int32 {
    Wrap(Total(racks, c))
  }

  /** The aggregated counters agree with the racks. */
  predicate Aggregated(status: ScyllaDBDatacenterStatus) {
    forall c: Counter :: AggregateField(status, c) == Some(Aggregate(status.racks, c))
  }

  /** What updateAggregatedStatusFields leaves in the status. */
  function WithAggregates(status: ScyllaDBDatacenterStatus): ScyllaDBDatacenterStatus {
    status.(
      nodes := Some(Aggregate(status.racks, NodesCounter)),
      readyNodes := Some(Aggregate(status.racks, ReadyNodesCounter)),
      availableNodes := Some(Aggregate(status.racks, AvailableNodesCounter)))
  }

  /** When no int32 overflow occurs, an aggregate is the exact sum over the racks. */
  lemma AggregateIsSumWithoutOverflow(racks: seq<RackStatus>, c: Counter)
    requires MinInt32 <= Total(racks, c) <= MaxInt32
    ensures Aggregate(racks, c) == Total(racks, c)
  {
  }

  /** An already aggregated status is left as it is by the re-aggregation in updateStatus. */
  lemma AggregatedIsFixpoint(status: ScyllaDBDatacenterStatus)
    requires Aggregated(status)
    ensures WithAggregates(status) == status
  {
  }

  /**
   * updateAggregatedStatusFields: zero the three counters, then add every rack's counts into them
   * with int32 arithmetic. Nothing but the three counters changes.
   */
  method UpdateAggregatedStatusFields(status: ScyllaDBDatacenterStatus) returns (r: ScyllaDBDatacenterStatus)
    ensures r == WithAggregates(status)
    ensures Aggregated(r)
    ensures r.racks == status.racks && r.observedGeneration == status.observedGeneration
    ensures r.conditions == status.conditions
  {
    r := status.(nodes := Some(0), readyNodes := Some(0), availableNodes := Some(0));
    for i := 0 to |r.racks|
      invariant r.racks == status.racks
      invariant r.observedGeneration == status.observedGeneration && r.conditions == status.conditions
      invariant r.nodes == Some(Aggregate(status.racks[..i], NodesCounter))
      invariant r.readyNodes == Some(Aggregate(status.racks[..i], ReadyNodesCounter))
      invariant r.availableNodes == Some(Aggregate(status.racks[..i], AvailableNodesCounter))
    {
      var rackStatus := r.racks[i];
      assert status.racks[..i + 1][..i] == status.racks[..i];
      WrapThenAdd(Total(status.racks[..i], NodesCounter), rackStatus.nodes);
      WrapThenAdd(Total(status.racks[..i], ReadyNodesCounter), rackStatus.readyNodes);
      WrapThenAdd(Total(status.racks[..i], AvailableNodesCounter), rackStatus.availableNodes);
      r := r.(
        nodes := Some(Add(r.nodes.value, rackStatus.nodes)),
        readyNodes := Some(Add(r.readyNodes.value, rackStatus.readyNodes)),
        availableNodes := Some(Add(r.availableNodes.value, rackStatus.availableNodes)));
    }
    assert status.racks[..|status.racks|] == status.racks;
  }

  /** The (possibly nil) StatefulSet `statefulSetMap[name]`. */
  function LookupStatefulSet(statefulSetMap: map<string, StatefulSet>, name: string): Option<StatefulSet> {
    if name in statefulSetMap then Some(statefulSetMap[name]) else None
  }

  /** The status calculateStatus computes for one spec rack. */
  function RackStatusFor(h: Helpers, pods: PodCache, sdc: ScyllaDBDatacenter, statefulSetMap: map<string, StatefulSet>, rack: RackSpec): RackStatus {
    RackStatusOf(h, pods, sdc, LookupStatefulSet(statefulSetMap, h.statefulSetNameForRack(rack, sdc.meta, sdc.spec)))
  }

  /** What calculateStatus returns. */
  function CalculatedStatus(h: Helpers, pods: PodCache, sdc: ScyllaDBDatacenter, statefulSetMap: map<string, StatefulSet>): ScyllaDBDatacenterStatus {
    var racks := sdc.spec.racks;
    WithAggregates(sdc.status.(
      observedGeneration := Some(sdc.meta.generation),
      racks := seq(|racks|, i requires 0 <= i < |racks| => RackStatusFor(h, pods, sdc, statefulSetMap, racks[i]))))
  }

  /**
   * calculateStatus: start from a copy of the stored status, record the observed generation,
   * recompute every rack in spec order and then the aggregates. It never fails.
   */
  method CalculateStatus(h: Helpers, pods: PodCache, sdc: ScyllaDBDatacenter, statefulSetMap: map<string, StatefulSet>)
    returns (status: ScyllaDBDatacenterStatus)
    ensures status == CalculatedStatus(h, pods, sdc, statefulSetMap)
    ensures status.observedGeneration == Some(sdc.meta.generation)
    ensures |status.racks| == |sdc.spec.racks|
    ensures forall i :: 0 <= i < |sdc.spec.racks| ==>
      status.racks[i] == RackStatusFor(h, pods, sdc, statefulSetMap, sdc.spec.racks[i])
    ensures Aggregated(status)
    ensures status.conditions == sdc.status.conditions
  {
    status := sdc.status;
    status := status.(observedGeneration := Some(sdc.meta.generation));
    status := status.(racks := []);
    for i := 0 to |sdc.spec.racks|
      invariant status.observedGeneration == Some(sdc.meta.generation)
      invariant status.conditions == sdc.status.conditions
      invariant |status.racks| == i
      invariant forall j :: 0 <= j < i ==> status.racks[j] == RackStatusFor(h, pods, sdc, statefulSetMap, sdc.spec.racks[j])
    {
      var rack := sdc.spec.racks[i];
      var stsName := h.statefulSetNameForRack(rack, sdc.meta, sdc.spec);
      var rackStatus := CalculateRackStatus(h, pods, sdc, LookupStatefulSet(statefulSetMap, stsName));
      status := status.(racks := status.racks + [rackStatus]);
    }
    ghost var racks := sdc.spec.racks;
    assert status.racks == seq(|racks|, i requires 0 <= i < |racks| => RackStatusFor(h, pods, sdc, statefulSetMap, racks[i]));
    status := UpdateAggregatedStatusFields(status);
  }

  /** Member `ord` of the rack has its Service and pod, and both bootstrap containers are up. */
  predicate MemberPrewarmed(h: Helpers, pods: PodCache, services: map<string, Service>, sdc: ScyllaDBDatacenter, rack: RackSpec, ord: int) {
    var svcName := h.memberServiceName(rack, sdc.meta, sdc.spec, ord);
    && svcName in services
    && var pod := GetPod(pods, sdc.meta.namespace, h.podNameFromService(services[svcName]));
    && pod.Ok?
    && h.isScyllaDBIgnitionContainerReady(pod.value)
    && h.isDelayedVolumeMountContainerRunning(pod.value)
  }

  /** The rack's node count is known and every member below it is prewarmed. */
  predicate RackPrewarmed(h: Helpers, pods: PodCache, services: map<string, Service>, sdc: ScyllaDBDatacenter, rack: RackSpec) {
    var count := h.getRackNodeCount(sdc.spec, rack.name);
    && count.Ok?
    && forall ord :: 0 <= ord < count.value ==> MemberPrewarmed(h, pods, services, sdc, rack, ord)
  }

  predicate AllPrewarmed(h: Helpers, pods: PodCache, services: map<string, Service>, sdc: ScyllaDBDatacenter) {
    forall i :: 0 <= i < |sdc.spec.racks| ==> RackPrewarmed(h, pods, services, sdc, sdc.spec.racks[i])
  }

  /** The Prewarmed condition setPrewarmedStatusCondition hands to SetStatusCondition. */
  function PrewarmedConditionFor(prewarmed: bool, generation: int): Condition {
    if prewarmed then
      Condition(PrewarmedCondition, ConditionTrue, generation, ZeroTime, AsExpectedReason, "")
    else
      Condition(PrewarmedCondition, ConditionFalse, generation, ZeroTime, NotAllNodesPrewarmedReason, NotAllNodesPrewarmedMessage)
  }

  /** The status after setPrewarmedStatusCondition. */
  function WithPrewarmedCondition(h: Helpers, pods: PodCache, services: map<string, Service>, sdc: ScyllaDBDatacenter, status: ScyllaDBDatacenterStatus, now: int): ScyllaDBDatacenterStatus {
    status.(conditions := SetStatusCondition(status.conditions, PrewarmedConditionFor(AllPrewarmed(h, pods, services, sdc), sdc.meta.generation), now))
  }

  /**
   * setPrewarmedStatusCondition: scan every rack's members, clearing the flag on the first
   * missing piece, then upsert the Prewarmed condition. `now` is the clock SetStatusCondition reads.
   */
  method SetPrewarmedStatusCondition(h: Helpers, pods: PodCache, sdc: ScyllaDBDatacenter, status: ScyllaDBDatacenterStatus, services: map<string, Service>, now: int)
    returns (r: ScyllaDBDatacenterStatus)
    ensures r == WithPrewarmedCondition(h, pods, services, sdc, status, now)
    ensures r == status.(conditions := r.conditions)
    ensures var c := FindStatusCondition(r.conditions, PrewarmedCondition);
      && c.Some?
      && (c.value.status == ConditionTrue <==> AllPrewarmed(h, pods, services, sdc))
      && (c.value.status == ConditionTrue ==> c.value.reason == AsExpectedReason)
      && (c.value.status != ConditionTrue ==> c.value.status == ConditionFalse && c.value.reason == NotAllNodesPrewarmedReason)
      && c.value.observedGeneration == sdc.meta.generation
  {
    var racks := sdc.spec.racks;
    var prewarmed := true;
    var i := 0;
    while i < |racks|
      invariant 0 <= i <= |racks|
      invariant prewarmed <==> forall j :: 0 <= j < i ==> RackPrewarmed(h, pods, services, sdc, racks[j])
    {
      var rack := racks[i];
      var rackNodeCount := h.getRackNodeCount(sdc.spec, rack.name);
      if rackNodeCount.Err? {
        prewarmed := false;
        break;
      }

      var ord := 0;
      while ord < rackNodeCount.value
        invariant 0 <= ord <= if rackNodeCount.value < 0 then 0 else rackNodeCount.value
        invariant prewarmed <==>
          (forall j :: 0 <= j < i ==> RackPrewarmed(h, pods, services, sdc, racks[j])) &&
          (forall o :: 0 <= o < ord ==> MemberPrewarmed(h, pods, services, sdc, rack, o))
      {
        var svcName := h.memberServiceName(rack, sdc.meta, sdc.spec, ord);
        if svcName !in services {
          assert !MemberPrewarmed(h, pods, services, sdc, rack, ord);
          prewarmed := false;
          break;
        }
        var pod := GetPod(pods, sdc.meta.namespace, h.podNameFromService(services[svcName]));
        if pod.Err? {
          assert !MemberPrewarmed(h, pods, services, sdc, rack, ord);
          prewarmed := false;
          break;
        }
        if !h.isScyllaDBIgnitionContainerReady(pod.value) || !h.isDelayedVolumeMountContainerRunning(pod.value) {
          prewarmed := false;
        }
        assert MemberPrewarmed(h, pods, services, sdc, rack, ord) <==>
          h.isScyllaDBIgnitionContainerReady(pod.value) && h.isDelayedVolumeMountContainerRunning(pod.value);
        ord := ord + 1;
      }
      assert prewarmed <==>
        (forall j :: 0 <= j < i ==> RackPrewarmed(h, pods, services, sdc, racks[j])) &&
        RackPrewarmed(h, pods, services, sdc, rack);
      i := i + 1;
    }

    var condition := PrewarmedConditionFor(prewarmed, sdc.meta.generation);
    r := status.(conditions := SetStatusCondition(status.conditions, condition, now));
  }

  /** One status pass as the controller runs it: calculateStatus, then setPrewarmedStatusCondition. */
  function ReconciledStatus(h: Helpers, pods: PodCache, services: map<string, Service>, sdc: ScyllaDBDatacenter, statefulSetMap: map<string, StatefulSet>, now: int): ScyllaDBDatacenterStatus {
    WithPrewarmedCondition(h, pods, services, sdc, CalculatedStatus(h, pods, sdc, statefulSetMap), now)
  }

  /** calculateStatus always returns a status whose aggregates agree with its racks. */
  lemma CalculatedStatusIsAggregated(h: Helpers, pods: PodCache, sdc: ScyllaDBDatacenter, statefulSetMap: map<string, StatefulSet>)
    ensures Aggregated(CalculatedStatus(h, pods, sdc, statefulSetMap))
  {
  }

  /**
   * Recalculating from a stored status that already holds this snapshot's generation, racks and
   * aggregates gives back that stored status: only its conditions are carried over.
   */
  lemma RecalculateStoredStatus(h: Helpers, pods: PodCache, sdc: ScyllaDBDatacenter, statefulSetMap: map<string, StatefulSet>, stored: ScyllaDBDatacenterStatus)
    requires stored.observedGeneration == Some(sdc.meta.generation)
    requires stored.racks == CalculatedStatus(h, pods, sdc, statefulSetMap).racks
    requires Aggregated(stored)
    ensures CalculatedStatus(h, pods, sdc.(status := stored), statefulSetMap) == stored
  {
    var sdc2 := sdc.(status := stored);
    var racks := sdc.spec.racks;
    assert CalculatedStatus(h, pods, sdc2, statefulSetMap).racks == stored.racks by {
      forall i | 0 <= i < |racks|
        ensures RackStatusFor(h, pods, sdc2, statefulSetMap, racks[i]) == RackStatusFor(h, pods, sdc, statefulSetMap, racks[i])
      {
      }
    }
    AggregatedIsFixpoint(stored);
  }

  /**
   * A second pass over an unchanged snapshot, after the first pass's status was stored,
   * computes exactly the stored status again, so updateStatus then writes nothing.
   */
  lemma {:induction false} ReconcileIsIdempotent(h: Helpers, pods: PodCache, services: map<string, Service>, sdc: ScyllaDBDatacenter, statefulSetMap: map<string, StatefulSet>, now1: int, now2: int)
    ensures var first := ReconciledStatus(h, pods, services, sdc, statefulSetMap, now1);
      && WithAggregates(first) == first
      && ReconciledStatus(h, pods, services, sdc.(status := WithAggregates(first)), statefulSetMap, now2) == first
  {
    var calculated := CalculatedStatus(h, pods, sdc, statefulSetMap);
    var first := ReconciledStatus(h, pods, services, sdc, statefulSetMap, now1);
    CalculatedStatusIsAggregated(h, pods, sdc, statefulSetMap);
    assert first == calculated.(conditions := first.conditions);
    assert Aggregated(first) by {
      forall c: Counter ensures AggregateField(first, c) == Some(Aggregate(first.racks, c)) {
        assert AggregateField(first, c) == AggregateField(calculated, c);
      }
    }
    AggregatedIsFixpoint(first);
    RecalculateStoredStatus(h, pods, sdc, statefulSetMap, first);
    var sdc2 := sdc.(status := first);
    assert AllPrewarmed(h, pods, services, sdc2) == AllPrewarmed(h, pods, services, sdc) by {
      assert sdc2.meta == sdc.meta && sdc2.spec == sdc.spec;
      forall rack: RackSpec, ord: int
        ensures MemberPrewarmed(h, pods, services, sdc2, rack, ord) == MemberPrewarmed(h, pods, services, sdc, rack, ord)
      {
      }
      forall rack: RackSpec
        ensures RackPrewarmed(h, pods, services, sdc2, rack) == RackPrewarmed(h, pods, services, sdc, rack)
      {
      }
    }
    var c := PrewarmedConditionFor(AllPrewarmed(h, pods, services, sdc), sdc.meta.generation);
    SetStatusConditionIdempotent(sdc.status.conditions, c, now1, now2);
  }

  /**
   * The two-rack scenario: rack A's StatefulSet is observed with 3/3/3/3 replicas and no
   * generation lag, rack B's is missing. The aggregates are 3/3/3 and B reports zero and stale.
   */
  lemma TwoRackScenario(h: Helpers, pods: PodCache, sdc: ScyllaDBDatacenter, statefulSetMap: map<string, StatefulSet>, a: StatefulSet)
    requires |sdc.spec.racks| == 2
    requires h.statefulSetNameForRack(sdc.spec.racks[0], sdc.meta, sdc.spec) in statefulSetMap
    requires statefulSetMap[h.statefulSetNameForRack(sdc.spec.racks[0], sdc.meta, sdc.spec)] == a
    requires h.statefulSetNameForRack(sdc.spec.racks[1], sdc.meta, sdc.spec) !in statefulSetMap
    requires a.replicas == 3 && a.status.readyReplicas == 3 && a.status.availableReplicas == 3
    requires a.status.updatedReplicas == 3 && a.status.currentReplicas == 3
    requires a.status.observedGeneration == a.meta.generation
    ensures var status := CalculatedStatus(h, pods, sdc, statefulSetMap);
      && status.nodes == Some(3) && status.readyNodes == Some(3) && status.availableNodes == Some(3)
      && |status.racks| == 2
      && !status.racks[0].stale && status.racks[0].nodes == 3 && status.racks[0].readyNodes == 3
      && status.racks[1] == UnobservedRackStatus
  {
    var status := CalculatedStatus(h, pods, sdc, statefulSetMap);
    var racks := status.racks;
    assert racks[0] == RackStatusFor(h, pods, sdc, statefulSetMap, sdc.spec.racks[0]);
    assert racks[1] == UnobservedRackStatus;
    assert racks[..1][..0] == [];
    assert racks[..|racks| - 1] == racks[..1];
    forall c: Counter ensures Total(racks, c) == 3 {
      assert Total(racks[..1], c) == Count(racks[0], c);
    }
  }

  /**
   * The controller's write path. `statusUpdates` records every UpdateStatus call made to the
   * API server, in order; the API server's answer is a parameter.
   */
  class Controller {
    var statusUpdates: seq<ScyllaDBDatacenter>

    constructor ()
      ensures statusUpdates == []
    {
      statusUpdates := [];
    }

    /**
     * updateStatus: no call at all when the computed status equals the stored one; otherwise
     * exactly one UpdateStatus call with the re-aggregated status, whose error is returned.
     */
    method UpdateStatus(currentSC: ScyllaDBDatacenter, status: ScyllaDBDatacenterStatus, apiError: Outcome)
      returns (err: Outcome)
      modifies this
      ensures currentSC.status == status ==> statusUpdates == old(statusUpdates) && err.Pass?
      ensures currentSC.status != status ==>
        && statusUpdates == old(statusUpdates) + [currentSC.(status := WithAggregates(status))]
        && err == apiError
      ensures currentSC.status != status && Aggregated(status) ==>
        statusUpdates[|statusUpdates| - 1].status != currentSC.status
    {
      if currentSC.status == status {
        return Pass;
      }
      var sdc := currentSC;
      sdc := sdc.(status := status);
      var aggregated := UpdateAggregatedStatusFields(sdc.status);
      sdc := sdc.(status := aggregated);
      if Aggregated(status) {
        AggregatedIsFixpoint(status);
      }
      statusUpdates := statusUpdates + [sdc];
      err := apiError;
    }
  }
}
