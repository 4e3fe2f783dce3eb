# ScyllaDB operator: datacenter status and node probes, in Dafny

This project models two read-and-derive parts of the ScyllaDB operator for Kubernetes and proves
properties of them.

- **Datacenter status calculation** (`pkg/controller/scylladbdatacenter/status.go`). From a
  ScyllaDBDatacenter and the StatefulSets observed for its racks, the controller builds:
  - one RackStatus per spec rack, in spec order, with counts, a staleness flag and versions;
  - node, ready and available totals summed over the racks;
  - the `Prewarmed` condition.
  It then writes the status back only when it differs from the stored one. The calculation never
  fails. A failed lookup leaves a version empty or turns the condition false.
- **Node probes** (`pkg/probeserver/scylladbapistatus/prober.go`). `Readyz` and `Healthz` each
  walk a short-circuiting chain and write exactly one HTTP status code (200, 500 or 503). The
  chain checks, in order: the await-path markers on disk, the maintenance label on the node's
  Service, and the node's own ScyllaDB API.

Modules:
- `Outcomes`: `Option`, `Result` and `Outcome`, which stand in for Go pointers and error returns.
- `Int32`: Go `int32` with two's-complement wrap-around on addition.
- `Kube`: the Kubernetes objects read here (metadata, Pod, Service, StatefulSet, Condition), plus
  `meta.FindStatusCondition` and `meta.SetStatusCondition`.
- `ScyllaAPI`: the ScyllaDBDatacenter spec and status types.
- `DatacenterStatus`: status.go.
- `ScyllaDBAPIStatus`: prober.go.

How the code's shape is kept:
- Each loop in the Go code is a Dafny method with a loop and invariants. Each such method is
  proved equal to a specification function, and the lemmas are stated about those functions.
- The status helpers take a status value and return the new one. In Go they mutate a
  function-local copy through a pointer, and no aliasing can be observed.
- `updateStatus` is a method of the `Controller` class. The class records every UpdateStatus
  call it sends to the API server.

Collaborators outside this model are inputs the model does not interpret. The function fields of
`DatacenterStatus.Helpers`, `ScyllaDBAPIStatus.Observations.stat`,
`ScyllaDBAPIStatus.Observations.isUN` and `Prober.serviceLister` are uninterpreted functions. The
other fields of `Observations` hold one fixed answer per probe invocation for each ScyllaDB client
call. Together they cover:
- `naming.ImageToVersion`, `naming.ScyllaVersion`, `naming.StatefulSetNameForRack`,
  `naming.MemberServiceName` and `naming.PodNameFromService`;
- `controllerhelpers.GetRackNodeCount` and the two container checks;
- the ScyllaDB client calls and `NodeStatus.IsUN`;
- `os.Stat`.

The pod lister is a map keyed by namespace and name, and `apiequality.Semantic.DeepEqual` is
Dafny's structural equality. The label keys `scylla/rack` and `scylla/node-maintenance` are the
operator's `naming` constants. The naming package is not part of this model.

Some error mappings in the code are easy to misread; the model follows the code:
- A failed maintenance-label lookup gives 503 on both probes (prober.go:104-109, 181-186);
  only a failed stat or a failed client creation gives 500 on both.
- On `Readyz`, failing to create the client, list the node statuses or read the host ID gives
  500, while a failed native-transport check gives 503 (prober.go:118-150).
- A 500 from `Healthz` is possible: after an unexpected stat error, or when the client cannot be
  created.
- `setPrewarmedStatusCondition` uses the one reason `NotAllNodesPrewarmed` whether a lookup
  failed or a member is not ready yet (status.go:185-192).
- The inner `break` of `setPrewarmedStatusCondition` leaves only the member loop; the scan goes on
  with the next rack. Only a node-count error stops the whole scan. The flag is only ever
  cleared, so the final value is the conjunction over every rack and member
  (`SetPrewarmedStatusCondition`, `AllPrewarmed`).

## Model

| member | source | states |
|---|---|---|
| `Int32.Add` | pkg/controller/scylladbdatacenter/status.go:117-119 | Go int32 addition: the exact sum when it fits, otherwise the value congruent to it modulo 2^32 |
| `Int32.WrapThenAdd` | pkg/controller/scylladbdatacenter/status.go:114-120 | wrapping after every `+=` gives the same int32 as wrapping the whole sum once |
| `Kube.LabelValue` | pkg/controller/scylladbdatacenter/status.go:79 | `sts.Labels[key]` is the label's value, or "" when the label is absent |
| `Kube.FindStatusCondition` | pkg/controller/scylladbdatacenter/status.go:178-192 | the condition found is the first one of the requested type; none is found exactly when no condition has that type |
| `Kube.SetStatusCondition` | pkg/controller/scylladbdatacenter/status.go:178-192 | upsert by type. Only the first condition of that type is merged, and it stays the first of its type; every other condition, later duplicates of the type included, is untouched. The list grows by one only when the type was absent. Afterwards the type's condition has the new status, reason, message and observed generation. Its transition time is kept when the status did not change and stamped otherwise |
| `Kube.SetStatusConditionIdempotent` | pkg/controller/scylladbdatacenter/status.go:178-192 | setting the same condition again, at any later time, leaves the list unchanged |
| `DatacenterStatus.GetPod` | pkg/controller/scylladbdatacenter/status.go:45-48 | a pod lookup succeeds exactly when the pod is in the lister cache, and then yields that pod |
| `DatacenterStatus.GetScyllaVersion` | pkg/controller/scylladbdatacenter/status.go:43-61 | the version is returned exactly when pod `<sts>-0` exists, its controller UID is the StatefulSet's UID and ScyllaVersion succeeds on its containers. A pod with no controller, or another controller, gives the "foreign pod" error |
| `DatacenterStatus.CalculateRackStatus` | pkg/controller/scylladbdatacenter/status.go:63-107 | a nil StatefulSet gives all counts 0, stale, and an empty name and versions. Otherwise the name comes from the rack label, Nodes is the spec replicas, and the four other counts are the StatefulSet's status replicas. Stale holds exactly when ObservedGeneration < Generation. UpdatedVersion is the image version. With 0 nodes, CurrentVersion equals UpdatedVersion; otherwise it is the first member's version, or empty when that lookup fails |
| `DatacenterStatus.UpdateAggregatedStatusFields` | pkg/controller/scylladbdatacenter/status.go:109-121 | Nodes, ReadyNodes and AvailableNodes become the int32 sums of the rack fields, whatever they held before. Racks, the observed generation and the conditions are unchanged |
| `DatacenterStatus.AggregateIsSumWithoutOverflow` | pkg/controller/scylladbdatacenter/status.go:109-121 | when the sum fits in int32, the aggregate is exactly the sum of the per-rack counts |
| `DatacenterStatus.AggregatedIsFixpoint` | pkg/controller/scylladbdatacenter/status.go:28-29 | re-aggregating a status whose totals already agree with its racks changes nothing |
| `DatacenterStatus.CalculateStatus` | pkg/controller/scylladbdatacenter/status.go:123-142 | ObservedGeneration is the datacenter's generation. There is one rack status per spec rack, and the i-th is computed from the i-th spec rack and its StatefulSet, if one was observed. The aggregates match the racks. The stored conditions are carried over. There is no error path |
| `DatacenterStatus.CalculatedStatusIsAggregated` | pkg/controller/scylladbdatacenter/status.go:139 | every calculated status has totals equal to its per-rack sums |
| `DatacenterStatus.RecalculateStoredStatus` | pkg/controller/scylladbdatacenter/status.go:126-141 | calculateStatus depends on the stored status only through what it carries over: recalculating from a stored status that already holds the results gives that stored status back |
| `DatacenterStatus.SetPrewarmedStatusCondition` | pkg/controller/scylladbdatacenter/status.go:144-194 | only the conditions change. The Prewarmed condition is True with reason AsExpected exactly when every rack's node count is known and, below that count, every member has its Service, its pod, a ready ignition container and a running delayed-volume-mount container. Otherwise it is False with reason NotAllNodesPrewarmed. Its observed generation is the datacenter's generation |
| `DatacenterStatus.ReconcileIsIdempotent` | pkg/controller/scylladbdatacenter/status.go:20-23 | take one pass (calculateStatus, then the Prewarmed condition), store its status, and run a second pass on the same snapshot at any later time: the second pass gives exactly the stored status, so updateStatus writes nothing |
| `DatacenterStatus.TwoRackScenario` | pkg/controller/scylladbdatacenter/status.go:126-142 | rack A is observed at 3/3/3/3 with no generation lag and rack B is missing: the totals are 3/3/3, A is not stale, and B is the zero, stale status |
| `DatacenterStatus.Controller.UpdateStatus` | pkg/controller/scylladbdatacenter/status.go:20-41 | an equal status makes no call and returns nil. Otherwise it makes exactly one UpdateStatus call with the aggregates recomputed first, and returns that call's error. For an aggregated status that one write is never a no-op |
| `ScyllaDBAPIStatus.NewProber` | pkg/probeserver/scylladbapistatus/prober.go:32-46 | the prober keeps the given namespace, service name, service lister and paths, with a fixed 60 second timeout |
| `ScyllaDBAPIStatus.IsNodeUnderMaintenance` | pkg/probeserver/scylladbapistatus/prober.go:52-60 | a lookup error is propagated. Otherwise the answer is whether the Service has the maintenance label |
| `ScyllaDBAPIStatus.NoFailuresIff` | pkg/probeserver/scylladbapistatus/prober.go:67-79 | no error is collected exactly when no path fails to stat for a reason other than absence |
| `ScyllaDBAPIStatus.EveryStatFailureReported` | pkg/probeserver/scylladbapistatus/prober.go:67-77 | every path whose stat fails other than by absence is reported, with its cause. The scan does not stop at the first one |
| `ScyllaDBAPIStatus.OnlyStatFailuresReported` | pkg/probeserver/scylladbapistatus/prober.go:67-77 | every reported failure names a configured path whose stat failed with that cause |
| `ScyllaDBAPIStatus.AwaitPathsExist` | pkg/probeserver/scylladbapistatus/prober.go:62-85 | an error is returned exactly when some stat failed other than by absence; it aggregates every such failure, in order, and ready is false. Without one, ready holds exactly when no path is missing, so an empty list is ready |
| `ScyllaDBAPIStatus.ScanNodeStatuses` | pkg/probeserver/scylladbapistatus/prober.go:141-161 | 200 exactly when some entry has the local host ID and is up/normal, and native transport is enabled. A transport-check error, or no such entry, gives 503 |
| `ScyllaDBAPIStatus.Readyz` | pkg/probeserver/scylladbapistatus/prober.go:87-162 | every path through readyz writes exactly one code, from {200, 500, 503} |
| `ScyllaDBAPIStatus.Healthz` | pkg/probeserver/scylladbapistatus/prober.go:164-211 | every path through healthz writes exactly one code, from {200, 500, 503} |
| `ScyllaDBAPIStatus.ReadyzOkIff` | pkg/probeserver/scylladbapistatus/prober.go:87-162 | readyz gives 200 exactly when: the paths exist with no stat error, the node is not under maintenance, the client, status list and host ID all succeed, some entry is this node and up/normal, and native transport is enabled |
| `ScyllaDBAPIStatus.ReadyzInternalErrorIff` | pkg/probeserver/scylladbapistatus/prober.go:91-139 | readyz gives 500 exactly for an unexpected stat error, or, past the path and maintenance checks, for a failure to create the client, list the node statuses or read the host ID |
| `ScyllaDBAPIStatus.HealthzDecision` | pkg/probeserver/scylladbapistatus/prober.go:164-211 | healthz gives 200 exactly when there is no stat error and the node is awaiting paths, is under maintenance, or answers the ping. It gives 503 exactly when, past the paths, the maintenance lookup fails or the ping fails |
| `ScyllaDBAPIStatus.StatErrorIsInternalError` | pkg/probeserver/scylladbapistatus/prober.go:91-173 | any unexpected stat error makes both probes answer 500 |
| `ScyllaDBAPIStatus.MissingPathPrecedesMaintenance` | pkg/probeserver/scylladbapistatus/prober.go:98-192 | a missing path with no stat error gives readyz 503 and healthz 200, whatever the maintenance lookup and the ScyllaDB API would say |
| `ScyllaDBAPIStatus.MaintenanceOverridesDatabase` | pkg/probeserver/scylladbapistatus/prober.go:104-192 | once the paths exist, the maintenance label gives readyz 503 and healthz 200, whatever the ScyllaDB API would say |
| `ScyllaDBAPIStatus.MaintenanceLookupErrorIsUnavailable` | pkg/probeserver/scylladbapistatus/prober.go:104-186 | once the paths exist, a failed Service lookup gives 503 on both probes |
| `ScyllaDBAPIStatus.HealthzIgnoresReadinessCalls` | pkg/probeserver/scylladbapistatus/prober.go:164-211 | healthz does not depend on the node-status list, the host ID or the native-transport answer |
| `ScyllaDBAPIStatus.ReadyzIgnoresPing` | pkg/probeserver/scylladbapistatus/prober.go:87-162 | readyz does not depend on the ping |

## Left out

- The API server's `UpdateStatus`, the listers and the ScyllaDB REST client are foreign I/O. Only
  their answers are modelled, as inputs. Retrying a failed write is the caller's job.
- `context.WithTimeout`, cancellation, `http.ResponseWriter` and the deferred `Close` of the
  client: only the status code written is modelled.
- `klog` logging has no observable content. `serviceRef` is used only for logging.
- The internals of the `naming` and `controllerhelpers` helpers, `os.Stat` and
  `errors.Is(err, fs.ErrNotExist)` are not modelled. They are uninterpreted inputs.
- The datacenter helpers never see the datacenter's status: `StatefulSetNameForRack` and
  `MemberServiceName` are given its metadata and spec, `GetRackNodeCount` its spec only. The real
  helpers read no more than that.
- `naming.ImageToVersion`: on an error the model uses the empty version, the value a Go function
  returns with its error by convention.
- `IsNativeTransportEnabled` has one answer per readyz invocation. The call takes `localhost`,
  not the list entry, so repeated calls within one probe are taken to agree.
- Pointers: the model does not cover the panic a nil pointer would cause. A nil
  `sts.Spec.Replicas` cannot happen because the API server defaults it, and a nil rack counter
  cannot happen because calculateRackStatus sets every one of them.
- Generations are `int64` in Go and unbounded here. They are only compared, never added.
- Other fields of the datacenter status type, which calculateStatus copies from the stored status,
  are left out. Only the conditions are kept, and they are proved to be carried over.
- The control loop that calls these functions and sets further conditions is not part of this
  model. `ReconciledStatus` composes calculateStatus and setPrewarmedStatusCondition in the order
  the controller runs them.
- Concurrent probe invocations are independent and share only read-only configuration, so they
  are not modelled.
