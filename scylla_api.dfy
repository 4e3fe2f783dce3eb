/** The fields of the ScyllaDBDatacenter custom resource (API group scylla.scylladb.com/v1alpha1) that status.go reads and writes. */
module ScyllaAPI {
  import opened Outcomes
  import opened Int32
  import opened Kube

  /** A rack of the datacenter spec; its other fields are read only by helpers outside this model. */
  datatype RackSpec = RackSpec(name: string)

  datatype ScyllaDBDatacenterSpec = ScyllaDBDatacenterSpec(scyllaDBImage: string, racks: seq<RackSpec>)

  /**
   * The observed status of one rack. The Go type holds pointers; calculateRackStatus always
   * sets every one of them, so they are plain values here.
   */
  datatype RackStatus = RackStatus(
    name: string,
    currentVersion: string,
    updatedVersion: string,
    nodes: int32,
    currentNodes: int32,
    updatedNodes: int32,
    readyNodes: int32,
    availableNodes: int32,
    stale: bool)

  /** The datacenter status; the aggregate counters and the observed generation are Go pointers. */
  datatype ScyllaDBDatacenterStatus = ScyllaDBDatacenterStatus(
    observedGeneration: Option<int>,
    nodes: Option<int32>,
    readyNodes: Option<int32>,
    availableNodes: Option<int32>,
    racks: seq<RackStatus>,
    conditions: seq<Condition>)

  datatype ScyllaDBDatacenter = ScyllaDBDatacenter(
    meta: ObjectMeta,
    spec: ScyllaDBDatacenterSpec,
    status: ScyllaDBDatacenterStatus)

  const PrewarmedCondition: string := "Prewarmed"
}
