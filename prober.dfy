/**
 * The readyz and healthz probes of a ScyllaDB node: each folds the await-path markers, the
 * maintenance label and the node's own ScyllaDB API into one HTTP status code.
 */
module ScyllaDBAPIStatus {
  import opened Outcomes
  import opened Kube

  const StatusOK: int := 200
  const StatusInternalServerError: int := 500
  const StatusServiceUnavailable: int := 503

  const NodeMaintenanceLabel: string := "scylla/node-maintenance"

  /** `60 * time.Second`, in nanoseconds. */
  const DefaultTimeout: int := 60_000_000_000

  /**
   * The probe's shared configuration. `serviceLister` is the lister's answer to a Get by
   * namespace and name.
   */
  datatype Prober = Prober(
    namespace: string,
    serviceName: string,
    serviceLister: (string, string) -> Result<Service>,
    timeout: int,
    awaitPaths: seq<string>)

  /** NewProber: the given identity and paths, with the fixed 60 second timeout. */
  function NewProber(namespace: string, serviceName: string, serviceLister: (string, string) -> Result<Service>, awaitPaths: seq<string>): (p: Prober)
    ensures p.timeout == DefaultTimeout
    ensures p.namespace == namespace && p.serviceName == serviceName && p.awaitPaths == awaitPaths
    ensures p.serviceLister == serviceLister
  {
    Prober(namespace, serviceName, serviceLister, DefaultTimeout, awaitPaths)
  }

  /** isNodeUnderMaintenance: the lookup error, or whether the Service carries the label. */
  function IsNodeUnderMaintenance(p: Prober): (r: Result<bool>)
    ensures r.Err? <==> p.serviceLister(p.namespace, p.serviceName).Err?
    ensures r.Ok? ==> (r.value <==> NodeMaintenanceLabel in p.serviceLister(p.namespace, p.serviceName).value.meta.labels)
  {
    match p.serviceLister(p.namespace, p.serviceName)
    case Err(e) => Err(e)
    case Ok(svc) => Ok(NodeMaintenanceLabel in svc.meta.labels)
  }

  /** What `os.Stat` of one path reports, classified by `errors.Is(err, fs.ErrNotExist)`. */
  datatype StatResult = Exists | NotExist | StatError(cause: string)

  /** One "can't stat path" error, with the path and its cause. */
  datatype StatFailure = StatFailure(path: string, cause: string)

  /** The `utilerrors.NewAggregate` of the collected stat failures. */
  datatype AggregateError = AggregateError(errors: seq<StatFailure>)

  /** Every path whose stat fails other than by absence, in path order. */
  function UnexpectedStatFailures(paths: seq<string>, stat: string -> StatResult): seq<StatFailure> {
    if |paths| == 0 then []
    else
      var last := paths[|paths| - 1];
      UnexpectedStatFailures(paths[..|paths| - 1], stat) +
        (if stat(last).StatError? then [StatFailure(last, stat(last).cause)] else [])
  }

  predicate NoUnexpectedStatError(paths: seq<string>, stat: string -> StatResult) {
    forall i :: 0 <= i < |paths| ==> !stat(paths[i]).StatError?
  }

  predicate SomePathMissing(paths: seq<string>, stat: string -> StatResult) {
    exists i :: 0 <= i < |paths| && stat(paths[i]) == NotExist
  }

  /** No failure is collected exactly when no stat fails unexpectedly. */
  lemma {:induction false} NoFailuresIff(paths: seq<string>, stat: string -> StatResult)
    ensures UnexpectedStatFailures(paths, stat) == [] <==> NoUnexpectedStatError(paths, stat)
  {
    if |paths| > 0 {
      var init := paths[..|paths| - 1];
      NoFailuresIff(init, stat);
      assert forall i :: 0 <= i < |init| ==> init[i] == paths[i];
    }
  }

  /** Every unexpectedly failing path is reported, with its own cause: the scan does not stop early. */
  lemma {:induction false} EveryStatFailureReported(paths: seq<string>, stat: string -> StatResult, i: nat)
    requires i < |paths| && stat(paths[i]).StatError?
    ensures StatFailure(paths[i], stat(paths[i]).cause) in UnexpectedStatFailures(paths, stat)
  {
    var n := |paths| - 1;
    if i < n {
      assert paths[..n][i] == paths[i];
      EveryStatFailureReported(paths[..n], stat, i);
    }
  }

  /** Only unexpectedly failing paths are reported, each with the cause its stat gave. */
  lemma {:induction false} OnlyStatFailuresReported(paths: seq<string>, stat: string -> StatResult, f: StatFailure)
    requires f in UnexpectedStatFailures(paths, stat)
    ensures f.path in paths && stat(f.path) == StatError(f.cause)
  {
    var n := |paths| - 1;
    if f in UnexpectedStatFailures(paths[..n], stat) {
      OnlyStatFailuresReported(paths[..n], stat, f);
    }
  }

  /** What awaitPathsExist returns: readiness, and the aggregate of the unexpected stat errors. */
  function AwaitPathsExistResult(paths: seq<string>, stat: string -> StatResult): (bool, Option<AggregateError>) {
    var errs := UnexpectedStatFailures(paths, stat);
    if errs != [] then (false, Some(AggregateError(errs)))
    else (!SomePathMissing(paths, stat), None)
  }

  /**
   * awaitPathsExist: stat every path, collecting every unexpected error and clearing `ready`
   * on every missing path; any collected error wins.
   */
  method AwaitPathsExist(p: Prober, stat: string -> StatResult) returns (ready: bool, err: Option<AggregateError>)
    ensures (ready, err) == AwaitPathsExistResult(p.awaitPaths, stat)
    ensures err.Some? <==> !NoUnexpectedStatError(p.awaitPaths, stat)
    ensures err.Some? ==> !ready && err.value.errors == UnexpectedStatFailures(p.awaitPaths, stat)
    ensures err.None? ==> (ready <==> !SomePathMissing(p.awaitPaths, stat))
  {
    var paths := p.awaitPaths;
    var errs: seq<StatFailure> := [];
    ready := true;
    for i := 0 to |paths|
      invariant errs == UnexpectedStatFailures(paths[..i], stat)
      invariant ready <==> forall j :: 0 <= j < i ==> stat(paths[j]) != NotExist
    {
      var path := paths[i];
      assert paths[..i + 1][..i] == paths[..i];
      match stat(path)
      case Exists =>
      case StatError(cause) =>
        errs := errs + [StatFailure(path, cause)];
      case NotExist =>
        ready := false;
    }
    assert paths[..|paths|] == paths;
    NoFailuresIff(paths, stat);
    if errs != [] {
      return false, Some(AggregateError(errs));
    }
    return ready, None;
  }

  /** One entry of the ScyllaDB node-status list. */
  datatype NodeStatus = NodeStatus(addr: string, hostID: string, status: string, state: string)

  /**
   * Everything a probe invocation observes outside the process: the stat of each path, the
   * ScyllaDB client's creation and calls (one answer each per invocation), and the client
   * library's `NodeStatus.IsUN` classifier.
   */
  datatype Observations = Observations(
    stat: string -> StatResult,
    newClient: Outcome,
    nodeStatuses: Result<seq<NodeStatus>>,
    localHostID: Result<string>,
    nativeTransportEnabled: Result<bool>,
    ping: Outcome,
    isUN: NodeStatus -> bool)

  /** The list entry is this node, up and normal. */
  predicate IsLocalUN(s: NodeStatus, hostID: string, isUN: NodeStatus -> bool) {
    s.hostID == hostID && isUN(s)
  }

  predicate HasLocalUN(statuses: seq<NodeStatus>, hostID: string, isUN: NodeStatus -> bool) {
    exists i :: 0 <= i < |statuses| && IsLocalUN(statuses[i], hostID, isUN)
  }

  /** The code the readyz scan over the node-status list ends with. */
  function NodeStatusScanCode(statuses: seq<NodeStatus>, hostID: string, isUN: NodeStatus -> bool, transport: Result<bool>): int {
    if HasLocalUN(statuses, hostID, isUN) && transport == Ok(true) then StatusOK
    else StatusServiceUnavailable
  }

  /**
   * The scan at the end of readyz: for each entry that is this node and up/normal, ask whether
   * native transport is enabled; an error or `true` ends the scan, `false` goes on.
   */
  method ScanNodeStatuses(statuses: seq<NodeStatus>, hostID: string, isUN: NodeStatus -> bool, transport: Result<bool>)
    returns (code: int)
    ensures code == NodeStatusScanCode(statuses, hostID, isUN, transport)
    ensures code == StatusOK <==> HasLocalUN(statuses, hostID, isUN) && transport == Ok(true)
    ensures code == StatusOK || code == StatusServiceUnavailable
  {
    for i := 0 to |statuses|
      invariant forall j :: 0 <= j < i && IsLocalUN(statuses[j], hostID, isUN) ==> transport == Ok(false)
    {
      var s := statuses[i];
      if s.hostID == hostID && isUN(s) {
        assert IsLocalUN(statuses[i], hostID, isUN);
        match transport
        case Err(_) =>
          return StatusServiceUnavailable;
        case Ok(transportEnabled) =>
          if transportEnabled {
            return StatusOK;
          }
      }
    }
    return StatusServiceUnavailable;
  }

  /** The one status code Readyz writes. */
  function Readyz(p: Prober, obs: Observations): (code: int)
    ensures code == StatusOK || code == StatusInternalServerError || code == StatusServiceUnavailable
  {
    var awaitPaths := AwaitPathsExistResult(p.awaitPaths, obs.stat);
    if awaitPaths.1.Some? then StatusInternalServerError
    else if !awaitPaths.0 then StatusServiceUnavailable
    else match IsNodeUnderMaintenance(p)
      case Err(_) => StatusServiceUnavailable
      case Ok(underMaintenance) =>
        if underMaintenance then StatusServiceUnavailable
        else if obs.newClient.Fail? then StatusInternalServerError
        else match obs.nodeStatuses
          case Err(_) => StatusInternalServerError
          case Ok(nodeStatuses) =>
            match obs.localHostID
            case Err(_) => StatusInternalServerError
            case Ok(hostID) => NodeStatusScanCode(nodeStatuses, hostID, obs.isUN, obs.nativeTransportEnabled)
  }

  /** The one status code Healthz writes. */
  function Healthz(p: Prober, obs: Observations): (code: int)
    ensures code == StatusOK || code == StatusInternalServerError || code == StatusServiceUnavailable
  {
    var awaitPaths := AwaitPathsExistResult(p.awaitPaths, obs.stat);
    if awaitPaths.1.Some? then StatusInternalServerError
    else if !awaitPaths.0 then StatusOK
    else match IsNodeUnderMaintenance(p)
      case Err(_) => StatusServiceUnavailable
      case Ok(underMaintenance) =>
        if underMaintenance then StatusOK
        else if obs.newClient.Fail? then StatusInternalServerError
        else if obs.ping.Fail? then StatusServiceUnavailable
        else StatusOK
  }

  /** The await paths are all present and none failed to stat. */
  predicate PathsReady(p: Prober, obs: Observations) {
    NoUnexpectedStatError(p.awaitPaths, obs.stat) && !SomePathMissing(p.awaitPaths, obs.stat)
  }

  /** Readyz answers 200 exactly when every check on the chain passes. */
  lemma ReadyzOkIff(p: Prober, obs: Observations)
    ensures Readyz(p, obs) == StatusOK <==>
      && PathsReady(p, obs)
      && IsNodeUnderMaintenance(p) == Ok(false)
      && obs.newClient.Pass?
      && obs.nodeStatuses.Ok?
      && obs.localHostID.Ok?
      && HasLocalUN(obs.nodeStatuses.value, obs.localHostID.value, obs.isUN)
      && obs.nativeTransportEnabled == Ok(true)
  {
    NoFailuresIff(p.awaitPaths, obs.stat);
  }

  /**
   * Readyz answers 500 exactly for an unexpected stat error, or, past the path and maintenance
   * checks, for a failure to create the client, to list node statuses or to read the host ID.
   */
  lemma ReadyzInternalErrorIff(p: Prober, obs: Observations)
    ensures Readyz(p, obs) == StatusInternalServerError <==>
      || !NoUnexpectedStatError(p.awaitPaths, obs.stat)
      || (&& PathsReady(p, obs)
          && IsNodeUnderMaintenance(p) == Ok(false)
          && (obs.newClient.Fail? || obs.nodeStatuses.Err? || obs.localHostID.Err?))
  {
    NoFailuresIff(p.awaitPaths, obs.stat);
  }

  /**
   * Healthz answers 200 exactly when the node is still awaiting its paths, is under maintenance,
   * or its ScyllaDB API answers the ping; 503 when the maintenance lookup or the ping fails.
   */
  lemma HealthzDecision(p: Prober, obs: Observations)
    ensures Healthz(p, obs) == StatusOK <==>
      && NoUnexpectedStatError(p.awaitPaths, obs.stat)
      && (|| SomePathMissing(p.awaitPaths, obs.stat)
          || IsNodeUnderMaintenance(p) == Ok(true)
          || (IsNodeUnderMaintenance(p) == Ok(false) && obs.newClient.Pass? && obs.ping.Pass?))
    ensures Healthz(p, obs) == StatusServiceUnavailable <==>
      && PathsReady(p, obs)
      && (|| IsNodeUnderMaintenance(p).Err?
          || (IsNodeUnderMaintenance(p) == Ok(false) && obs.newClient.Pass? && obs.ping.Fail?))
  {
    NoFailuresIff(p.awaitPaths, obs.stat);
  }

  /** An unexpected stat error makes both probes answer 500, before anything else is consulted. */
  lemma StatErrorIsInternalError(p: Prober, obs: Observations, i: nat)
    requires i < |p.awaitPaths| && obs.stat(p.awaitPaths[i]).StatError?
    ensures Readyz(p, obs) == StatusInternalServerError
    ensures Healthz(p, obs) == StatusInternalServerError
  {
    EveryStatFailureReported(p.awaitPaths, obs.stat, i);
  }

  /**
   * A missing path (with no stat error) makes readyz answer 503 and healthz 200 whatever the
   * maintenance lookup and the ScyllaDB API would say: the path check comes first.
   */
  lemma MissingPathPrecedesMaintenance(p: Prober, i: nat, lister: (string, string) -> Result<Service>, obs: Observations)
    requires NoUnexpectedStatError(p.awaitPaths, obs.stat)
    requires i < |p.awaitPaths| && obs.stat(p.awaitPaths[i]) == NotExist
    ensures Readyz(p.(serviceLister := lister), obs) == StatusServiceUnavailable
    ensures Healthz(p.(serviceLister := lister), obs) == StatusOK
  {
    NoFailuresIff(p.awaitPaths, obs.stat);
  }

  /** A Service carrying the maintenance label: readyz 503, healthz 200, whatever the ScyllaDB API says. */
  lemma MaintenanceOverridesDatabase(p: Prober, obs: Observations)
    requires PathsReady(p, obs)
    requires p.serviceLister(p.namespace, p.serviceName).Ok?
    requires NodeMaintenanceLabel in p.serviceLister(p.namespace, p.serviceName).value.meta.labels
    ensures Readyz(p, obs) == StatusServiceUnavailable
    ensures Healthz(p, obs) == StatusOK
  {
    NoFailuresIff(p.awaitPaths, obs.stat);
  }

  /** A failed maintenance lookup: 503 on both probes. */
  lemma MaintenanceLookupErrorIsUnavailable(p: Prober, obs: Observations)
    requires PathsReady(p, obs)
    requires p.serviceLister(p.namespace, p.serviceName).Err?
    ensures Readyz(p, obs) == StatusServiceUnavailable
    ensures Healthz(p, obs) == StatusServiceUnavailable
  {
    NoFailuresIff(p.awaitPaths, obs.stat);
  }

  /** Healthz never looks at the node-status list, the host ID or native transport. */
  lemma HealthzIgnoresReadinessCalls(p: Prober, obs: Observations, statuses: Result<seq<NodeStatus>>, hostID: Result<string>, transport: Result<bool>)
    ensures Healthz(p, obs) == Healthz(p, obs.(nodeStatuses := statuses, localHostID := hostID, nativeTransportEnabled := transport))
  {
  }

  /** Readyz never pings. */
  lemma ReadyzIgnoresPing(p: Prober, obs: Observations, ping: Outcome)
    ensures Readyz(p, obs) == Readyz(p, obs.(ping := ping))
  {
  }
}
