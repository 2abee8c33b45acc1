/** The abstract cluster: Kubernetes objects as values, cut down to the fields the operator reads or
    writes. Times and durations are unbounded integers counting nanoseconds; the zero time is None. */
module Cluster {

  datatype Option<+T> = None | Some(value: T)

  datatype Error = NotFound | Conflict | Unavailable | BadSelector

  datatype Result<+T> = Ok(value: T) | Err(error: Error)

  /** The operator's (bool, error) results, where only the presence of the error matters. */
  datatype Answer = Yes | No | Failed

  type Labels = map<string, string>

  /** A label selector. Parsing may fail, and matching is an arbitrary predicate on label maps. */
  datatype Selector = Selector(valid: bool, empty: bool, matches: Labels -> bool)

  datatype OwnerRef = OwnerRef(kind: string, name: string, uid: string, controller: bool)

  datatype Termination = Termination(reason: string, finishedAt: Option<int>)

  datatype ContainerStatus = ContainerStatus(
    name: string,
    waiting: Option<string>,
    terminated: bool,
    started: Option<bool>,
    restartCount: int,
    lastTermination: Option<Termination>)

  datatype InitContainer = InitContainer(name: string, restartAlways: bool)

  datatype PodCondition = PodCondition(kind: string, status: string, lastTransition: Option<int>)

  datatype Pod = Pod(
    uid: string,
    namespace: string,
    labels: Labels,
    owners: seq<OwnerRef>,
    deleting: bool,
    phase: string,
    initSpecs: seq<InitContainer>,
    containers: seq<ContainerStatus>,
    initContainers: seq<ContainerStatus>,
    conditions: seq<PodCondition>)

  /** A ReplicaSet or a Job: the object between a pod and the workload that owns it. */
  datatype Intermediate = Intermediate(
    kind: string, namespace: string, name: string, uid: string, owners: seq<OwnerRef>, created: int)

  /** Identity of a Deployment, StatefulSet or CronJob. */
  datatype Ref = Ref(kind: string, namespace: string, name: string)

  datatype Workload = Workload(
    labels: Labels,
    annotations: map<string, string>,
    replicas: Option<nat>,
    suspend: Option<bool>,
    selector: Selector)

  /** A duration field of the spec, after time.ParseDuration has been tried on it. */
  datatype Duration = Unset | Malformed | Parsed(nanos: int)

  datatype Spec = Spec(
    watchReasons: seq<string>,
    watchTerminationReasons: seq<string>,
    restartWindow: Duration,
    restartThreshold: int,
    durationThreshold: Duration,
    allReplicasFailing: Option<bool>,
    failureCorrelation: string,
    targets: seq<string>,
    namespaceSelector: Option<Selector>,
    excludeNamespaces: seq<string>,
    excludeWorkloadSelector: Option<Selector>,
    reconcileInterval: Duration,
    dryRun: Option<bool>)

  datatype Policy = Policy(name: string, generation: int, spec: Spec)

  /** The reads that an unreachable API server may refuse for the length of a pass. */
  datatype Read =
    | GetWorkload(ref: Ref)
    | GetIntermediate(kind: string, namespace: string, name: string)
    | ListPods(namespace: string)
    | ListJobs(namespace: string)
    | ListWorkloads(kind: string)
    | ListNamespaces
    | ListPolicies
    | ListByIndex(value: string)

  /** What a reconcile pass sees and never writes. `listing` is the order in which workloads are listed. */
  datatype View = View(
    pods: seq<Pod>,
    intermediates: seq<Intermediate>,
    namespaces: map<string, Labels>,
    policies: seq<Policy>,
    listing: seq<Ref>,
    faults: set<Read>)

  /** The workloads a pass may write, at their newest version. */
  type Objects = map<Ref, Workload>

  /** Spec.replicas with its default (helpers.go currentReplicas). */
  function Count(w: Workload): nat {
    if w.replicas.Some? then w.replicas.value else 1
  }

  predicate IsSuspended(w: Workload) {
    w.suspend == Some(true)
  }

  ghost predicate NoDuplicates<T>(s: seq<T>) {
    forall i, j :: 0 <= i < j < |s| ==> s[i] != s[j]
  }
}
