/** The operator's judgement said once more, in terms of the objects alone: what counts as failing, who owns a
    pod, what is excluded, when all replicas fail, and what is to be stopped. No list is walked here, no answer
    is cached, and every default and constant is written out. */
module Reference {
  import opened Cluster

  // ----- Settings -----

  function WatchedReasons(spec: Spec): seq<string> {
    if spec.watchReasons == [] then
      ["CrashLoopBackOff", "ImagePullBackOff", "ErrImagePull", "CreateContainerConfigError", "InvalidImageName",
       "RunContainerError"]
    else spec.watchReasons
  }

  function Restarts(spec: Spec): int {
    if spec.restartThreshold >= 1 then spec.restartThreshold else 10
  }

  /** In nanoseconds: half an hour where the field says nothing usable. */
  function FailingTime(spec: Spec): int {
    match spec.durationThreshold case Parsed(n) => n case _ => 1_800_000_000_000
  }

  function Window(spec: Spec): int {
    match spec.restartWindow case Parsed(n) => n case _ => 3_600_000_000_000
  }

  function Interval(spec: Spec): int {
    match spec.reconcileInterval
    case Parsed(n) => if n > 0 then n else 60_000_000_000
    case _ => 60_000_000_000
  }

  function TargetKinds(spec: Spec): seq<string> {
    if spec.targets == [] then ["Deployment", "StatefulSet", "CronJob"] else spec.targets
  }

  predicate WantsAll(spec: Spec) {
    match spec.allReplicasFailing case None => true case Some(b) => b
  }

  predicate SameContainer(spec: Spec) {
    spec.failureCorrelation == "Container"
  }

  // ----- Pods -----

  predicate InPod(pod: Pod, s: ContainerStatus) {
    s in pod.containers || s in pod.initContainers
  }

  predicate Watched(spec: Spec, s: ContainerStatus) {
    s.waiting.Some? && s.waiting.value in WatchedReasons(spec)
  }

  predicate Live(pod: Pod) {
    !pod.deleting && pod.phase != "Succeeded" && pod.phase != "Failed"
  }

  /** Running or coming back, past its startup probe, restarted often enough, and last dead for a watched reason
      within the window. */
  predicate KeepsDying(spec: Spec, s: ContainerStatus, now: int) {
    && !s.terminated
    && (s.started.Some? ==> s.started.value)
    && s.restartCount >= Restarts(spec)
    && s.lastTermination.Some?
    && s.lastTermination.value.reason != ""
    && s.lastTermination.value.reason in spec.watchTerminationReasons
    && s.lastTermination.value.finishedAt.Some?
    && now <= s.lastTermination.value.finishedAt.value + Window(spec)
  }

  predicate Sidecar(pod: Pod, name: string) {
    exists c :: c in pod.initSpecs && c.name == name && c.restartAlways
  }

  ghost predicate Waiting(spec: Spec, pod: Pod) {
    exists s :: InPod(pod, s) && Watched(spec, s)
  }

  ghost predicate Looping(spec: Spec, pod: Pod, now: int) {
    && Live(pod)
    && exists s :: (s in pod.containers || (s in pod.initContainers && Sidecar(pod, s.name)))
                   && KeepsDying(spec, s, now)
  }

  ghost predicate RestartedEnough(spec: Spec, pod: Pod) {
    exists s :: InPod(pod, s) && s.restartCount >= Restarts(spec)
  }

  predicate Usable(c: PodCondition, kind: string) {
    c.kind == kind && c.status == "False" && c.lastTransition.Some?
  }

  /** Condition i is the first usable one of its kind. */
  ghost predicate FirstUsable(conditions: seq<PodCondition>, kind: string, i: int, t: int) {
    && 0 <= i < |conditions| && Usable(conditions[i], kind) && conditions[i].lastTransition == Some(t)
    && forall j :: 0 <= j < i ==> !Usable(conditions[j], kind)
  }

  ghost predicate FalseSince(pod: Pod, kind: string, t: int) {
    exists i :: FirstUsable(pod.conditions, kind, i, t)
  }

  ghost predicate NotReadySince(pod: Pod, t: int) {
    || FalseSince(pod, "ContainersReady", t)
    || (FalseSince(pod, "Ready", t) && forall c :: c in pod.conditions ==> !Usable(c, "ContainersReady"))
  }

  ghost predicate FailingLongEnough(spec: Spec, pod: Pod, now: int) {
    exists t :: NotReadySince(pod, t) && t + FailingTime(spec) <= now
  }

  ghost predicate Accepted(spec: Spec, pod: Pod, now: int) {
    || Looping(spec, pod, now)
    || (Waiting(spec, pod) && (RestartedEnough(spec, pod) || FailingLongEnough(spec, pod, now)))
  }

  /** The pod waits for nothing but the clock to reach `until`. */
  ghost predicate WaitsUntil(spec: Spec, pod: Pod, now: int, until: int) {
    && Waiting(spec, pod) && !Looping(spec, pod, now) && !RestartedEnough(spec, pod)
    && now < until && exists t :: NotReadySince(pod, t) && until == t + FailingTime(spec)
  }

  // ----- Namespaces -----

  predicate ScopeUnknown(view: View, spec: Spec) {
    && spec.namespaceSelector.Some?
    && (!spec.namespaceSelector.value.valid
        || (!spec.namespaceSelector.value.empty && ListNamespaces in view.faults))
  }

  predicate Admitted(view: View, spec: Spec, namespace: string) {
    && namespace !in spec.excludeNamespaces
    && (spec.namespaceSelector.Some? && !spec.namespaceSelector.value.empty ==>
          namespace in view.namespaces && spec.namespaceSelector.value.matches(view.namespaces[namespace]))
  }

  // ----- Owners -----

  /** The first reference that says it is the controller. */
  ghost predicate ControlledBy(owners: seq<OwnerRef>, o: OwnerRef) {
    exists i :: 0 <= i < |owners| && owners[i] == o && o.controller && forall j :: 0 <= j < i ==> !owners[j].controller
  }

  ghost predicate OwnsThrough(view: View, pod: Pod, o: OwnerRef, i: Intermediate, up: OwnerRef, ref: Ref) {
    && i in view.intermediates && i.namespace == pod.namespace
    && i.kind == o.kind && i.name == o.name && i.uid == o.uid
    && ControlledBy(i.owners, up)
    && ((i.kind == "ReplicaSet" && up.kind == "Deployment") || (i.kind == "Job" && up.kind == "CronJob"))
    && ref == Ref(up.kind, pod.namespace, up.name)
  }

  ghost predicate Owns(view: View, pod: Pod, ref: Ref) {
    exists o :: ControlledBy(pod.owners, o) &&
      if o.kind == "StatefulSet" then ref == Ref("StatefulSet", pod.namespace, o.name)
      else exists i, up :: OwnsThrough(view, pod, o, i, up, ref)
  }

  ghost predicate OwnerUnknown(view: View, pod: Pod) {
    exists o :: ControlledBy(pod.owners, o) && (o.kind == "ReplicaSet" || o.kind == "Job")
                && GetIntermediate(o.kind, pod.namespace, o.name) in view.faults
  }

  // ----- Workloads -----

  predicate IsRunning(kind: string, w: Workload) {
    if kind == "CronJob" then w.suspend.None? || !w.suspend.value
    else w.replicas.None? || w.replicas.value > 0
  }

  predicate ExclusionUnknown(spec: Spec, read: Result<Workload>) {
    && spec.excludeWorkloadSelector.Some?
    && (!spec.excludeWorkloadSelector.value.valid || (read.Err? && read.error != NotFound))
  }

  predicate Excluded(spec: Spec, w: Workload) {
    spec.excludeWorkloadSelector.Some? && spec.excludeWorkloadSelector.value.matches(w.labels)
  }

  predicate Mentions(owners: seq<OwnerRef>, kind: string, name: string) {
    exists o :: o in owners && o.kind == kind && o.name == name
  }

  predicate IsJobOf(view: View, ref: Ref, j: Intermediate) {
    && j in view.intermediates && j.kind == "Job" && j.namespace == ref.namespace
    && Mentions(j.owners, "CronJob", ref.name)
  }

  predicate LatestJob(view: View, ref: Ref, j: Intermediate) {
    && IsJobOf(view, ref, j)
    && forall k :: k in view.intermediates && IsJobOf(view, ref, k) && k != j ==> k.created < j.created
  }

  predicate IsReplica(view: View, ref: Ref, w: Workload, pod: Pod) {
    && pod in view.pods && pod.namespace == ref.namespace
    && if ref.kind == "CronJob"
       then exists j :: j in view.intermediates && LatestJob(view, ref, j) && Mentions(pod.owners, "Job", j.name)
       else w.selector.matches(pod.labels)
  }

  predicate Fails(spec: Spec, pod: Pod, s: ContainerStatus, now: int) {
    Watched(spec, s) || (Live(pod) && KeepsDying(spec, s, now))
  }

  ghost predicate FailsUnder(spec: Spec, pod: Pod, name: string, now: int) {
    exists s :: InPod(pod, s) && s.name == name && Fails(spec, pod, s, now)
  }

  ghost predicate AllFailUnder(view: View, spec: Spec, now: int, ref: Ref, w: Workload, name: string) {
    forall pod :: IsReplica(view, ref, w, pod) ==> FailsUnder(spec, pod, name, now)
  }

  ghost predicate AllFail(view: View, spec: Spec, now: int, ref: Ref, w: Workload) {
    && (exists pod :: IsReplica(view, ref, w, pod))
    && if SameContainer(spec)
       then exists name :: AllFailUnder(view, spec, now, ref, w, name)
       else forall pod :: IsReplica(view, ref, w, pod) ==> Waiting(spec, pod) || Looping(spec, pod, now)
  }

  /** Whether all replicas fail cannot be told. */
  ghost predicate ReplicasUnknown(view: View, ref: Ref, read: Result<Workload>) {
    if ref.kind == "CronJob" then
      || read.Err? || ListJobs(ref.namespace) in view.faults
      || ((exists j :: IsJobOf(view, ref, j)) && ListPods(ref.namespace) in view.faults)
    else
      || read.Err?
      || (IsRunning(ref.kind, read.value) && (!read.value.selector.valid || ListPods(ref.namespace) in view.faults))
  }

  ghost predicate ReplicasCondemn(view: View, spec: Spec, now: int, ref: Ref, read: Result<Workload>) {
    && !ReplicasUnknown(view, ref, read) && read.Ok?
    && (ref.kind != "CronJob" ==> IsRunning(ref.kind, read.value))
    && AllFail(view, spec, now, ref, read.value)
  }

  // ----- Judgement -----

  /** The owner may be stopped under this policy, as far as the owner goes. */
  ghost predicate OwnerCondemned(view: View, spec: Spec, now: int, ref: Ref, read: Result<Workload>) {
    && !ExclusionUnknown(spec, read)
    && (read.Ok? ==> !Excluded(spec, read.value))
    && (WantsAll(spec) ==> ReplicasCondemn(view, spec, now, ref, read))
  }

  ghost predicate OwnerUndecided(view: View, spec: Spec, ref: Ref, read: Result<Workload>) {
    || ExclusionUnknown(spec, read)
    || (WantsAll(spec) && ReplicasUnknown(view, ref, read) && (read.Ok? ==> !Excluded(spec, read.value)))
  }

  /** The policy takes the pod as a reason to look at this kind of owner. */
  ghost predicate TakesUp(view: View, spec: Spec, now: int, pod: Pod, kind: string) {
    Admitted(view, spec, pod.namespace) && kind in TargetKinds(spec) && Accepted(spec, pod, now)
  }

  ghost predicate Acts(view: View, spec: Spec, now: int, pod: Pod, ref: Ref, read: Result<Workload>) {
    !ScopeUnknown(view, spec) && TakesUp(view, spec, now, pod, ref.kind) && OwnerCondemned(view, spec, now, ref, read)
  }

  ghost predicate CannotTell(view: View, spec: Spec, now: int, pod: Pod, ref: Ref, read: Result<Workload>) {
    ScopeUnknown(view, spec) || (TakesUp(view, spec, now, pod, ref.kind) && OwnerUndecided(view, spec, ref, read))
  }

  /** Under this policy alone the workload is to be stopped: it can be read and is running, some pod of the cluster
      that it owns is taken up, and the owner is condemned. */
  ghost predicate Doomed(view: View, spec: Spec, now: int, ref: Ref, objects: Objects) {
    && GetWorkload(ref) !in view.faults && ref in objects && IsRunning(ref.kind, objects[ref])
    && (exists pod :: pod in view.pods && Owns(view, pod, ref) && !OwnerUnknown(view, pod)
                      && TakesUp(view, spec, now, pod, ref.kind))
    && OwnerCondemned(view, spec, now, ref, Ok(objects[ref]))
  }

  // ----- Indexes, attribution and requeue -----

  /** A container of the pod waits for this reason, or has restarted and last died for it; a reason that is no text
      is not indexed. */
  ghost predicate Indexed(pod: Pod, waiting: bool, reason: string) {
    && reason != ""
    && exists s :: InPod(pod, s) &&
         if waiting then s.waiting == Some(reason)
         else s.restartCount != 0 && s.lastTermination.Some? && s.lastTermination.value.reason == reason
  }

  ghost predicate Marked(w: Workload, name: string) {
    && "crashloop-operator.lauger.de/scaled-down-reason" in w.annotations
    && w.annotations["crashloop-operator.lauger.de/scaled-down-reason"] != ""
    && (if "crashloop-operator.lauger.de/scaled-down-by" in w.annotations
        then w.annotations["crashloop-operator.lauger.de/scaled-down-by"] == name else name == "")
  }

  /** Some admitted pod of the listing waits until this instant. */
  ghost predicate SomeWaitsUntil(view: View, spec: Spec, pods: seq<Pod>, now: int, until: int) {
    exists pod :: pod in pods && Admitted(view, spec, pod.namespace) && WaitsUntil(spec, pod, now, until)
  }

  /** How long after `finished` the next pass is due: the interval, cut short by the earliest expiry, but never to
      less than a second. */
  ghost predicate DueAfter(view: View, spec: Spec, pods: seq<Pod>, now: int, finished: int, r: int) {
    if forall until :: !SomeWaitsUntil(view, spec, pods, now, until) then r == Interval(spec)
    else
      exists first :: SomeWaitsUntil(view, spec, pods, now, first)
        && (forall until :: SomeWaitsUntil(view, spec, pods, now, until) ==> first <= until)
        && var left := if first - finished >= 1_000_000_000 then first - finished else 1_000_000_000;
        r == if left < Interval(spec) then left else Interval(spec)
  }
}
