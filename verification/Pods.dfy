/** When a pod counts as failing: waiting states, restart loops, restart counts and the readiness clock. */
module Pods {
  import opened Cluster

  predicate Waits(s: ContainerStatus, reasons: seq<string>) {
    s.waiting.Some? && s.waiting.value in reasons
  }

  function FirstWaiting(statuses: seq<ContainerStatus>, reasons: seq<string>): (r: Option<string>)
    ensures r.Some? <==> exists s :: s in statuses && Waits(s, reasons)
    ensures r.Some? ==> exists s :: s in statuses && Waits(s, reasons) && s.waiting == r
  {
    if statuses == [] then None
    else if Waits(statuses[0], reasons) then Some(statuses[0].waiting.value)
    else FirstWaiting(statuses[1..], reasons)
  }

  /** podHasFailureReason: regular containers are looked at before init containers. */
  function FailureReason(pod: Pod, reasons: seq<string>): (r: Option<string>)
    ensures r.Some? <==> exists s :: s in pod.containers + pod.initContainers && Waits(s, reasons)
    ensures r.Some? ==> r.value in reasons
    ensures r.Some? ==>
              || (exists s :: s in pod.containers && Waits(s, reasons) && s.waiting == r)
              || ((forall s :: s in pod.containers ==> !Waits(s, reasons))
                  && exists s :: s in pod.initContainers && Waits(s, reasons) && s.waiting == r)
  {
    var first := FirstWaiting(pod.containers, reasons);
    if first.Some? then first else FirstWaiting(pod.initContainers, reasons)
  }

  /** The names of the init containers that are sidecars. */
  function RestartableInits(pod: Pod): set<string> {
    set c | c in pod.initSpecs && c.restartAlways :: c.name
  }

  /** The loop criteria for one container, without regard to where it runs. */
  predicate Loops(s: ContainerStatus, reasons: seq<string>, threshold: int, window: int, now: int) {
    && !s.terminated
    && s.started != Some(false)
    && s.restartCount >= threshold
    && s.lastTermination.Some?
    && var t := s.lastTermination.value;
    && t.reason != ""
    && t.reason in reasons
    && t.finishedAt.Some?
    && now - t.finishedAt.value <= window
  }

  predicate PodCanLoop(pod: Pod, reasons: seq<string>) {
    reasons != [] && !pod.deleting && pod.phase != "Succeeded" && pod.phase != "Failed"
  }

  function FirstLoop(
    statuses: seq<ContainerStatus>, eligible: Option<set<string>>,
    reasons: seq<string>, threshold: int, window: int, now: int): (r: Option<string>)
    ensures r.Some? <==> exists s :: s in statuses && (eligible.Some? ==> s.name in eligible.value)
                                     && Loops(s, reasons, threshold, window, now)
    ensures r.Some? ==> exists s :: s in statuses && Loops(s, reasons, threshold, window, now)
                                    && r.value == s.lastTermination.value.reason
  {
    if statuses == [] then None
    else if (eligible.Some? ==> statuses[0].name in eligible.value)
            && Loops(statuses[0], reasons, threshold, window, now)
    then Some(statuses[0].lastTermination.value.reason)
    else FirstLoop(statuses[1..], eligible, reasons, threshold, window, now)
  }

  /** podIsRestartLooping: only sidecars among the init containers are eligible. */
  function LoopReason(pod: Pod, reasons: seq<string>, threshold: int, window: int, now: int): Option<string> {
    if !PodCanLoop(pod, reasons) then None
    else
      var first := FirstLoop(pod.containers, None, reasons, threshold, window, now);
      if first.Some? then first
      else FirstLoop(pod.initContainers, Some(RestartableInits(pod)), reasons, threshold, window, now)
  }

  /** Some regular container or sidecar of a live pod meets the loop criteria. */
  lemma LoopReasonMeaning(pod: Pod, reasons: seq<string>, threshold: int, window: int, now: int)
    ensures LoopReason(pod, reasons, threshold, window, now).Some? <==>
            PodCanLoop(pod, reasons) &&
            ((exists s :: s in pod.containers && Loops(s, reasons, threshold, window, now)) ||
             (exists s :: s in pod.initContainers && s.name in RestartableInits(pod) &&
                          Loops(s, reasons, threshold, window, now)))
    ensures var r := LoopReason(pod, reasons, threshold, window, now);
            r.Some? ==> exists s :: (s in pod.containers || s in pod.initContainers)
                                    && Loops(s, reasons, threshold, window, now)
                                    && r.value == s.lastTermination.value.reason
  {
  }

  predicate ExceedsRestarts(pod: Pod, threshold: int) {
    || (exists s :: s in pod.containers && s.restartCount >= threshold)
    || (exists s :: s in pod.initContainers && s.restartCount >= threshold)
  }

  /** A restart loop always carries enough restarts for the waiting-state threshold as well. */
  lemma LoopExceedsRestarts(pod: Pod, reasons: seq<string>, threshold: int, window: int, now: int)
    requires LoopReason(pod, reasons, threshold, window, now).Some?
    ensures ExceedsRestarts(pod, threshold)
  {
    LoopReasonMeaning(pod, reasons, threshold, window, now);
  }

  predicate SaysFalse(c: PodCondition, kind: string) {
    c.kind == kind && c.status == "False" && c.lastTransition.Some?
  }

  function FirstTransition(conditions: seq<PodCondition>, kind: string): (r: Option<int>)
    ensures r.Some? <==> exists c :: c in conditions && SaysFalse(c, kind)
    ensures r.Some? ==> exists c :: c in conditions && SaysFalse(c, kind) && c.lastTransition == r
  {
    if conditions == [] then None
    else if SaysFalse(conditions[0], kind) then conditions[0].lastTransition
    else FirstTransition(conditions[1..], kind)
  }

  /** podFailingSince: ContainersReady is preferred over Ready. */
  function FailingSince(pod: Pod): (r: Option<int>)
    ensures r.Some? <==> exists c :: c in pod.conditions && (SaysFalse(c, "ContainersReady") || SaysFalse(c, "Ready"))
    ensures r.Some? ==>
              || (exists c :: c in pod.conditions && SaysFalse(c, "ContainersReady") && c.lastTransition == r)
              || ((forall c :: c in pod.conditions ==> !SaysFalse(c, "ContainersReady"))
                  && exists c :: c in pod.conditions && SaysFalse(c, "Ready") && c.lastTransition == r)
  {
    var ready := FirstTransition(pod.conditions, "ContainersReady");
    if ready.Some? then ready else FirstTransition(pod.conditions, "Ready")
  }

  function DurationRemaining(pod: Pod, duration: int, now: int): Option<int> {
    var since := FailingSince(pod);
    if since.None? then None else Some(since.value + duration - now)
  }
}
