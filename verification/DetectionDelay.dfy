/** How late a pod that waits for the duration threshold can be noticed, when only the requeue timer wakes
    the operator. */
module DetectionDelay {
  import opened Cluster
  import opened Pods
  import opened Policies
  import opened Arbitration
  import opened Indexes
  import opened PassSpec
  import opened Reconcile

  /** One pass: what it saw when it started, and when it had finished. */
  datatype Wake = Wake(x: Pass, pods: seq<Pod>, finished: int)

  /** Successive passes of one policy, each taking at most `d`, each started by the timer the one before set. */
  ghost predicate TimerRun(wakes: seq<Wake>, p: Policy, d: int) {
    && (forall k :: 0 <= k < |wakes| ==>
          wakes[k].x.policy == p && wakes[k].x.now <= wakes[k].finished <= wakes[k].x.now + d)
    && (forall k :: 0 < k < |wakes| ==>
          var before := wakes[k - 1];
          wakes[k].x.now == before.finished + RequeueAfter(p, EarliestExpiry(before.x, before.pods), before.finished))
  }

  /** The pod waits for a watched reason, has too few restarts, and has been failing since a known instant. */
  predicate WaitsForDuration(p: Policy, pod: Pod) {
    WaitingReason(p, pod).Some? && !ExceedsRestarts(pod, RestartThreshold(p)) && FailingSince(pod).Some?
  }

  function Expiry(p: Policy, pod: Pod): int
    requires WaitsForDuration(p, pod)
  {
    FailingSince(pod).value + DurationThreshold(p)
  }

  /** Every pass lists the unchanged pod and has it in scope; whatever else they list is arbitrary. */
  ghost predicate Sees(wakes: seq<Wake>, p: Policy, pod: Pod) {
    forall k :: 0 <= k < |wakes| ==> pod in wakes[k].pods && InScope(Namespaces(wakes[k].x), p, pod)
  }

  /** A listing of the candidates holds every such pod of the cluster. */
  lemma WaitingPodIsListed(view: View, p: Policy, pod: Pod, pods: seq<Pod>, now: int)
    requires "" !in WatchReasons(p) && ListsCandidates(view, p, pods)
    requires pod in view.pods && WaitsForDuration(p, pod)
    ensures pod in pods
  {
    MatchingIsCandidate(p, pod, now);
  }

  /** Such a pod is never looping, so the gate is a matter of the clock alone, and while it is deferred it
      reports the very instant at which it will pass. */
  lemma GateIsTheClock(p: Policy, pod: Pod, now: int)
    requires WaitsForDuration(p, pod)
    ensures PodGate(p, pod, now) ==
            if now < Expiry(p, pod) then Defer(Expiry(p, pod)) else Gate.Pass(WaitingReason(p, pod).value)
  {
    if LoopingReason(p, pod, now).Some? {
      LoopExceedsRestarts(pod, TerminationReasons(p), RestartThreshold(p), RestartWindow(p), now);
    }
  }

  /** A deferring pass is followed by one that starts less than `d` and the minimum requeue after the expiry. */
  lemma NextWakeIsSoon(wakes: seq<Wake>, p: Policy, d: int, pod: Pod, k: nat)
    requires TimerRun(wakes, p, d) && Sees(wakes, p, pod) && WaitsForDuration(p, pod)
    requires 0 < k < |wakes| && wakes[k - 1].x.now < Expiry(p, pod)
    ensures wakes[k].x.now < Expiry(p, pod) + d + MINIMUM_REQUEUE
  {
    var before := wakes[k - 1];
    GateIsTheClock(p, pod, before.x.now);
    assert Deferred(before.x, pod) == Some(Expiry(p, pod));
    hide PodGate, InScope;
  }

  /** The least a wake advances the clock. */
  function Stride(p: Policy): (r: int)
    ensures r > 0
  {
    Min(ReconcileInterval(p), MINIMUM_REQUEUE)
  }

  /** Every wake strictly advances time, by at least one stride. */
  lemma {:induction false} WakesAdvance(wakes: seq<Wake>, p: Policy, d: int, k: nat)
    requires TimerRun(wakes, p, d) && k < |wakes|
    ensures wakes[k].x.now >= wakes[0].x.now + k * Stride(p)
  {
    if k > 0 {
      WakesAdvance(wakes, p, d, k - 1);
      assert k * Stride(p) == (k - 1) * Stride(p) + Stride(p);
      hide EarliestExpiry;
    }
  }

  /** The first wake at which the pod passes, which `from` bounds from below. */
  lemma {:induction false} FirstPassing(wakes: seq<Wake>, p: Policy, d: int, pod: Pod, from: nat) returns (k: nat)
    requires TimerRun(wakes, p, d) && WaitsForDuration(p, pod) && from < |wakes|
    requires forall j :: 0 <= j < from ==> wakes[j].x.now < Expiry(p, pod)
    requires wakes[|wakes| - 1].x.now >= Expiry(p, pod)
    ensures from <= k < |wakes| && wakes[k].x.now >= Expiry(p, pod)
    ensures forall j :: 0 <= j < k ==> wakes[j].x.now < Expiry(p, pod)
    decreases |wakes| - from
  {
    if wakes[from].x.now >= Expiry(p, pod) {
      k := from;
    } else {
      k := FirstPassing(wakes, p, d, pod, from + 1);
    }
  }

  /** Bounded detection delay: a run of timer wakes long enough to stride past the expiry contains a first
      pass that lets the pod through; all before it deferred the pod, and unless it is the very first pass it
      starts less than the length of a pass plus one second after failing-since plus threshold. */
  lemma DetectionIsBounded(wakes: seq<Wake>, p: Policy, d: int, pod: Pod)
    requires TimerRun(wakes, p, d) && Sees(wakes, p, pod) && WaitsForDuration(p, pod)
    requires |wakes| > 0 && wakes[0].x.now + (|wakes| - 1) * Stride(p) >= Expiry(p, pod)
    ensures exists k ::
      && 0 <= k < |wakes|
      && PodGate(p, pod, wakes[k].x.now).Pass?
      && (forall j :: 0 <= j < k ==> PodGate(p, pod, wakes[j].x.now) == Defer(Expiry(p, pod)))
      && (k > 0 ==> wakes[k].x.now < Expiry(p, pod) + d + SECOND)
  {
    WakesAdvance(wakes, p, d, |wakes| - 1);
    var k := FirstPassing(wakes, p, d, pod, 0);
    forall j | 0 <= j < |wakes| {
      GateIsTheClock(p, pod, wakes[j].x.now);
    }
    if k > 0 {
      NextWakeIsSoon(wakes, p, d, pod, k);
    }
    hide PodGate, Sees, TimerRun;
  }

  /** The bound is met by the requeue arithmetic itself: however late the pass ends, it never asks for more
      than the time to the expiry or the minimum, and never for nothing. */
  lemma RequeueIsBounded(p: Policy, expiry: int, finished: int)
    ensures 0 < RequeueAfter(p, Some(expiry), finished) <= ReconcileInterval(p)
    ensures finished + RequeueAfter(p, Some(expiry), finished) <= Max(expiry, finished + MINIMUM_REQUEUE)
    ensures RequeueAfter(p, Some(expiry), finished) < ReconcileInterval(p) ==>
              finished + RequeueAfter(p, Some(expiry), finished) == Max(expiry, finished + MINIMUM_REQUEUE)
  {
  }
}
