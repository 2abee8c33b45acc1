/** The model judges as the reference does, on every input: settings, pods, namespaces, owners, workloads, and
    what a policy and a pass make of them. */
module Meaning {
  import opened Cluster
  import opened Pods
  import opened Policies
  import opened Correlation
  import opened Clients
  import opened Owners
  import opened Arbitration
  import opened PassSpec
  import opened PassTheorems
  import Indexes
  import P = StopProtocol
  import R = Reference

  // ----- Settings -----

  /** Every setting in force, with its default. */
  lemma SettingsMeaning(p: Policy)
    ensures WatchReasons(p) == R.WatchedReasons(p.spec) && TerminationReasons(p) == p.spec.watchTerminationReasons
    ensures RestartThreshold(p) == R.Restarts(p.spec) && DurationThreshold(p) == R.FailingTime(p.spec)
    ensures RestartWindow(p) == R.Window(p.spec) && ReconcileInterval(p) == R.Interval(p.spec)
    ensures Targets(p) == R.TargetKinds(p.spec)
    ensures RequiresAllReplicas(p) <==> R.WantsAll(p.spec)
    ensures ComparesContainers(p) <==> R.SameContainer(p.spec)
    ensures IsDryRun(p) <==> p.spec.dryRun == Some(true)
    ensures MINIMUM_REQUEUE == 1_000_000_000
  {
  }

  /** Stopped and running, kind by kind: a CronJob with `suspend: false` runs, and an unset count is one. */
  lemma RunningMeaning(kind: string, w: Workload)
    ensures P.IsStopped(kind == "CronJob", w) <==> !R.IsRunning(kind, w)
    ensures Count(w) == match w.replicas case None => 1 case Some(n) => n
  {
  }

  // ----- Pods -----

  lemma WaitingMeaning(p: Policy, pod: Pod)
    ensures WaitingReason(p, pod).Some? <==> R.Waiting(p.spec, pod)
  {
    SettingsMeaning(p);
    hide WatchReasons, R.WatchedReasons;
    assert forall s :: s in pod.containers + pod.initContainers <==> R.InPod(pod, s);
    assert forall s :: Waits(s, WatchReasons(p)) <==> R.Watched(p.spec, s);
    hide FailureReason, Waits, R.Watched;
  }

  lemma CriteriaMeaning(p: Policy, pod: Pod, s: ContainerStatus, now: int)
    ensures PodCanLoop(pod, TerminationReasons(p))
            && Loops(s, TerminationReasons(p), RestartThreshold(p), RestartWindow(p), now) <==>
            R.Live(pod) && R.KeepsDying(p.spec, s, now)
    ensures s.name in RestartableInits(pod) <==> R.Sidecar(pod, s.name)
  {
    SettingsMeaning(p);
    hide RestartThreshold, RestartWindow, R.Restarts, R.Window;
  }

  lemma LoopingMeaning(p: Policy, pod: Pod, now: int)
    ensures LoopingReason(p, pod, now).Some? <==> R.Looping(p.spec, pod, now)
  {
    LoopReasonMeaning(pod, TerminationReasons(p), RestartThreshold(p), RestartWindow(p), now);
    forall s
      ensures PodCanLoop(pod, TerminationReasons(p))
              && Loops(s, TerminationReasons(p), RestartThreshold(p), RestartWindow(p), now) <==>
              R.Live(pod) && R.KeepsDying(p.spec, s, now)
      ensures s.name in RestartableInits(pod) <==> R.Sidecar(pod, s.name)
    {
      CriteriaMeaning(p, pod, s, now);
    }
    hide LoopReason, Loops, PodCanLoop, RestartableInits, R.Live, R.KeepsDying, R.Sidecar,
      RestartThreshold, RestartWindow;
  }

  lemma RestartsMeaning(p: Policy, pod: Pod)
    ensures ExceedsRestarts(pod, RestartThreshold(p)) <==> R.RestartedEnough(p.spec, pod)
  {
    SettingsMeaning(p);
    hide RestartThreshold, R.Restarts;
    if s :| R.InPod(pod, s) && s.restartCount >= R.Restarts(p.spec) {
      assert ExceedsRestarts(pod, RestartThreshold(p));
    }
    if s :| s in pod.containers && s.restartCount >= RestartThreshold(p) {
      assert R.InPod(pod, s);
    }
    if s :| s in pod.initContainers && s.restartCount >= RestartThreshold(p) {
      assert R.InPod(pod, s);
    }
  }

  lemma {:induction false} FirstTransitionIndex(conditions: seq<PodCondition>, kind: string, t: int)
    ensures FirstTransition(conditions, kind) == Some(t) <==> exists i :: R.FirstUsable(conditions, kind, i, t)
  {
    if conditions != [] {
      var rest := conditions[1..];
      FirstTransitionIndex(rest, kind, t);
      assert SaysFalse(conditions[0], kind) <==> R.Usable(conditions[0], kind);
      hide R.Usable, SaysFalse;
      if R.Usable(conditions[0], kind) {
        assert conditions[0].lastTransition == Some(t) ==> R.FirstUsable(conditions, kind, 0, t);
      } else {
        if i :| R.FirstUsable(rest, kind, i, t) {
          assert forall j :: 0 < j < i + 1 ==> conditions[j] == rest[j - 1];
          assert R.FirstUsable(conditions, kind, i + 1, t);
        }
        if i :| R.FirstUsable(conditions, kind, i, t) {
          assert forall j :: 0 <= j < i - 1 ==> rest[j] == conditions[j + 1];
          assert R.FirstUsable(rest, kind, i - 1, t);
        }
      }
    }
  }

  lemma SinceMeaning(pod: Pod, t: int)
    ensures FailingSince(pod) == Some(t) <==> R.NotReadySince(pod, t)
  {
    FirstTransitionIndex(pod.conditions, "ContainersReady", t);
    FirstTransitionIndex(pod.conditions, "Ready", t);
    assert forall c, kind :: SaysFalse(c, kind) <==> R.Usable(c, kind);
    hide SaysFalse, R.Usable, R.FirstUsable;
    var ready := FirstTransition(pod.conditions, "ContainersReady");
    if ready.Some? {
      FirstTransitionIndex(pod.conditions, "ContainersReady", ready.value);
    }
  }

  lemma ClockMeaning(p: Policy, pod: Pod, now: int)
    ensures var remaining := DurationRemaining(pod, DurationThreshold(p), now);
            && (R.FailingLongEnough(p.spec, pod, now) <==> remaining.Some? && remaining.value <= 0)
            && (forall t :: R.NotReadySince(pod, t) <==> remaining == Some(t + R.FailingTime(p.spec) - now))
  {
    SettingsMeaning(p);
    forall t ensures FailingSince(pod) == Some(t) <==> R.NotReadySince(pod, t) {
      SinceMeaning(pod, t);
    }
    hide FailingSince, R.NotReadySince, DurationThreshold, R.FailingTime;
    if DurationRemaining(pod, DurationThreshold(p), now).Some? {
      assert R.NotReadySince(pod, FailingSince(pod).value);
    }
  }

  /** The gate of the loop, and the one of policyWouldAct, in terms of statuses, thresholds and conditions. */
  lemma GateIsAcceptance(p: Policy, pod: Pod, now: int)
    ensures PodGate(p, pod, now).Pass? <==> R.Accepted(p.spec, pod, now)
    ensures PodActs(p, pod, now) <==> R.Accepted(p.spec, pod, now)
    ensures forall until :: PodGate(p, pod, now) == Defer(until) <==> R.WaitsUntil(p.spec, pod, now, until)
  {
    WaitingMeaning(p, pod);
    LoopingMeaning(p, pod, now);
    RestartsMeaning(p, pod);
    ClockMeaning(p, pod, now);
    GatesAgree(View([], [], map[], [], [], {}), p, now, pod, Ref("", "", ""), Err(NotFound));
    hide WaitingReason, LoopingReason, ExceedsRestarts, DurationRemaining, R.Waiting, R.Looping, R.RestartedEnough,
      R.FailingLongEnough, R.NotReadySince, RestartThreshold, DurationThreshold, WouldAct, ReachesWinnerCheck;
    forall until ensures PodGate(p, pod, now) == Defer(until) <==> R.WaitsUntil(p.spec, pod, now, until) {
      assert R.NotReadySince(pod, until - R.FailingTime(p.spec)) <==>
             DurationRemaining(pod, DurationThreshold(p), now) == Some(until - now);
    }
  }

  /** No pod whose statuses are all under the threshold is accepted before it has been failing for the time in
      force, or while it is not known since when. */
  lemma UnderThresholdWaitsForTheClock(p: Policy, pod: Pod, now: int)
    requires forall s :: s in pod.containers || s in pod.initContainers ==> s.restartCount < R.Restarts(p.spec)
    requires forall t :: R.NotReadySince(pod, t) ==> now < t + R.FailingTime(p.spec)
    ensures !PodGate(p, pod, now).Pass? && !PodActs(p, pod, now)
  {
    GateIsAcceptance(p, pod, now);
    hide PodGate, PodActs, R.NotReadySince, R.Restarts, R.FailingTime;
  }

  // ----- Namespaces -----

  /** Resolving the selector fails exactly if it is invalid, or the namespaces it needs cannot be listed. */
  lemma ScopeMeaning(view: View, p: Policy, pod: Pod)
    ensures AllowedNamespaces(view, p).Err? <==> R.ScopeUnknown(view, p.spec)
    ensures AllowedNamespaces(view, p).Ok? ==>
              (InScope(AllowedNamespaces(view, p).value, p, pod) <==> R.Admitted(view, p.spec, pod.namespace))
  {
  }

  // ----- Owners -----

  lemma {:induction false} ControllerMeaning(owners: seq<OwnerRef>, o: OwnerRef)
    ensures Controller(owners) == Some(o) <==> R.ControlledBy(owners, o)
  {
    if owners != [] {
      var rest := owners[1..];
      ControllerMeaning(rest, o);
      if owners[0].controller {
        assert R.ControlledBy(owners, o) ==> owners[0] == o;
      } else {
        if i :| 0 <= i < |rest| && rest[i] == o && o.controller && forall j :: 0 <= j < i ==> !rest[j].controller {
          assert forall j :: 0 < j < i + 1 ==> owners[j] == rest[j - 1];
          assert owners[i + 1] == o;
        }
        if i :| 0 <= i < |owners| && owners[i] == o && o.controller
                && forall j :: 0 <= j < i ==> !owners[j].controller {
          assert rest[i - 1] == o;
          assert forall j :: 0 <= j < i - 1 ==> rest[j] == owners[j + 1];
        }
      }
    }
  }

  lemma ControllerIs(owners: seq<OwnerRef>)
    ensures forall o :: R.ControlledBy(owners, o) <==> Controller(owners) == Some(o)
  {
    forall o ensures R.ControlledBy(owners, o) <==> Controller(owners) == Some(o) {
      ControllerMeaning(owners, o);
    }
  }

  /** Resolution fails exactly if the ReplicaSet or Job it needs cannot be read, and otherwise finds the owner. */
  lemma OwnerMeaning(view: View, pod: Pod, ref: Ref)
    requires UniqueIntermediates(view)
    ensures ResolveOwner(view, pod).Err? <==> R.OwnerUnknown(view, pod)
    ensures ResolveOwner(view, pod) == Ok(Some(ref)) <==> !R.OwnerUnknown(view, pod) && R.Owns(view, pod, ref)
  {
    ControllerIs(pod.owners);
    var owner := Controller(pod.owners);
    if owner.Some? {
      var o := owner.value;
      assert R.ControlledBy(pod.owners, o);
      OwnerThroughMeaning(view, pod, o, ref);
    }
    hide Controller, Find, R.ControlledBy, R.OwnsThrough;
  }

  /** What owns the pod through an intermediate is found by looking that up. */
  lemma OwnerThroughMeaning(view: View, pod: Pod, o: OwnerRef, ref: Ref)
    requires UniqueIntermediates(view)
    ensures var found := Find(view.intermediates, o.kind, pod.namespace, o.name);
            (exists i, up :: R.OwnsThrough(view, pod, o, i, up, ref)) <==>
            && found.Some? && found.value.uid == o.uid && Controller(found.value.owners).Some?
            && (o.kind == "ReplicaSet" || o.kind == "Job")
            && Controller(found.value.owners).value.kind == (if o.kind == "ReplicaSet" then "Deployment" else "CronJob")
            && var up := Controller(found.value.owners).value;
            ref == Ref(up.kind, pod.namespace, up.name)
  {
    var found := Find(view.intermediates, o.kind, pod.namespace, o.name);
    if i, up :| R.OwnsThrough(view, pod, o, i, up, ref) {
      FindFinds(view.intermediates, i);
      ControllerMeaning(i.owners, up);
    }
    if found.Some? && Controller(found.value.owners).Some? {
      ControllerMeaning(found.value.owners, Controller(found.value.owners).value);
      if found.value.uid == o.uid
         && ref.kind == Controller(found.value.owners).value.kind && ref.namespace == pod.namespace
         && ref.name == Controller(found.value.owners).value.name
         && (o.kind == "ReplicaSet" || o.kind == "Job")
         && Controller(found.value.owners).value.kind == (if o.kind == "ReplicaSet" then "Deployment" else "CronJob") {
        assert R.OwnsThrough(view, pod, o, found.value, Controller(found.value.owners).value, ref);
      }
    }
    hide Find, Controller, R.ControlledBy;
  }

  // ----- Exclusion -----

  /** The exclusion check, in terms of the selector and the labels. */
  lemma ExclusionMeaning(p: Policy, read: Result<Workload>)
    ensures ExclusionAnswer(p, read) == Failed <==> R.ExclusionUnknown(p.spec, read)
    ensures ExclusionAnswer(p, read) == Yes <==>
            !R.ExclusionUnknown(p.spec, read) && read.Ok? && R.Excluded(p.spec, read.value)
  {
  }

  /** Whatever a policy acts on is not matched by its exclusion selector, which is valid. A workload that it matches
      is never acted on and raises no error; one that it does not match, or that does not exist, is judged as if
      there were no selector; an invalid selector or an unreadable workload is an error. */
  lemma ExclusionInForce(view: View, p: Policy, now: int, ref: Ref, read: Result<Workload>)
    requires p.spec.excludeWorkloadSelector.Some?
    ensures var selector := p.spec.excludeWorkloadSelector.value;
            var answer := OwnerGates(view, p, now, ref, read);
            var free := OwnerGates(view, p.(spec := p.spec.(excludeWorkloadSelector := None)), now, ref, read);
            && (answer == Yes ==> selector.valid && (read.Ok? ==> !selector.matches(read.value.labels)))
            && (selector.valid && read.Ok? && selector.matches(read.value.labels) ==> answer == No)
            && (selector.valid && read.Ok? && !selector.matches(read.value.labels) ==> answer == free)
            && (selector.valid && read == Err(NotFound) ==> answer == free)
            && (!selector.valid || (read.Err? && read.error != NotFound) ==> answer == Failed)
  {
    var q := p.(spec := p.spec.(excludeWorkloadSelector := None));
    forall pods ensures ReplicasFail(p, pods, now) <==> ReplicasFail(q, pods, now) {
      SelectorPlaysNoPart(p, q, pods, now);
    }
    hide ReplicasFail;
  }

  lemma SelectorPlaysNoPart(p: Policy, q: Policy, pods: seq<Pod>, now: int)
    requires q == p.(spec := p.spec.(excludeWorkloadSelector := None))
    ensures ReplicasFail(p, pods, now) <==> ReplicasFail(q, pods, now)
  {
    forall name ensures FailsEverywhere(p, pods, now, name) <==> FailsEverywhere(q, pods, now, name) {
      assert forall pod :: NameFails(p, pod, now, name) <==> NameFails(q, pod, now, name);
    }
  }

  // ----- Replicas -----

  lemma NameMeaning(p: Policy, pod: Pod, now: int, name: string)
    ensures NameFails(p, pod, now, name) <==> R.FailsUnder(p.spec, pod, name, now)
  {
    SettingsMeaning(p);
    forall s ensures StatusFails(p, pod, s, now) <==> R.Fails(p.spec, pod, s, now) {
      CriteriaMeaning(p, pod, s, now);
    }
    assert forall s :: s in Statuses(pod) <==> R.InPod(pod, s);
    hide StatusFails, R.Fails, Statuses, R.InPod;
  }

  lemma MatchMeaning(p: Policy, pod: Pod, now: int)
    ensures PodMatches(p, pod, now) <==> R.Waiting(p.spec, pod) || R.Looping(p.spec, pod, now)
  {
    WaitingMeaning(p, pod);
    LoopingMeaning(p, pod, now);
    hide R.Waiting, R.Looping, FailureReason, LoopReason;
  }

  /** The correlation modes over any listing of the replicas. */
  lemma CorrelationMeaning(view: View, p: Policy, now: int, ref: Ref, w: Workload, pods: seq<Pod>)
    requires forall pod :: pod in pods <==> R.IsReplica(view, ref, w, pod)
    ensures ReplicasFail(p, pods, now) <==> R.AllFail(view, p.spec, now, ref, w)
  {
    SettingsMeaning(p);
    hide R.IsReplica, ComparesContainers, R.SameContainer, NameFails, PodMatches, R.FailsUnder, R.Waiting, R.Looping;
    assert pods != [] ==> pods[0] in pods;
    forall name ensures FailsEverywhere(p, pods, now, name) <==> R.AllFailUnder(view, p.spec, now, ref, w, name) {
      forall pod {
        NameMeaning(p, pod, now, name);
      }
    }
    forall pod ensures PodMatches(p, pod, now) <==> R.Waiting(p.spec, pod) || R.Looping(p.spec, pod, now) {
      MatchMeaning(p, pod, now);
    }
    hide FailsEverywhere, R.AllFailUnder;
  }

  /** Deployments and StatefulSets: the answer is yes exactly when the workload runs and the pods of its namespace
      that its selector matches are there and fail in the policy's mode; it fails exactly when the workload cannot
      be read or, while it runs, its selector is invalid or the pods cannot be listed. */
  lemma SelectedReplicasMeaning(view: View, p: Policy, now: int, ref: Ref, read: Result<Workload>)
    requires ref.kind == "Deployment" || ref.kind == "StatefulSet"
    ensures ReplicasAnswer(view, p, now, ref, read) == Yes <==> R.ReplicasCondemn(view, p.spec, now, ref, read)
    ensures ReplicasAnswer(view, p, now, ref, read) == Failed <==> R.ReplicasUnknown(view, ref, read)
  {
    if read.Ok? {
      RunningMeaning(ref.kind, read.value);
      CorrelationMeaning(view, p, now, ref, read.value, MatchingPods(view.pods, ref.namespace, read.value.selector));
    }
    hide ReplicasFail, R.AllFail, MatchingPods;
  }

  /** No two jobs of a CronJob were created at the same instant. */
  ghost predicate DistinctTimes(view: View, ref: Ref) {
    ref.kind == "CronJob" ==>
      forall a, b :: R.IsJobOf(view, ref, a) && R.IsJobOf(view, ref, b) && a.created == b.created ==> a == b
  }

  lemma JobsMeaning(view: View, ref: Ref)
    requires ref.kind == "CronJob" && DistinctTimes(view, ref)
    ensures var owned := OwnedJobs(view.intermediates, ref);
            && (owned == [] <==> !exists j :: R.IsJobOf(view, ref, j))
            && (owned == [] ==> forall w, pod :: !R.IsReplica(view, ref, w, pod))
            && (owned != [] ==> forall w, pod :: R.IsReplica(view, ref, w, pod) <==>
                                  pod in JobPods(view.pods, ref.namespace, NewestJob(owned).name))
  {
    var owned := OwnedJobs(view.intermediates, ref);
    assert forall j :: R.IsJobOf(view, ref, j) <==> j in owned;
    hide R.IsJobOf, OwnedJobs;
    if owned != [] {
      var newest := NewestJob(owned);
      assert owned[0] in owned;
      assert forall j :: j in view.intermediates && R.LatestJob(view, ref, j) <==> j == newest;
      assert forall owners, name :: R.Mentions(owners, "Job", name) <==> Refers(owners, "Job", name);
      hide R.LatestJob, NewestJob, R.Mentions, Refers;
    }
  }

  /** CronJobs, by their latest job, when creation times differ. */
  lemma JobReplicasMeaning(view: View, p: Policy, now: int, ref: Ref, read: Result<Workload>)
    requires ref.kind == "CronJob" && DistinctTimes(view, ref)
    ensures ReplicasAnswer(view, p, now, ref, read) == Yes <==> R.ReplicasCondemn(view, p.spec, now, ref, read)
    ensures ReplicasAnswer(view, p, now, ref, read) == Failed <==> R.ReplicasUnknown(view, ref, read)
  {
    JobsMeaning(view, ref);
    var owned := OwnedJobs(view.intermediates, ref);
    hide ReplicasFail, R.AllFail, JobPods, OwnedJobs, NewestJob, R.IsReplica, R.IsJobOf;
    if read.Ok? {
      if owned != [] {
        CorrelationMeaning(view, p, now, ref, read.value, JobPods(view.pods, ref.namespace, NewestJob(owned).name));
      } else {
        CorrelationMeaning(view, p, now, ref, read.value, []);
        assert !ReplicasFail(p, [], now) by { NothingListed(p, now, ref, ""); }
      }
    }
  }

  // ----- Judgement -----

  /** The gates of the owner. */
  lemma OwnerGatesMeaning(view: View, p: Policy, now: int, ref: Ref, read: Result<Workload>)
    requires ref.kind in KINDS && DistinctTimes(view, ref)
    ensures OwnerGates(view, p, now, ref, read) == Yes <==> R.OwnerCondemned(view, p.spec, now, ref, read)
    ensures OwnerGates(view, p, now, ref, read) == Failed <==> R.OwnerUndecided(view, p.spec, ref, read)
  {
    SettingsMeaning(p);
    ExclusionMeaning(p, read);
    if ref.kind == "CronJob" {
      JobReplicasMeaning(view, p, now, ref, read);
    } else {
      SelectedReplicasMeaning(view, p, now, ref, read);
    }
    hide RequiresAllReplicas, R.WantsAll, ExclusionAnswer, ReplicasAnswer, R.ExclusionUnknown, R.Excluded,
      R.ReplicasCondemn;
  }

  /** policyWouldAct decides as the reference does, for every policy, pod and workload. */
  lemma WouldActMeaning(view: View, p: Policy, now: int, pod: Pod, ref: Ref, read: Result<Workload>)
    requires ref.kind in KINDS && DistinctTimes(view, ref)
    ensures WouldAct(view, p, now, pod, ref, read) == Yes <==> R.Acts(view, p.spec, now, pod, ref, read)
    ensures WouldAct(view, p, now, pod, ref, read) == Failed <==> R.CannotTell(view, p.spec, now, pod, ref, read)
  {
    SettingsMeaning(p);
    ScopeMeaning(view, p, pod);
    GateIsAcceptance(p, pod, now);
    OwnerGatesMeaning(view, p, now, ref, read);
    hide AllowedNamespaces, R.ScopeUnknown, InScope, R.Admitted, Targets, R.TargetKinds, PodActs, R.Accepted,
      OwnerGates, R.OwnerCondemned, R.OwnerUndecided;
  }

  /** The pods a pass takes as speaking for a workload. */
  lemma ClaimMeaning(x: Pass, pod: Pod, ref: Ref)
    requires UniqueIntermediates(x.view) && AllowedNamespaces(x.view, x.policy).Ok?
    ensures Claim(x, pod) == Some(ref) <==>
            && R.TakesUp(x.view, x.policy.spec, x.now, pod, ref.kind)
            && !R.OwnerUnknown(x.view, pod) && R.Owns(x.view, pod, ref)
  {
    SettingsMeaning(x.policy);
    ScopeMeaning(x.view, x.policy, pod);
    GateIsAcceptance(x.policy, pod, x.now);
    OwnerMeaning(x.view, pod, ref);
    hide AllowedNamespaces, InScope, R.Admitted, Targets, R.TargetKinds, PodGate, R.Accepted, ResolveOwner, R.Owns,
      R.OwnerUnknown;
  }

  /** What a pass of the only policy comes to, from the objects alone. */
  lemma PassActsOnTheDoomed(x: Pass, pods: seq<Pod>, objects: Objects, ref: Ref)
    requires x.view.policies == [x.policy] && !R.ScopeUnknown(x.view, x.policy.spec)
    requires "" !in R.WatchedReasons(x.policy.spec) && Indexes.ListsCandidates(x.view, x.policy, pods)
    requires UniqueIntermediates(x.view) && DistinctTimes(x.view, ref) && ref.kind in KINDS
    ensures ref in PassOver(x, pods, objects).acted <==> R.Doomed(x.view, x.policy.spec, x.now, ref, objects)
  {
    SettingsMeaning(x.policy);
    ScopeIsKnown(x);
    PassIsSetComprehension(x, pods, objects);
    forall pod ensures Claim(x, pod) == Some(ref) <==>
                       && R.TakesUp(x.view, x.policy.spec, x.now, pod, ref.kind)
                       && !R.OwnerUnknown(x.view, pod) && R.Owns(x.view, pod, ref) {
      ClaimMeaning(x, pod, ref);
    }
    var read := ReadObject(x.view, objects, ref);
    OwnerGatesMeaning(x.view, x.policy, x.now, ref, read);
    if read.Ok? {
      RunningMeaning(ref.kind, read.value);
    }
    hide PassOver, Claim, R.TakesUp, R.OwnerUnknown, R.Owns, OwnerGates, R.OwnerCondemned, R.IsRunning, P.IsStopped;
  }

  lemma ScopeIsKnown(x: Pass)
    requires !R.ScopeUnknown(x.view, x.policy.spec)
    ensures AllowedNamespaces(x.view, x.policy).Ok?
  {
  }

  /** What a pass comes to among several policies: it acts on a running workload exactly if, for the first pod of
      its listing that speaks for it, every policy can be judged, this one acts, and no other acting policy is
      before it in the order. */
  lemma ActsOnMeaning(x: Pass, pods: seq<Pod>, objects: Objects, ref: Ref)
    requires GetsGoing(x) && ref.kind in KINDS && DistinctTimes(x.view, ref)
    ensures var read, speaker := ReadObject(x.view, objects, ref), Speaker(x, pods, ref);
            ActsOn(x, pods, objects, ref) <==>
            && read.Ok? && R.IsRunning(ref.kind, read.value) && speaker.Some?
            && R.Acts(x.view, x.policy.spec, x.now, speaker.value, ref, read)
            && forall q :: q in x.view.policies ==>
                 && !R.CannotTell(x.view, q.spec, x.now, speaker.value, ref, read)
                 && (q != x.policy && R.Acts(x.view, q.spec, x.now, speaker.value, ref, read) ==>
                       MoreRestrictive(x.policy, q))
  {
    var read, speaker := ReadObject(x.view, objects, ref), Speaker(x, pods, ref);
    ActsOnMeansElected(x, pods, objects, ref);
    if read.Ok? {
      RunningMeaning(ref.kind, read.value);
    }
    if speaker.Some? {
      forall q: Policy
        ensures WouldAct(x.view, q, x.now, speaker.value, ref, read) == Yes <==>
                R.Acts(x.view, q.spec, x.now, speaker.value, ref, read)
        ensures WouldAct(x.view, q, x.now, speaker.value, ref, read) == Failed <==>
                R.CannotTell(x.view, q.spec, x.now, speaker.value, ref, read)
      {
        WouldActMeaning(x.view, q, x.now, speaker.value, ref, read);
      }
    }
    hide WouldAct, R.Acts, R.CannotTell, Speaker, ActsOn, ReadObject, R.IsRunning, P.IsStopped, MoreRestrictive;
  }

  /** What a pass counts as an error: an accepted pod in scope whose owner cannot be told. */
  lemma UnresolvedMeaning(x: Pass, pod: Pod)
    requires UniqueIntermediates(x.view) && AllowedNamespaces(x.view, x.policy).Ok?
    ensures Unresolved(x, pod) <==>
            && R.Admitted(x.view, x.policy.spec, pod.namespace) && R.Accepted(x.policy.spec, pod, x.now)
            && R.OwnerUnknown(x.view, pod)
  {
    ScopeMeaning(x.view, x.policy, pod);
    GateIsAcceptance(x.policy, pod, x.now);
    OwnerMeaning(x.view, pod, Ref("", "", ""));
    hide AllowedNamespaces, InScope, R.Admitted, PodGate, R.Accepted, ResolveOwner, R.OwnerUnknown;
  }

  /** Some other acting policy is before this one in the order. */
  ghost predicate Overruled(x: Pass, pod: Pod, ref: Ref, read: Result<Workload>) {
    exists q :: q in x.view.policies && q != x.policy && R.Acts(x.view, q.spec, x.now, pod, ref, read)
                && !MoreRestrictive(x.policy, q)
  }

  /** And a workload that cannot be judged: its own gates cannot be told; or they are passed and some policy cannot
      be judged, or the workload that is to be stopped cannot be read. */
  lemma FailsMeaning(x: Pass, pod: Pod, ref: Ref, read: Result<Workload>)
    requires ref.kind in KINDS && DistinctTimes(x.view, ref)
    ensures VerdictOn(x, pod, ref, read) == Fails <==>
            || R.OwnerUndecided(x.view, x.policy.spec, ref, read)
            || (R.OwnerCondemned(x.view, x.policy.spec, x.now, ref, read)
                && ((exists q :: q in x.view.policies && R.CannotTell(x.view, q.spec, x.now, pod, ref, read))
                    || (read.Err? && !Overruled(x, pod, ref, read))))
  {
    OwnerGatesMeaning(x.view, x.policy, x.now, ref, read);
    forall q: Policy
      ensures WouldAct(x.view, q, x.now, pod, ref, read) == Yes <==> R.Acts(x.view, q.spec, x.now, pod, ref, read)
      ensures WouldAct(x.view, q, x.now, pod, ref, read) == Answer.Failed <==>
              R.CannotTell(x.view, q.spec, x.now, pod, ref, read)
    {
      WouldActMeaning(x.view, q, x.now, pod, ref, read);
    }
    hide WouldAct, OwnerGates, R.Acts, R.CannotTell, R.OwnerUndecided, R.OwnerCondemned, MoreRestrictive;
  }
}
