/** What a pass leaves for others to read, in terms of the objects alone: annotations, status, and when it is due
    again; and what the indexes and the active list hold. */
module Published {
  import opened Cluster
  import opened Pods
  import opened Policies
  import opened Correlation
  import opened Status
  import opened StatusWrites
  import opened Clients
  import opened Owners
  import opened Arbitration
  import opened Indexes
  import opened Attribution
  import opened PassSpec
  import opened PassTheorems
  import opened Reconcile
  import opened Meaning
  import Decimal
  import P = StopProtocol
  import R = Reference

  // ----- Indexes -----

  /** What each index files a pod under. */
  lemma IndexMeaning(pod: Pod, reason: string)
    ensures IndexedUnder(ByWaiting, pod, reason) <==> R.Indexed(pod, true, reason)
    ensures IndexedUnder(ByTermination, pod, reason) <==> R.Indexed(pod, false, reason)
  {
    assert forall s :: s in Statuses(pod) <==> R.InPod(pod, s);
    hide Statuses, R.InPod;
  }

  /** The pods a pass lists: those of the cluster indexed under a watched waiting or termination reason. */
  lemma CandidatesMeaning(view: View, p: Policy, pod: Pod)
    requires UniqueUids(view)
    ensures pod in Candidates(view, p) <==>
            && pod in view.pods
            && ((exists v :: v in R.WatchedReasons(p.spec) && R.Indexed(pod, true, v))
                || (exists v :: v in p.spec.watchTerminationReasons && R.Indexed(pod, false, v)))
  {
    SettingsMeaning(p);
    CandidatesAreListed(view, p);
    forall v
      ensures IndexedUnder(ByWaiting, pod, v) <==> R.Indexed(pod, true, v)
      ensures IndexedUnder(ByTermination, pod, v) <==> R.Indexed(pod, false, v)
    {
      IndexMeaning(pod, v);
    }
    hide IndexedUnder, R.Indexed, Candidates, WatchReasons, R.WatchedReasons;
  }

  // ----- Annotations -----

  /** The keys that a stop writes, by their names, and nothing else of the workload but its count or suspension. */
  lemma StoppedMeaning(w: Workload, stamp: P.Stamp)
    ensures StoppedAs(w, false, stamp) ==
            w.(replicas := Some(0),
               annotations := w.annotations
                 ["crashloop-operator.lauger.de/scaled-down-reason" := stamp.reason]
                 ["crashloop-operator.lauger.de/scaled-down-at" := stamp.at]
                 ["crashloop-operator.lauger.de/scaled-down-by" := stamp.policy]
                 ["crashloop-operator.lauger.de/previous-replicas" :=
                    Decimal.Format(match w.replicas case None => 1 case Some(n) => n)])
    ensures StoppedAs(w, true, stamp) ==
            w.(suspend := Some(true),
               annotations := w.annotations
                 ["crashloop-operator.lauger.de/scaled-down-reason" := stamp.reason]
                 ["crashloop-operator.lauger.de/scaled-down-at" := stamp.at]
                 ["crashloop-operator.lauger.de/scaled-down-by" := stamp.policy])
  {
  }

  /** The recorded reason quotes what the pod is failing with: the reason a container waits for, or else the one a
      container keeps dying for. */
  lemma StampMeaning(x: Pass, pod: Pod)
    requires R.Accepted(x.policy.spec, pod, x.now)
    ensures var stamp := StampFor(x, pod);
            && stamp.policy == x.policy.name && stamp.at == x.at
            && exists s, r :: R.InPod(pod, s)
                 && stamp.reason == "pods failing with " + r + " (policy: " + x.policy.name + ")"
                 && if R.Waiting(x.policy.spec, pod) then R.Watched(x.policy.spec, s) && s.waiting == Some(r)
                    else R.KeepsDying(x.policy.spec, s, x.now) && s.lastTermination.value.reason == r
  {
    var p, now := x.policy, x.now;
    GateIsAcceptance(p, pod, now);
    WaitingMeaning(p, pod);
    var gate := PodGate(p, pod, now);
    if WaitingReason(p, pod).Some? {
      QuotedWaiting(p, pod);
    } else {
      LoopingMeaning(p, pod, now);
      QuotedLooping(p, pod, now);
    }
    hide FailureReason, LoopReason, ExceedsRestarts, R.Accepted, R.Waiting, R.Watched, R.KeepsDying;
  }

  lemma QuotedWaiting(p: Policy, pod: Pod)
    requires WaitingReason(p, pod).Some?
    ensures exists s :: R.InPod(pod, s) && R.Watched(p.spec, s) && s.waiting == WaitingReason(p, pod)
  {
    SettingsMeaning(p);
    var s :| (s in pod.containers || s in pod.initContainers)
             && Waits(s, WatchReasons(p)) && s.waiting == WaitingReason(p, pod);
    assert R.InPod(pod, s) && R.Watched(p.spec, s);
  }

  lemma QuotedLooping(p: Policy, pod: Pod, now: int)
    requires LoopingReason(p, pod, now).Some?
    ensures exists s :: R.InPod(pod, s) && R.KeepsDying(p.spec, s, now)
                        && s.lastTermination.value.reason == LoopingReason(p, pod, now).value
  {
    LoopReasonMeaning(pod, TerminationReasons(p), RestartThreshold(p), RestartWindow(p), now);
    var s :| (s in pod.containers || s in pod.initContainers)
             && Loops(s, TerminationReasons(p), RestartThreshold(p), RestartWindow(p), now)
             && s.lastTermination.value.reason == LoopingReason(p, pod, now).value;
    CriteriaMeaning(p, pod, s, now);
    assert R.InPod(pod, s);
  }

  // ----- The active list -----

  /** Held by a policy: of a targeted kind, in an admitted namespace, and carrying a reason and the policy's name. */
  lemma HeldMeaning(view: View, objects: Objects, p: Policy, ref: Ref)
    requires AllowedNamespaces(view, p).Ok?
    ensures HeldBy(objects, p, AllowedNamespaces(view, p).value, ref) <==>
            && ref in objects && ref.kind in R.TargetKinds(p.spec)
            && R.Admitted(view, p.spec, ref.namespace) && R.Marked(objects[ref], p.name)
  {
    SettingsMeaning(p);
    hide Targets, R.TargetKinds;
  }

  /** The active list is what is held, in the order of the listing kind by kind and cut at a thousand; it is empty
      when some targeted kind cannot be listed. */
  lemma ActiveListMeaning(view: View, objects: Objects, p: Policy, allowed: Option<set<string>>)
    ensures var f := ActiveFindings(view, objects, p, allowed);
            var held := Held(view, objects, p, allowed, 3);
            && (forall ref :: ref in held <==>
                  && ref in view.listing && ref.kind in {"Deployment", "StatefulSet", "CronJob"}
                  && HeldBy(objects, p, allowed, ref))
            && (f.failed <==> exists kind :: kind in {"Deployment", "StatefulSet", "CronJob"}
                                && kind in R.TargetKinds(p.spec) && ListWorkloads(kind) in view.faults)
            && (f.failed ==> f.active == [] && f.truncated == 0)
            && (!f.failed ==> f.active == if |held| > 1000 then held[..1000] else held)
            && (!f.failed ==> f.truncated == if |held| <= 1000 then 0
                                             else if |held| - 1000 < 0x7fff_ffff then |held| - 1000
                                             else 0x7fff_ffff)
  {
    SettingsMeaning(p);
    assert forall kind :: kind in LISTED_KINDS <==> kind in {"Deployment", "StatefulSet", "CronJob"};
    assert LISTED_KINDS[..3] == LISTED_KINDS;
    hide HeldBy, Targets, R.TargetKinds;
  }

  // ----- Errors -----

  /** How many pods of the listing are accepted without an owner that can be told. */
  function UnresolvedPods(x: Pass, pods: seq<Pod>): nat {
    if pods == [] then 0
    else UnresolvedPods(x, pods[..|pods| - 1]) + if Unresolved(x, pods[|pods| - 1]) then 1 else 0
  }

  ghost function FailedRefs(x: Pass, pods: seq<Pod>, objects: Objects): set<Ref> {
    set ref | ref in PassOver(x, pods, objects).seen && FailsOn(x, pods, objects, ref)
  }

  ghost predicate NewlyFails(x: Pass, front: seq<Pod>, pod: Pod, objects: Objects, ref: Ref) {
    && Claim(x, pod) == Some(ref) && ref !in PassOver(x, front, objects).seen
    && VerdictOn(x, pod, ref, ReadObject(x.view, objects, ref)) == Fails
  }

  lemma FailedRefsGrow(x: Pass, front: seq<Pod>, pod: Pod, objects: Objects, ref: Ref)
    ensures ref in FailedRefs(x, front + [pod], objects) <==>
            ref in FailedRefs(x, front, objects) || NewlyFails(x, front, pod, objects, ref)
    ensures !(ref in FailedRefs(x, front, objects) && NewlyFails(x, front, pod, objects, ref))
  {
    UnseenHasNoSpeaker(x, front, objects, ref);
    UnseenHasNoSpeaker(x, front + [pod], objects, ref);
    OnlyOneSpeakerMore(x, front, objects, pod, ref);
    NewHasNotFailed(x, front, objects, ref);
    hide PassOver, Claim, Speaker, VerdictOn, FailsOn;
  }

  lemma VisitErrors(x: Pass, objects: Objects, s: Progress, pod: Pod)
    ensures Visit(x, objects, s, pod).errors ==
            s.errors
            + (if Unresolved(x, pod) then 1 else 0)
            + (if Claim(x, pod).Some? && NewAndJudged(x, objects, s, pod, Claim(x, pod).value, Fails) then 1 else 0)
  {
    if Claim(x, pod).Some? {
      ClaimIsResolved(x, pod);
    }
    hide Claim, VerdictOn, Unresolved, ReadObject, Stop;
  }

  lemma FailedRefsCount(x: Pass, front: seq<Pod>, pod: Pod, objects: Objects)
    ensures var s := PassOver(x, front, objects);
            |FailedRefs(x, front + [pod], objects)| ==
            |FailedRefs(x, front, objects)|
            + (if Claim(x, pod).Some? && NewAndJudged(x, objects, s, pod, Claim(x, pod).value, Fails) then 1 else 0)
  {
    var before, after := FailedRefs(x, front, objects), FailedRefs(x, front + [pod], objects);
    hide PassOver, Claim, VerdictOn, FailedRefs, ReadObject;
    forall ref
      ensures ref in after <==> ref in before || NewlyFails(x, front, pod, objects, ref)
      ensures !(ref in before && NewlyFails(x, front, pod, objects, ref))
    {
      FailedRefsGrow(x, front, pod, objects, ref);
    }
    if Claim(x, pod).Some? && NewlyFails(x, front, pod, objects, Claim(x, pod).value) {
      assert after == before + {Claim(x, pod).value};
    } else {
      assert after == before;
    }
  }

  /** The errors a pass counts: one for every accepted pod whose owner cannot be told, and one for every workload
      that cannot be judged or stopped. */
  lemma {:induction false} ErrorsCounted(x: Pass, pods: seq<Pod>, objects: Objects)
    ensures PassOver(x, pods, objects).errors == UnresolvedPods(x, pods) + |FailedRefs(x, pods, objects)|
  {
    if pods == [] {
      assert FailedRefs(x, pods, objects) == {};
    } else {
      var front, pod := pods[..|pods| - 1], pods[|pods| - 1];
      assert front + [pod] == pods;
      ErrorsCounted(x, front, objects);
      VisitErrors(x, objects, PassOver(x, front, objects), pod);
      FailedRefsCount(x, front, pod, objects);
      hide Visit, FailedRefs, Unresolved, NewAndJudged, Claim;
    }
  }

  // ----- The answer and the status of a quiet pass -----

  /** A pass gives up exactly if the policies, the namespaces or some watched reason cannot be looked up. */
  lemma GivesUpMeaning(view: View, p: Policy)
    ensures GivesUp(view, p) <==>
            || ListPolicies in view.faults
            || R.ScopeUnknown(view, p.spec)
            || (exists v :: v in R.WatchedReasons(p.spec) && ListByIndex(v) in view.faults)
            || (exists v :: v in p.spec.watchTerminationReasons && ListByIndex(v) in view.faults)
  {
    SettingsMeaning(p);
    hide WatchReasons, R.WatchedReasons;
  }

  lemma DeferredMeaning(x: Pass, pod: Pod, until: int)
    requires AllowedNamespaces(x.view, x.policy).Ok?
    ensures Deferred(x, pod) == Some(until) <==>
            R.Admitted(x.view, x.policy.spec, pod.namespace) && R.WaitsUntil(x.policy.spec, pod, x.now, until)
  {
    ScopeMeaning(x.view, x.policy, pod);
    GateIsAcceptance(x.policy, pod, x.now);
    hide PodGate, R.WaitsUntil, R.Admitted, AllowedNamespaces, InScope;
  }

  lemma SomeWaitsMeaning(x: Pass, pods: seq<Pod>, until: int)
    requires AllowedNamespaces(x.view, x.policy).Ok?
    ensures R.SomeWaitsUntil(x.view, x.policy.spec, pods, x.now, until) <==>
            exists pod :: pod in pods && Deferred(x, pod) == Some(until)
  {
    hide AllowedNamespaces, Deferred, R.Admitted, R.WaitsUntil;
    forall pod ensures Deferred(x, pod) == Some(until) <==>
                       && R.Admitted(x.view, x.policy.spec, pod.namespace)
                       && R.WaitsUntil(x.policy.spec, pod, x.now, until) {
      DeferredMeaning(x, pod, until);
    }
  }

  /** The requeue of a pass over these pods. */
  lemma DueMeaning(x: Pass, pods: seq<Pod>, finished: int)
    requires AllowedNamespaces(x.view, x.policy).Ok?
    ensures R.DueAfter(x.view, x.policy.spec, pods, x.now, finished,
                       RequeueAfter(x.policy, EarliestExpiry(x, pods), finished))
  {
    hide AllowedNamespaces, Deferred, R.SomeWaitsUntil, EarliestExpiry, ReconcileInterval, R.Interval;
    SettingsMeaning(x.policy);
    forall until ensures R.SomeWaitsUntil(x.view, x.policy.spec, pods, x.now, until) <==>
                         exists pod :: pod in pods && Deferred(x, pod) == Some(until) {
      SomeWaitsMeaning(x, pods, until);
    }
    var expiry := EarliestExpiry(x, pods);
    if expiry.Some? {
      assert R.SomeWaitsUntil(x.view, x.policy.spec, pods, x.now, expiry.value);
    }
  }

  /** A quiet pass that does not give up asks to run again after its interval, or when the first pod that waits for
      the clock alone is due, but in no less than a second. */
  lemma RequeueMeaning(
    x: Pass, objects0: Objects, objects: Objects, h0: seq<StatusVersion>, h: seq<StatusVersion>, r: Result<int>,
    acted: seq<Ref>, finished: int)
    requires |h0| > 0 && QuietPass(x, objects0, objects, h0, h, r, acted, finished) && !GivesUp(x.view, x.policy)
    ensures r.Ok? && R.DueAfter(x.view, x.policy.spec, Candidates(x.view, x.policy), x.now, finished, r.value)
  {
    DueMeaning(x, Candidates(x.view, x.policy), finished);
    hide R.DueAfter, RequeueAfter, Candidates, PassOver, EarliestExpiry, WithFindings, FindingsOf;
  }

  /** The status after a quiet pass that does not give up, whatever it was before. */
  lemma StatusMeaning(
    x: Pass, objects0: Objects, objects: Objects, h0: seq<StatusVersion>, h: seq<StatusVersion>, r: Result<int>,
    acted: seq<Ref>, finished: int)
    requires |h0| > 0 && QuietPass(x, objects0, objects, WithPhase(h0), h, r, acted, finished)
    requires !GivesUp(x.view, x.policy)
    ensures |h| > 0 && h0 <= h
    ensures var s, t := Last(h0), Last(h);
            var pass := PassOver(x, Candidates(x.view, x.policy), objects0);
            var f := ActiveFindings(x.view, objects, x.policy, Namespaces(x));
            && t.phase == "Active"
            && t.observedGeneration == x.policy.generation
            && t.scaledDown == s.scaledDown + |acted|
            && t.active == f.active && t.truncated == f.truncated
            && "Ready" in t.conditions && (t.conditions["Ready"].status <==> pass.errors == 0 && !f.failed)
            && "Degraded" in t.conditions && (t.conditions["Degraded"].status <==> f.active != [])
            && (t.(lastEvaluation := None) == Last(WithPhase(h0)).(lastEvaluation := None) ==>
                  t.lastEvaluation == s.lastEvaluation)
            && (t.(lastEvaluation := None) != Last(WithPhase(h0)).(lastEvaluation := None) ==>
                  t.lastEvaluation == Some(x.now))
  {
    var pods := Candidates(x.view, x.policy);
    var e := FindingsOf(x, PassOver(x, pods, objects0));
    PhaseIsSet(WithPhase(h0), e, x.now);
    PublishedMeaning(Last(WithPhase(h0)), e, x.now);
    hide PassOver, Candidates, ActiveFindings, Publish, EarliestExpiry, RequeueAfter, GivesUp;
  }

  lemma PublishedMeaning(s: PolicyStatus, e: Evaluation, now: int)
    ensures var t := Evaluate(s, e, now);
            && t.phase == "Active" && t.observedGeneration == e.generation && t.scaledDown == s.scaledDown + e.acted
            && t.active == e.active && t.truncated == e.truncated
            && "Ready" in t.conditions && (t.conditions["Ready"].status <==> e.errors == 0)
            && "Degraded" in t.conditions && (t.conditions["Degraded"].status <==> e.active != [])
            && t.lastEvaluation ==
                 if t.(lastEvaluation := None) == s.(lastEvaluation := None) then s.lastEvaluation else Some(now)
  {
    ConditionsMeaning(s, e, now);
    assert Publish(s, e, now).lastEvaluation == s.lastEvaluation;
    assert Publish(s, e, now) == s <==> Publish(s, e, now).(lastEvaluation := None) == s.(lastEvaluation := None);
    hide SetCondition;
  }

  /** A pass that gives up leaves the phase set and nothing else changed. */
  lemma GivenUpMeaning(
    x: Pass, objects0: Objects, objects: Objects, h0: seq<StatusVersion>, h: seq<StatusVersion>, r: Result<int>,
    acted: seq<Ref>, finished: int)
    requires |h0| > 0 && QuietPass(x, objects0, objects, WithPhase(h0), h, r, acted, finished)
    requires GivesUp(x.view, x.policy)
    ensures r.Err? && acted == [] && objects == objects0 && |h| > 0
    ensures Last(h) == if Last(h0).phase == "" then Last(h0).(phase := "Pending") else Last(h0)
  {
    hide GivesUp;
  }
}
