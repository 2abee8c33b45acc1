/** The two pod indexes, the lookups built on them, and the watch filter in front of the queue. */
module Indexes {
  import opened Cluster
  import opened Pods
  import opened Policies
  import opened Correlation
  import opened Arbitration

  datatype Index = ByWaiting | ByTermination

  /** The value a container files its pod under, if any. */
  function Filed(index: Index, s: ContainerStatus): Option<string> {
    match index
    case ByWaiting =>
      if s.waiting.Some? && s.waiting.value != "" then s.waiting else None
    case ByTermination =>
      if s.restartCount != 0 && s.lastTermination.Some? && s.lastTermination.value.reason != ""
      then Some(s.lastTermination.value.reason)
      else None
  }

  /** The pod is filed under this value of the index. */
  predicate IndexedUnder(index: Index, pod: Pod, reason: string) {
    exists s :: s in Statuses(pod) && Filed(index, s) == Some(reason)
  }

  /** podWaitingReasons and podTerminationReasons: the distinct values a pod is filed under. */
  method IndexValues(index: Index, pod: Pod) returns (reasons: seq<string>)
    ensures forall r :: r in reasons <==> IndexedUnder(index, pod, r)
    ensures NoDuplicates(reasons)
  {
    var seen: set<string> := {};
    var statuses := Statuses(pod);
    for i := 0 to |statuses|
      invariant forall r :: r in seen <==> exists s :: s in statuses[..i] && Filed(index, s) == Some(r)
    {
      assert statuses[..i + 1] == statuses[..i] + [statuses[i]];
      var value := Filed(index, statuses[i]);
      if value.Some? {
        seen := seen + {value.value};
      }
    }
    assert statuses[..|statuses|] == statuses;
    reasons := [];
    var rest := seen;
    while rest != {}
      invariant rest <= seen && NoDuplicates(reasons)
      invariant forall r :: r in reasons <==> r in seen - rest
      decreases rest
    {
      var r :| r in rest;
      assert r !in reasons;
      reasons := reasons + [r];
      rest := rest - {r};
    }
  }

  /** podIsInteresting. */
  method IsInteresting(pod: Pod) returns (r: bool)
    ensures r <==> exists index, reason :: IndexedUnder(index, pod, reason)
  {
    var waiting := IndexValues(ByWaiting, pod);
    var terminated := IndexValues(ByTermination, pod);
    r := |waiting| > 0 || |terminated| > 0;
    if |waiting| > 0 {
      assert waiting[0] in waiting;
    }
    if |terminated| > 0 {
      assert terminated[0] in terminated;
    }
  }

  ghost predicate UniqueUids(view: View) {
    forall p, q :: p in view.pods && q in view.pods && p.uid == q.uid ==> p == q
  }

  predicate UnderAny(index: Index, pod: Pod, values: seq<string>) {
    exists v :: v in values && IndexedUnder(index, pod, v)
  }

  /** Exactly the pods of the cluster that pass the test, each once. */
  ghost predicate ListsEach(view: View, pods: seq<Pod>, test: Pod -> bool) {
    && (forall p :: p in pods <==> p in view.pods && test(p))
    && (forall i, j :: 0 <= i < j < |pods| ==> pods[i].uid != pods[j].uid)
  }

  predicate HasUid(pods: seq<Pod>, uid: string) {
    exists p :: p in pods && p.uid == uid
  }

  /** The pods found so far, and after them those of `pods` filed under the value whose UID is new. */
  function Scan(pods: seq<Pod>, index: Index, value: string, found: seq<Pod>): seq<Pod> {
    if pods == [] then found
    else
      var last := pods[|pods| - 1];
      var earlier := Scan(pods[..|pods| - 1], index, value, found);
      if IndexedUnder(index, last, value) && !HasUid(earlier, last.uid) then earlier + [last] else earlier
  }

  /** The order in which the lookup lists what it finds: value by value, each in the order of the cluster. */
  function Lookup(pods: seq<Pod>, index: Index, values: seq<string>): seq<Pod> {
    if values == [] then []
    else Scan(pods, index, values[|values| - 1], Lookup(pods, index, values[..|values| - 1]))
  }

  lemma ScanMore(pods: seq<Pod>, k: nat, index: Index, value: string, found: seq<Pod>)
    requires k < |pods|
    ensures var earlier := Scan(pods[..k], index, value, found);
            Scan(pods[..k + 1], index, value, found) ==
            if IndexedUnder(index, pods[k], value) && !HasUid(earlier, pods[k].uid)
            then earlier + [pods[k]] else earlier
  {
    hide IndexedUnder, HasUid;
    assert pods[..k + 1][..k] == pods[..k];
  }

  lemma LookupMore(pods: seq<Pod>, index: Index, values: seq<string>, i: nat)
    requires i < |values|
    ensures Lookup(pods, index, values[..i + 1]) == Scan(pods, index, values[i], Lookup(pods, index, values[..i]))
    ensures Scan([], index, values[i], Lookup(pods, index, values[..i])) == Lookup(pods, index, values[..i])
  {
    hide IndexedUnder, HasUid;
    assert values[..i + 1][..i] == values[..i];
  }

  lemma OneMoreUid(pods: seq<Pod>, pod: Pod)
    ensures forall u :: HasUid(pods + [pod], u) <==> HasUid(pods, u) || u == pod.uid
  {
    assert forall p :: p in pods + [pod] <==> p in pods || p == pod;
  }

  /** listPodsByIndex: the lookup finds exactly what a scan of all pods would, each pod once. */
  method ListPodsByIndex(view: View, index: Index, values: seq<string>) returns (r: Result<seq<Pod>>)
    requires UniqueUids(view)
    ensures r.Err? <==> exists v :: v in values && ListByIndex(v) in view.faults
    ensures r.Ok? ==> r.value == Lookup(view.pods, index, values)
    ensures r.Ok? ==> ListsEach(view, r.value, p => UnderAny(index, p, values))
  {
    hide Scan, Lookup, IndexedUnder, HasUid, ListsEach, UniqueUids;
    var pods: seq<Pod> := [];
    var seen: set<string> := {};
    NothingFound(view.pods, index);
    for i := 0 to |values|
      invariant forall v :: v in values[..i] ==> ListByIndex(v) !in view.faults
      invariant forall u :: u in seen <==> HasUid(pods, u)
      invariant pods == Lookup(view.pods, index, values[..i])
    {
      var value := values[i];
      assert values[..i + 1] == values[..i] + [value];
      LookupMore(view.pods, index, values, i);
      if ListByIndex(value) in view.faults {
        return Err(Unavailable);
      }
      ghost var before := pods;
      for k := 0 to |view.pods|
        invariant forall u :: u in seen <==> HasUid(pods, u)
        invariant pods == Scan(view.pods[..k], index, value, before)
      {
        var pod := view.pods[k];
        ScanMore(view.pods, k, index, value, before);
        OneMoreUid(pods, pod);
        if IndexedUnder(index, pod, value) && pod.uid !in seen {
          seen := seen + {pod.uid};
          pods := pods + [pod];
        }
      }
      assert view.pods[..|view.pods|] == view.pods;
    }
    assert values[..|values|] == values;
    LookupListsEach(view, index, values);
    r := Ok(pods);
  }

  lemma NothingFound(pods: seq<Pod>, index: Index)
    ensures Lookup(pods, index, []) == [] && forall u :: !HasUid([], u)
  {
  }

  ghost predicate NoUidTwice(pods: seq<Pod>) {
    forall i, j :: 0 <= i < j < |pods| ==> pods[i].uid != pods[j].uid
  }

  lemma {:induction false} ScanFinds(view: View, pods: seq<Pod>, index: Index, value: string, found: seq<Pod>)
    requires UniqueUids(view) && NoUidTwice(found)
    requires forall p :: p in found || p in pods ==> p in view.pods
    ensures NoUidTwice(Scan(pods, index, value, found))
    ensures forall p :: p in Scan(pods, index, value, found) <==>
                        p in found || (p in pods && IndexedUnder(index, p, value))
  {
    hide IndexedUnder;
    if pods != [] {
      var front, last := pods[..|pods| - 1], pods[|pods| - 1];
      assert forall p :: p in pods <==> p in front || p == last;
      ScanFinds(view, front, index, value, found);
      var earlier := Scan(front, index, value, found);
      if HasUid(earlier, last.uid) {
        var q :| q in earlier && q.uid == last.uid;
        assert q == last;
      } else {
        assert forall k :: 0 <= k < |earlier| ==> earlier[k] in earlier;
      }
    }
  }

  lemma {:induction false} LookupListsEach(view: View, index: Index, values: seq<string>)
    requires UniqueUids(view)
    ensures ListsEach(view, Lookup(view.pods, index, values), p => UnderAny(index, p, values))
  {
    hide IndexedUnder, Scan;
    if values != [] {
      var front, last := values[..|values| - 1], values[|values| - 1];
      assert forall v :: v in values <==> v in front || v == last;
      LookupListsEach(view, index, front);
      ScanFinds(view, view.pods, index, last, Lookup(view.pods, index, front));
    }
  }

  /** The policy's indexed lookups would find the pod. */
  predicate IsCandidate(p: Policy, pod: Pod) {
    || UnderAny(ByWaiting, pod, WatchReasons(p))
    || UnderAny(ByTermination, pod, TerminationReasons(p))
  }

  ghost predicate ListsCandidates(view: View, p: Policy, pods: seq<Pod>) {
    ListsEach(view, pods, pod => IsCandidate(p, pod))
  }

  /** Those of `more` whose UID `pods` does not have. */
  function Unlisted(pods: seq<Pod>, more: seq<Pod>): (r: seq<Pod>)
    ensures forall p :: p in r <==> p in more && !HasUid(pods, p.uid)
  {
    if more == [] then []
    else
      var front, last := more[..|more| - 1], more[|more| - 1];
      assert forall p :: p in more <==> p in front || p == last;
      Unlisted(pods, front) + if HasUid(pods, last.uid) then [] else [last]
  }

  /** The listing a pass works through. */
  function Candidates(view: View, p: Policy): seq<Pod> {
    var waiting := Lookup(view.pods, ByWaiting, WatchReasons(p));
    waiting + Unlisted(waiting, Lookup(view.pods, ByTermination, TerminationReasons(p)))
  }

  lemma {:induction false} UnlistedKeepsUids(pods: seq<Pod>, more: seq<Pod>)
    requires NoUidTwice(pods) && NoUidTwice(more)
    ensures NoUidTwice(pods + Unlisted(pods, more))
  {
    if more != [] {
      var front, last := more[..|more| - 1], more[|more| - 1];
      UnlistedKeepsUids(pods, front);
      var all := pods + Unlisted(pods, front);
      if !HasUid(pods, last.uid) {
        forall k | 0 <= k < |all| ensures all[k].uid != last.uid {
          assert all[k] in pods || all[k] in front;
          assert all[k] in front ==> exists m :: 0 <= m < |front| && more[m] == all[k];
        }
        assert pods + Unlisted(pods, more) == all + [last];
      } else {
        assert Unlisted(pods, more) == Unlisted(pods, front);
      }
    }
  }

  /** The listing holds every candidate of the cluster, each once. */
  lemma CandidatesAreListed(view: View, p: Policy)
    requires UniqueUids(view)
    ensures ListsCandidates(view, p, Candidates(view, p))
  {
    hide UnderAny, Lookup, Unlisted;
    LookupListsEach(view, ByWaiting, WatchReasons(p));
    LookupListsEach(view, ByTermination, TerminationReasons(p));
    var waiting := Lookup(view.pods, ByWaiting, WatchReasons(p));
    var more := Lookup(view.pods, ByTermination, TerminationReasons(p));
    UnlistedKeepsUids(waiting, more);
    forall pod ensures pod in Candidates(view, p) <==> pod in waiting || pod in more {
      if pod in more && HasUid(waiting, pod.uid) {
        var q :| q in waiting && q.uid == pod.uid;
        assert q == pod;
      }
    }
  }

  /** listCandidatePods. */
  method ListCandidatePods(view: View, p: Policy) returns (r: Result<seq<Pod>>)
    requires UniqueUids(view)
    ensures r.Ok? ==> r.value == Candidates(view, p) && ListsCandidates(view, p, r.value)
    ensures r.Err? <==> exists v :: v in WatchReasons(p) + TerminationReasons(p) && ListByIndex(v) in view.faults
  {
    hide Lookup, ListsCandidates, ListsEach, UniqueUids, Unlisted, HasUid, UnderAny;
    CandidatesAreListed(view, p);
    r := ListPodsByIndex(view, ByWaiting, WatchReasons(p));
    if r.Err? {
      return;
    }
    if |TerminationReasons(p)| == 0 {
      NothingLookedUp(view, p);
      return;
    }
    var restarting := ListPodsByIndex(view, ByTermination, TerminationReasons(p));
    if restarting.Err? {
      return restarting;
    }
    ghost var waiting := r.value;
    var pods, more := r.value, restarting.value;
    var seen := set pod | pod in pods :: pod.uid;
    UidsOf(pods);
    UnlistedMore(pods, more, 0);
    for i := 0 to |more|
      invariant pods == waiting + Unlisted(waiting, more[..i])
    {
      UnlistedMore(waiting, more, i);
      if more[i].uid !in seen {
        pods := pods + [more[i]];
      }
    }
    assert more[..|more|] == more;
    r := Ok(pods);
  }

  lemma UidsOf(pods: seq<Pod>)
    ensures forall u :: u in (set pod | pod in pods :: pod.uid) <==> HasUid(pods, u)
  {
  }

  lemma UnlistedMore(pods: seq<Pod>, more: seq<Pod>, i: nat)
    ensures Unlisted(pods, []) == []
    ensures i < |more| ==>
              Unlisted(pods, more[..i + 1]) ==
              Unlisted(pods, more[..i]) + if HasUid(pods, more[i].uid) then [] else [more[i]]
  {
    hide HasUid;
    if i < |more| {
      assert more[..i + 1][..i] == more[..i];
    }
  }

  lemma NothingLookedUp(view: View, p: Policy)
    requires |TerminationReasons(p)| == 0
    ensures Candidates(view, p) == Lookup(view.pods, ByWaiting, WatchReasons(p))
  {
  }

  /** A pod that fails only by an empty waiting reason: the reconcile loop would see it, the index does not. */
  function UnnamedWaiting(): Pod {
    Pod("", "", map[], [], false, "Running", [],
        [ContainerStatus("", Some(""), false, None, 0, None)], [], [])
  }

  /** The lookup loses no failing pod, exactly as long as the policy does not watch for the empty reason. */
  lemma LookupLosesNothing(p: Policy, now: int)
    ensures "" !in WatchReasons(p) <==> forall pod :: PodMatches(p, pod, now) ==> IsCandidate(p, pod)
  {
    if "" in WatchReasons(p) {
      var pod := UnnamedWaiting();
      assert pod.containers[0] in pod.containers + pod.initContainers;
      assert Waits(pod.containers[0], WatchReasons(p));
      assert PodMatches(p, pod, now);
      assert !IsCandidate(p, pod);
    } else {
      forall pod | PodMatches(p, pod, now) ensures IsCandidate(p, pod) {
        MatchingIsCandidate(p, pod, now);
      }
    }
  }

  lemma MatchingIsCandidate(p: Policy, pod: Pod, now: int)
    requires "" !in WatchReasons(p) && PodMatches(p, pod, now)
    ensures IsCandidate(p, pod)
  {
    if FailureReason(pod, WatchReasons(p)).Some? {
      var s :| s in pod.containers + pod.initContainers && Waits(s, WatchReasons(p));
      assert s in Statuses(pod) && Filed(ByWaiting, s) == s.waiting;
      assert IndexedUnder(ByWaiting, pod, s.waiting.value);
    } else {
      LoopReasonMeaning(pod, TerminationReasons(p), RestartThreshold(p), RestartWindow(p), now);
      var s :| (s in pod.containers || s in pod.initContainers)
               && Loops(s, TerminationReasons(p), RestartThreshold(p), RestartWindow(p), now);
      assert Loops(s, TerminationReasons(p), RestartThreshold(p), RestartWindow(p), now);
      var reason := s.lastTermination.value.reason;
      assert s in Statuses(pod) && Filed(ByTermination, s) == Some(reason);
      assert IndexedUnder(ByTermination, pod, reason);
    }
  }

  /** The policies whose exclusions do not cover the namespace, by name and in list order. */
  function Enqueued(policies: seq<Policy>, namespace: string): (r: seq<string>)
    ensures forall n :: n in r <==>
              exists p :: p in policies && p.name == n && namespace !in p.spec.excludeNamespaces
  {
    if policies == [] then []
    else
      var front, last := policies[..|policies| - 1], policies[|policies| - 1];
      assert forall p :: p in policies <==> p in front || p == last;
      Enqueued(front, namespace) + if namespace in last.spec.excludeNamespaces then [] else [last.name]
  }

  /** mapPodToPolicy. */
  method MapPodToPolicy(view: View, pod: Pod) returns (requests: seq<string>)
    ensures requests == if ListPolicies in view.faults then [] else Enqueued(view.policies, pod.namespace)
  {
    requests := [];
    if ListPolicies in view.faults {
      return;
    }
    for i := 0 to |view.policies|
      invariant requests == Enqueued(view.policies[..i], pod.namespace)
    {
      assert view.policies[..i + 1][..i] == view.policies[..i];
      if pod.namespace !in view.policies[i].spec.excludeNamespaces {
        requests := requests + [view.policies[i].name];
      }
    }
    assert view.policies[..|view.policies|] == view.policies;
  }

  /** The watch loses nothing either: a pod some policy acts on is interesting, and that policy is enqueued. */
  lemma ActingPairIsWatched(view: View, p: Policy, now: int, pod: Pod, ref: Ref, read: Result<Workload>)
    requires p in view.policies && "" !in WatchReasons(p)
    requires WouldAct(view, p, now, pod, ref, read) == Yes
    ensures IsCandidate(p, pod)
    ensures exists index, reason :: IndexedUnder(index, pod, reason)
    ensures pod.namespace !in p.spec.excludeNamespaces
  {
    assert PodMatches(p, pod, now) by { hide OwnerGates; }
    MatchingIsCandidate(p, pod, now);
  }
}
