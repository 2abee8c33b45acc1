/** The reconcile pass as it runs, and when it asks to be woken again. */
module Reconcile {
  import opened Cluster
  import opened Policies
  import opened Status
  import opened StatusWrites
  import opened Clients
  import opened Owners
  import opened Arbitration
  import opened Indexes
  import opened Attribution
  import opened PassSpec
  import opened PassTheorems
  import opened PassWrites
  import P = StopProtocol

  function FindPolicy(policies: seq<Policy>, name: string): (r: Option<Policy>)
    ensures r.Some? ==> r.value in policies && r.value.name == name
    ensures r.None? ==> forall p :: p in policies ==> p.name != name
  {
    if policies == [] then None
    else if policies[0].name == name then Some(policies[0])
    else FindPolicy(policies[1..], name)
  }

  // ----- The requeue -----

  /** The pod is in scope and waits for the duration threshold, which it reaches at this instant. */
  function Deferred(x: Pass, pod: Pod): Option<int> {
    var gate := PodGate(x.policy, pod, x.now);
    if InScope(Namespaces(x), x.policy, pod) && gate.Defer? then Some(gate.expiresAt) else None
  }

  function Earlier(a: Option<int>, b: Option<int>): Option<int> {
    if a.None? then b
    else if b.None? || a.value <= b.value then a
    else b
  }

  /** The earliest-expiry accumulator of the loop. */
  function EarliestExpiry(x: Pass, pods: seq<Pod>): (r: Option<int>)
    ensures forall pod :: pod in pods && Deferred(x, pod).Some? ==> r.Some? && r.value <= Deferred(x, pod).value
    ensures r.Some? ==> exists pod :: pod in pods && Deferred(x, pod) == r
  {
    if pods == [] then None
    else
      var front, last := pods[..|pods| - 1], pods[|pods| - 1];
      assert forall pod :: pod in pods <==> pod in front || pod == last;
      Earlier(EarliestExpiry(x, front), Deferred(x, last))
  }

  function Min(a: int, b: int): int { if a <= b then a else b }
  function Max(a: int, b: int): int { if a >= b then a else b }

  /** How long after `finished` the pass asks to run again. */
  function RequeueAfter(p: Policy, expiry: Option<int>, finished: int): (r: int)
    ensures r > 0
  {
    if expiry.None? then ReconcileInterval(p)
    else Min(ReconcileInterval(p), Max(expiry.value - finished, MINIMUM_REQUEUE))
  }

  // ----- The pass -----

  /** What a client must hold for passes to be run against it. */
  ghost predicate Ready(client: Client)
    reads client
  {
    && client.Valid()
    && DistinctNames(client.view.policies)
    && UniqueUids(client.view)
    && (forall p :: p in client.view.policies ==> p.name in client.statuses)
    && (forall pod :: pod in client.view.pods ==> '/' !in pod.namespace)
  }

  lemma KindsHaveNoSlash(kind: string)
    requires kind in KINDS
    ensures '/' !in kind
  {
  }

  lemma ClaimKeys(x: Pass, a: Pod, b: Pod)
    requires '/' !in a.namespace && '/' !in b.namespace && Claim(x, a).Some? && Claim(x, b).Some?
    ensures Key(Claim(x, a).value) == Key(Claim(x, b).value) <==> Claim(x, a) == Claim(x, b)
  {
    hide Claim, Key;
    KindsHaveNoSlash(Claim(x, a).value.kind);
    KindsHaveNoSlash(Claim(x, b).value.kind);
    KeyIsInjective(Claim(x, a).value, Claim(x, b).value);
  }

  /** The gates and the winner check of the loop body (crashlooppolicy_controller.go:190-231). */
  method Judge(client: Client, nr: NamespaceResolver, x: Pass, pod: Pod, ref: Ref) returns (r: Answer)
    requires client.Valid() && nr.Valid() && nr.view == client.view == x.view && DistinctNames(x.view.policies)
    requires x.policy in x.view.policies && Claim(x, pod) == Some(ref) && AllowedNamespaces(x.view, x.policy).Ok?
    modifies nr`cache
    ensures nr.Valid()
    ensures r == Failed <==> OwnerGates(x.view, x.policy, x.now, ref, client.Read(ref)) == Failed
                             || (OwnerGates(x.view, x.policy, x.now, ref, client.Read(ref)) == Yes
                                 && Undecided(x, pod, ref, client.Read(ref)))
    ensures r == Yes <==> OwnerGates(x.view, x.policy, x.now, ref, client.Read(ref)) == Yes
                          && !Undecided(x, pod, ref, client.Read(ref)) && !Outranked(x, pod, ref, client.Read(ref))
  {
    hide Claim, WouldAct, ReplicasAnswer, Undecided, Outranked;
    var p := x.policy;
    if p.spec.excludeWorkloadSelector.Some? {
      match ExclusionAnswer(p, client.Read(ref)) {
        case Failed => return Failed;
        case Yes => return No;
        case No =>
      }
    }
    if RequiresAllReplicas(p) {
      var failing := AllReplicasFailing(client, p, x.now, ref);
      if failing != Yes {
        return failing;
      }
    }
    var winner := WinningPolicy(client, nr, x.now, pod, ref);
    WinnerMeansNotOutranked(x, pod, ref, client.Read(ref), winner);
    if winner.Err? {
      return Failed;
    }
    if winner.value.Some? && winner.value.value.name != p.name {
      return No;
    }
    r := Yes;
  }

  lemma OneMoreTouched(
    before: map<Ref, seq<Entry>>, middle: map<Ref, seq<Entry>>, after: map<Ref, seq<Entry>>, seen: set<Ref>, ref: Ref)
    requires Untouched(before, middle, seen) && Untouched(middle, after, {ref})
    ensures Untouched(before, after, seen + {ref})
  {
  }

  /** The loop body from the exclusion check to the stop (crashlooppolicy_controller.go:190-240). */
  method JudgeAndStop(client: Client, nr: NamespaceResolver, x: Pass, pod: Pod, ref: Ref) returns (verdict: Verdict)
    requires client.Valid() && nr.Valid() && nr.view == client.view == x.view && DistinctNames(x.view.policies)
    requires x.policy in x.view.policies && Claim(x, pod) == Some(ref) && AllowedNamespaces(x.view, x.policy).Ok?
    modifies client`workloads, nr`cache
    ensures client.Valid() && nr.Valid() && client.workloads.Keys == old(client.workloads.Keys)
    ensures Untouched(old(client.workloads), client.workloads, {ref})
    ensures || (client.workloads == old(client.workloads) && verdict != Acts)
            || (ref in client.workloads
                && Called(x, pod, ref, old(client.workloads)[ref], client.workloads[ref], verdict == Acts))
    ensures client.quiet && (verdict != Acts || IsDryRun(x.policy)) ==> client.workloads == old(client.workloads)
    ensures client.quiet ==>
              && verdict == VerdictOn(x, pod, ref, old(client.Read(ref)))
              && client.Objects() ==
                   if verdict == Acts then Stop(x, old(client.Objects()), pod, ref) else old(client.Objects())
  {
    hide Claim, OwnerGates, Undecided, Outranked, StoppedAs, StampFor, IsCall;
    var answer := Judge(client, nr, x, pod, ref);
    if answer != Yes {
      return if answer == Failed then Fails else Leaves;
    }
    var r, trace := ScaleDownWorkload(client, ref, StampFor(x, pod), IsDryRun(x.policy));
    verdict := match r
      case Err(_) => Fails
      case Ok(did) => if did then Acts else Leaves;
    assert ref in client.workloads ==>
        IsCall(old(client.workloads)[ref], CallFor(x, pod, ref), trace, client.workloads[ref], r);
  }

  lemma WinnerMeansNotOutranked(x: Pass, pod: Pod, ref: Ref, read: Result<Workload>, winner: Result<Option<Policy>>)
    requires DistinctNames(x.view.policies) && x.policy in x.view.policies
    requires Claim(x, pod) == Some(ref) && AllowedNamespaces(x.view, x.policy).Ok?
    requires OwnerGates(x.view, x.policy, x.now, ref, read) == Yes
    requires IsWinner(x.view, x.view.policies, x.now, pod, ref, read, winner)
    ensures winner.Err? ==> Undecided(x, pod, ref, read)
    ensures winner.Ok? ==> !Undecided(x, pod, ref, read)
                           && winner.value.Some?
                           && (winner.value.value.name != x.policy.name <==> Outranked(x, pod, ref, read))
  {
    assert ReachesWinnerCheck(x.view, x.policy, x.now, pod, ref, read) by { hide OwnerGates, PodGate; }
    GatesAgree(x.view, x.policy, x.now, pod, ref, read);
    hide WouldAct, Claim, OwnerGates;
    if winner.Ok? {
      var w := winner.value.value;
      OrderIsTotal(w, x.policy);
      if w != x.policy {
        DistinctNamesMeanDistinct(x.view.policies, w, x.policy);
      }
    }
  }

  lemma DistinctNamesMeanDistinct(policies: seq<Policy>, a: Policy, b: Policy)
    requires DistinctNames(policies) && a in policies && b in policies && a != b
    ensures a.name != b.name
  {
    var i :| 0 <= i < |policies| && policies[i] == a;
    var j :| 0 <= j < |policies| && policies[j] == b;
    if i < j {
      assert policies[i].name != policies[j].name;
    } else {
      assert policies[j].name != policies[i].name;
    }
  }

  lemma OneMorePod(x: Pass, pods: seq<Pod>, i: nat, objects: Objects)
    requires i < |pods|
    ensures PassOver(x, pods[..i + 1], objects) == Visit(x, objects, PassOver(x, pods[..i], objects), pods[i])
    ensures EarliestExpiry(x, pods[..i + 1]) == Earlier(EarliestExpiry(x, pods[..i]), Deferred(x, pods[i]))
  {
    assert pods[..i + 1][..i] == pods[..i];
    hide Visit, Deferred;
  }

  /** The keys of the workloads the loop has already judged. */
  ghost predicate KeysOf(processed: set<string>, seen: set<Ref>) {
    forall k :: k in processed <==> exists ref :: ref in seen && Key(ref) == k
  }

  lemma OneMoreKey(processed: set<string>, seen: set<Ref>, ref: Ref)
    requires KeysOf(processed, seen)
    ensures KeysOf(processed + {Key(ref)}, seen + {ref})
  {
    hide Key;
  }

  ghost predicate Claimed(x: Pass, pods: seq<Pod>, refs: set<Ref>) {
    forall ref :: ref in refs ==> exists pod :: pod in pods && Claim(x, pod) == Some(ref)
  }

  lemma ClaimedGrows(x: Pass, pods: seq<Pod>, i: nat, seen: set<Ref>)
    requires i < |pods| && Claimed(x, pods[..i], seen)
    ensures Claimed(x, pods[..i + 1], seen)
    ensures Claim(x, pods[i]).Some? ==> Claimed(x, pods[..i + 1], seen + {Claim(x, pods[i]).value})
  {
    hide Claim;
    assert pods[..i + 1] == pods[..i] + [pods[i]];
    assert forall pod :: pod in pods[..i] || pod == pods[i] ==> pod in pods[..i + 1];
  }

  lemma SomeClaimed(x: Pass, pods: seq<Pod>, seen: set<Ref>, acted: seq<Ref>)
    requires Claimed(x, pods, seen) && forall ref :: ref in acted ==> ref in seen
    ensures Claimed(x, pods, set ref | ref in acted)
  {
    hide Claim;
  }

  lemma ProcessedMeansSeen(x: Pass, pods: seq<Pod>, processed: set<string>, seen: set<Ref>, pod: Pod)
    requires KeysOf(processed, seen) && Claimed(x, pods, seen) && Claim(x, pod).Some?
    requires '/' !in pod.namespace && forall q :: q in pods ==> '/' !in q.namespace
    ensures Key(Claim(x, pod).value) in processed <==> Claim(x, pod).value in seen
  {
    hide Claim, Key;
    if ref :| ref in seen && Key(ref) == Key(Claim(x, pod).value) {
      var q :| q in pods && Claim(x, q) == Some(ref);
      ClaimKeys(x, pod, q);
    }
  }

  ghost predicate Tracked(
    x: Pass, pods: seq<Pod>, objects0: Objects, objects: Objects, seen: set<Ref>, acted: seq<Ref>, errors: nat)
  {
    PassOver(x, pods, objects0) == Progress(seen, acted, errors, objects)
  }

  /** The candidate loop (crashlooppolicy_controller.go:120-260). Whoever interferes, every workload is left alone
      or stopped by one call made for one pod that claims it, and the list says which calls answered `true`; on
      a quiet client the outcome is the fold over the pods. */
  method EvaluatePods(client: Client, nr: NamespaceResolver, x: Pass, pods: seq<Pod>)
    returns (acted: seq<Ref>, errors: nat, expiry: Option<int>)
    requires client.Valid() && nr.Valid() && nr.view == client.view == x.view && DistinctNames(x.view.policies)
    requires x.policy in x.view.policies && AllowedNamespaces(x.view, x.policy).Ok?
    requires forall pod :: pod in pods ==> '/' !in pod.namespace
    modifies client`workloads, nr`cache
    ensures client.Valid() && client.workloads.Keys == old(client.workloads.Keys)
    ensures NoDuplicates(acted) && |acted| <= |pods|
    ensures Claimed(x, pods, set ref | ref in acted)
    ensures AllJudged(x, pods, old(client.workloads), client.workloads, acted)
    ensures client.quiet && (acted == [] || IsDryRun(x.policy)) ==> client.workloads == old(client.workloads)
    ensures expiry == EarliestExpiry(x, pods)
    ensures client.quiet ==>
              var t := PassOver(x, pods, old(client.Objects()));
              acted == t.acted && errors == t.errors && client.Objects() == t.objects
  {
    hide Claim, Key, Unresolved, VerdictOn, Stop, Deferred, PassOver, EarliestExpiry, ReadObject, PodGate, ResolveOwner,
      InScope, AllowedNamespaces, NewestAll, Untouched, KeysOf, Claimed, Chained, AllJudged, Called;
    var processed: set<string> := {};
    ghost var seen: set<Ref> := {};
    acted, errors, expiry := [], 0, None;
    EmptyPass(x, old(client.Objects()), client.workloads);
    NoneJudged(x, [], client.workloads);
    for i := 0 to |pods|
      invariant client.Valid() && nr.Valid() && client.workloads.Keys == old(client.workloads.Keys)
      invariant Untouched(old(client.workloads), client.workloads, seen)
      invariant AllJudged(x, pods[..i], old(client.workloads), client.workloads, acted)
      invariant client.quiet && (acted == [] || IsDryRun(x.policy)) ==> client.workloads == old(client.workloads)
      invariant KeysOf(processed, seen) && Claimed(x, pods[..i], seen)
      invariant NoDuplicates(acted) && |acted| <= i && forall ref :: ref in acted ==> ref in seen
      invariant expiry == EarliestExpiry(x, pods[..i])
      invariant client.quiet ==>
        Tracked(x, pods[..i], old(client.Objects()), client.Objects(), seen, acted, errors)
    {
      var pod := pods[i];
      OneMorePod(x, pods, i, old(client.Objects()));
      ClaimedGrows(x, pods, i, seen);
      JudgedSoFar(x, pods, i, old(client.workloads), client.workloads, acted);
      GateMeaning(x, pod);
      var gate := PodGate(x.policy, pod, x.now);
      var owner := ResolveOwner(x.view, pod);
      if !InScope(Namespaces(x), x.policy, pod) || gate.Drop? {
        continue;
      }
      if gate.Defer? {
        if expiry.None? || gate.expiresAt < expiry.value {
          expiry := Some(gate.expiresAt);
        }
        continue;
      }
      if owner.Err? {
        errors := errors + 1;
        continue;
      }
      if owner.value.None? || owner.value.value.kind !in Targets(x.policy) {
        continue;
      }
      var ref := owner.value.value;
      ProcessedMeansSeen(x, pods[..i], processed, seen, pod);
      if Key(ref) in processed {
        continue;
      }
      OneMoreKey(processed, seen, ref);
      processed := processed + {Key(ref)};
      ghost var before := client.workloads;
      UnseenReads(client.view, old(client.workloads), before, seen, ref);
      var verdict := JudgeAndStop(client, nr, x, pod, ref);
      OneMoreTouched(old(client.workloads), before, client.workloads, seen, ref);
      JudgedNow(x, pods, i, old(client.workloads), before, client.workloads, acted, seen, ref, verdict == Acts);
      seen := seen + {ref};
      match verdict {
        case Acts => acted := acted + [ref];
        case Fails => errors := errors + 1;
        case Leaves =>
      }
    }
    assert pods[..|pods|] == pods;
    SomeClaimed(x, pods, seen, acted);
  }

  lemma JudgedSoFar(
    x: Pass, pods: seq<Pod>, i: nat, before: map<Ref, seq<Entry>>, after: map<Ref, seq<Entry>>, acted: seq<Ref>)
    requires i < |pods| && AllJudged(x, pods[..i], before, after, acted)
    ensures AllJudged(x, pods[..i + 1], before, after, acted)
  {
    hide AllJudged;
    AllJudgedGrows(x, pods[..i], pods[i], before, after, acted);
    assert pods[..i + 1] == pods[..i] + [pods[i]];
  }

  lemma JudgedNow(
    x: Pass, pods: seq<Pod>, i: nat, before: map<Ref, seq<Entry>>, middle: map<Ref, seq<Entry>>,
    after: map<Ref, seq<Entry>>, acted: seq<Ref>, seen: set<Ref>, ref: Ref, acts: bool)
    requires i < |pods| && AllJudged(x, pods[..i], before, middle, acted)
    requires Untouched(before, middle, seen) && Untouched(middle, after, {ref}) && ref !in seen
    requires Claim(x, pods[i]) == Some(ref) && forall r :: r in acted ==> r in seen
    requires || (after == middle && !acts)
             || (ref in after && Called(x, pods[i], ref, middle[ref], after[ref], acts))
    ensures AllJudged(x, pods[..i + 1], before, after, if acts then acted + [ref] else acted)
  {
    hide AllJudged, Claim, Called;
    OneMoreJudged(x, pods[..i], pods[i], before, middle, after, acted, ref, acts);
    assert pods[..i + 1] == pods[..i] + [pods[i]];
  }

  lemma EmptyPass(x: Pass, objects: Objects, all: map<Ref, seq<Entry>>)
    ensures PassOver(x, [], objects) == Progress({}, [], 0, objects)
    ensures KeysOf({}, {}) && Untouched(all, all, {}) && Claimed(x, [], {})
    ensures EarliestExpiry(x, []) == None
  {
  }

  /** The exits of the loop body before the owner's key is looked up. */
  lemma GateMeaning(x: Pass, pod: Pod)
    ensures var gate, owner := PodGate(x.policy, pod, x.now), ResolveOwner(x.view, pod);
            var scoped := InScope(Namespaces(x), x.policy, pod);
            && Deferred(x, pod) == (if scoped && gate.Defer? then Some(gate.expiresAt) else None)
            && (Unresolved(x, pod) <==> scoped && gate.Pass? && owner.Err?)
            && Claim(x, pod) == (if scoped && gate.Pass? && owner.Ok? && owner.value.Some?
                                    && owner.value.value.kind in Targets(x.policy) then owner.value else None)
  {
  }

  lemma UnseenReads(
    view: View, before: map<Ref, seq<Entry>>, after: map<Ref, seq<Entry>>, seen: set<Ref>, ref: Ref)
    requires AllStored(before) && AllStored(after) && Untouched(before, after, seen) && ref !in seen
    ensures ReadObject(view, NewestAll(after), ref) == ReadObject(view, NewestAll(before), ref)
  {
  }

  /** What makes a pass give up before it looks at any pod. */
  ghost predicate GivesUp(view: View, p: Policy) {
    || ListPolicies in view.faults
    || AllowedNamespaces(view, p).Err?
    || exists v :: v in WatchReasons(p) + TerminationReasons(p) && ListByIndex(v) in view.faults
  }

  function Last(h: seq<StatusVersion>): PolicyStatus
    requires |h| > 0
  {
    h[|h| - 1].status
  }

  function WithPhase(h: seq<StatusVersion>): (r: seq<StatusVersion>)
    requires |h| > 0
    ensures |r| > 0
  {
    if Last(h).phase == "" then h + [StatusVersion(Last(h).(phase := "Pending"), Initialised)] else h
  }

  ghost function WithFindings(h: seq<StatusVersion>, e: Evaluation, now: int): seq<StatusVersion>
    requires |h| > 0
  {
    if Publish(Last(h), e, now) == Last(h) then h else h + [StatusVersion(Evaluate(Last(h), e, now), Evaluated(e, now))]
  }

  /** The initial phase, written once per policy (crashlooppolicy_controller.go:62-69). */
  method InitialisePhase(client: Client, name: string) returns (err: Option<Error>)
    requires client.Valid() && name in client.statuses
    modifies client`statuses, client`conflicts, client`failures
    ensures client.Valid() && name in client.statuses
    ensures client.statuses == old(client.statuses)[name := client.statuses[name]]
    ensures old(client.statuses[name]) <= client.statuses[name]
    ensures err == Some(Conflict) <==> client.conflicts == old(client.conflicts) + 5
    ensures err.Some? && err != Some(Conflict) <==> client.failures == old(client.failures) + 1
    ensures Share(client.statuses[name], |old(client.statuses[name])|, true) == 0
    ensures client.quiet ==> err.None? && client.statuses[name] == WithPhase(old(client.statuses[name]))
  {
    hide Publish, Chained;
    err := None;
    ShareOfOneWrite(client.statuses[name], client.statuses[name], None);
    if NewestStatus(client, name).phase == "" {
      ghost var wrote;
      err, wrote := SetInitialPhase(client, name);
    }
  }

  /** Collecting what is held and publishing it (crashlooppolicy_controller.go:262-333). */
  method PublishFindings(client: Client, x: Pass, acted: seq<Ref>, errors: nat) returns (err: Option<Error>)
    requires client.Valid() && client.view == x.view && x.policy.name in client.statuses
    requires AllowedNamespaces(x.view, x.policy).Ok?
    modifies client`statuses, client`conflicts, client`failures
    ensures client.Valid() && x.policy.name in client.statuses
    ensures client.statuses == old(client.statuses)[x.policy.name := client.statuses[x.policy.name]]
    ensures old(client.statuses[x.policy.name]) <= client.statuses[x.policy.name]
    ensures err == Some(Conflict) <==> client.conflicts == old(client.conflicts) + 5
    ensures err.Some? && err != Some(Conflict) <==> client.failures == old(client.failures) + 1
    ensures Share(client.statuses[x.policy.name], |old(client.statuses[x.policy.name])|, true) in {0, |acted|}
    ensures err.None? ==> Share(client.statuses[x.policy.name], |old(client.statuses[x.policy.name])|, true) == |acted|
    ensures client.quiet ==>
              && err.None?
              && client.statuses[x.policy.name] ==
                   WithFindings(old(client.statuses[x.policy.name]),
                                FindingsOf(x, Progress({}, acted, errors, client.Objects())), x.now)
  {
    hide Publish, Chained, Held, Cap;
    var active := FindActive(client, x.policy, Namespaces(x));
    var f := Cap(active);
    var e := Evaluation(x.policy.generation, |acted|, f.active, f.truncated, errors + if f.failed then 1 else 0);
    ghost var wrote;
    err, wrote := UpdateIfChanged(client, x.policy.name, e, x.now);
  }

  /** What a pass comes to on a quiet client: it gives up without a trace, or it is the fold over the listing of
      the candidate pods, with its findings published and the requeue computed from them. */
  ghost predicate QuietPass(
    x: Pass, objects0: Objects, objects: Objects, h0: seq<StatusVersion>, h: seq<StatusVersion>,
    r: Result<int>, acted: seq<Ref>, finished: int)
    requires |h0| > 0
  {
    if GivesUp(x.view, x.policy) then
      r.Err? && acted == [] && objects == objects0 && h == h0
    else
      var pods := Candidates(x.view, x.policy);
      var t := PassOver(x, pods, objects0);
      && acted == t.acted && objects == t.objects
      && r == Ok(RequeueAfter(x.policy, EarliestExpiry(x, pods), finished))
      && h == WithFindings(h0, FindingsOf(x, t), x.now)
  }

  /** The pass from the policy list on (crashlooppolicy_controller.go:94-338). */
  method EvaluatePolicy(client: Client, x: Pass, finished: int)
    returns (r: Result<int>, acted: seq<Ref>, ghost pods: seq<Pod>)
    requires Ready(client) && x.view == client.view && x.policy in x.view.policies
    modifies client
    ensures Ready(client)
    ensures NoDuplicates(acted) && |acted| <= |pods| && (pods == [] || pods == Candidates(x.view, x.policy))
    ensures r.Ok? ==> r.value > 0
    ensures client.statuses == old(client.statuses)[x.policy.name := client.statuses[x.policy.name]]
    ensures old(client.statuses[x.policy.name]) <= client.statuses[x.policy.name]
    ensures Share(client.statuses[x.policy.name], |old(client.statuses[x.policy.name])|, true) in {0, |acted|}
    ensures r.Ok? ==> Share(client.statuses[x.policy.name], |old(client.statuses[x.policy.name])|, true) == |acted|
    ensures AllJudged(x, pods, old(client.workloads), client.workloads, acted)
    ensures client.quiet && acted == [] ==> client.workloads == old(client.workloads)
    ensures client.quiet ==>
              QuietPass(x, old(client.Objects()), client.Objects(), old(client.statuses[x.policy.name]),
                        client.statuses[x.policy.name], r, acted, finished)
  {
    hide PassOver, Publish, Chained, EarliestExpiry, RequeueAfter, WithFindings, ActiveFindings, Share, NewestAll,
      UniqueUids, DistinctNames, FindingsOf, AllJudged, Candidates;
    acted, pods := [], [];
    NoneJudged(x, [], client.workloads);
    NothingShared(client.statuses[x.policy.name]);
    if ListPolicies in client.view.faults {
      return Err(Unavailable), [], [];
    }
    var nr := new NamespaceResolver(client.view);
    var allowed := nr.Allowed(x.policy);
    if allowed.Err? {
      return Err(allowed.error), [], [];
    }
    var candidates := ListCandidatePods(client.view, x.policy);
    if candidates.Err? {
      return Err(candidates.error), [], [];
    }
    pods := candidates.value;
    var errors, expiry;
    acted, errors, expiry := EvaluatePods(client, nr, x, candidates.value);
    FindingsIgnoreSeen(x, PassOver(x, pods, old(client.Objects())));
    var err := PublishFindings(client, x, acted, errors);
    if err.Some? {
      return Err(err.value), acted, pods;
    }
    r := Ok(RequeueAfter(x.policy, expiry, finished));
  }

  lemma NothingShared(h: seq<StatusVersion>)
    ensures Share(h, |h|, true) == 0
  {
  }

  lemma FindingsIgnoreSeen(x: Pass, t: Progress)
    ensures FindingsOf(x, Progress({}, t.acted, t.errors, t.objects)) == FindingsOf(x, t)
  {
  }

  /** Reconcile. Whoever interferes, every workload is left alone or stopped by one call made for a pod that
      claims it, the result lists the calls that answered `true`, each workload once, and the lifetime counter
      moves, on the operator's account, by their number or not at all. On a quiet client the outcome is
      determined. */
  method Reconcile(client: Client, name: string, now: int, at: string, finished: int)
    returns (r: Result<int>, acted: seq<Ref>, ghost pods: seq<Pod>)
    requires Ready(client)
    modifies client
    ensures Ready(client)
    ensures NoDuplicates(acted) && |acted| <= |pods|
    ensures r.Ok? ==> r.value >= 0
    ensures var p := FindPolicy(client.view.policies, name);
            p.None? ==> r == Ok(0) && acted == [] && client.workloads == old(client.workloads)
                        && client.statuses == old(client.statuses)
    ensures FindPolicy(client.view.policies, name).Some? ==>
              && client.statuses == old(client.statuses)[name := client.statuses[name]]
              && Share(client.statuses[name], |old(client.statuses[name])|, true) in {0, |acted|}
              && (r.Ok? ==> Share(client.statuses[name], |old(client.statuses[name])|, true) == |acted|)
    ensures FindPolicy(client.view.policies, name).Some? ==>
              var p := FindPolicy(client.view.policies, name).value;
              && (pods == [] || pods == Candidates(client.view, p))
              && AllJudged(Pass.Pass(client.view, p, now, at), pods, old(client.workloads), client.workloads, acted)
    ensures client.quiet && acted == [] ==> client.workloads == old(client.workloads)
    ensures client.quiet && FindPolicy(client.view.policies, name).Some? ==>
              var p := FindPolicy(client.view.policies, name).value;
              QuietPass(Pass.Pass(client.view, p, now, at), old(client.Objects()), client.Objects(),
                        WithPhase(old(client.statuses[name])), client.statuses[name], r, acted, finished)
  {
    hide QuietPass, Publish, Chained, WithPhase, Share, FindPolicy, NewestAll, UniqueUids, DistinctNames, AllJudged,
      Candidates;
    acted, pods := [], [];
    var found := FindPolicy(client.view.policies, name);
    if found.None? {
      return Ok(0), [], [];
    }
    var x := Pass.Pass(client.view, found.value, now, at);
    NoneJudged(x, [], client.workloads);
    ghost var h0 := client.statuses[name];
    var err := InitialisePhase(client, name);
    if err.Some? {
      return Err(err.value), [], [];
    }
    ghost var h1 := client.statuses[name];
    r, acted, pods := EvaluatePolicy(client, x, finished);
    ShareAdds(client.statuses[name], |h1|, |h0|);
    assert client.statuses[name][..|h1|] == h1;
  }

  // ----- Twice in a row -----

  lemma PhaseIsSet(h: seq<StatusVersion>, e: Evaluation, now: int)
    requires |h| > 0
    ensures WithPhase(WithPhase(h)) == WithPhase(h)
    ensures Last(WithFindings(h, e, now)) == Evaluate(Last(h), e, now)
    ensures WithPhase(WithFindings(h, e, now)) == WithFindings(h, e, now)
  {
    assert Evaluate(Last(h), e, now).phase == "Active";
  }

  /** The second of two quiet passes at the same clock. */
  lemma SecondIsIdle(
    x: Pass, objects0: Objects, objects: Objects, objects': Objects, h0: seq<StatusVersion>,
    h: seq<StatusVersion>, h': seq<StatusVersion>, r: Result<int>, r': Result<int>, acted: seq<Ref>, acted': seq<Ref>,
    finished: int, finished': int)
    requires |h0| > 0 && |h| > 0 && !IsDryRun(x.policy)
    requires QuietPass(x, objects0, objects, WithPhase(h0), h, r, acted, finished)
    requires QuietPass(x, objects, objects', WithPhase(h), h', r', acted', finished')
    ensures acted' == [] && objects' == objects && h' == h && (r.Ok? <==> r'.Ok?)
  {
    hide PassOver, Candidates, WithPhase, WithFindings, Publish, Evaluate, FindingsOf, EarliestExpiry, RequeueAfter,
      GivesUp;
    var pods := Candidates(x.view, x.policy);
    var t := PassOver(x, pods, objects0);
    PhaseIsSet(h0, FindingsOf(x, t), x.now);
    PhaseIsSet(WithPhase(h0), FindingsOf(x, t), x.now);
    if !GivesUp(x.view, x.policy) {
      SecondPassActsOnNothing(x, pods, objects0);
      SecondPassWritesNoStatus(x, pods, objects0, Last(WithPhase(h0)), x.now);
      NothingToPublish(h, FindingsOf(x, PassOver(x, pods, objects)), x.now);
    }
  }

  lemma NothingToPublish(h: seq<StatusVersion>, e: Evaluation, now: int)
    requires |h| > 0 && Publish(Last(h), e, now) == Last(h)
    ensures WithFindings(h, e, now) == h
  {
  }

  /** Idempotence of the pass as it runs: on a quiet client, straight after a pass, whatever errors that one met, a
      second pass at the same clock acts on nothing and adds no version to any workload or status. */
  method ReconcileTwice(client: Client, name: string, now: int, at: string, finished: int, finished': int)
    returns (acted: seq<Ref>, acted': seq<Ref>,
             ghost workloads: map<Ref, seq<Entry>>, ghost statuses: map<string, seq<StatusVersion>>)
    requires Ready(client) && client.quiet && FindPolicy(client.view.policies, name).Some?
    requires !IsDryRun(FindPolicy(client.view.policies, name).value)
    modifies client
    ensures acted' == [] && client.workloads == workloads && client.statuses == statuses
    ensures var p := FindPolicy(client.view.policies, name).value;
            var x := Pass.Pass(client.view, p, now, at);
            !GivesUp(client.view, p) ==>
              acted == PassOver(x, Candidates(client.view, p), old(client.Objects())).acted
  {
    hide PassOver, Candidates, WithPhase, FindPolicy, GivesUp, NewestAll, AllJudged, Publish, Share, UniqueUids,
      WithFindings, FindingsOf, EarliestExpiry;
    ghost var x := Pass.Pass(client.view, FindPolicy(client.view.policies, name).value, now, at);
    ghost var objects0, h0 := client.Objects(), client.statuses[name];
    var r, r';
    ghost var pods, pods';
    r, acted, pods := Reconcile(client, name, now, at, finished);
    workloads, statuses := client.workloads, client.statuses;
    ghost var objects, h := client.Objects(), client.statuses[name];
    r', acted', pods' := Reconcile(client, name, now, at, finished');
    SecondIsIdle(x, objects0, objects, client.Objects(), h0, h, client.statuses[name], r, r', acted, acted',
                 finished, finished');
  }
}
