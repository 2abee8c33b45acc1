/** Which policies would act on a workload for a given failing pod, and which of them wins. */
module Arbitration {
  import opened Cluster
  import opened Pods
  import opened Policies
  import opened Correlation
  import opened Clients
  import opened Owners

  // ----- Namespaces -----

  /** resolveNamespaces: None admits every namespace. */
  function AllowedNamespaces(view: View, p: Policy): Result<Option<set<string>>> {
    if p.spec.namespaceSelector.None? then Ok(None)
    else
      var selector := p.spec.namespaceSelector.value;
      if !selector.valid then Err(BadSelector)
      else if selector.empty then Ok(None)
      else if ListNamespaces in view.faults then Err(Unavailable)
      else Ok(Some(set n | n in view.namespaces && selector.matches(view.namespaces[n])))
  }

  predicate Admits(allowed: Option<set<string>>, namespace: string) {
    allowed.Some? ==> namespace in allowed.value
  }

  /** An existing namespace is admitted exactly if there is no selector, it is empty, or it matches. */
  lemma AdmissionMeaning(view: View, p: Policy, namespace: string)
    requires namespace in view.namespaces && AllowedNamespaces(view, p).Ok?
    ensures Admits(AllowedNamespaces(view, p).value, namespace) <==>
            || p.spec.namespaceSelector.None?
            || p.spec.namespaceSelector.value.empty
            || p.spec.namespaceSelector.value.matches(view.namespaces[namespace])
  {
  }

  /** namespaceResolver: one lookup per policy name and pass. */
  class NamespaceResolver {
    const view: View
    var cache: map<string, Option<set<string>>>

    ghost predicate Valid()
      reads this
    {
      forall p :: p in view.policies && p.name in cache ==> AllowedNamespaces(view, p) == Ok(cache[p.name])
    }

    constructor (view: View)
      ensures this.view == view && cache == map[] && Valid()
    {
      this.view := view;
      cache := map[];
    }

    /** Every answer equals a fresh lookup, cached or not; a failed lookup is not remembered. */
    method Allowed(p: Policy) returns (r: Result<Option<set<string>>>)
      requires Valid() && DistinctNames(view.policies) && p in view.policies
      modifies this`cache
      ensures Valid()
      ensures r == AllowedNamespaces(view, p)
      ensures cache == if r.Ok? && p.spec.namespaceSelector.Some? then old(cache)[p.name := r.value] else old(cache)
    {
      if p.spec.namespaceSelector.None? {
        return Ok(None);
      }
      if p.name in cache {
        return Ok(cache[p.name]);
      }
      r := AllowedNamespaces(view, p);
      if r.Ok? {
        cache := cache[p.name := r.value];
      }
    }
  }

  // ----- Gates -----

  predicate InScope(allowed: Option<set<string>>, p: Policy, pod: Pod) {
    Admits(allowed, pod.namespace) && pod.namespace !in p.spec.excludeNamespaces
  }

  function WaitingReason(p: Policy, pod: Pod): Option<string> {
    FailureReason(pod, WatchReasons(p))
  }

  function LoopingReason(p: Policy, pod: Pod, now: int): Option<string> {
    LoopReason(pod, TerminationReasons(p), RestartThreshold(p), RestartWindow(p), now)
  }

  /** What the reconcile loop does with a pod before it looks for an owner. */
  datatype Gate = Drop | Defer(expiresAt: int) | Pass(reason: string)

  function PodGate(p: Policy, pod: Pod, now: int): Gate {
    var waiting, looping := WaitingReason(p, pod), LoopingReason(p, pod, now);
    if waiting.None? && looping.None? then Drop
    else if waiting.None? then Pass(looping.value)
    else if !ExceedsRestarts(pod, RestartThreshold(p)) && looping.None? then
      var remaining := DurationRemaining(pod, DurationThreshold(p), now);
      if remaining.None? then Drop
      else if remaining.value > 0 then Defer(now + remaining.value)
      else Pass(waiting.value)
    else Pass(waiting.value)
  }

  /** The same conditions as policyWouldAct spells them. */
  predicate PodActs(p: Policy, pod: Pod, now: int) {
    var waiting, looping := WaitingReason(p, pod).Some?, LoopingReason(p, pod, now).Some?;
    var remaining := DurationRemaining(pod, DurationThreshold(p), now);
    && (waiting || looping)
    && (looping || ExceedsRestarts(pod, RestartThreshold(p)) || (remaining.Some? && remaining.value <= 0))
  }

  /** The exclusion and replica gates of the owner, given what reading it returned. */
  ghost function OwnerGates(view: View, p: Policy, now: int, ref: Ref, read: Result<Workload>): Answer {
    match ExclusionAnswer(p, read)
    case Failed => Failed
    case Yes => No
    case No => if RequiresAllReplicas(p) then ReplicasAnswer(view, p, now, ref, read) else Yes
  }

  /** policyWouldAct. */
  ghost function WouldAct(view: View, p: Policy, now: int, pod: Pod, ref: Ref, read: Result<Workload>): Answer {
    var allowed := AllowedNamespaces(view, p);
    if allowed.Err? then Failed
    else if !InScope(allowed.value, p, pod) || ref.kind !in Targets(p) || !PodActs(p, pod, now) then No
    else OwnerGates(view, p, now, ref, read)
  }

  method PolicyWouldAct(client: Client, nr: NamespaceResolver, p: Policy, now: int, pod: Pod, ref: Ref)
    returns (r: Answer)
    requires client.Valid() && nr.Valid() && nr.view == client.view
    requires DistinctNames(client.view.policies) && p in client.view.policies
    modifies nr`cache
    ensures nr.Valid()
    ensures r == WouldAct(client.view, p, now, pod, ref, client.Read(ref))
  {
    var allowed := nr.Allowed(p);
    if allowed.Err? {
      return Failed;
    }
    if !Admits(allowed.value, pod.namespace) || pod.namespace in p.spec.excludeNamespaces {
      return No;
    }
    if ref.kind !in Targets(p) {
      return No;
    }
    var waiting, looping := WaitingReason(p, pod).Some?, LoopingReason(p, pod, now).Some?;
    if !waiting && !looping {
      return No;
    }
    var remaining := DurationRemaining(pod, DurationThreshold(p), now);
    if !looping && !ExceedsRestarts(pod, RestartThreshold(p)) && !(remaining.Some? && remaining.value <= 0) {
      return No;
    }
    var read := client.Read(ref);
    match ExclusionAnswer(p, read) {
      case Failed => return Failed;
      case Yes => return No;
      case No =>
    }
    if RequiresAllReplicas(p) {
      r := AllReplicasFailing(client, p, now, ref);
    } else {
      r := Yes;
    }
  }

  // ----- The winner -----

  /** The least acting policy of the restrictiveness order, None iff none acts, an error iff one cannot tell. */
  ghost predicate IsWinner(
    view: View, policies: seq<Policy>, now: int, pod: Pod, ref: Ref, read: Result<Workload>, r: Result<Option<Policy>>)
  {
    match r
    case Err(_) => exists p :: p in policies && WouldAct(view, p, now, pod, ref, read) == Failed
    case Ok(None) => forall p :: p in policies ==> WouldAct(view, p, now, pod, ref, read) == No
    case Ok(Some(w)) =>
      && w in policies && WouldAct(view, w, now, pod, ref, read) == Yes
      && forall p :: p in policies ==>
           && WouldAct(view, p, now, pod, ref, read) != Failed
           && (WouldAct(view, p, now, pod, ref, read) == Yes && p != w ==> MoreRestrictive(w, p))
  }

  lemma NextCandidate(
    view: View, policies: seq<Policy>, candidate: Policy, now: int, pod: Pod, ref: Ref, read: Result<Workload>,
    winner: Option<Policy>)
    requires IsWinner(view, policies, now, pod, ref, read, Ok(winner))
    requires forall p :: p in policies ==> p.name != candidate.name
    ensures var acts := WouldAct(view, candidate, now, pod, ref, read);
            IsWinner(view, policies + [candidate], now, pod, ref, read,
                     if acts == Failed then Err(Unavailable)
                     else if acts == Yes && (winner.None? || MoreRestrictive(candidate, winner.value))
                     then Ok(Some(candidate))
                     else Ok(winner))
  {
    hide WouldAct;
    assert candidate in policies + [candidate];
    if winner.Some? {
      OrderIsTotal(candidate, winner.value);
      forall p | p in policies && MoreRestrictive(candidate, winner.value) && MoreRestrictive(winner.value, p)
        ensures MoreRestrictive(candidate, p)
      {
        OrderIsTransitive(candidate, winner.value, p);
      }
    }
  }

  method WinningPolicy(client: Client, nr: NamespaceResolver, now: int, pod: Pod, ref: Ref)
    returns (r: Result<Option<Policy>>)
    requires client.Valid() && nr.Valid() && nr.view == client.view
    requires DistinctNames(client.view.policies)
    modifies nr`cache
    ensures nr.Valid()
    ensures IsWinner(client.view, client.view.policies, now, pod, ref, client.Read(ref), r)
  {
    hide WouldAct, MoreRestrictive;
    var winner: Option<Policy> := None;
    var policies := client.view.policies;
    for i := 0 to |policies|
      invariant nr.Valid()
      invariant IsWinner(client.view, policies[..i], now, pod, ref, client.Read(ref), Ok(winner))
    {
      var candidate := policies[i];
      var acts := PolicyWouldAct(client, nr, candidate, now, pod, ref);
      NextCandidate(client.view, policies[..i], candidate, now, pod, ref, client.Read(ref), winner);
      assert policies[..i + 1] == policies[..i] + [candidate];
      if acts == Failed {
        return Err(Unavailable);
      }
      if acts == Yes && (winner.None? || MoreRestrictive(candidate, winner.value)) {
        winner := Some(candidate);
      }
    }
    assert policies[..|policies|] == policies;
    r := Ok(winner);
  }

  /** Unique winner: any two answers agree, whatever the order of the list. */
  lemma WinnerIsUnique(
    view: View, policies: seq<Policy>, others: seq<Policy>, now: int, pod: Pod, ref: Ref, read: Result<Workload>,
    r: Result<Option<Policy>>, r': Result<Option<Policy>>)
    requires forall p :: p in policies <==> p in others
    requires IsWinner(view, policies, now, pod, ref, read, r) && IsWinner(view, others, now, pod, ref, read, r')
    ensures r.Ok? == r'.Ok? && (r.Ok? ==> r.value == r'.value)
  {
    hide WouldAct;
    if r.Ok? && r'.Ok? && r.value.Some? && r'.value.Some? {
      OrderIsTotal(r.value.value, r'.value.value);
    }
  }

  /** The winner check as one policy makes it. */
  ghost predicate Wins(
    view: View, p: Policy, now: int, pod: Pod, ref: Ref, read: Result<Workload>)
  {
    && WouldAct(view, p, now, pod, ref, read) == Yes
    && forall q :: q in view.policies && q != p ==>
         (WouldAct(view, q, now, pod, ref, read) == Yes ==> MoreRestrictive(p, q))
  }

  /** If any policy acts, exactly one policy of the list passes the winner check for this pod and owner. */
  lemma ExactlyOneWins(
    view: View, now: int, pod: Pod, ref: Ref, read: Result<Workload>, r: Result<Option<Policy>>)
    requires IsWinner(view, view.policies, now, pod, ref, read, r) && r.Ok?
    ensures (exists p :: p in view.policies && WouldAct(view, p, now, pod, ref, read) == Yes) <==> r.value.Some?
    ensures forall p :: p in view.policies ==> (Wins(view, p, now, pod, ref, read) <==> r.value == Some(p))
  {
    hide WouldAct;
    forall p | p in view.policies ensures Wins(view, p, now, pod, ref, read) <==> r.value == Some(p) {
      if r.value.Some? {
        OrderIsTotal(p, r.value.value);
      }
    }
  }

  // ----- The reconcile loop and policyWouldAct agree -----

  /** The reconcile loop has accepted the pod, resolved its owner and passed the owner gates. */
  ghost predicate ReachesWinnerCheck(view: View, p: Policy, now: int, pod: Pod, ref: Ref, read: Result<Workload>) {
    && AllowedNamespaces(view, p).Ok?
    && InScope(AllowedNamespaces(view, p).value, p, pod)
    && PodGate(p, pod, now).Pass?
    && ref.kind in Targets(p)
    && OwnerGates(view, p, now, ref, read) == Yes
  }

  /** The two spellings of the gates are equivalent at one clock value. */
  lemma GatesAgree(view: View, p: Policy, now: int, pod: Pod, ref: Ref, read: Result<Workload>)
    ensures PodGate(p, pod, now).Pass? <==> PodActs(p, pod, now)
    ensures ReachesWinnerCheck(view, p, now, pod, ref, read) <==> WouldAct(view, p, now, pod, ref, read) == Yes
  {
    hide LoopReason, FailureReason, ExceedsRestarts;
  }

  /** So a policy of the list that gets there always finds a winner. */
  lemma WinnerExistsWhenReached(
    view: View, p: Policy, now: int, pod: Pod, ref: Ref, read: Result<Workload>, r: Result<Option<Policy>>)
    requires p in view.policies && ReachesWinnerCheck(view, p, now, pod, ref, read)
    requires IsWinner(view, view.policies, now, pod, ref, read, r)
    ensures r.Ok? ==> r.value.Some?
  {
    GatesAgree(view, p, now, pod, ref, read);
    hide WouldAct;
  }

  /** A pod let through because it is waiting is still let through at any later clock value; the winner check
      may run later than the gates. */
  lemma WaitingPassesLaterToo(p: Policy, pod: Pod, now: int, later: int)
    requires PodGate(p, pod, now).Pass? && WaitingReason(p, pod).Some? && now <= later
    ensures PodActs(p, pod, later)
  {
    if LoopingReason(p, pod, now).Some? {
      LoopExceedsRestarts(pod, TerminationReasons(p), RestartThreshold(p), RestartWindow(p), now);
    }
    hide LoopReason, FailureReason, ExceedsRestarts;
  }

  /** The pods that speak for a workload that could be read. */
  function ReplicaPods(view: View, ref: Ref, w: Workload): seq<Pod> {
    if ref.kind == "CronJob" then
      var owned := OwnedJobs(view.intermediates, ref);
      if owned == [] then [] else JobPods(view.pods, ref.namespace, NewestJob(owned).name)
    else MatchingPods(view.pods, ref.namespace, w.selector)
  }

  /** What a winner check that runs later than the gates finds: the policy still acts exactly if the pod still
      counts as failing, which only a pod that merely loops can cease to do, and so do its replicas, where the
      policy asks for all of them. */
  lemma LaterAgreement(view: View, p: Policy, now: int, later: int, pod: Pod, ref: Ref, read: Result<Workload>)
    requires ReachesWinnerCheck(view, p, now, pod, ref, read) && now <= later
    ensures WouldAct(view, p, later, pod, ref, read) == Yes <==>
            && (WaitingReason(p, pod).Some? || LoopingReason(p, pod, later).Some?)
            && (RequiresAllReplicas(p) ==> read.Ok? && ReplicasFail(p, ReplicaPods(view, ref, read.value), later))
  {
    if WaitingReason(p, pod).Some? {
      WaitingPassesLaterToo(p, pod, now, later);
    }
    assert PodActs(p, pod, later) <==> WaitingReason(p, pod).Some? || LoopingReason(p, pod, later).Some?;
    hide PodActs, PodGate, ReplicasFail, MatchingPods, JobPods, OwnedJobs, NewestJob, WaitingReason, LoopingReason;
    assert !ReplicasFail(p, [], later) by { NothingListed(p, later, ref, ""); }
  }

  /** No container of these pods stops failing between the two instants. */
  ghost predicate KeepFailing(p: Policy, pods: seq<Pod>, now: int, later: int) {
    forall pod, s :: pod in pods && s in Statuses(pod) && StatusFails(p, pod, s, now) ==> StatusFails(p, pod, s, later)
  }

  lemma MatchKept(p: Policy, pods: seq<Pod>, now: int, later: int, pod: Pod)
    requires KeepFailing(p, pods, now, later) && pod in pods && PodMatches(p, pod, now)
    ensures PodMatches(p, pod, later)
  {
    LoopReasonMeaning(pod, TerminationReasons(p), RestartThreshold(p), RestartWindow(p), now);
    LoopReasonMeaning(pod, TerminationReasons(p), RestartThreshold(p), RestartWindow(p), later);
    assert forall s :: s in pod.containers || s in pod.initContainers ==> s in Statuses(pod);
    if LoopReason(pod, TerminationReasons(p), RestartThreshold(p), RestartWindow(p), now).Some? {
      var s :| (s in pod.containers || (s in pod.initContainers && s.name in RestartableInits(pod)))
               && Loops(s, TerminationReasons(p), RestartThreshold(p), RestartWindow(p), now);
      assert StatusFails(p, pod, s, now) && StatusFails(p, pod, s, later);
    }
  }

  lemma ReplicasFailKept(p: Policy, all: seq<Pod>, pods: seq<Pod>, now: int, later: int)
    requires KeepFailing(p, all, now, later) && ReplicasFail(p, pods, now)
    requires forall pod :: pod in pods ==> pod in all
    ensures ReplicasFail(p, pods, later)
  {
    if ComparesContainers(p) {
      var name :| FailsEverywhere(p, pods, now, name);
      forall pod | pod in pods ensures NameFails(p, pod, later, name) {
        assert NameFails(p, pod, now, name);
      }
      assert FailsEverywhere(p, pods, later, name);
    } else {
      forall pod | pod in pods ensures PodMatches(p, pod, later) {
        MatchKept(p, all, now, later, pod);
      }
    }
  }

  /** So the agreement survives a later clock as long as no container stops failing in between. */
  lemma AgreementSurvives(view: View, p: Policy, now: int, later: int, pod: Pod, ref: Ref, read: Result<Workload>)
    requires ReachesWinnerCheck(view, p, now, pod, ref, read) && now <= later
    requires (WaitingReason(p, pod).Some? || pod in view.pods) && KeepFailing(p, view.pods, now, later)
    ensures WouldAct(view, p, later, pod, ref, read) == Yes
  {
    LaterAgreement(view, p, now, later, pod, ref, read);
    LaterAgreement(view, p, now, now, pod, ref, read);
    GatesAgree(view, p, now, pod, ref, read);
    if pod in view.pods {
      MatchKept(p, view.pods, now, later, pod);
    }
    hide WouldAct, ReachesWinnerCheck, KeepFailing, ReplicasFail;
    if RequiresAllReplicas(p) {
      ReplicasFailKept(p, view.pods, ReplicaPods(view, ref, read.value), now, later);
    }
  }

  function WindowPolicy(allReplicas: bool): Policy {
    Policy("window", 1, Spec(["CrashLoopBackOff"], ["OOMKilled"], Parsed(10), 5, Unset, Some(allReplicas), "Pod",
                             ["StatefulSet"], None, [], None, Unset, None))
  }

  function Replica(uid: string, s: ContainerStatus): Pod {
    Pod(uid, "shop", map[], [OwnerRef("StatefulSet", "web", "1", true)], false, "Running", [], [s], [], [])
  }

  const WAITING: ContainerStatus := ContainerStatus("main", Some("CrashLoopBackOff"), false, None, 5, None)

  function Looping(finishedAt: int): ContainerStatus {
    ContainerStatus("main", None, false, None, 5, Some(Termination("OOMKilled", Some(finishedAt))))
  }

  lemma TwoReplicas(finishedAt: int)
    ensures var p, now := WindowPolicy(true), finishedAt + 10;
            && PodGate(p, Replica("a", WAITING), now).Pass? && PodActs(p, Replica("a", WAITING), now + 1)
            && PodMatches(p, Replica("a", WAITING), now)
            && PodMatches(p, Replica("b", Looping(finishedAt)), now)
            && !PodMatches(p, Replica("b", Looping(finishedAt)), now + 1)
  {
    var p, now := WindowPolicy(true), finishedAt + 10;
    var waiting, looping := Replica("a", WAITING), Replica("b", Looping(finishedAt));
    assert WAITING in waiting.containers && Waits(WAITING, WatchReasons(p));
    assert WAITING in waiting.containers + waiting.initContainers;
    assert Looping(finishedAt) in looping.containers && Loops(Looping(finishedAt), TerminationReasons(p), 5, 10, now);
    LoopReasonMeaning(looping, TerminationReasons(p), 5, 10, now);
    LoopReasonMeaning(looping, TerminationReasons(p), 5, 10, now + 1);
    hide LoopReason, FailureReason;
  }

  /** It does not survive in general: of two failing replicas one waits, and the other, looping, leaves its window
      between the gates and the winner check. No policy acts at the later instant, so there is no winner, and
      a loop that finds none goes on to stop the workload. */
  lemma AgreementLost(w: Workload, finishedAt: int)
    requires Count(w) > 0 && w.selector.valid && w.selector.matches(map[])
    ensures var p, now := WindowPolicy(true), finishedAt + 10;
            var waiting, looping := Replica("a", WAITING), Replica("b", Looping(finishedAt));
            var view, ref := View([waiting, looping], [], map[], [p], [], {}), Ref("StatefulSet", "shop", "web");
            && WaitingReason(p, waiting).Some?
            && ReachesWinnerCheck(view, p, now, waiting, ref, Ok(w))
            && WouldAct(view, p, now + 1, waiting, ref, Ok(w)) == No
            && IsWinner(view, view.policies, now + 1, waiting, ref, Ok(w), Ok(None))
  {
    var p, now := WindowPolicy(true), finishedAt + 10;
    var waiting, looping := Replica("a", WAITING), Replica("b", Looping(finishedAt));
    var view, ref := View([waiting, looping], [], map[], [p], [], {}), Ref("StatefulSet", "shop", "web");
    TwoReplicas(finishedAt);
    assert WAITING in waiting.containers && Waits(WAITING, WatchReasons(p));
    assert WaitingReason(p, waiting).Some?;
    var replicas := MatchingPods(view.pods, "shop", w.selector);
    assert looping in view.pods && looping in replicas;
    hide PodMatches, PodGate, PodActs, MatchingPods, FailureReason;
    assert ReplicasFail(p, replicas, now) && !ReplicasFail(p, replicas, now + 1);
    hide ReplicasFail;
  }

  /** Nor for a pod that merely loops: at the last instant of its window it reaches the winner check, and one tick
      later nobody acts on it. */
  lemma LoopingAgreementLost(read: Result<Workload>, finishedAt: int)
    ensures var p, now := WindowPolicy(false), finishedAt + 10;
            var pod, ref := Replica("b", Looping(finishedAt)), Ref("StatefulSet", "shop", "web");
            var view := View([pod], [], map[], [p], [], {});
            && WaitingReason(p, pod).None?
            && ReachesWinnerCheck(view, p, now, pod, ref, read)
            && IsWinner(view, view.policies, now + 1, pod, ref, read, Ok(None))
  {
    var p, now := WindowPolicy(false), finishedAt + 10;
    var pod := Replica("b", Looping(finishedAt));
    assert Looping(finishedAt) in pod.containers && Loops(Looping(finishedAt), TerminationReasons(p), 5, 10, now);
    LoopReasonMeaning(pod, TerminationReasons(p), 5, 10, now);
    LoopReasonMeaning(pod, TerminationReasons(p), 5, 10, now + 1);
    hide LoopReason, FailureReason;
  }

  // ----- What the restrictiveness order means -----

  /** `a` looks at the same things as `b` and asks for no more of anything the order compares. */
  ghost predicate AsksNoMore(a: Policy, b: Policy) {
    && WatchesLike(a, b)
    && DurationThreshold(a) <= DurationThreshold(b)
    && Targets(a) == Targets(b)
    && a.spec.namespaceSelector == b.spec.namespaceSelector
    && a.spec.excludeNamespaces == b.spec.excludeNamespaces
    && a.spec.excludeWorkloadSelector == b.spec.excludeWorkloadSelector
    && (RequiresAllReplicas(a) ==> RequiresAllReplicas(b) && (ComparesContainers(a) ==> ComparesContainers(b)))
  }

  lemma PodActsMonotone(a: Policy, b: Policy, pod: Pod, now: int)
    requires AsksNoMore(a, b) && PodActs(b, pod, now)
    ensures PodActs(a, pod, now)
  {
    LoopReasonMeaning(pod, TerminationReasons(a), RestartThreshold(a), RestartWindow(a), now);
    LoopReasonMeaning(pod, TerminationReasons(b), RestartThreshold(b), RestartWindow(b), now);
  }

  /** The more restrictive of two like policies acts wherever the other would. */
  lemma AskingNoMoreActsEverywhere(
    view: View, a: Policy, b: Policy, now: int, pod: Pod, ref: Ref, read: Result<Workload>)
    requires AsksNoMore(a, b) && WouldAct(view, b, now, pod, ref, read) == Yes
    requires ComparesContainers(a) != ComparesContainers(b) ==> NoClassicInitLoops(b, view.pods, now)
    ensures WouldAct(view, a, now, pod, ref, read) == Yes
  {
    PodActsMonotone(a, b, pod, now);
    hide PodActs;
    if RequiresAllReplicas(a) {
      ReplicasAnswerMonotone(view, a, b, now, ref, read);
    }
  }

  lemma ReplicasAnswerMonotone(view: View, a: Policy, b: Policy, now: int, ref: Ref, read: Result<Workload>)
    requires AsksNoMore(a, b) && RequiresAllReplicas(a) && ReplicasAnswer(view, b, now, ref, read) == Yes
    requires ComparesContainers(a) != ComparesContainers(b) ==> NoClassicInitLoops(b, view.pods, now)
    ensures ReplicasAnswer(view, a, now, ref, read) == Yes
  {
    if ref.kind == "CronJob" {
      var newest := NewestJob(OwnedJobs(view.intermediates, ref));
      ReplicasFailMonotone(a, b, JobPods(view.pods, ref.namespace, newest.name), now);
    } else {
      ReplicasFailMonotone(a, b, MatchingPods(view.pods, ref.namespace, read.value.selector), now);
    }
  }

  /** The order agrees with what it stands for: whoever asks no more, and less of something that can stop an
      action, is the more restrictive. */
  lemma AskingLessIsMoreRestrictive(a: Policy, b: Policy)
    requires AsksNoMore(a, b)
    requires || RestartThreshold(a) != RestartThreshold(b) || DurationThreshold(a) != DurationThreshold(b)
             || RequiresAllReplicas(a) != RequiresAllReplicas(b)
             || (RequiresAllReplicas(a) && ComparesContainers(a) != ComparesContainers(b))
    ensures MoreRestrictive(a, b)
  {
  }

  /** A policy that asks no more than any other and precedes them all wins every workload that anyone wins. */
  lemma DominantPolicyWins(
    view: View, a: Policy, now: int, pod: Pod, ref: Ref, read: Result<Workload>, r: Result<Option<Policy>>)
    requires a in view.policies
    requires forall q :: q in view.policies && q != a ==>
               && AsksNoMore(a, q) && MoreRestrictive(a, q)
               && (ComparesContainers(a) != ComparesContainers(q) ==> NoClassicInitLoops(q, view.pods, now))
    requires IsWinner(view, view.policies, now, pod, ref, read, r) && r.Ok? && r.value.Some?
    ensures r.value == Some(a)
  {
    var w := r.value.value;
    if w != a {
      AskingNoMoreActsEverywhere(view, a, w, now, pod, ref, read);
      OrderIsTotal(a, w);
    }
  }
}
