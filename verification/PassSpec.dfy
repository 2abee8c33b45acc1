/** What one reconcile pass does to the workloads, told as a fold over the candidate pods, and what that
    fold comes to as a set. */
module PassSpec {
  import opened Cluster
  import opened Policies
  import opened Clients
  import opened Owners
  import opened Arbitration
  import P = StopProtocol

  /** The settings that stay fixed for one pass. `at` is the formatted time of the pass. */
  datatype Pass = Pass(view: View, policy: Policy, now: int, at: string)

  function Namespaces(x: Pass): Option<set<string>> {
    var allowed := AllowedNamespaces(x.view, x.policy);
    if allowed.Ok? then allowed.value else None
  }

  predicate Accepts(x: Pass, pod: Pod) {
    InScope(Namespaces(x), x.policy, pod) && PodGate(x.policy, pod, x.now).Pass?
  }

  /** The pod is accepted but its owner cannot be told. */
  predicate Unresolved(x: Pass, pod: Pod) {
    Accepts(x, pod) && ResolveOwner(x.view, pod).Err?
  }

  /** The targeted workload an accepted pod speaks for. */
  function Claim(x: Pass, pod: Pod): (r: Option<Ref>)
    ensures r.Some? ==> r.value.kind in KINDS && r.value.namespace == pod.namespace
  {
    var owner := ResolveOwner(x.view, pod);
    if Accepts(x, pod) && owner.Ok? && owner.value.Some? && owner.value.value.kind in Targets(x.policy)
    then owner.value
    else None
  }

  datatype Verdict = Acts | Leaves | Fails

  /** Some acting policy other than this one is the more restrictive. */
  ghost predicate Outranked(x: Pass, pod: Pod, ref: Ref, read: Result<Workload>) {
    exists q :: q in x.view.policies && q != x.policy
                && WouldAct(x.view, q, x.now, pod, ref, read) == Yes && !MoreRestrictive(x.policy, q)
  }

  ghost predicate Undecided(x: Pass, pod: Pod, ref: Ref, read: Result<Workload>) {
    exists q :: q in x.view.policies && WouldAct(x.view, q, x.now, pod, ref, read) == Failed
  }

  /** What becomes of a workload when this pod is the first to speak for it. */
  ghost function VerdictOn(x: Pass, pod: Pod, ref: Ref, read: Result<Workload>): Verdict {
    match OwnerGates(x.view, x.policy, x.now, ref, read)
    case Failed => Fails
    case No => Leaves
    case Yes =>
      if Undecided(x, pod, ref, read) then Fails
      else if Outranked(x, pod, ref, read) then Leaves
      else if read.Err? then Fails
      else if P.IsStopped(ref.kind == "CronJob", read.value) then Leaves
      else Acts
  }

  function StampFor(x: Pass, pod: Pod): (s: P.Stamp)
    ensures s.reason != "" && s.policy == x.policy.name && s.at == x.at
  {
    var gate := PodGate(x.policy, pod, x.now);
    var reason := if gate.Pass? then gate.reason else "";
    P.Stamp("pods failing with " + reason + " (policy: " + x.policy.name + ")", x.at, x.policy.name)
  }

  datatype Progress = Progress(seen: set<Ref>, acted: seq<Ref>, errors: nat, objects: Objects)

  /** One pod of the loop. A workload is judged once in a pass, so it is still as it was before the pass. */
  ghost function Visit(x: Pass, objects: Objects, s: Progress, pod: Pod): Progress {
    var claim := Claim(x, pod);
    if Unresolved(x, pod) then s.(errors := s.errors + 1)
    else if claim.None? || claim.value in s.seen then s
    else
      var ref := claim.value;
      var seen := s.(seen := s.seen + {ref});
      match VerdictOn(x, pod, ref, ReadObject(x.view, objects, ref))
      case Leaves => seen
      case Fails => seen.(errors := s.errors + 1)
      case Acts => seen.(acted := s.acted + [ref], objects := Stop(x, s.objects, pod, ref))
  }

  function Stop(x: Pass, objects: Objects, pod: Pod, ref: Ref): (r: Objects)
    ensures r.Keys == objects.Keys
  {
    if IsDryRun(x.policy) || ref !in objects then objects
    else objects[ref := StoppedAs(objects[ref], ref.kind == "CronJob", StampFor(x, pod))]
  }

  ghost function PassOver(x: Pass, pods: seq<Pod>, objects: Objects): Progress {
    if pods == [] then Progress({}, [], 0, objects)
    else Visit(x, objects, PassOver(x, pods[..|pods| - 1], objects), pods[|pods| - 1])
  }

  // ----- The fold as a set -----

  /** The first pod of the list that speaks for the workload. */
  function Speaker(x: Pass, pods: seq<Pod>, ref: Ref): (r: Option<Pod>)
    ensures r.Some? <==> exists pod :: pod in pods && Claim(x, pod) == Some(ref)
    ensures r.Some? ==> r.value in pods && Claim(x, r.value) == Some(ref)
  {
    if pods == [] then None
    else
      var earlier := Speaker(x, pods[..|pods| - 1], ref);
      var last := pods[|pods| - 1];
      assert forall pod :: pod in pods <==> pod in pods[..|pods| - 1] || pod == last;
      if earlier.Some? then earlier
      else if Claim(x, last) == Some(ref) then Some(last)
      else None
  }

  ghost predicate ActsOn(x: Pass, pods: seq<Pod>, objects: Objects, ref: Ref) {
    var speaker := Speaker(x, pods, ref);
    speaker.Some? && VerdictOn(x, speaker.value, ref, ReadObject(x.view, objects, ref)) == Acts
  }

  ghost predicate SeesOwners(x: Pass, pods: seq<Pod>, t: Progress) {
    forall ref :: ref in t.seen <==> Speaker(x, pods, ref).Some?
  }

  ghost predicate ActsRightly(x: Pass, pods: seq<Pod>, objects: Objects, acted: seq<Ref>) {
    NoDuplicates(acted) && forall ref :: ref in acted <==> ActsOn(x, pods, objects, ref)
  }

  ghost predicate StopsRightly(x: Pass, pods: seq<Pod>, objects: Objects, t: Progress) {
    && t.objects.Keys == objects.Keys
    && forall ref :: ref in objects ==>
         t.objects[ref] ==
           if ref in t.acted && !IsDryRun(x.policy) && Speaker(x, pods, ref).Some?
           then StoppedAs(objects[ref], ref.kind == "CronJob", StampFor(x, Speaker(x, pods, ref).value))
           else objects[ref]
  }

  ghost predicate FailsOn(x: Pass, pods: seq<Pod>, objects: Objects, ref: Ref) {
    var speaker := Speaker(x, pods, ref);
    speaker.Some? && VerdictOn(x, speaker.value, ref, ReadObject(x.view, objects, ref)) == Fails
  }

  ghost predicate CountsErrors(x: Pass, pods: seq<Pod>, objects: Objects, errors: nat) {
    errors == 0 <==>
      && (forall pod :: pod in pods ==> !Unresolved(x, pod))
      && (forall ref :: !FailsOn(x, pods, objects, ref))
  }

  /** What a pass has done, workload by workload: each is judged once, as it was before the pass, on the first
      pod that speaks for it; those acted on are stopped in the policy's name and nothing else changes. */
  ghost predicate Describes(x: Pass, pods: seq<Pod>, objects: Objects, t: Progress) {
    && SeesOwners(x, pods, t)
    && ActsRightly(x, pods, objects, t.acted)
    && StopsRightly(x, pods, objects, t)
    && CountsErrors(x, pods, objects, t.errors)
  }

  lemma ActsOnlyOnReadable(x: Pass, pods: seq<Pod>, objects: Objects, ref: Ref)
    requires ActsOn(x, pods, objects, ref)
    ensures ref in objects && ReadObject(x.view, objects, ref) == Ok(objects[ref])
  {
  }

  /** Who speaks for what when one more pod is listed. */
  lemma SpeakerGrows(x: Pass, pods: seq<Pod>, pod: Pod, ref: Ref)
    ensures Speaker(x, pods + [pod], ref) ==
            if Speaker(x, pods, ref).Some? then Speaker(x, pods, ref)
            else if Claim(x, pod) == Some(ref) then Some(pod)
            else None
  {
    hide Claim;
    assert (pods + [pod])[..|pods|] == pods;
  }

  /** The next pod changes what is true of one workload at most: the one it is the first to speak for. */
  lemma OnlyOneSpeakerMore(x: Pass, pods: seq<Pod>, objects: Objects, pod: Pod, ref: Ref)
    ensures var isNew := Claim(x, pod) == Some(ref) && Speaker(x, pods, ref).None?;
            && Speaker(x, pods + [pod], ref) == (if isNew then Some(pod) else Speaker(x, pods, ref))
            && (ActsOn(x, pods + [pod], objects, ref) <==>
                  if isNew then VerdictOn(x, pod, ref, ReadObject(x.view, objects, ref)) == Acts
                  else ActsOn(x, pods, objects, ref))
            && (FailsOn(x, pods + [pod], objects, ref) <==>
                  if isNew then VerdictOn(x, pod, ref, ReadObject(x.view, objects, ref)) == Fails
                  else FailsOn(x, pods, objects, ref))
  {
    SpeakerGrows(x, pods, pod, ref);
    hide Claim, Speaker, VerdictOn;
  }

  lemma ClaimIsResolved(x: Pass, pod: Pod)
    requires Claim(x, pod).Some?
    ensures !Unresolved(x, pod)
  {
  }

  ghost predicate IsNew(x: Pass, s: Progress, pod: Pod, ref: Ref) {
    Claim(x, pod) == Some(ref) && ref !in s.seen
  }

  ghost predicate NewAndJudged(x: Pass, objects: Objects, s: Progress, pod: Pod, ref: Ref, v: Verdict) {
    IsNew(x, s, pod, ref) && VerdictOn(x, pod, ref, ReadObject(x.view, objects, ref)) == v
  }

  /** One visit, workload by workload. */
  ghost predicate Visits(x: Pass, objects: Objects, s: Progress, pod: Pod, t: Progress) {
    && (forall ref :: ref in t.seen <==> ref in s.seen || IsNew(x, s, pod, ref))
    && (t.acted == s.acted || (exists ref :: t.acted == s.acted + [ref] && ref !in s.seen))
    && (forall ref :: ref in t.acted <==> ref in s.acted || NewAndJudged(x, objects, s, pod, ref, Acts))
    && t.objects.Keys == s.objects.Keys
    && (forall ref :: ref in s.objects ==>
          t.objects[ref] ==
            if NewAndJudged(x, objects, s, pod, ref, Acts) && !IsDryRun(x.policy)
            then StoppedAs(s.objects[ref], ref.kind == "CronJob", StampFor(x, pod))
            else s.objects[ref])
    && (t.errors == 0 <==>
          s.errors == 0 && !Unresolved(x, pod) && forall ref :: !NewAndJudged(x, objects, s, pod, ref, Fails))
  }

  lemma VisitOfNew(x: Pass, objects: Objects, s: Progress, pod: Pod, ref: Ref)
    requires IsNew(x, s, pod, ref)
    ensures Visits(x, objects, s, pod, Visit(x, objects, s, pod))
  {
    ClaimIsResolved(x, pod);
    hide Claim, StampFor, Unresolved, VerdictOn, StoppedAs, ReadObject;
    var t := Visit(x, objects, s, pod);
    var v := VerdictOn(x, pod, ref, ReadObject(x.view, objects, ref));
    assert forall r, w :: NewAndJudged(x, objects, s, pod, r, w) <==> r == ref && v == w;
    assert NewAndJudged(x, objects, s, pod, ref, v);
    assert v == Acts ==> t.acted == s.acted + [ref] && t.objects == Stop(x, s.objects, pod, ref);
  }

  lemma VisitVisits(x: Pass, objects: Objects, s: Progress, pod: Pod)
    ensures Visits(x, objects, s, pod, Visit(x, objects, s, pod))
  {
    if ref :| IsNew(x, s, pod, ref) {
      VisitOfNew(x, objects, s, pod, ref);
    } else {
      hide Claim, StampFor, Unresolved, VerdictOn, StoppedAs, ReadObject;
      assert Claim(x, pod).Some? ==> IsNew(x, s, pod, Claim(x, pod).value) || Claim(x, pod).value in s.seen;
    }
  }

  lemma VisitSees(x: Pass, pods: seq<Pod>, objects: Objects, s: Progress, pod: Pod, t: Progress)
    requires SeesOwners(x, pods, s) && Visits(x, objects, s, pod, t)
    ensures SeesOwners(x, pods + [pod], t)
  {
    hide Claim, Speaker;
    forall ref {
      OnlyOneSpeakerMore(x, pods, objects, pod, ref);
    }
  }

  lemma VisitActs(x: Pass, pods: seq<Pod>, objects: Objects, s: Progress, pod: Pod, t: Progress)
    requires SeesOwners(x, pods, s) && ActsRightly(x, pods, objects, s.acted) && Visits(x, objects, s, pod, t)
    ensures ActsRightly(x, pods + [pod], objects, t.acted)
  {
    hide Claim, Speaker, VerdictOn;
    assert forall ref :: ref in s.acted ==> ref in s.seen;
    forall ref ensures ref in t.acted <==> ActsOn(x, pods + [pod], objects, ref) {
      OnlyOneSpeakerMore(x, pods, objects, pod, ref);
    }
  }

  lemma VisitStops(x: Pass, pods: seq<Pod>, objects: Objects, s: Progress, pod: Pod, t: Progress)
    requires Describes(x, pods, objects, s) && Visits(x, objects, s, pod, t)
    ensures StopsRightly(x, pods + [pod], objects, t)
  {
    hide Claim, Speaker, StoppedAs, StampFor, CountsErrors, VerdictOn;
    forall ref | ref in objects
      ensures t.objects[ref] ==
              if ref in t.acted && !IsDryRun(x.policy) && Speaker(x, pods + [pod], ref).Some?
              then StoppedAs(objects[ref], ref.kind == "CronJob", StampFor(x, Speaker(x, pods + [pod], ref).value))
              else objects[ref]
    {
      OnlyOneSpeakerMore(x, pods, objects, pod, ref);
    }
  }

  lemma VisitCounts(x: Pass, pods: seq<Pod>, objects: Objects, s: Progress, pod: Pod, t: Progress)
    requires SeesOwners(x, pods, s) && CountsErrors(x, pods, objects, s.errors) && Visits(x, objects, s, pod, t)
    ensures CountsErrors(x, pods + [pod], objects, t.errors)
  {
    hide Claim, Speaker, FailsOn, Unresolved;
    forall ref ensures FailsOn(x, pods + [pod], objects, ref) <==>
                       FailsOn(x, pods, objects, ref) || NewAndJudged(x, objects, s, pod, ref, Fails) {
      OnlyOneSpeakerMore(x, pods, objects, pod, ref);
      NewHasNotFailed(x, pods, objects, ref);
    }
    assert forall q :: q in pods + [pod] <==> q in pods || q == pod;
  }

  lemma NewHasNotFailed(x: Pass, pods: seq<Pod>, objects: Objects, ref: Ref)
    ensures FailsOn(x, pods, objects, ref) ==> Speaker(x, pods, ref).Some?
  {
    hide Claim, Speaker, VerdictOn;
  }

  lemma {:induction false} PassMeaning(x: Pass, pods: seq<Pod>, objects: Objects)
    ensures Describes(x, pods, objects, PassOver(x, pods, objects))
  {
    hide Claim, Visit, Visits, StoppedAs, StampFor, Unresolved, VerdictOn;
    if pods == [] {
      assert CountsErrors(x, pods, objects, 0);
    } else {
      var front, pod := pods[..|pods| - 1], pods[|pods| - 1];
      assert front + [pod] == pods;
      var s, t := PassOver(x, front, objects), PassOver(x, pods, objects);
      PassMeaning(x, front, objects);
      VisitVisits(x, objects, s, pod);
      VisitSees(x, front, objects, s, pod, t);
      VisitActs(x, front, objects, s, pod, t);
      VisitStops(x, front, objects, s, pod, t);
      VisitCounts(x, front, objects, s, pod, t);
    }
  }
}
