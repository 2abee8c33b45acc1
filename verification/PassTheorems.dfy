/** What a reconcile pass comes to: a set comprehension for a single policy, nothing on repetition, and the
    same findings in a dry run. */
module PassTheorems {
  import opened Cluster
  import opened Pods
  import opened Policies
  import opened Correlation
  import opened Status
  import opened StatusWrites
  import opened Clients
  import opened Owners
  import opened Arbitration
  import opened Indexes
  import opened Attribution
  import opened PassSpec
  import P = StopProtocol

  // ----- Refinement -----

  /** The owner passes its gates and is running. */
  ghost predicate StopsOwner(x: Pass, objects: Objects, ref: Ref) {
    var read := ReadObject(x.view, objects, ref);
    && OwnerGates(x.view, x.policy, x.now, ref, read) == Yes
    && read.Ok? && !P.IsStopped(ref.kind == "CronJob", read.value)
  }

  /** Some pod of the cluster is accepted and speaks for this targeted workload, and the owner is to be stopped.
      Nothing here depends on the order of anything. */
  ghost predicate ShouldStop(x: Pass, objects: Objects, ref: Ref) {
    && (exists pod :: pod in x.view.pods && Claim(x, pod) == Some(ref))
    && StopsOwner(x, objects, ref)
  }

  lemma ClaimingPodIsCandidate(x: Pass, pod: Pod)
    requires "" !in WatchReasons(x.policy) && Claim(x, pod).Some?
    ensures IsCandidate(x.policy, pod)
  {
    assert PodMatches(x.policy, pod, x.now);
    MatchingIsCandidate(x.policy, pod, x.now);
  }

  /** With one policy nobody outranks it and no other policy can fail, so the pod does not matter. */
  lemma SinglePolicyVerdict(x: Pass, pod: Pod, ref: Ref, read: Result<Workload>)
    requires x.view.policies == [x.policy] && AllowedNamespaces(x.view, x.policy).Ok?
    requires Claim(x, pod) == Some(ref)
    ensures VerdictOn(x, pod, ref, read) == Acts <==>
            && OwnerGates(x.view, x.policy, x.now, ref, read) == Yes
            && read.Ok? && !P.IsStopped(ref.kind == "CronJob", read.value)
  {
    GatesAgree(x.view, x.policy, x.now, pod, ref, read);
    hide PodGate, ResolveOwner, OwnerGates;
    assert forall q :: q in x.view.policies <==> q == x.policy;
  }

  /** With one policy, any listing is acted on as a set: the order of the pods does not matter. */
  lemma ActedIsSetComprehension(x: Pass, pods: seq<Pod>, objects: Objects, ref: Ref)
    requires x.view.policies == [x.policy] && AllowedNamespaces(x.view, x.policy).Ok?
    ensures ref in PassOver(x, pods, objects).acted <==>
            && (exists pod :: pod in pods && Claim(x, pod) == Some(ref))
            && StopsOwner(x, objects, ref)
  {
    PassMeaning(x, pods, objects);
    hide PassOver, OwnerGates, Claim;
    var speaker := Speaker(x, pods, ref);
    if speaker.Some? {
      SinglePolicyVerdict(x, speaker.value, ref, ReadObject(x.view, objects, ref));
    }
  }

  /** Reconcile refines its specification: with one policy the workloads acted on are exactly those that
      should stop, whatever order the candidate pods come in. */
  lemma PassIsSetComprehension(x: Pass, pods: seq<Pod>, objects: Objects)
    requires x.view.policies == [x.policy] && AllowedNamespaces(x.view, x.policy).Ok?
    requires "" !in WatchReasons(x.policy) && ListsCandidates(x.view, x.policy, pods)
    ensures forall ref :: ref in PassOver(x, pods, objects).acted <==> ShouldStop(x, objects, ref)
  {
    hide PassOver, StopsOwner, Claim;
    forall ref ensures ref in PassOver(x, pods, objects).acted <==> ShouldStop(x, objects, ref) {
      ActedIsSetComprehension(x, pods, objects, ref);
      forall pod | pod in x.view.pods && Claim(x, pod) == Some(ref) ensures pod in pods {
        ClaimingPodIsCandidate(x, pod);
      }
    }
  }

  // ----- Idempotence -----

  lemma StoppedIsLeft(x: Pass, pod: Pod, ref: Ref, w: Workload, stamp: P.Stamp)
    ensures VerdictOn(x, pod, ref, Ok(StoppedAs(w, ref.kind == "CronJob", stamp))) != Acts
  {
    hide OwnerGates, WouldAct;
  }

  /** Stopping a workload breaks nobody's judgement of it. */
  lemma StoppedIsReadable(
    view: View, p: Policy, now: int, pod: Pod, ref: Ref, w: Workload, stamp: P.Stamp)
    requires ref.kind in KINDS
    ensures var after := Ok(StoppedAs(w, ref.kind == "CronJob", stamp));
            && (OwnerGates(view, p, now, ref, Ok(w)) != Failed ==> OwnerGates(view, p, now, ref, after) != Failed)
            && (WouldAct(view, p, now, pod, ref, Ok(w)) != Failed ==> WouldAct(view, p, now, pod, ref, after) != Failed)
  {
    var after := StoppedAs(w, ref.kind == "CronJob", stamp);
    assert after.labels == w.labels && after.selector == w.selector;
    hide PodActs, P.Annotated, P.Suspended, StoppedAs;
  }

  lemma StoppedDoesNotFail(x: Pass, pod: Pod, ref: Ref, w: Workload, stamp: P.Stamp)
    requires ref.kind in KINDS && VerdictOn(x, pod, ref, Ok(w)) == Acts
    ensures VerdictOn(x, pod, ref, Ok(StoppedAs(w, ref.kind == "CronJob", stamp))) == Leaves
  {
    var after: Result<Workload> := Ok(StoppedAs(w, ref.kind == "CronJob", stamp));
    StoppedIsLeft(x, pod, ref, w, stamp);
    StoppedIsReadable(x.view, x.policy, x.now, pod, ref, w, stamp);
    forall q | q in x.view.policies ensures WouldAct(x.view, q, x.now, pod, ref, after) != Failed {
      StoppedIsReadable(x.view, q, x.now, pod, ref, w, stamp);
    }
    hide OwnerGates, WouldAct, StoppedAs;
  }

  lemma {:induction false} SpeakerStays(x: Pass, pods: seq<Pod>, k: nat, ref: Ref)
    requires k <= |pods| && Speaker(x, pods[..k], ref).Some?
    ensures Speaker(x, pods, ref) == Speaker(x, pods[..k], ref)
  {
    hide Claim;
    if k < |pods| {
      var front := pods[..|pods| - 1];
      assert front[..k] == pods[..k];
      SpeakerStays(x, front, k, ref);
    } else {
      assert pods[..k] == pods;
    }
  }

  lemma SpeaksFirst(x: Pass, pods: seq<Pod>, k: nat, ref: Ref)
    requires k < |pods| && Claim(x, pods[k]) == Some(ref) && Speaker(x, pods[..k], ref).None?
    ensures Speaker(x, pods, ref) == Some(pods[k])
  {
    hide Claim, Speaker;
    SpeakerGrows(x, pods[..k], pods[k], ref);
    assert pods[..k + 1] == pods[..k] + [pods[k]];
    SpeakerStays(x, pods, k + 1, ref);
  }

  /** A workload as a real pass leaves it: stopped if it was acted on, otherwise as it was. */
  lemma ReadAfterwards(x: Pass, pods: seq<Pod>, objects: Objects, ref: Ref)
    requires !IsDryRun(x.policy)
    ensures var after := ReadObject(x.view, PassOver(x, pods, objects).objects, ref);
            if ActsOn(x, pods, objects, ref)
            then ref in objects
                 && var stamp := StampFor(x, Speaker(x, pods, ref).value);
                 after == Ok(StoppedAs(objects[ref], ref.kind == "CronJob", stamp))
            else after == ReadObject(x.view, objects, ref)
  {
    PassMeaning(x, pods, objects);
    if ActsOn(x, pods, objects, ref) {
      ActsOnlyOnReadable(x, pods, objects, ref);
    }
    hide PassOver, VerdictOn, Speaker, StoppedAs, StampFor, SeesOwners, CountsErrors;
  }

  /** The first pod to speak for a workload finds it, after the pass, as it was, or stopped by the pass. */
  lemma VerdictAfterwards(x: Pass, pods: seq<Pod>, objects: Objects, k: nat, ref: Ref)
    requires !IsDryRun(x.policy) && k < |pods|
    requires Claim(x, pods[k]) == Some(ref) && Speaker(x, pods[..k], ref).None?
    ensures var t := PassOver(x, pods, objects);
            var v := VerdictOn(x, pods[k], ref, ReadObject(x.view, objects, ref));
            VerdictOn(x, pods[k], ref, ReadObject(x.view, t.objects, ref)) == if v == Acts then Leaves else v
  {
    hide PassOver, VerdictOn, Claim, Speaker, StoppedAs, StampFor, ReadObject;
    SpeaksFirst(x, pods, k, ref);
    ReadAfterwards(x, pods, objects, ref);
    if ActsOn(x, pods, objects, ref) {
      ActsOnlyOnReadable(x, pods, objects, ref);
      StoppedDoesNotFail(x, pods[k], ref, objects[ref], StampFor(x, pods[k]));
    }
  }

  /** One visit of the second pass beside the same visit of the first. */
  lemma SecondVisit(x: Pass, objects: Objects, after: Objects, s: Progress, pod: Pod)
    requires Claim(x, pod).Some? && Claim(x, pod).value !in s.seen ==>
               var ref := Claim(x, pod).value;
               var v := VerdictOn(x, pod, ref, ReadObject(x.view, objects, ref));
               VerdictOn(x, pod, ref, ReadObject(x.view, after, ref)) == if v == Acts then Leaves else v
    ensures var first := Visit(x, objects, s, pod);
            Visit(x, after, Progress(s.seen, [], s.errors, after), pod) == Progress(first.seen, [], first.errors, after)
  {
    hide VerdictOn, Claim, Stop, ReadObject, Unresolved;
  }

  lemma UnseenHasNoSpeaker(x: Pass, pods: seq<Pod>, objects: Objects, ref: Ref)
    ensures ref in PassOver(x, pods, objects).seen <==> Speaker(x, pods, ref).Some?
  {
    PassMeaning(x, pods, objects);
    hide PassOver, Speaker, ActsRightly, StopsRightly, CountsErrors;
  }

  /** Pod by pod, the second pass sees the same workloads and errors as the first, and acts on nothing. */
  lemma {:induction false} SecondPassPrefix(x: Pass, pods: seq<Pod>, objects: Objects, k: nat)
    requires !IsDryRun(x.policy) && k <= |pods|
    ensures var t, s := PassOver(x, pods, objects), PassOver(x, pods[..k], objects);
            PassOver(x, pods[..k], t.objects) == Progress(s.seen, [], s.errors, t.objects)
  {
    hide VerdictOn, Claim, Speaker, ReadObject, Unresolved, Visit;
    if k > 0 {
      var front, pod := pods[..k - 1], pods[k - 1];
      assert pods[..k][..k - 1] == front;
      SecondPassPrefix(x, pods, objects, k - 1);
      if Claim(x, pod).Some? {
        UnseenHasNoSpeaker(x, front, objects, Claim(x, pod).value);
        if Speaker(x, front, Claim(x, pod).value).None? {
          VerdictAfterwards(x, pods, objects, k - 1, Claim(x, pod).value);
        }
      }
      SecondVisit(x, objects, PassOver(x, pods, objects).objects, PassOver(x, front, objects), pod);
    }
  }

  /** A second pass over what a pass left, with the same pods at the same clock, acts on nothing, writes no
      workload and meets the very same errors. */
  lemma SecondPassActsOnNothing(x: Pass, pods: seq<Pod>, objects: Objects)
    requires !IsDryRun(x.policy)
    ensures var t := PassOver(x, pods, objects);
            var u := PassOver(x, pods, t.objects);
            u.acted == [] && u.objects == t.objects && u.errors == t.errors
  {
    SecondPassPrefix(x, pods, objects, |pods|);
    assert pods[..|pods|] == pods;
  }

  /** What a pass publishes. */
  ghost function FindingsOf(x: Pass, t: Progress): Evaluation {
    var f := ActiveFindings(x.view, t.objects, x.policy, Namespaces(x));
    Evaluation(x.policy.generation, |t.acted|, f.active, f.truncated, t.errors + if f.failed then 1 else 0)
  }

  /** Nor does it write status: publishing the second pass's findings over the first's changes nothing. */
  lemma SecondPassWritesNoStatus(
    x: Pass, pods: seq<Pod>, objects: Objects, s: PolicyStatus, later: int)
    requires !IsDryRun(x.policy)
    ensures var t := PassOver(x, pods, objects);
            var u := PassOver(x, pods, t.objects);
            var published := Evaluate(s, FindingsOf(x, t), x.now);
            Publish(published, FindingsOf(x, u), later) == published
  {
    SecondPassActsOnNothing(x, pods, objects);
    var t := PassOver(x, pods, objects);
    var u := PassOver(x, pods, t.objects);
    hide PassOver, ActiveFindings;
    assert FindingsOf(x, u) == FindingsOf(x, t).(acted := 0);
    PublishAgain(s, FindingsOf(x, t), x.now, Some(x.now), later);
    PublishAgain(s, FindingsOf(x, t), x.now, s.lastEvaluation, later);
    assert Publish(s, FindingsOf(x, t), x.now).lastEvaluation == s.lastEvaluation;
  }

  // ----- Dry run -----

  function Simulated(x: Pass): Pass {
    var p := x.policy.(spec := x.policy.spec.(dryRun := Some(true)));
    x.(policy := p, view := x.view.(policies := [p]))
  }

  lemma SimulationStopsTheSame(x: Pass, objects: Objects, ref: Ref)
    ensures StopsOwner(Simulated(x), objects, ref) <==> StopsOwner(x, objects, ref)
  {
    SimulationGatesTheSame(x, ref, ReadObject(x.view, objects, ref));
    hide OwnerGates;
  }

  lemma SimulationClaimsTheSame(x: Pass, pod: Pod)
    ensures Claim(Simulated(x), pod) == Claim(x, pod)
  {
    hide FailureReason, LoopReason, ExceedsRestarts, Find, Controller;
  }

  lemma SimulationGatesTheSame(x: Pass, ref: Ref, read: Result<Workload>)
    ensures OwnerGates(Simulated(x).view, Simulated(x).policy, x.now, ref, read) ==
            OwnerGates(x.view, x.policy, x.now, ref, read)
  {
    var p, q := x.policy, Simulated(x).policy;
    forall pods: seq<Pod> ensures ReplicasFail(p, pods, x.now) <==> ReplicasFail(q, pods, x.now) {
      SimulationCorrelatesTheSame(p, q, pods, x.now);
    }
    hide ReplicasFail;
  }

  lemma SimulationCorrelatesTheSame(p: Policy, q: Policy, pods: seq<Pod>, now: int)
    requires q == p.(spec := p.spec.(dryRun := Some(true)))
    ensures ReplicasFail(p, pods, now) <==> ReplicasFail(q, pods, now)
  {
    forall name ensures FailsEverywhere(p, pods, now, name) <==> FailsEverywhere(q, pods, now, name) {
      assert forall pod :: NameFails(p, pod, now, name) <==> NameFails(q, pod, now, name);
    }
  }

  lemma SimulationActsTheSame(x: Pass, pods: seq<Pod>, pods': seq<Pod>, objects: Objects, ref: Ref)
    requires x.view.policies == [x.policy] && AllowedNamespaces(x.view, x.policy).Ok?
    requires forall pod :: pod in pods <==> pod in pods'
    ensures ref in PassOver(Simulated(x), pods', objects).acted <==> ref in PassOver(x, pods, objects).acted
  {
    ActedIsSetComprehension(x, pods, objects, ref);
    ActedIsSetComprehension(Simulated(x), pods', objects, ref);
    SimulationStopsTheSame(x, objects, ref);
    forall pod ensures Claim(Simulated(x), pod) == Claim(x, pod) {
      SimulationClaimsTheSame(x, pod);
    }
    hide PassOver, StopsOwner, Claim;
  }

  lemma SimulationListsTheSame(x: Pass, pods: seq<Pod>, pods': seq<Pod>)
    requires ListsCandidates(x.view, x.policy, pods)
    requires ListsCandidates(Simulated(x).view, Simulated(x).policy, pods')
    ensures forall pod :: pod in pods <==> pod in pods'
  {
    hide UnderAny;
    assert forall pod :: IsCandidate(Simulated(x).policy, pod) <==> IsCandidate(x.policy, pod);
  }

  /** Dry run is faithful and harmless: it changes no workload and reports exactly what the real pass stops. */
  lemma DryRunIsFaithful(x: Pass, pods: seq<Pod>, pods': seq<Pod>, objects: Objects)
    requires x.view.policies == [x.policy] && !IsDryRun(x.policy) && AllowedNamespaces(x.view, x.policy).Ok?
    requires ListsCandidates(x.view, x.policy, pods)
    requires ListsCandidates(Simulated(x).view, Simulated(x).policy, pods')
    ensures var actual, dry := PassOver(x, pods, objects), PassOver(Simulated(x), pods', objects);
            && dry.objects == objects && actual.objects.Keys == objects.Keys
            && (forall ref :: ref in dry.acted <==> ref in actual.acted)
            && (forall ref :: ref in objects ==>
                  (ref in dry.acted <==> actual.objects[ref] != objects[ref]))
  {
    SimulationListsTheSame(x, pods, pods');
    forall ref
      ensures ref in PassOver(Simulated(x), pods', objects).acted <==> ref in PassOver(x, pods, objects).acted
    {
      SimulationActsTheSame(x, pods, pods', objects, ref);
    }
    PassMeaning(x, pods, objects);
    PassMeaning(Simulated(x), pods', objects);
    var actual, dry := PassOver(x, pods, objects), PassOver(Simulated(x), pods', objects);
    hide PassOver, Claim, VerdictOn, ListsCandidates;
    assert dry.objects == objects;
    forall ref | ref in objects ensures ref in actual.acted <==> actual.objects[ref] != objects[ref] {
      if ref in actual.acted {
        ActsOnlyOnReadable(x, pods, objects, ref);
        ActingStopsRunning(x, pods, objects, ref, StampFor(x, Speaker(x, pods, ref).value));
      }
    }
  }

  lemma ActingStopsRunning(x: Pass, pods: seq<Pod>, objects: Objects, ref: Ref, stamp: P.Stamp)
    requires ActsOn(x, pods, objects, ref)
    ensures ref in objects
    ensures !P.IsStopped(ref.kind == "CronJob", objects[ref])
    ensures P.IsStopped(ref.kind == "CronJob", StoppedAs(objects[ref], ref.kind == "CronJob", stamp))
  {
    ActsOnlyOnReadable(x, pods, objects, ref);
    hide OwnerGates, Claim, WouldAct;
  }

  // ----- What the status says after a pass -----

  /** Everything a real pass stops is held by its policy afterwards, and nothing held is dropped by the pass. */
  lemma ActedIsHeld(x: Pass, pods: seq<Pod>, objects: Objects, ref: Ref)
    requires !IsDryRun(x.policy) && ref in PassOver(x, pods, objects).acted
    ensures HeldBy(PassOver(x, pods, objects).objects, x.policy, Namespaces(x), ref)
  {
    var t := PassOver(x, pods, objects);
    PassMeaning(x, pods, objects);
    ActsOnlyOnReadable(x, pods, objects, ref);
    var speaker := Speaker(x, pods, ref).value;
    assert Claim(x, speaker) == Some(ref);
    StoppedIsHeld(t.objects, x.policy, Namespaces(x), ref, objects[ref], StampFor(x, speaker));
  }

  // ----- Several policies -----

  lemma StoppedSaysWho(w: Workload, cron: bool, stamp: P.Stamp)
    ensures P.StampOf(StoppedAs(w, cron, stamp)) == Some(stamp)
  {
    P.RecordReadsBack(w, stamp, Count(w));
  }

  lemma ActedIsStopped(x: Pass, pods: seq<Pod>, objects: Objects, ref: Ref) returns (stamp: P.Stamp)
    requires !IsDryRun(x.policy) && ref in PassOver(x, pods, objects).acted
    ensures stamp.policy == x.policy.name && ref in objects
    ensures var t := PassOver(x, pods, objects);
            && ref in t.objects
            && t.objects[ref] == StoppedAs(objects[ref], ref.kind == "CronJob", stamp)
            && P.IsStopped(ref.kind == "CronJob", t.objects[ref])
            && P.StampOf(t.objects[ref]) == Some(stamp)
  {
    PassMeaning(x, pods, objects);
    ActsOnlyOnReadable(x, pods, objects, ref);
    stamp := StampFor(x, Speaker(x, pods, ref).value);
    ActingStopsRunning(x, pods, objects, ref, stamp);
    StoppedSaysWho(objects[ref], ref.kind == "CronJob", stamp);
    hide PassOver, StoppedAs, P.StampOf, VerdictOn, StampFor;
  }

  lemma NobodyActsOnTheStopped(
    y: Pass, pods: seq<Pod>, objects: Objects, ref: Ref, w: Workload, stamp: P.Stamp)
    requires ref in objects && objects[ref] == StoppedAs(w, ref.kind == "CronJob", stamp)
    ensures !ActsOn(y, pods, objects, ref)
  {
    hide Claim;
    var speaker := Speaker(y, pods, ref);
    if ActsOn(y, pods, objects, ref) {
      ActsOnlyOnReadable(y, pods, objects, ref);
      hide *;
      StoppedIsLeft(y, speaker.value, ref, w, stamp);
    }
  }

  lemma LeavesTheStopped(y: Pass, pods: seq<Pod>, objects: Objects, ref: Ref, w: Workload, stamp: P.Stamp)
    requires ref in objects && objects[ref] == StoppedAs(w, ref.kind == "CronJob", stamp)
    ensures var u := PassOver(y, pods, objects);
            ref !in u.acted && ref in u.objects && u.objects[ref] == objects[ref]
  {
    NobodyActsOnTheStopped(y, pods, objects, ref, w, stamp);
    PassMeaning(y, pods, objects);
    hide PassOver, StoppedAs, ActsOn, StampFor, Speaker, SeesOwners, CountsErrors;
  }

  /** One pass of a sequence of passes, of any policy, at any clock and on any view and pods. */
  datatype Turn = Turn(x: Pass, pods: seq<Pod>)

  ghost function Outcome(turn: Turn, objects: Objects): Progress {
    PassOver(turn.x, turn.pods, objects)
  }

  /** The workloads as a sequence of passes leaves them. */
  ghost function After(turns: seq<Turn>, objects: Objects): Objects {
    if turns == [] then objects else Outcome(turns[|turns| - 1], After(turns[..|turns| - 1], objects)).objects
  }

  /** What the k-th pass acts on. */
  ghost function ActedAt(turns: seq<Turn>, objects: Objects, k: nat): seq<Ref>
    requires k < |turns|
  {
    Outcome(turns[k], After(turns[..k], objects)).acted
  }

  lemma AfterMore(turns: seq<Turn>, objects: Objects, k: nat)
    requires k < |turns|
    ensures After(turns[..k + 1], objects) == Outcome(turns[k], After(turns[..k], objects)).objects
  {
    hide Outcome;
    assert turns[..k + 1][..k] == turns[..k];
  }

  lemma {:induction false} StaysStopped(
    turns: seq<Turn>, objects: Objects, from: nat, j: nat, ref: Ref, w: Workload, stamp: P.Stamp)
    requires from <= j <= |turns| && ref in After(turns[..from], objects)
    requires After(turns[..from], objects)[ref] == StoppedAs(w, ref.kind == "CronJob", stamp)
    ensures ref in After(turns[..j], objects)
    ensures After(turns[..j], objects)[ref] == After(turns[..from], objects)[ref]
    ensures j < |turns| ==> ref !in ActedAt(turns, objects, j)
  {
    hide StoppedAs, PassOver, After;
    if from < j {
      StaysStopped(turns, objects, from, j - 1, ref, w, stamp);
      AfterMore(turns, objects, j - 1);
      LeavesTheStopped(turns[j - 1].x, turns[j - 1].pods, After(turns[..j - 1], objects), ref, w, stamp);
    }
    if j < |turns| {
      LeavesTheStopped(turns[j].x, turns[j].pods, After(turns[..j], objects), ref, w, stamp);
    }
  }

  /** Along any sequence of passes of any policies, a workload that a real pass acted on is acted on by no later
      pass and never changes again: it is stopped once, and keeps the name of the policy that stopped it. */
  lemma StopsOnlyOnce(turns: seq<Turn>, objects: Objects, i: nat, j: nat, ref: Ref)
    requires i < j < |turns|
    requires !IsDryRun(turns[i].x.policy) && ref in ActedAt(turns, objects, i)
    ensures ref !in ActedAt(turns, objects, j)
    ensures var stopped, later := After(turns[..i + 1], objects), After(turns[..j + 1], objects);
            && ref in stopped && ref in later && later[ref] == stopped[ref]
            && P.IsStopped(ref.kind == "CronJob", later[ref])
            && P.StampOf(later[ref]).Some? && P.StampOf(later[ref]).value.policy == turns[i].x.policy.name
  {
    hide PassOver, After, StoppedAs, P.StampOf, P.IsStopped;
    var before := After(turns[..i], objects);
    var stamp := ActedIsStopped(turns[i].x, turns[i].pods, before, ref);
    AfterMore(turns, objects, i);
    hide *;
    StaysStopped(turns, objects, i + 1, j, ref, before[ref], stamp);
    StaysStopped(turns, objects, i + 1, j + 1, ref, before[ref], stamp);
  }

  // ----- A recorded workload is still running -----

  /** The same workloads, up to their annotations. */
  ghost predicate SameButAnnotations(a: Objects, b: Objects) {
    a.Keys == b.Keys && forall ref :: ref in a ==> b[ref] == a[ref].(annotations := b[ref].annotations)
  }

  lemma ReadingIgnoresAnnotations(view: View, a: Objects, b: Objects, ref: Ref, p: Policy, now: int, pod: Pod)
    requires SameButAnnotations(a, b)
    ensures var v, w := ReadObject(view, a, ref), ReadObject(view, b, ref);
            && v.Ok? == w.Ok?
            && (v.Ok? ==> forall cron :: P.IsStopped(cron, v.value) <==> P.IsStopped(cron, w.value))
            && OwnerGates(view, p, now, ref, v) == OwnerGates(view, p, now, ref, w)
            && WouldAct(view, p, now, pod, ref, v) == WouldAct(view, p, now, pod, ref, w)
  {
    hide PodActs, ReplicasFail;
  }

  lemma VerdictIgnoresAnnotations(x: Pass, a: Objects, b: Objects, pod: Pod, ref: Ref)
    requires SameButAnnotations(a, b)
    ensures VerdictOn(x, pod, ref, ReadObject(x.view, a, ref)) == VerdictOn(x, pod, ref, ReadObject(x.view, b, ref))
  {
    forall q: Policy {
      ReadingIgnoresAnnotations(x.view, a, b, ref, q, x.now, pod);
    }
    hide OwnerGates, WouldAct, ReadObject, SameButAnnotations, P.IsStopped;
  }

  /** A pass does not look at annotations. */
  lemma PassIgnoresAnnotations(x: Pass, pods: seq<Pod>, a: Objects, b: Objects, ref: Ref)
    requires SameButAnnotations(a, b)
    ensures ActsOn(x, pods, a, ref) <==> ActsOn(x, pods, b, ref)
    ensures ref in PassOver(x, pods, a).acted <==> ref in PassOver(x, pods, b).acted
  {
    PassMeaning(x, pods, a);
    PassMeaning(x, pods, b);
    var speaker := Speaker(x, pods, ref);
    if speaker.Some? {
      VerdictIgnoresAnnotations(x, a, b, speaker.value, ref);
    }
    hide PassOver, VerdictOn, Speaker, SameButAnnotations;
  }

  /** Why the record is written first: a workload that was recorded and then not scaled is retried by the next
      evaluation exactly as if nothing had been written. */
  lemma RecordedIsRetried(x: Pass, pods: seq<Pod>, objects: Objects, ref: Ref, stamp: P.Stamp)
    requires ref in objects
    ensures var noted := objects[ref := P.Annotated(objects[ref], stamp, Count(objects[ref]))];
            ref in PassOver(x, pods, noted).acted <==> ref in PassOver(x, pods, objects).acted
  {
    var noted := objects[ref := P.Annotated(objects[ref], stamp, Count(objects[ref]))];
    assert SameButAnnotations(objects, noted);
    PassIgnoresAnnotations(x, pods, objects, noted, ref);
  }

  // ----- Two policies and one workload -----

  /** Of two policies judging a workload on the same pod at the same instant, at most one acts. */
  lemma SameSpeakerOneActor(x: Pass, y: Pass, pod: Pod, ref: Ref, read: Result<Workload>)
    requires x.view == y.view && x.now == y.now && x.policy in x.view.policies && y.policy in y.view.policies
    requires AllowedNamespaces(x.view, x.policy).Ok? && AllowedNamespaces(y.view, y.policy).Ok?
    requires Claim(x, pod) == Claim(y, pod) == Some(ref)
    requires VerdictOn(x, pod, ref, read) == Acts && VerdictOn(y, pod, ref, read) == Acts
    ensures x.policy == y.policy
  {
    assert ReachesWinnerCheck(x.view, x.policy, x.now, pod, ref, read) by { hide OwnerGates, PodGate; }
    assert ReachesWinnerCheck(y.view, y.policy, y.now, pod, ref, read) by { hide OwnerGates, PodGate; }
    GatesAgree(x.view, x.policy, x.now, pod, ref, read);
    GatesAgree(y.view, y.policy, y.now, pod, ref, read);
    OrderIsTotal(x.policy, y.policy);
    hide WouldAct, OwnerGates, Claim;
  }

  /** A policy acts on a running workload exactly if every policy can be judged for the pod and it wins. */
  lemma ActsMeansWins(x: Pass, pod: Pod, ref: Ref, read: Result<Workload>)
    requires x.policy in x.view.policies && AllowedNamespaces(x.view, x.policy).Ok? && Claim(x, pod) == Some(ref)
    ensures VerdictOn(x, pod, ref, read) == Acts <==>
            && Wins(x.view, x.policy, x.now, pod, ref, read) && !Undecided(x, pod, ref, read)
            && read.Ok? && !P.IsStopped(ref.kind == "CronJob", read.value)
  {
    assert ReachesWinnerCheck(x.view, x.policy, x.now, pod, ref, read)
      <==> OwnerGates(x.view, x.policy, x.now, ref, read) == Yes by { hide OwnerGates, PodGate; }
    GatesAgree(x.view, x.policy, x.now, pod, ref, read);
    hide WouldAct, OwnerGates, Claim;
  }

  /** The policy of a pass is listed and its namespaces can be resolved, without which it looks at no pod. */
  ghost predicate GetsGoing(x: Pass) {
    x.policy in x.view.policies && AllowedNamespaces(x.view, x.policy).Ok?
  }

  /** The workload is running, some pod of the listing speaks for it, and on the first such pod every policy can be
      judged and this one wins. */
  ghost predicate Elected(x: Pass, pods: seq<Pod>, objects: Objects, ref: Ref) {
    var read, speaker := ReadObject(x.view, objects, ref), Speaker(x, pods, ref);
    && read.Ok? && !P.IsStopped(ref.kind == "CronJob", read.value)
    && speaker.Some? && !Undecided(x, speaker.value, ref, read)
    && Wins(x.view, x.policy, x.now, speaker.value, ref, read)
  }

  lemma ActsOnMeansElected(x: Pass, pods: seq<Pod>, objects: Objects, ref: Ref)
    requires GetsGoing(x)
    ensures ActsOn(x, pods, objects, ref) <==> Elected(x, pods, objects, ref)
  {
    var speaker := Speaker(x, pods, ref);
    if speaker.Some? {
      assert Claim(x, speaker.value) == Some(ref);
      ActsMeansWins(x, speaker.value, ref, ReadObject(x.view, objects, ref));
    }
    hide Claim, Wins, Speaker, VerdictOn, Undecided;
  }

  /** Two passes, each at its own instant, on its own view and with the workloads as it finds them, both act on a
      workload exactly if each policy wins the election held then on its own pod. */
  lemma BothActMeansBothWin(
    x: Pass, y: Pass, pods: seq<Pod>, pods': seq<Pod>, objects: Objects, objects': Objects, ref: Ref)
    requires GetsGoing(x) && GetsGoing(y)
    ensures ActsOn(x, pods, objects, ref) && ActsOn(y, pods', objects', ref) <==>
            Elected(x, pods, objects, ref) && Elected(y, pods', objects', ref)
  {
    hide Elected, ActsOn;
    ActsOnMeansElected(x, pods, objects, ref);
    ActsOnMeansElected(y, pods', objects', ref);
  }

  /** A pass gets to judge a running workload, on the first pod of its listing that speaks for it. */
  ghost predicate Judges(x: Pass, pods: seq<Pod>, objects: Objects, ref: Ref, pod: Pod) {
    && GetsGoing(x) && Speaker(x, pods, ref) == Some(pod)
    && var read := ReadObject(x.view, objects, ref);
    && read.Ok? && !P.IsStopped(ref.kind == "CronJob", read.value)
    && !Undecided(x, pod, ref, read)
  }

  lemma ActsOnMeansWins(x: Pass, pods: seq<Pod>, objects: Objects, ref: Ref, pod: Pod)
    requires Judges(x, pods, objects, ref, pod)
    ensures ActsOn(x, pods, objects, ref) <==>
            Wins(x.view, x.policy, x.now, pod, ref, ReadObject(x.view, objects, ref))
  {
    hide ActsOn, Speaker, Wins, Undecided;
    ActsOnMeansElected(x, pods, objects, ref);
  }

  ghost predicate OnlyTwo(view: View, p: Policy, q: Policy) {
    forall r :: r in view.policies <==> r == p || r == q
  }

  /** Of a pair, the more restrictive policy acts exactly if the owner passes its gates. */
  lemma StrongerActs(x: Pass, pods: seq<Pod>, objects: Objects, ref: Ref, pod: Pod, weaker: Policy)
    requires Judges(x, pods, objects, ref, pod) && OnlyTwo(x.view, x.policy, weaker)
    requires x.policy != weaker && MoreRestrictive(x.policy, weaker)
    ensures ActsOn(x, pods, objects, ref) <==>
            OwnerGates(x.view, x.policy, x.now, ref, ReadObject(x.view, objects, ref)) == Yes
  {
    ActsOnMeansWins(x, pods, objects, ref, pod);
    ClaimedMeansGated(x, pod, ref, ReadObject(x.view, objects, ref));
    hide Claim, ActsOn, WouldAct, OwnerGates, MoreRestrictive, Undecided, Speaker;
  }

  /** The other one acts exactly if the owner passes its gates and the stronger would not act there and then. */
  lemma WeakerActs(y: Pass, pods: seq<Pod>, objects: Objects, ref: Ref, pod: Pod, stronger: Policy)
    requires Judges(y, pods, objects, ref, pod) && OnlyTwo(y.view, stronger, y.policy)
    requires y.policy != stronger && MoreRestrictive(stronger, y.policy)
    ensures var read := ReadObject(y.view, objects, ref);
            ActsOn(y, pods, objects, ref) <==>
            && OwnerGates(y.view, y.policy, y.now, ref, read) == Yes
            && !(Claim(y.(policy := stronger), pod) == Some(ref)
                 && OwnerGates(y.view, stronger, y.now, ref, read) == Yes)
  {
    var read := ReadObject(y.view, objects, ref);
    ActsOnMeansWins(y, pods, objects, ref, pod);
    ClaimedMeansGated(y, pod, ref, read);
    assert stronger in y.view.policies;
    DecidedMeansAllowed(y, pod, ref, read, stronger);
    WouldActMeansClaims(y.(policy := stronger), pod, ref, read, y);
    OrderIsTotal(stronger, y.policy);
    hide Claim, ActsOn, WouldAct, OwnerGates, MoreRestrictive, Undecided, Speaker;
  }

  lemma DecidedMeansAllowed(y: Pass, pod: Pod, ref: Ref, read: Result<Workload>, p: Policy)
    requires !Undecided(y, pod, ref, read) && p in y.view.policies
    ensures AllowedNamespaces(y.view, p).Ok? && WouldAct(y.view, p, y.now, pod, ref, read) != Failed
  {
    hide OwnerGates, PodActs;
  }

  /** For a pair of policies, in terms of the gates: both act exactly if the owner passes the gates of each at its
      own instant, and the more restrictive would not have acted at the other's instant on the other's pod. */
  lemma BothOfAPairAct(
    x: Pass, y: Pass, pods: seq<Pod>, pods': seq<Pod>, objects: Objects, objects': Objects, ref: Ref, a: Pod, b: Pod)
    requires Judges(x, pods, objects, ref, a) && Judges(y, pods', objects', ref, b)
    requires x.policy != y.policy && MoreRestrictive(x.policy, y.policy)
    requires OnlyTwo(x.view, x.policy, y.policy) && OnlyTwo(y.view, x.policy, y.policy)
    ensures var read, read' := ReadObject(x.view, objects, ref), ReadObject(y.view, objects', ref);
            ActsOn(x, pods, objects, ref) && ActsOn(y, pods', objects', ref) <==>
            && OwnerGates(x.view, x.policy, x.now, ref, read) == Yes
            && OwnerGates(y.view, y.policy, y.now, ref, read') == Yes
            && !(Claim(y.(policy := x.policy), b) == Some(ref)
                 && OwnerGates(y.view, x.policy, y.now, ref, read') == Yes)
  {
    hide Claim, ActsOn, OwnerGates, MoreRestrictive, Judges, OnlyTwo;
    StrongerActs(x, pods, objects, ref, a, y.policy);
    WeakerActs(y, pods', objects', ref, b, x.policy);
  }

  lemma ClaimedMeansGated(x: Pass, pod: Pod, ref: Ref, read: Result<Workload>)
    requires AllowedNamespaces(x.view, x.policy).Ok? && Claim(x, pod) == Some(ref)
    ensures WouldAct(x.view, x.policy, x.now, pod, ref, read) == Yes <==>
            OwnerGates(x.view, x.policy, x.now, ref, read) == Yes
  {
    GatesAgree(x.view, x.policy, x.now, pod, ref, read);
    hide OwnerGates;
  }

  /** On a pod that another policy takes to this owner, acting is claiming and passing the owner gates. */
  lemma WouldActMeansClaims(x: Pass, pod: Pod, ref: Ref, read: Result<Workload>, y: Pass)
    requires x.view == y.view && Claim(y, pod) == Some(ref) && AllowedNamespaces(x.view, x.policy).Ok?
    ensures WouldAct(x.view, x.policy, x.now, pod, ref, read) == Yes <==>
            Claim(x, pod) == Some(ref) && OwnerGates(x.view, x.policy, x.now, ref, read) == Yes
  {
    GatesAgree(x.view, x.policy, x.now, pod, ref, read);
    hide OwnerGates, PodActs;
  }

  function Watcher(name: string, reason: string): Policy {
    Policy(name, 1, Spec([reason], [], Unset, 1, Unset, Some(false), "Pod", ["StatefulSet"], None, [], None, Unset,
                         Some(true)))
  }

  function WaitingPod(uid: string, reason: string): Pod {
    Pod(uid, "shop", map[], [OwnerRef("StatefulSet", "web", "1", true)], false, "Running", [],
        [ContainerStatus("main", Some(reason), false, None, 5, None)], [], [])
  }

  /** On different pods they need not agree: two policies that watch for different reasons each win the same
      running workload, each on its own failing pod, and both report it in a dry run. */
  lemma TwoActorsForOneWorkload(a: string, b: string, r: string, s: string, w: Workload, now: int, at: string)
    requires a != b && r != s && Count(w) > 0
    ensures var pods := [WaitingPod(a, r), WaitingPod(b, s)];
            var view := View(pods, [], map[], [Watcher(a, r), Watcher(b, s)], [], {});
            var ref := Ref("StatefulSet", "shop", "web");
            var x, y := Pass.Pass(view, Watcher(a, r), now, at), Pass.Pass(view, Watcher(b, s), now, at);
            && ActsOn(x, pods, map[ref := w], ref) && ActsOn(y, pods, map[ref := w], ref)
            && Judges(x, pods, map[ref := w], ref, pods[0]) && Judges(y, pods, map[ref := w], ref, pods[1])
  {
    var pods := [WaitingPod(a, r), WaitingPod(b, s)];
    var view := View(pods, [], map[], [Watcher(a, r), Watcher(b, s)], [], {});
    WatcherActsOnItsPod(view, Watcher(a, r), Watcher(b, s), a, r, pods[0], w, now, at);
    WatcherActsOnItsPod(view, Watcher(b, s), Watcher(a, r), b, s, pods[1], w, now, at);
    var ref := Ref("StatefulSet", "shop", "web");
    var x, y := Pass.Pass(view, Watcher(a, r), now, at), Pass.Pass(view, Watcher(b, s), now, at);
    WatcherIgnores(view, a, r, b, s, now, at);
    WatcherIgnores(view, b, s, a, r, now, at);
    assert pods[0] in pods && pods[1] in pods;
    hide Claim, VerdictOn;
    ActingIsJudging(x, pods, map[ref := w], ref);
    ActingIsJudging(y, pods, map[ref := w], ref);
    assert AllowedNamespaces(view, x.policy).Ok? && AllowedNamespaces(view, y.policy).Ok?;
    assert Speaker(x, pods, ref) == Some(pods[0]) && Speaker(y, pods, ref) == Some(pods[1]);
    hide Speaker, ActsOn, Undecided;
  }

  lemma ActingIsJudging(x: Pass, pods: seq<Pod>, objects: Objects, ref: Ref)
    requires ActsOn(x, pods, objects, ref)
    ensures var read := ReadObject(x.view, objects, ref);
            read.Ok? && !P.IsStopped(ref.kind == "CronJob", read.value)
            && !Undecided(x, Speaker(x, pods, ref).value, ref, read)
  {
    hide Claim, OwnerGates, Undecided, Speaker;
  }

  lemma WatcherIgnores(view: View, a: string, r: string, b: string, s: string, now: int, at: string)
    requires r != s
    ensures Claim(Pass.Pass(view, Watcher(a, r), now, at), WaitingPod(b, s)).None?
    ensures forall ref, read :: WouldAct(view, Watcher(a, r), now, WaitingPod(b, s), ref, read) == No
  {
    assert WaitingReason(Watcher(a, r), WaitingPod(b, s)).None?;
    assert LoopingReason(Watcher(a, r), WaitingPod(b, s), now).None?;
  }

  lemma WatcherActsOnItsPod(
    view: View, mine: Policy, other: Policy, a: string, r: string, pod: Pod, w: Workload, now: int, at: string)
    requires mine == Watcher(a, r) && pod == WaitingPod(a, r) && Count(w) > 0
    requires forall q :: q in view.policies <==> q == mine || q == other
    requires exists b, s :: other == Watcher(b, s) && s != r
    ensures var x, ref := Pass.Pass(view, mine, now, at), Ref("StatefulSet", "shop", "web");
            Claim(x, pod) == Some(ref) && VerdictOn(x, pod, ref, Ok(w)) == Acts
  {
    var b, s :| other == Watcher(b, s) && s != r;
    WatcherIgnores(view, b, s, a, r, now, at);
    var x, ref := Pass.Pass(view, mine, now, at), Ref("StatefulSet", "shop", "web");
    assert pod.containers[0] in pod.containers + pod.initContainers;
    assert WaitingReason(mine, pod).Some?;
    assert ExceedsRestarts(pod, RestartThreshold(mine)) by { assert pod.containers[0] in pod.containers; }
    assert Controller(pod.owners) == Some(pod.owners[0]);
    GatesAgree(view, mine, now, pod, ref, Ok(w));
    assert WouldAct(view, mine, now, pod, ref, Ok(w)) == Yes;
  }

  function Waiter(name: string, restarts: int, duration: int, dryRun: bool): Policy {
    Policy(name, 1, Spec(["CrashLoopBackOff"], [], Unset, restarts, Parsed(duration), Some(false), "Pod",
                         ["StatefulSet"], None, [], None, Unset, Some(dryRun)))
  }

  function NotReady(since: int): Pod {
    Pod("a", "shop", map[], [OwnerRef("StatefulSet", "web", "1", true)], false, "Running", [],
        [ContainerStatus("main", Some("CrashLoopBackOff"), false, None, 0, None)], [],
        [PodCondition("Ready", "False", Some(since))])
  }

  lemma WaiterActs(
    view: View, name: string, restarts: int, duration: int, dryRun: bool, since: int, now: int, w: Workload)
    requires restarts > 0
    ensures var p, ref := Waiter(name, restarts, duration, dryRun), Ref("StatefulSet", "shop", "web");
            && Claim(Pass.Pass(view, p, since + duration, ""), NotReady(since)) == Some(ref)
            && WouldAct(view, p, now, NotReady(since), ref, Ok(w)) == if now < since + duration then No else Yes
  {
    var p, pod := Waiter(name, restarts, duration, dryRun), NotReady(since);
    assert pod.containers[0] in pod.containers + pod.initContainers && Waits(pod.containers[0], WatchReasons(p));
    assert !ExceedsRestarts(pod, RestartThreshold(p));
    assert FailingSince(pod) == Some(since) by { assert pod.conditions[0] in pod.conditions; }
    assert LoopingReason(p, pod, now).None? && LoopingReason(p, pod, since + duration).None?;
    hide FailureReason, FailingSince, ExceedsRestarts, LoopReason;
  }

  /** The only acting policy of a pair, or the stronger of the two, acts. */
  lemma WinnerActs(x: Pass, other: Policy, pod: Pod, ref: Ref, objects: Objects)
    requires OnlyTwo(x.view, x.policy, other) && AllowedNamespaces(x.view, x.policy).Ok? && Claim(x, pod) == Some(ref)
    requires GetWorkload(ref) !in x.view.faults && ref in objects
    requires !P.IsStopped(ref.kind == "CronJob", objects[ref])
    requires WouldAct(x.view, x.policy, x.now, pod, ref, Ok(objects[ref])) == Yes
    requires var acts := WouldAct(x.view, other, x.now, pod, ref, Ok(objects[ref]));
             acts == No || (acts == Yes && MoreRestrictive(x.policy, other))
    ensures ActsOn(x, [pod], objects, ref)
  {
    ActsMeansWins(x, pod, ref, Ok(objects[ref]));
    OnlyPodSpeaks(x, pod, ref);
    hide Claim, VerdictOn, WouldAct, MoreRestrictive, Speaker;
  }

  /** Nor need they agree on one pod at different instants: the dry-run policy q reaches its shorter duration
      first and reports the workload; later p, the more restrictive by its restart threshold, reaches its own and
      acts on the same pod, on whatever q's pass left. */
  lemma TwoActorsOnOnePod(w: Workload, since: int, dryRun: bool)
    requires Count(w) > 0
    ensures var p, q := Waiter("p", 5, 100, dryRun), Waiter("q", 10, 10, true);
            var view, ref := View([NotReady(since)], [], map[], [p, q], [], {}), Ref("StatefulSet", "shop", "web");
            var x, y := Pass.Pass(view, q, since + 10, ""), Pass.Pass(view, p, since + 100, "");
            && ActsOn(x, view.pods, map[ref := w], ref)
            && ActsOn(y, view.pods, PassOver(x, view.pods, map[ref := w]).objects, ref)
  {
    var p, q := Waiter("p", 5, 100, dryRun), Waiter("q", 10, 10, true);
    var pod, ref := NotReady(since), Ref("StatefulSet", "shop", "web");
    var view, objects := View([pod], [], map[], [p, q], [], {}), map[ref := w];
    var x, y := Pass.Pass(view, q, since + 10, ""), Pass.Pass(view, p, since + 100, "");
    assert MoreRestrictive(p, q);
    hide Claim, WouldAct, PassOver, MoreRestrictive, ActsOn, NotReady;
    WaiterActs(view, "p", 5, 100, dryRun, since, since + 10, w);
    WaiterActs(view, "p", 5, 100, dryRun, since, since + 100, w);
    WaiterActs(view, "q", 10, 10, true, since, since + 10, w);
    WaiterActs(view, "q", 10, 10, true, since, since + 100, w);
    DryPassKeeps(x, [pod], objects);
    WinnerActs(x, p, pod, ref, objects);
    WinnerActs(y, q, pod, ref, objects);
  }

  lemma DryPassKeeps(x: Pass, pods: seq<Pod>, objects: Objects)
    requires IsDryRun(x.policy)
    ensures PassOver(x, pods, objects).objects == objects
  {
    PassMeaning(x, pods, objects);
    hide PassOver, StoppedAs, Speaker, SeesOwners, ActsRightly, CountsErrors;
  }

  lemma OnlyPodSpeaks(x: Pass, pod: Pod, ref: Ref)
    requires Claim(x, pod) == Some(ref)
    ensures Speaker(x, [pod], ref) == Some(pod)
  {
    hide Claim;
    assert [pod][..0] == [];
  }
}
