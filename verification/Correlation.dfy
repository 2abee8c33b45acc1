/** Whether the replicas of a workload count as failing, pod by pod or by a shared container name. */
module Correlation {
  import opened Cluster
  import opened Pods
  import opened Policies

  predicate PodMatches(p: Policy, pod: Pod, now: int) {
    || FailureReason(pod, WatchReasons(p)).Some?
    || LoopReason(pod, TerminationReasons(p), RestartThreshold(p), RestartWindow(p), now).Some?
  }

  /** The container on its own, presented as the one regular container of its pod. */
  function Single(pod: Pod, s: ContainerStatus): Pod {
    pod.(containers := [s], initContainers := [], conditions := [])
  }

  predicate StatusFails(p: Policy, pod: Pod, s: ContainerStatus, now: int) {
    || Waits(s, WatchReasons(p))
    || (PodCanLoop(pod, TerminationReasons(p)) &&
        Loops(s, TerminationReasons(p), RestartThreshold(p), RestartWindow(p), now))
  }

  function Statuses(pod: Pod): seq<ContainerStatus> {
    pod.containers + pod.initContainers
  }

  /** Some container of the pod carries this name and fails under the policy. */
  ghost predicate NameFails(p: Policy, pod: Pod, now: int, name: string) {
    exists s :: s in Statuses(pod) && s.name == name && StatusFails(p, pod, s, now)
  }

  /** A classic init container that meets the loop criteria, although it cannot be in a restart loop. */
  ghost predicate ClassicInitLoops(p: Policy, pod: Pod, now: int) {
    exists s :: s in pod.initContainers && s.name !in RestartableInits(pod) && StatusFails(p, pod, s, now)
                && !Waits(s, WatchReasons(p))
  }

  lemma SingleMatches(p: Policy, pod: Pod, s: ContainerStatus, now: int)
    ensures PodMatches(p, Single(pod, s), now) <==> StatusFails(p, pod, s, now)
  {
    var one := Single(pod, s);
    assert s in one.containers;
    assert one.containers + one.initContainers == [s];
    LoopReasonMeaning(one, TerminationReasons(p), RestartThreshold(p), RestartWindow(p), now);
  }

  method FailingContainerNames(p: Policy, pod: Pod, now: int) returns (names: seq<string>)
    ensures forall n :: n in names <==> NameFails(p, pod, now, n)
  {
    names := [];
    var groups := [pod.containers, pod.initContainers];
    for g := 0 to 2
      invariant forall n :: n in names <==>
                  exists s :: s in (if g == 0 then [] else if g == 1 then pod.containers else Statuses(pod))
                              && s.name == n && StatusFails(p, pod, s, now)
    {
      ghost var before := if g == 0 then [] else pod.containers;
      for i := 0 to |groups[g]|
        invariant forall n :: n in names <==>
                    exists s :: s in before + groups[g][..i] && s.name == n && StatusFails(p, pod, s, now)
      {
        var single := Single(pod, groups[g][i]);
        SingleMatches(p, pod, groups[g][i], now);
        assert before + groups[g][..i + 1] == before + groups[g][..i] + [groups[g][i]];
        if FailureReason(single, WatchReasons(p)).Some? {
          names := names + [groups[g][i].name];
        } else if LoopReason(single, TerminationReasons(p), RestartThreshold(p), RestartWindow(p), now).Some? {
          names := names + [groups[g][i].name];
        }
      }
      assert before + groups[g][..|groups[g]|] == if g == 0 then pod.containers else Statuses(pod);
    }
  }

  /** One container name fails in every replica. */
  ghost predicate FailsEverywhere(p: Policy, pods: seq<Pod>, now: int, name: string) {
    forall pod :: pod in pods ==> NameFails(p, pod, now, name)
  }

  /** What the correlation mode asks for, without any notion of a loop over pods. */
  ghost predicate ReplicasFail(p: Policy, pods: seq<Pod>, now: int) {
    && pods != []
    && if ComparesContainers(p)
       then exists name :: FailsEverywhere(p, pods, now, name)
       else forall pod :: pod in pods ==> PodMatches(p, pod, now)
  }

  /** replicasAllFailing: the intersection loop with its early exits decides the mode exactly. */
  method ReplicasAllFailing(p: Policy, pods: seq<Pod>, now: int) returns (r: bool)
    ensures r <==> ReplicasFail(p, pods, now)
  {
    if |pods| == 0 {
      return false;
    }
    if !ComparesContainers(p) {
      for i := 0 to |pods|
        invariant forall j :: 0 <= j < i ==> PodMatches(p, pods[j], now)
      {
        if !PodMatches(p, pods[i], now) {
          return false;
        }
      }
      return true;
    }
    var shared: Option<set<string>> := None;
    for i := 0 to |pods|
      invariant shared.None? <==> i == 0
      invariant shared.Some? ==> shared.value != {}
      invariant shared.Some? ==> forall n :: n in shared.value <==> FailsEverywhere(p, pods[..i], now, n)
    {
      var names := FailingContainerNames(p, pods[i], now);
      var current := set n | n in names;
      assert pods[..i + 1] == pods[..i] + [pods[i]];
      if |names| == 0 {
        forall n ensures !FailsEverywhere(p, pods, now, n) {
          assert n !in names && pods[i] in pods;
        }
        return false;
      }
      assert names[0] in current;
      if shared.None? {
        shared := Some(current);
      } else {
        shared := Some(set n | n in shared.value && n in current);
        if shared.value == {} {
          forall n ensures !FailsEverywhere(p, pods, now, n) {
            assert n !in shared.value && !FailsEverywhere(p, pods[..i + 1], now, n);
          }
          return false;
        }
      }
    }
    var name :| name in shared.value;
    assert pods[..|pods|] == pods;
    assert FailsEverywhere(p, pods, now, name);
    r := true;
  }

  lemma ReplicasFailIgnoresOrder(p: Policy, pods: seq<Pod>, others: seq<Pod>, now: int)
    requires forall pod :: pod in pods <==> pod in others
    ensures ReplicasFail(p, pods, now) <==> ReplicasFail(p, others, now)
  {
    assert pods != [] ==> pods[0] in others;
    assert others != [] ==> others[0] in pods;
    forall name ensures FailsEverywhere(p, pods, now, name) <==> FailsEverywhere(p, others, now, name) {
    }
  }

  /** The two ways of judging one pod differ by the classic init containers, and by nothing else. */
  lemma PodAndContainerJudgement(p: Policy, pod: Pod, now: int)
    ensures (exists name :: NameFails(p, pod, now, name)) <==>
            PodMatches(p, pod, now) || ClassicInitLoops(p, pod, now)
  {
    LoopReasonMeaning(pod, TerminationReasons(p), RestartThreshold(p), RestartWindow(p), now);
    if exists name :: NameFails(p, pod, now, name) {
      var name :| NameFails(p, pod, now, name);
      var s :| s in Statuses(pod) && s.name == name && StatusFails(p, pod, s, now);
    }
    if PodMatches(p, pod, now) || ClassicInitLoops(p, pod, now) {
      assert forall s :: s in pod.containers || s in pod.initContainers ==> s in Statuses(pod);
      var s :| s in Statuses(pod) && StatusFails(p, pod, s, now);
      assert NameFails(p, pod, now, s.name);
    }
  }

  ghost predicate NoClassicInitLoops(p: Policy, pods: seq<Pod>, now: int) {
    forall pod :: pod in pods ==> !ClassicInitLoops(p, pod, now)
  }

  /** Container correlation is the stricter mode, except for classic init containers. */
  lemma ContainerModeIsStricter(strict: Policy, loose: Policy, pods: seq<Pod>, now: int)
    requires ComparesContainers(strict) && !ComparesContainers(loose)
    requires strict.spec == loose.spec.(failureCorrelation := strict.spec.failureCorrelation)
    requires NoClassicInitLoops(strict, pods, now)
    ensures ReplicasFail(strict, pods, now) ==> ReplicasFail(loose, pods, now)
  {
    if ReplicasFail(strict, pods, now) {
      var name :| FailsEverywhere(strict, pods, now, name);
      forall pod | pod in pods ensures PodMatches(loose, pod, now) {
        assert NameFails(strict, pod, now, name);
        PodAndContainerJudgement(strict, pod, now);
      }
    }
  }

  /** Exactly when Container mode finds a failure that Pod mode does not: one name fails everywhere, and some pod
      fails by a classic init container alone. */
  lemma ClassicInitSplitsTheModes(strict: Policy, loose: Policy, pods: seq<Pod>, now: int)
    requires ComparesContainers(strict) && !ComparesContainers(loose)
    requires strict.spec == loose.spec.(failureCorrelation := strict.spec.failureCorrelation)
    ensures ReplicasFail(strict, pods, now) && !ReplicasFail(loose, pods, now) <==>
            && (exists name :: FailsEverywhere(strict, pods, now, name))
            && exists pod :: pod in pods && ClassicInitLoops(strict, pod, now) && !PodMatches(strict, pod, now)
  {
    forall pod ensures PodMatches(strict, pod, now) == PodMatches(loose, pod, now) {
    }
    if name :| FailsEverywhere(strict, pods, now, name) {
      forall pod | pod in pods ensures PodMatches(strict, pod, now) || ClassicInitLoops(strict, pod, now) {
        assert NameFails(strict, pod, now, name);
        PodAndContainerJudgement(strict, pod, now);
      }
    }
    hide PodMatches, ClassicInitLoops, FailsEverywhere;
  }

  /** `a` asks for no more restarts than `b` and watches the same things. */
  ghost predicate WatchesLike(a: Policy, b: Policy) {
    && WatchReasons(a) == WatchReasons(b)
    && TerminationReasons(a) == TerminationReasons(b)
    && RestartWindow(a) == RestartWindow(b)
    && RestartThreshold(a) <= RestartThreshold(b)
  }

  lemma PodMatchesMonotone(a: Policy, b: Policy, pod: Pod, now: int)
    requires WatchesLike(a, b) && PodMatches(b, pod, now)
    ensures PodMatches(a, pod, now)
  {
    LoopReasonMeaning(pod, TerminationReasons(a), RestartThreshold(a), RestartWindow(a), now);
    LoopReasonMeaning(pod, TerminationReasons(b), RestartThreshold(b), RestartWindow(b), now);
  }

  /** Lower thresholds and Pod before Container: the replicas that fail for `b` fail for `a`. */
  lemma ReplicasFailMonotone(a: Policy, b: Policy, pods: seq<Pod>, now: int)
    requires WatchesLike(a, b) && ReplicasFail(b, pods, now)
    requires ComparesContainers(a) ==> ComparesContainers(b)
    requires ComparesContainers(a) != ComparesContainers(b) ==> NoClassicInitLoops(b, pods, now)
    ensures ReplicasFail(a, pods, now)
  {
    if ComparesContainers(b) {
      var name :| FailsEverywhere(b, pods, now, name);
      forall pod | pod in pods
        ensures if ComparesContainers(a) then NameFails(a, pod, now, name) else PodMatches(a, pod, now)
      {
        assert NameFails(b, pod, now, name);
        if !ComparesContainers(a) {
          PodAndContainerJudgement(b, pod, now);
          PodMatchesMonotone(a, b, pod, now);
        }
      }
      assert ComparesContainers(a) ==> FailsEverywhere(a, pods, now, name);
    } else {
      forall pod | pod in pods ensures PodMatches(a, pod, now) {
        PodMatchesMonotone(a, b, pod, now);
      }
    }
  }
}
