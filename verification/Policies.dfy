/** Reading a policy's settings with their fallbacks, and the restrictiveness order on policies. */
module Policies {
  import opened Cluster

  const SECOND: int := 1_000_000_000
  const MINUTE: int := 60 * SECOND
  const HOUR: int := 60 * MINUTE

  const DEFAULT_REQUEUE: int := 60 * SECOND
  const MINIMUM_REQUEUE: int := SECOND
  const DEFAULT_RESTART_THRESHOLD: int := 10
  const DEFAULT_DURATION_THRESHOLD: int := 30 * MINUTE
  const DEFAULT_RESTART_WINDOW: int := HOUR
  const DEFAULT_WATCH_REASONS: seq<string> := [
    "CrashLoopBackOff", "ImagePullBackOff", "ErrImagePull",
    "CreateContainerConfigError", "InvalidImageName", "RunContainerError"]
  const DEFAULT_TARGETS: seq<string> := ["Deployment", "StatefulSet", "CronJob"]

  function ParseDuration(d: Duration, fallback: int): int {
    if d.Parsed? then d.nanos else fallback
  }

  function WatchReasons(p: Policy): seq<string> {
    if |p.spec.watchReasons| > 0 then p.spec.watchReasons else DEFAULT_WATCH_REASONS
  }

  function TerminationReasons(p: Policy): seq<string> {
    p.spec.watchTerminationReasons
  }

  function Targets(p: Policy): seq<string> {
    if |p.spec.targets| > 0 then p.spec.targets else DEFAULT_TARGETS
  }

  /** At least one whatever the object says, which the termination index relies on. */
  function RestartThreshold(p: Policy): (r: int)
    ensures r >= 1
  {
    if p.spec.restartThreshold > 0 then p.spec.restartThreshold else DEFAULT_RESTART_THRESHOLD
  }

  function DurationThreshold(p: Policy): int {
    ParseDuration(p.spec.durationThreshold, DEFAULT_DURATION_THRESHOLD)
  }

  function RestartWindow(p: Policy): int {
    ParseDuration(p.spec.restartWindow, DEFAULT_RESTART_WINDOW)
  }

  /** Always positive: unset, unparseable and non-positive intervals all fall back. */
  function ReconcileInterval(p: Policy): (r: int)
    ensures r > 0
  {
    if p.spec.reconcileInterval.Parsed? && p.spec.reconcileInterval.nanos > 0
    then p.spec.reconcileInterval.nanos
    else DEFAULT_REQUEUE
  }

  predicate RequiresAllReplicas(p: Policy) {
    p.spec.allReplicasFailing != Some(false)
  }

  predicate IsDryRun(p: Policy) {
    p.spec.dryRun == Some(true)
  }

  predicate ComparesContainers(p: Policy) {
    p.spec.failureCorrelation == "Container"
  }

  /** Go's string order. */
  predicate Before(a: string, b: string) {
    |b| > 0 && (|a| == 0 || a[0] < b[0] || (a[0] == b[0] && Before(a[1..], b[1..])))
  }

  lemma {:induction false} BeforeIsTotal(a: string, b: string)
    ensures !(Before(a, b) && Before(b, a))
    ensures a == b <==> !Before(a, b) && !Before(b, a)
  {
    if |a| > 0 && |b| > 0 && a[0] == b[0] {
      BeforeIsTotal(a[1..], b[1..]);
      assert a == [a[0]] + a[1..] && b == [b[0]] + b[1..];
    } else if a == b {
      assert |a| == 0;
    }
  }

  /** The names agree in the first k characters, and there `a` ends or has the smaller character. */
  ghost predicate DecidedAt(a: string, b: string, k: nat) {
    k <= |a| && k < |b| && (forall j :: 0 <= j < k ==> a[j] == b[j]) && (k == |a| || a[k] < b[k])
  }

  /** Names compare character by character from the left, and a proper prefix comes first. */
  lemma {:induction false} BeforeIsLexicographic(a: string, b: string)
    ensures Before(a, b) <==> exists k: nat :: DecidedAt(a, b, k)
  {
    if |a| > 0 && |b| > 0 && a[0] == b[0] {
      BeforeIsLexicographic(a[1..], b[1..]);
      if k: nat :| DecidedAt(a[1..], b[1..], k) {
        assert forall j :: 0 < j < k + 1 ==> a[j] == a[1..][j - 1] && b[j] == b[1..][j - 1];
        assert DecidedAt(a, b, k + 1);
      }
      if k: nat :| DecidedAt(a, b, k) {
        assert k > 0;
        assert DecidedAt(a[1..], b[1..], k - 1);
      }
    } else if Before(a, b) {
      assert DecidedAt(a, b, 0);
    }
  }

  lemma {:induction false} BeforeIsTransitive(a: string, b: string, c: string)
    requires Before(a, b) && Before(b, c)
    ensures Before(a, c)
  {
    if |a| > 0 && a[0] == b[0] == c[0] {
      BeforeIsTransitive(a[1..], b[1..], c[1..]);
    }
  }

  /** isMoreRestrictive: the first difference decides, the name breaks what is left. */
  predicate MoreRestrictive(a: Policy, b: Policy) {
    if RestartThreshold(a) != RestartThreshold(b) then RestartThreshold(a) < RestartThreshold(b)
    else if DurationThreshold(a) != DurationThreshold(b) then DurationThreshold(a) < DurationThreshold(b)
    else if RequiresAllReplicas(a) != RequiresAllReplicas(b) then !RequiresAllReplicas(a)
    else if ComparesContainers(a) != ComparesContainers(b) then !ComparesContainers(a)
    else if IsDryRun(a) != IsDryRun(b) then !IsDryRun(a)
    else Before(a.name, b.name)
  }

  /** A strict total order as soon as names differ: of two policies exactly one is the more restrictive. */
  lemma OrderIsTotal(a: Policy, b: Policy)
    ensures !(MoreRestrictive(a, b) && MoreRestrictive(b, a))
    ensures a.name != b.name ==> MoreRestrictive(a, b) || MoreRestrictive(b, a)
    ensures !MoreRestrictive(a, a)
  {
    BeforeIsTotal(a.name, b.name);
    BeforeIsTotal(a.name, a.name);
  }

  lemma OrderIsTransitive(a: Policy, b: Policy, c: Policy)
    requires MoreRestrictive(a, b) && MoreRestrictive(b, c)
    ensures MoreRestrictive(a, c)
  {
    if Before(a.name, b.name) && Before(b.name, c.name) {
      BeforeIsTransitive(a.name, b.name, c.name);
    }
  }

  /** What the order compares before the name, most important first. */
  function Rank(p: Policy): (r: seq<int>)
    ensures |r| == 5
  {
    [RestartThreshold(p), DurationThreshold(p), if RequiresAllReplicas(p) then 1 else 0,
     if ComparesContainers(p) then 1 else 0, if IsDryRun(p) then 1 else 0]
  }

  /** `a` and `b` agree in the first k places and differ at place k in favour of `a`. */
  ghost predicate DiffersFirstAt(a: seq<int>, b: seq<int>, k: nat)
    requires |a| == |b|
  {
    k < |a| && (forall j :: 0 <= j < k ==> a[j] == b[j]) && a[k] < b[k]
  }

  /** The comparison is the lexicographic order of the ranks, and of the names where the ranks are equal. */
  lemma OrderIsLexicographic(a: Policy, b: Policy)
    ensures MoreRestrictive(a, b) <==>
            || (exists k: nat :: DiffersFirstAt(Rank(a), Rank(b), k))
            || (Rank(a) == Rank(b) && Before(a.name, b.name))
  {
    var x, y := Rank(a), Rank(b);
    assert x == y <==> x[0] == y[0] && x[1] == y[1] && x[2] == y[2] && x[3] == y[3] && x[4] == y[4];
    if MoreRestrictive(a, b) && x != y {
      var k: nat := if x[0] != y[0] then 0 else if x[1] != y[1] then 1 else if x[2] != y[2] then 2
                    else if x[3] != y[3] then 3 else 4;
      assert DiffersFirstAt(x, y, k);
    }
    if k: nat :| DiffersFirstAt(x, y, k) {
      assert k in {0, 1, 2, 3, 4};
    }
  }

  ghost predicate DistinctNames(policies: seq<Policy>) {
    forall i, j :: 0 <= i < j < |policies| ==> policies[i].name != policies[j].name
  }
}
