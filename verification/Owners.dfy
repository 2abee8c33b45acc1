/** From a pod to the workload that owns it, and from a workload to the pods that speak for it. */
module Owners {
  import opened Cluster
  import opened Correlation
  import opened Clients

  /** metav1.GetControllerOf: the first reference that says it is the controller. */
  function Controller(owners: seq<OwnerRef>): Option<OwnerRef> {
    if owners == [] then None
    else if owners[0].controller then Some(owners[0])
    else Controller(owners[1..])
  }

  function Find(list: seq<Intermediate>, kind: string, namespace: string, name: string): (r: Option<Intermediate>)
    ensures r.Some? ==> r.value in list && (r.value.kind, r.value.namespace, r.value.name) == (kind, namespace, name)
  {
    if list == [] then None
    else if list[0].kind == kind && list[0].namespace == namespace && list[0].name == name then Some(list[0])
    else Find(list[1..], kind, namespace, name)
  }

  /** The workload kind above a ReplicaSet or a Job. */
  function ParentKind(kind: string): string {
    if kind == "ReplicaSet" then "Deployment" else "CronJob"
  }

  /** resolveOwnerWorkload: an intermediate replaced under the same name does not own the pod. */
  function ResolveOwner(view: View, pod: Pod): (r: Result<Option<Ref>>)
    ensures r.Ok? && r.value.Some? ==> r.value.value.kind in KINDS && r.value.value.namespace == pod.namespace
  {
    var owner := Controller(pod.owners);
    if owner.None? then Ok(None)
    else
      var kind, name := owner.value.kind, owner.value.name;
      if kind == "StatefulSet" then Ok(Some(Ref("StatefulSet", pod.namespace, name)))
      else if kind != "ReplicaSet" && kind != "Job" then Ok(None)
      else if GetIntermediate(kind, pod.namespace, name) in view.faults then Err(Unavailable)
      else
        var found := Find(view.intermediates, kind, pod.namespace, name);
        if found.None? || found.value.uid != owner.value.uid then Ok(None)
        else
          var parent := Controller(found.value.owners);
          if parent.Some? && parent.value.kind == ParentKind(kind)
          then Ok(Some(Ref(ParentKind(kind), pod.namespace, parent.value.name)))
          else Ok(None)
  }

  /** Names identify the intermediates of one kind and namespace, as the API server guarantees. */
  ghost predicate UniqueIntermediates(view: View) {
    forall a, b :: a in view.intermediates && b in view.intermediates ==>
                     ((a.kind, a.namespace, a.name) == (b.kind, b.namespace, b.name) ==> a == b)
  }

  /** Up from the pod through the very intermediate its controller reference means, uid and all. */
  ghost predicate OwnsThrough(view: View, pod: Pod, i: Intermediate, ref: Ref) {
    var owner, parent := Controller(pod.owners), Controller(i.owners);
    && i in view.intermediates && i.namespace == pod.namespace == ref.namespace
    && owner.Some? && (owner.value.kind, owner.value.name, owner.value.uid) == (i.kind, i.name, i.uid)
    && i.kind in {"ReplicaSet", "Job"}
    && parent.Some? && (parent.value.kind, parent.value.name) == (ref.kind, ref.name) && ref.kind == ParentKind(i.kind)
  }

  lemma {:induction false} FindFinds(list: seq<Intermediate>, i: Intermediate)
    requires i in list
    requires forall b :: b in list && b.kind == i.kind && b.namespace == i.namespace && b.name == i.name ==> b == i
    ensures Find(list, i.kind, i.namespace, i.name) == Some(i)
  {
    if list[0] != i {
      assert list[0] in list;
      FindFinds(list[1..], i);
    }
  }

  /** A pod's owner is the StatefulSet its controller reference names, or what owns it through exactly one
      ReplicaSet or Job; nothing else is ever an owner. */
  lemma OwnerIsWhoOwnsIt(view: View, pod: Pod, ref: Ref)
    requires UniqueIntermediates(view) && ResolveOwner(view, pod).Ok?
    ensures ResolveOwner(view, pod).value == Some(ref) <==>
            || (Controller(pod.owners).Some? && Controller(pod.owners).value.kind == "StatefulSet"
                && ref == Ref("StatefulSet", pod.namespace, Controller(pod.owners).value.name))
            || exists i :: OwnsThrough(view, pod, i, ref)
  {
    if i :| OwnsThrough(view, pod, i, ref) {
      FindFinds(view.intermediates, i);
    }
    var owner := Controller(pod.owners);
    if owner.Some? {
      var found := Find(view.intermediates, owner.value.kind, pod.namespace, owner.value.name);
      if ResolveOwner(view, pod).value == Some(ref) && owner.value.kind != "StatefulSet" {
        assert OwnsThrough(view, pod, found.value, ref);
      }
    }
  }

  /** workloadKey. */
  function Key(ref: Ref): string {
    ref.namespace + "/" + ref.kind + "/" + ref.name
  }

  function FirstSlash(s: string): nat {
    if s == [] || s[0] == '/' then 0 else 1 + FirstSlash(s[1..])
  }

  lemma {:induction false} FirstSlashFound(a: string, x: string)
    requires '/' !in a
    ensures FirstSlash(a + "/" + x) == |a|
  {
    if a != [] {
      FirstSlashFound(a[1..], x);
      assert (a + "/" + x)[1..] == a[1..] + "/" + x;
    }
  }

  lemma SlashSplitsOnce(a: string, x: string, b: string, y: string)
    requires '/' !in a && '/' !in b && a + "/" + x == b + "/" + y
    ensures a == b && x == y
  {
    var s := a + "/" + x;
    FirstSlashFound(a, x);
    FirstSlashFound(b, y);
    assert a == s[..|a|] == b;
    assert x == s[|a| + 1..] == y;
  }

  /** Two workloads never share a key, as namespaces and kinds contain no slash. */
  lemma KeyIsInjective(a: Ref, b: Ref)
    requires '/' !in a.namespace && '/' !in a.kind && '/' !in b.namespace && '/' !in b.kind
    ensures Key(a) == Key(b) <==> a == b
  {
    if Key(a) == Key(b) {
      assert Key(a) == a.namespace + "/" + (a.kind + "/" + a.name);
      assert Key(b) == b.namespace + "/" + (b.kind + "/" + b.name);
      SlashSplitsOnce(a.namespace, a.kind + "/" + a.name, b.namespace, b.kind + "/" + b.name);
      SlashSplitsOnce(a.kind, a.name, b.kind, b.name);
    }
  }

  /** Without that guarantee two workloads can be taken for one. */
  lemma KeyClash(kind: string, a: string, b: string, c: string)
    ensures var one, other := Ref(kind, a + "/" + kind + "/" + b, c), Ref(kind, a, b + "/" + kind + "/" + c);
            Key(one) == Key(other) && one != other
  {
    var one, other := Ref(kind, a + "/" + kind + "/" + b, c), Ref(kind, a, b + "/" + kind + "/" + c);
    assert |one.namespace| > |other.namespace|;
    assert Key(one) == Key(other);
  }

  // ----- The pods that speak for a workload -----

  predicate Refers(owners: seq<OwnerRef>, kind: string, name: string) {
    exists o :: o in owners && o.kind == kind && o.name == name
  }

  function MatchingPods(pods: seq<Pod>, namespace: string, selector: Selector): (r: seq<Pod>)
    ensures forall p :: p in r <==> p in pods && p.namespace == namespace && selector.matches(p.labels)
  {
    if pods == [] then []
    else
      var last := pods[|pods| - 1];
      MatchingPods(pods[..|pods| - 1], namespace, selector)
      + if last.namespace == namespace && selector.matches(last.labels) then [last] else []
  }

  function JobPods(pods: seq<Pod>, namespace: string, job: string): (r: seq<Pod>)
    ensures forall p :: p in r <==> p in pods && p.namespace == namespace && Refers(p.owners, "Job", job)
  {
    if pods == [] then []
    else
      var last := pods[|pods| - 1];
      JobPods(pods[..|pods| - 1], namespace, job)
      + if last.namespace == namespace && Refers(last.owners, "Job", job) then [last] else []
  }

  predicate IsOwnedJob(j: Intermediate, ref: Ref) {
    j.kind == "Job" && j.namespace == ref.namespace && Refers(j.owners, "CronJob", ref.name)
  }

  function OwnedJobs(list: seq<Intermediate>, ref: Ref): (r: seq<Intermediate>)
    ensures forall j :: j in r <==> j in list && IsOwnedJob(j, ref)
  {
    if list == [] then []
    else
      var last := list[|list| - 1];
      OwnedJobs(list[..|list| - 1], ref) + if IsOwnedJob(last, ref) then [last] else []
  }

  lemma OneMorePod(pods: seq<Pod>, i: nat, namespace: string, job: string)
    requires i < |pods|
    ensures JobPods(pods[..i + 1], namespace, job) ==
            JobPods(pods[..i], namespace, job)
            + if pods[i].namespace == namespace && Refers(pods[i].owners, "Job", job) then [pods[i]] else []
  {
    hide Refers;
    assert pods[..i + 1][..i] == pods[..i];
  }

  lemma OneMoreOwned(list: seq<Intermediate>, i: nat, ref: Ref)
    requires i < |list|
    ensures OwnedJobs(list[..i + 1], ref) ==
            OwnedJobs(list[..i], ref) + if IsOwnedJob(list[i], ref) then [list[i]] else []
  {
    hide IsOwnedJob;
    assert list[..i + 1][..i] == list[..i];
  }

  /** The newest of the jobs; of jobs created at the same instant, the last listed. */
  function NewestJob(jobs: seq<Intermediate>): (r: Intermediate)
    requires jobs != []
    ensures r in jobs && forall j :: j in jobs ==> j.created <= r.created
  {
    var last := jobs[|jobs| - 1];
    if |jobs| == 1 then last
    else
      var rest := NewestJob(jobs[..|jobs| - 1]);
      if last.created >= rest.created then last else rest
  }

  ghost predicate SortedByCreation(jobs: seq<Intermediate>) {
    forall i, j :: 0 <= i < j < |jobs| ==> jobs[i].created <= jobs[j].created
  }

  ghost predicate SameJobs(a: seq<Intermediate>, b: seq<Intermediate>) {
    multiset(a) == multiset(b)
  }

  lemma InsertKeepsJobs(sorted: seq<Intermediate>, k: nat, j: Intermediate)
    requires k <= |sorted|
    ensures SameJobs(sorted[..k] + [j] + sorted[k..], sorted + [j])
  {
    assert sorted == sorted[..k] + sorted[k..];
  }

  method Insert(sorted: seq<Intermediate>, j: Intermediate) returns (r: seq<Intermediate>)
    requires SortedByCreation(sorted)
    ensures SortedByCreation(r) && SameJobs(r, sorted + [j]) && |r| == |sorted| + 1
    ensures r[|r| - 1] == if sorted == [] || j.created >= sorted[|sorted| - 1].created then j else sorted[|sorted| - 1]
  {
    var k := |sorted|;
    while k > 0 && sorted[k - 1].created > j.created
      invariant 0 <= k <= |sorted|
      invariant forall m :: k <= m < |sorted| ==> sorted[m].created > j.created
    {
      k := k - 1;
    }
    InsertKeepsJobs(sorted, k, j);
    hide SameJobs;
    r := sorted[..k] + [j] + sorted[k..];
  }

  /** These are the jobs in the order of their creation, the newest last. */
  ghost predicate Sorts(sorted: seq<Intermediate>, jobs: seq<Intermediate>) {
    && SortedByCreation(sorted) && SameJobs(sorted, jobs)
    && |sorted| == |jobs|
    && (jobs != [] ==> sorted[|sorted| - 1] == NewestJob(jobs))
  }

  lemma SortsOneMore(jobs: seq<Intermediate>, i: nat, sorted: seq<Intermediate>, longer: seq<Intermediate>)
    requires i < |jobs| && Sorts(sorted, jobs[..i])
    requires SortedByCreation(longer) && SameJobs(longer, sorted + [jobs[i]]) && |longer| == i + 1
    requires longer[i] == if i == 0 || jobs[i].created >= sorted[i - 1].created then jobs[i] else sorted[i - 1]
    ensures Sorts(longer, jobs[..i + 1])
  {
    hide SortedByCreation;
    assert jobs[..i + 1] == jobs[..i] + [jobs[i]];
    assert jobs[..i + 1][..i] == jobs[..i];
  }

  /** slices.SortFunc by creation time, as a stable insertion sort. */
  method SortByCreation(jobs: seq<Intermediate>) returns (sorted: seq<Intermediate>)
    ensures Sorts(sorted, jobs)
  {
    sorted := [];
    assert Sorts(sorted, jobs[..0]) && SortedByCreation(sorted);
    hide SameJobs, SortedByCreation, Sorts;
    for i := 0 to |jobs|
      invariant Sorts(sorted, jobs[..i]) && SortedByCreation(sorted) && |sorted| == i
    {
      ghost var before := sorted;
      sorted := Insert(sorted, jobs[i]);
      SortsOneMore(jobs, i, before, sorted);
    }
    assert jobs[..|jobs|] == jobs;
  }

  /** allReplicasFailing, given what reading the workload returned. */
  ghost function ReplicasAnswer(view: View, p: Policy, now: int, ref: Ref, read: Result<Workload>): Answer {
    if ref.kind == "Deployment" || ref.kind == "StatefulSet" then
      if read.Err? then Failed
      else if Count(read.value) == 0 then No
      else if !read.value.selector.valid || ListPods(ref.namespace) in view.faults then Failed
      else if ReplicasFail(p, MatchingPods(view.pods, ref.namespace, read.value.selector), now) then Yes
      else No
    else if ref.kind == "CronJob" then
      if read.Err? || ListJobs(ref.namespace) in view.faults then Failed
      else
        var owned := OwnedJobs(view.intermediates, ref);
        if owned == [] then No
        else if ListPods(ref.namespace) in view.faults then Failed
        else if ReplicasFail(p, JobPods(view.pods, ref.namespace, NewestJob(owned).name), now) then Yes
        else No
    else No
  }

  lemma NothingListed(p: Policy, now: int, ref: Ref, job: string)
    ensures OwnedJobs([], ref) == [] && JobPods([], ref.namespace, job) == [] && !ReplicasFail(p, [], now)
  {
  }

  /** The CronJob case (helpers.go:395-440). */
  method NewestJobFailing(client: Client, p: Policy, now: int, ref: Ref) returns (r: Answer)
    requires client.Valid() && ref.kind == "CronJob"
    ensures r == ReplicasAnswer(client.view, p, now, ref, client.Read(ref))
  {
    hide ReplicasFail, Refers, IsOwnedJob, OwnedJobs, JobPods, NewestJob, SortedByCreation, SameJobs;
    var view := client.view;
    if client.Read(ref).Err? || ListJobs(ref.namespace) in view.faults {
      return Failed;
    }
    var owned := [];
    NothingListed(p, now, ref, "");
    for i := 0 to |view.intermediates|
      invariant owned == OwnedJobs(view.intermediates[..i], ref)
    {
      OneMoreOwned(view.intermediates, i, ref);
      if IsOwnedJob(view.intermediates[i], ref) {
        owned := owned + [view.intermediates[i]];
      }
    }
    assert view.intermediates[..|view.intermediates|] == view.intermediates;
    if |owned| == 0 {
      return No;
    }
    var sorted := SortByCreation(owned);
    var latest := sorted[|sorted| - 1];
    if ListPods(ref.namespace) in view.faults {
      return Failed;
    }
    var jobPods := [];
    NothingListed(p, now, ref, latest.name);
    for i := 0 to |view.pods|
      invariant jobPods == JobPods(view.pods[..i], ref.namespace, latest.name)
    {
      OneMorePod(view.pods, i, ref.namespace, latest.name);
      if view.pods[i].namespace == ref.namespace && Refers(view.pods[i].owners, "Job", latest.name) {
        jobPods := jobPods + [view.pods[i]];
      }
    }
    assert view.pods[..|view.pods|] == view.pods;
    if |jobPods| == 0 {
      return No;
    }
    var failing := ReplicasAllFailing(p, jobPods, now);
    r := if failing then Yes else No;
  }

  method AllReplicasFailing(client: Client, p: Policy, now: int, ref: Ref) returns (r: Answer)
    requires client.Valid()
    ensures r == ReplicasAnswer(client.view, p, now, ref, client.Read(ref))
  {
    if ref.kind == "CronJob" {
      r := NewestJobFailing(client, p, now, ref);
      return;
    }
    if ref.kind != "Deployment" && ref.kind != "StatefulSet" {
      return No;
    }
    var read := client.Read(ref);
    if read.Err? {
      return Failed;
    }
    if Count(read.value) == 0 {
      return No;
    }
    if !read.value.selector.valid || ListPods(ref.namespace) in client.view.faults {
      return Failed;
    }
    var pods := MatchingPods(client.view.pods, ref.namespace, read.value.selector);
    if |pods| == 0 {
      return No;
    }
    var failing := ReplicasAllFailing(p, pods, now);
    r := if failing then Yes else No;
  }

  /** An owned job created after all other owned jobs. */
  ghost predicate IsNewest(list: seq<Intermediate>, ref: Ref, j: Intermediate) {
    && j in list && IsOwnedJob(j, ref)
    && forall k :: k in list && IsOwnedJob(k, ref) && k != j ==> k.created < j.created
  }

  /** Newest job decides: when creation times differ, a CronJob counts as failing exactly if the owned job
      created after all others has pods and they all fail, however jobs and pods are listed. */
  lemma NewestJobDecides(view: View, p: Policy, now: int, ref: Ref, read: Result<Workload>, pods: seq<Pod>)
    requires ref.kind == "CronJob" && read.Ok?
    requires ListJobs(ref.namespace) !in view.faults && ListPods(ref.namespace) !in view.faults
    requires forall a, b :: a in OwnedJobs(view.intermediates, ref) && b in OwnedJobs(view.intermediates, ref) ==>
               a.created == b.created ==> a == b
    requires forall pod :: pod in pods <==> pod in view.pods
    ensures ReplicasAnswer(view, p, now, ref, read) == Yes <==>
            exists j :: IsNewest(view.intermediates, ref, j)
                        && ReplicasFail(p, JobPods(pods, ref.namespace, j.name), now)
  {
    var owned := OwnedJobs(view.intermediates, ref);
    if owned != [] {
      var newest := NewestJob(owned);
      assert IsNewest(view.intermediates, ref, newest);
      ReplicasFailIgnoresOrder(p, JobPods(pods, ref.namespace, newest.name),
                               JobPods(view.pods, ref.namespace, newest.name), now);
    }
    if j :| IsNewest(view.intermediates, ref, j) && ReplicasFail(p, JobPods(pods, ref.namespace, j.name), now) {
      assert j in owned && j == NewestJob(owned);
    }
  }

  /** isWorkloadExcludedBySelector, given what reading the workload returned. */
  function ExclusionAnswer(p: Policy, read: Result<Workload>): Answer {
    if p.spec.excludeWorkloadSelector.None? then No
    else
      var selector := p.spec.excludeWorkloadSelector.value;
      if !selector.valid then Failed
      else if read.Err? then (if read.error.NotFound? then No else Failed)
      else if selector.matches(read.value.labels) then Yes
      else No
  }
}
