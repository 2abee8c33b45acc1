/** Which stopped workloads a policy reports as its own. */
module Attribution {
  import opened Cluster
  import opened Policies
  import opened Status
  import opened Clients
  import opened Arbitration
  import P = StopProtocol

  const MAX_ACTIVE: nat := 1000
  const MAX_INT32: nat := 0x7fff_ffff

  /** Reading a missing annotation yields the empty string. */
  function Annotation(w: Workload, key: string): string {
    if key in w.annotations then w.annotations[key] else ""
  }

  /** The workload carries the policy's mark and lies where the policy looks. */
  predicate HeldBy(objects: Objects, p: Policy, allowed: Option<set<string>>, ref: Ref) {
    && ref in objects
    && ref.kind in Targets(p)
    && Annotation(objects[ref], P.REASON) != ""
    && Annotation(objects[ref], P.BY) == p.name
    && ref.namespace !in p.spec.excludeNamespaces
    && Admits(allowed, ref.namespace)
  }

  function HeldOfKind(
    listing: seq<Ref>, objects: Objects, p: Policy, allowed: Option<set<string>>, kind: string): (r: seq<Ref>)
    ensures forall ref :: ref in r <==> ref in listing && ref.kind == kind && HeldBy(objects, p, allowed, ref)
    ensures NoDuplicates(listing) ==> NoDuplicates(r)
  {
    if listing == [] then []
    else
      var front, last := listing[..|listing| - 1], listing[|listing| - 1];
      assert NoDuplicates(listing) ==> last !in front;
      HeldOfKind(front, objects, p, allowed, kind)
      + if last.kind == kind && HeldBy(objects, p, allowed, last) then [last] else []
  }

  const LISTED_KINDS: seq<string> := ["Deployment", "StatefulSet", "CronJob"]

  /** Held workloads of the first `n` kinds, kind by kind. */
  function Held(view: View, objects: Objects, p: Policy, allowed: Option<set<string>>, n: nat): (r: seq<Ref>)
    requires n <= |LISTED_KINDS|
    ensures forall ref :: ref in r <==>
              ref in view.listing && ref.kind in LISTED_KINDS[..n] && HeldBy(objects, p, allowed, ref)
    ensures NoDuplicates(view.listing) ==> NoDuplicates(r)
  {
    if n == 0 then []
    else
      var kind := LISTED_KINDS[n - 1];
      assert LISTED_KINDS[..n] == LISTED_KINDS[..n - 1] + [kind];
      assert kind !in LISTED_KINDS[..n - 1] by { KindsDiffer(); }
      Held(view, objects, p, allowed, n - 1) + HeldOfKind(view.listing, objects, p, allowed, kind)
  }

  lemma KindsDiffer()
    ensures NoDuplicates(LISTED_KINDS)
  {
    assert |"Deployment"| == 10 && |"StatefulSet"| == 11 && |"CronJob"| == 7;
  }

  predicate ListingFails(view: View, p: Policy) {
    exists kind :: kind in LISTED_KINDS && kind in Targets(p) && ListWorkloads(kind) in view.faults
  }

  /** The listing loop for one kind, written out three times in the source. */
  method FindActiveOfKind(
    listing: seq<Ref>, objects: Objects, p: Policy, allowed: Option<set<string>>, kind: string)
    returns (active: seq<Ref>)
    requires kind in Targets(p)
    ensures active == HeldOfKind(listing, objects, p, allowed, kind)
  {
    active := [];
    for i := 0 to |listing|
      invariant active == HeldOfKind(listing[..i], objects, p, allowed, kind)
    {
      var ref := listing[i];
      assert listing[..i + 1][..i] == listing[..i];
      if ref.kind != kind || ref !in objects || Annotation(objects[ref], P.REASON) == "" {
        continue;
      }
      if Annotation(objects[ref], P.BY) != p.name {
        continue;
      }
      if ref.namespace in p.spec.excludeNamespaces {
        continue;
      }
      if !Admits(allowed, ref.namespace) {
        continue;
      }
      active := active + [ref];
    }
    assert listing[..|listing|] == listing;
  }

  /** findActiveScaledDownWorkloads: on an error the list is dropped, not cut short. */
  method FindActive(client: Client, p: Policy, allowed: Option<set<string>>) returns (r: Result<seq<Ref>>)
    requires client.Valid()
    ensures r == if ListingFails(client.view, p) then Err(Unavailable)
                 else Ok(Held(client.view, client.Objects(), p, allowed, |LISTED_KINDS|))
  {
    var active := [];
    var objects := client.Objects();
    for n := 0 to |LISTED_KINDS|
      invariant active == Held(client.view, objects, p, allowed, n)
      invariant forall kind :: kind in LISTED_KINDS[..n] && kind in Targets(p) ==>
                                 ListWorkloads(kind) !in client.view.faults
    {
      var kind := LISTED_KINDS[n];
      assert LISTED_KINDS[..n + 1] == LISTED_KINDS[..n] + [kind];
      if kind in Targets(p) {
        if ListWorkloads(kind) in client.view.faults {
          return Err(Unavailable);
        }
        var more := FindActiveOfKind(client.view.listing, objects, p, allowed, kind);
        active := active + more;
      } else {
        NoneOfKind(client.view.listing, objects, p, allowed, kind);
      }
    }
    r := Ok(active);
  }

  lemma {:induction false} NoneOfKind(
    listing: seq<Ref>, objects: Objects, p: Policy, allowed: Option<set<string>>, kind: string)
    requires kind !in Targets(p)
    ensures HeldOfKind(listing, objects, p, allowed, kind) == []
  {
    if listing != [] {
      NoneOfKind(listing[..|listing| - 1], objects, p, allowed, kind);
    }
  }

  datatype Findings = Findings(active: seq<Ref>, truncated: nat, failed: bool)

  /** What a pass makes of the listing for its status. */
  function Cap(found: Result<seq<Ref>>): Findings {
    if found.Err? then Findings([], 0, true)
    else if |found.value| > MAX_ACTIVE then
      var omitted := |found.value| - MAX_ACTIVE;
      Findings(found.value[..MAX_ACTIVE], if omitted < MAX_INT32 then omitted else MAX_INT32, false)
    else Findings(found.value, 0, false)
  }

  function ActiveFindings(view: View, objects: Objects, p: Policy, allowed: Option<set<string>>): Findings {
    Cap(if ListingFails(view, p) then Err(Unavailable) else Ok(Held(view, objects, p, allowed, |LISTED_KINDS|)))
  }

  function HeldSet(objects: Objects, p: Policy, allowed: Option<set<string>>): set<Ref> {
    set ref | ref in objects && HeldBy(objects, p, allowed, ref)
  }

  lemma {:induction false} DistinctCount(s: seq<Ref>, all: set<Ref>)
    requires NoDuplicates(s) && forall ref :: ref in s <==> ref in all
    ensures |s| == |all|
  {
    if s == [] {
      assert all == {};
    } else {
      var front, last := s[..|s| - 1], s[|s| - 1];
      assert s == front + [last];
      DistinctCount(front, all - {last});
    }
  }

  /** Listed plus omitted is the number of held workloads, up to the largest number the omitted count can hold;
      the list holds each at most once and at most MAX_ACTIVE of them, and it is empty only if none is held. */
  lemma FindingsAreComplete(view: View, objects: Objects, p: Policy, allowed: Option<set<string>>)
    requires NoDuplicates(view.listing) && forall ref :: ref in view.listing <==> ref in objects
    requires forall ref :: ref in objects ==> ref.kind in LISTED_KINDS
    requires !ListingFails(view, p)
    ensures var f, n := ActiveFindings(view, objects, p, allowed), |HeldSet(objects, p, allowed)|;
            && |f.active| + f.truncated == (if n <= MAX_ACTIVE + MAX_INT32 then n else MAX_ACTIVE + MAX_INT32)
            && |f.active| == (if n <= MAX_ACTIVE then n else MAX_ACTIVE) && NoDuplicates(f.active)
            && (forall ref :: ref in f.active ==> HeldBy(objects, p, allowed, ref))
            && (f.truncated == 0 ==> forall ref :: HeldBy(objects, p, allowed, ref) ==> ref in f.active)
            && (f.active == [] <==> HeldSet(objects, p, allowed) == {})
  {
    var held := Held(view, objects, p, allowed, |LISTED_KINDS|);
    assert LISTED_KINDS[..|LISTED_KINDS|] == LISTED_KINDS;
    DistinctCount(held, HeldSet(objects, p, allowed));
  }

  /** Whether a workload is held is a matter of its annotations and place: somebody who scales it back up, or
      lifts the suspension, does not take it off the list. */
  lemma RestoredIsStillHeld(
    objects: Objects, p: Policy, allowed: Option<set<string>>, ref: Ref, replicas: Option<nat>, suspend: Option<bool>)
    requires ref in objects
    ensures HeldBy(objects[ref := objects[ref].(replicas := replicas, suspend := suspend)], p, allowed, ref) <==>
            HeldBy(objects, p, allowed, ref)
  {
  }

  /** No workload is held by two policies. */
  lemma HoldersAreDisjoint(
    view: View, objects: Objects, p: Policy, q: Policy, allowed: Option<set<string>>, allowed': Option<set<string>>)
    requires p.name != q.name
    ensures forall ref :: ref in ActiveFindings(view, objects, p, allowed).active ==>
              ref !in ActiveFindings(view, objects, q, allowed').active
  {
    var f, g := ActiveFindings(view, objects, p, allowed), ActiveFindings(view, objects, q, allowed');
    forall ref | ref in f.active ensures ref !in g.active {
      assert HeldBy(objects, p, allowed, ref);
    }
  }

  /** The Degraded condition a pass publishes tells whether anything is held, unless the listing failed: then
      it reads false whatever is held. */
  lemma DegradedMeaning(
    view: View, objects: Objects, p: Policy, allowed: Option<set<string>>,
    s: PolicyStatus, acted: nat, errors: nat, now: int)
    requires forall ref :: ref in view.listing <==> ref in objects
    requires forall ref :: ref in objects ==> ref.kind in LISTED_KINDS
    ensures var f := ActiveFindings(view, objects, p, allowed);
            var e := Evaluation(p.generation, acted, f.active, f.truncated, errors);
            Publish(s, e, now).conditions[DEGRADED].status <==>
            !ListingFails(view, p) && exists ref :: HeldBy(objects, p, allowed, ref)
  {
    var f := ActiveFindings(view, objects, p, allowed);
    var held := Held(view, objects, p, allowed, |LISTED_KINDS|);
    assert LISTED_KINDS[..|LISTED_KINDS|] == LISTED_KINDS;
    if f.active != [] {
      assert f.active[0] in held;
    }
    if ref :| HeldBy(objects, p, allowed, ref) {
      assert ref in held;
    }
  }

  /** A workload stopped in a policy's name is held by it from then on. */
  lemma StoppedIsHeld(
    objects: Objects, p: Policy, allowed: Option<set<string>>, ref: Ref, w: Workload, stamp: P.Stamp)
    requires ref in objects && objects[ref] == StoppedAs(w, ref.kind == "CronJob", stamp)
    requires stamp.reason != "" && stamp.policy == p.name
    requires ref.kind in Targets(p) && ref.namespace !in p.spec.excludeNamespaces && Admits(allowed, ref.namespace)
    ensures HeldBy(objects, p, allowed, ref)
  {
    P.RecordReadsBack(w, stamp, Count(w));
    assert P.RecordOf(P.Annotated(w, stamp, Count(w))) == Some(P.Record(stamp, P.Decimal.Format(Count(w))));
  }
}
