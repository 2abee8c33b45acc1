/** What a pass writes whoever interferes: every workload it touches is left by one call of the step system,
    made in the policy's name for a pod that claims it, and the versions written are that call's. */
module PassWrites {
  import opened Cluster
  import opened Policies
  import opened Clients
  import opened PassSpec
  import P = StopProtocol
  import O = StopOutcomes

  // ----- One call -----

  /** Version k is what a call with this stamp may make of the version it replaces. */
  ghost predicate WellWritten(es: seq<Entry>, k: nat, cron: bool, stamp: P.Stamp)
    requires 0 < k < |es|
  {
    var before, after := es[k - 1].workload, es[k].workload;
    && !P.IsStopped(cron, before)
    && if cron then after == P.Suspended(before, stamp)
       else after == P.Scaled(before) || after == P.Annotated(before, stamp, Count(before))
  }

  ghost predicate OurStop(es: seq<Entry>, from: nat, k: nat, cron: bool) {
    from <= k < |es| && es[k].ours && P.IsStopped(cron, es[k].workload)
  }

  lemma OurWrite(es0: seq<Entry>, c0: P.Call, trace: seq<P.Event>, es: seq<Entry>, c: P.Call, k: nat)
    requires Tracks(es0, c0, trace, es, c) && c0 == P.NewCall(c0.cron, c0.stamp, c0.dryRun)
    requires |es0| <= k < |es| && es[k].ours
    ensures 0 < k && !c0.dryRun && c.pc != P.Done(Ok(false)) && WellWritten(es, k, c0.cron, c0.stamp)
    ensures var t := P.Run(P.State(Found(es0), [c0]), trace);
            P.IsStopped(c0.cron, es[k].workload) <==> O.StoppedBy(t.history[k], 0)
  {
    var s := P.State(Found(es0), [c0]);
    var t := P.Run(s, trace);
    P.ExactRecord(s, trace);
    P.CallsKeepTheirNature(s, trace);
    assert P.VersionOk(t.history, k, t.calls);
    assert P.CallOk(t.history, 0, t.calls[0]);
    hide P.Run, P.Consistent, P.CallOk, P.StampOf;
    assert t.calls[0] == c;
  }

  /** Everything the client's log shows of a finished call, whoever else wrote in between: each of its versions
      is what the call may make of the version it replaced, at most one of them stops the workload, and a dry
      run or a call that answers `false` wrote none. */
  lemma CallIsVisible(es0: seq<Entry>, c0: P.Call, trace: seq<P.Event>, es: seq<Entry>, r: Result<bool>)
    requires IsCall(es0, c0, trace, es, r) && c0 == P.NewCall(c0.cron, c0.stamp, c0.dryRun)
    ensures es0 <= es
    ensures forall k :: |es0| <= k < |es| && es[k].ours ==>
              0 < k && !c0.dryRun && r != Ok(false) && WellWritten(es, k, c0.cron, c0.stamp)
    ensures forall k, l :: OurStop(es, |es0|, k, c0.cron) && OurStop(es, |es0|, l, c0.cron) ==> k == l
  {
    var c :| Tracks(es0, c0, trace, es, c) && c.pc == P.Done(r);
    var s := P.State(Found(es0), [c0]);
    forall k | |es0| <= k < |es| && es[k].ours
      ensures 0 < k && !c0.dryRun && r != Ok(false) && WellWritten(es, k, c0.cron, c0.stamp)
    {
      OurWrite(es0, c0, trace, es, c, k);
    }
    forall k: nat, l: nat | OurStop(es, |es0|, k, c0.cron) && OurStop(es, |es0|, l, c0.cron) ensures k == l {
      OurWrite(es0, c0, trace, es, c, k);
      OurWrite(es0, c0, trace, es, c, l);
      O.StopsAtMostOnce(s, trace, 0, k, l);
    }
  }

  /** A call that answers `true`, and is no dry run, stopped the workload or found it stopped. */
  lemma TrueIsVisible(es0: seq<Entry>, c0: P.Call, trace: seq<P.Event>, es: seq<Entry>)
    requires IsCall(es0, c0, trace, es, Ok(true)) && c0 == P.NewCall(c0.cron, c0.stamp, c0.dryRun) && !c0.dryRun
    ensures (exists k :: OurStop(es, |es0|, k, c0.cron)) <==>
            !O.Happened(O.Finds, P.State(Found(es0), [c0]), trace, 0)
    ensures exists k :: 0 <= k < |es| && P.IsStopped(c0.cron, es[k].workload)
  {
    var c :| Tracks(es0, c0, trace, es, c) && c.pc == P.Done(Ok(true));
    var s := P.State(Found(es0), [c0]);
    var t := P.Run(s, trace);
    O.TrueMeansStopped(s, trace, 0);
    P.ExactRecord(s, trace);
    P.CallsKeepTheirNature(s, trace);
    hide P.Run, O.Happened, P.Consistent;
    if k: nat :| OurStop(es, |es0|, k, c0.cron) {
      OurWrite(es0, c0, trace, es, c, k);
    }
    if k: nat :| k < |t.history| && O.StoppedBy(t.history[k], 0) {
      O.StopMeansDone(t, k, 0);
      NotOursAtFirst(s, trace, k);
      assert OurStop(es, |es0|, k, c0.cron);
    } else {
      O.FoundWasThere(s, trace, 0);
      var k :| 0 <= k < |t.history| && P.IsStopped(c0.cron, t.history[k].workload);
      assert P.IsStopped(c0.cron, es[k].workload);
    }
  }

  lemma NotOursAtFirst(s: P.State, trace: seq<P.Event>, k: nat)
    requires P.Initial(s) && k < |P.Run(s, trace).history| && P.Run(s, trace).history[k].writer != P.Outside
    ensures k >= |s.history|
  {
    assert s.history <= P.Run(s, trace).history;
    hide P.Run;
  }

  // ----- A pass -----

  /** The call a pass makes for this pod. */
  function CallFor(x: Pass, pod: Pod, ref: Ref): P.Call {
    P.NewCall(ref.kind == "CronJob", StampFor(x, pod), IsDryRun(x.policy))
  }

  ghost predicate Called(x: Pass, pod: Pod, ref: Ref, es0: seq<Entry>, es: seq<Entry>, acted: bool) {
    exists trace, r :: IsCall(es0, CallFor(x, pod, ref), trace, es, r) && (acted <==> r == Ok(true))
  }

  /** The workload was left alone, or one call was made for one pod that claims it. */
  ghost predicate Judged(x: Pass, pods: seq<Pod>, ref: Ref, es0: seq<Entry>, es: seq<Entry>, acted: bool) {
    || (es == es0 && !acted)
    || (exists pod :: pod in pods && Claim(x, pod) == Some(ref) && Called(x, pod, ref, es0, es, acted))
  }

  ghost predicate AllJudged(
    x: Pass, pods: seq<Pod>, before: map<Ref, seq<Entry>>, after: map<Ref, seq<Entry>>, acted: seq<Ref>)
  {
    && before.Keys == after.Keys
    && (forall ref :: ref in acted ==> ref in after)
    && (forall ref :: ref in after ==> Judged(x, pods, ref, before[ref], after[ref], ref in acted))
  }

  lemma NoneJudged(x: Pass, pods: seq<Pod>, all: map<Ref, seq<Entry>>)
    ensures AllJudged(x, pods, all, all, [])
  {
    hide Called, Claim;
  }

  lemma JudgedGrows(x: Pass, pods: seq<Pod>, pod: Pod, ref: Ref, es0: seq<Entry>, es: seq<Entry>, acted: bool)
    requires Judged(x, pods, ref, es0, es, acted)
    ensures Judged(x, pods + [pod], ref, es0, es, acted)
  {
    hide Called, Claim;
    assert forall q :: q in pods ==> q in pods + [pod];
  }

  lemma AllJudgedGrows(
    x: Pass, pods: seq<Pod>, pod: Pod, before: map<Ref, seq<Entry>>, after: map<Ref, seq<Entry>>, acted: seq<Ref>)
    requires AllJudged(x, pods, before, after, acted)
    ensures AllJudged(x, pods + [pod], before, after, acted)
  {
    hide Judged;
    forall ref | ref in after ensures Judged(x, pods + [pod], ref, before[ref], after[ref], ref in acted) {
      JudgedGrows(x, pods, pod, ref, before[ref], after[ref], ref in acted);
    }
  }

  /** Only these workloads may have been written. */
  ghost predicate Untouched(before: map<Ref, seq<Entry>>, after: map<Ref, seq<Entry>>, besides: set<Ref>) {
    before.Keys == after.Keys && forall ref :: ref in after && ref !in besides ==> after[ref] == before[ref]
  }

  /** One more workload judged, on a pod that claims it. */
  lemma OneMoreJudged(
    x: Pass, pods: seq<Pod>, pod: Pod, before: map<Ref, seq<Entry>>, middle: map<Ref, seq<Entry>>,
    after: map<Ref, seq<Entry>>, acted: seq<Ref>, ref: Ref, acts: bool)
    requires AllJudged(x, pods, before, middle, acted) && Untouched(middle, after, {ref}) && ref !in acted
    requires Claim(x, pod) == Some(ref) && (ref in middle ==> middle[ref] == before[ref])
    requires || (after == middle && !acts)
             || (ref in after && Called(x, pod, ref, middle[ref], after[ref], acts))
    ensures AllJudged(x, pods + [pod], before, after, if acts then acted + [ref] else acted)
  {
    hide Called, Claim;
    var acted' := if acts then acted + [ref] else acted;
    forall r | r in after ensures Judged(x, pods + [pod], r, before[r], after[r], r in acted') {
      if r != ref {
        JudgedGrows(x, pods, pod, r, before[r], after[r], r in acted);
      } else {
        assert pod in pods + [pod];
      }
    }
  }

  /** What became of one workload in a pass under interference: versions were only added; those of the operator
      are well written in the name of the policy, at most one of them stops the workload, and a dry run added
      none; and if the pass counts the workload it was at some version stopped. */
  ghost predicate LeftInOrder(x: Pass, pods: seq<Pod>, ref: Ref, es0: seq<Entry>, es: seq<Entry>, acted: bool) {
    var cron := ref.kind == "CronJob";
    && es0 <= es
    && (forall k :: |es0| <= k < |es| && es[k].ours ==>
          && !IsDryRun(x.policy) && 0 < k
          && exists pod :: pod in pods && Claim(x, pod) == Some(ref) && WellWritten(es, k, cron, StampFor(x, pod)))
    && (forall k, l :: OurStop(es, |es0|, k, cron) && OurStop(es, |es0|, l, cron) ==> k == l)
    && (acted && !IsDryRun(x.policy) ==> exists k :: 0 <= k < |es| && P.IsStopped(cron, es[k].workload))
    && ((forall pod :: pod in pods ==> Claim(x, pod) != Some(ref)) ==> es == es0 && !acted)
  }

  lemma JudgedIsInOrder(x: Pass, pods: seq<Pod>, ref: Ref, es0: seq<Entry>, es: seq<Entry>, acted: bool)
    requires Judged(x, pods, ref, es0, es, acted)
    ensures LeftInOrder(x, pods, ref, es0, es, acted)
  {
    hide Claim, IsCall, StampFor, WellWritten, P.IsStopped;
    if !(es == es0 && !acted) {
      var pod :| pod in pods && Claim(x, pod) == Some(ref) && Called(x, pod, ref, es0, es, acted);
      var trace, r :| IsCall(es0, CallFor(x, pod, ref), trace, es, r) && (acted <==> r == Ok(true));
      CallIsVisible(es0, CallFor(x, pod, ref), trace, es, r);
      if acted && !IsDryRun(x.policy) {
        TrueIsVisible(es0, CallFor(x, pod, ref), trace, es);
      }
    }
  }

  /** So it is for every workload, and in particular a dry-run pass writes nothing, whoever interferes. */
  lemma PassLeavesAllInOrder(
    x: Pass, pods: seq<Pod>, before: map<Ref, seq<Entry>>, after: map<Ref, seq<Entry>>, acted: seq<Ref>)
    requires AllJudged(x, pods, before, after, acted)
    ensures forall ref :: ref in after ==> LeftInOrder(x, pods, ref, before[ref], after[ref], ref in acted)
    ensures IsDryRun(x.policy) ==>
              forall ref, k :: ref in after && |before[ref]| <= k < |after[ref]| ==> !after[ref][k].ours
  {
    hide LeftInOrder, Judged;
    forall ref | ref in after ensures LeftInOrder(x, pods, ref, before[ref], after[ref], ref in acted) {
      JudgedIsInOrder(x, pods, ref, before[ref], after[ref], ref in acted);
    }
    forall ref, k | IsDryRun(x.policy) && ref in after && |before[ref]| <= k < |after[ref]|
      ensures !after[ref][k].ours
    {
      InOrderDryRun(x, pods, ref, before[ref], after[ref], ref in acted, k);
    }
  }

  lemma InOrderDryRun(
    x: Pass, pods: seq<Pod>, ref: Ref, es0: seq<Entry>, es: seq<Entry>, acted: bool, k: nat)
    requires LeftInOrder(x, pods, ref, es0, es, acted) && IsDryRun(x.policy) && |es0| <= k < |es|
    ensures !es[k].ours
  {
    hide Claim, StampFor, WellWritten;
  }
}
