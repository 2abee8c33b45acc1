/** A policy's status: what one evaluation publishes, and what a history of competing writers adds up to. */
module Status {
  import opened Cluster

  const READY: string := "Ready"
  const DEGRADED: string := "Degraded"

  /** `detail` is the number the message text quotes. */
  datatype Condition = Condition(status: bool, generation: int, reason: string, detail: nat, transition: int)

  datatype PolicyStatus = PolicyStatus(
    phase: string,
    observedGeneration: int,
    scaledDown: int,
    active: seq<Ref>,
    truncated: nat,
    conditions: map<string, Condition>,
    lastEvaluation: Option<int>)

  /** What a pass has found by the time it writes status. */
  datatype Evaluation = Evaluation(generation: int, acted: nat, active: seq<Ref>, truncated: nat, errors: nat)

  /** meta.SetStatusCondition: the transition time moves only when the status flips. */
  function SetCondition(conditions: map<string, Condition>, kind: string, c: Condition): (r: map<string, Condition>)
    ensures kind in r && r[kind].(transition := c.transition) == c
    ensures r[kind].transition ==
            if kind in conditions && conditions[kind].status == c.status
            then conditions[kind].transition else c.transition
    ensures forall k :: k != kind ==> (k in r <==> k in conditions) && (k in r ==> r[k] == conditions[k])
  {
    if kind in conditions && conditions[kind].status == c.status
    then conditions[kind := c.(transition := conditions[kind].transition)]
    else conditions[kind := c]
  }

  function ReadyNow(e: Evaluation, now: int): Condition {
    if e.errors > 0
    then Condition(false, e.generation, "ReconcilePartiallyFailed", e.errors, now)
    else Condition(true, e.generation, "ReconcileSucceeded", 0, now)
  }

  function DegradedNow(e: Evaluation, now: int): Condition {
    if |e.active| > 0
    then Condition(true, e.generation, "WorkloadsScaledDown", |e.active|, now)
    else Condition(false, e.generation, "NoFailingWorkloads", 0, now)
  }

  function Publish(s: PolicyStatus, e: Evaluation, now: int): PolicyStatus {
    s.(phase := "Active",
       observedGeneration := e.generation,
       scaledDown := s.scaledDown + e.acted,
       active := e.active,
       truncated := e.truncated,
       conditions := SetCondition(SetCondition(s.conditions, READY, ReadyNow(e, now)), DEGRADED, DegradedNow(e, now)))
  }

  /** Ready says whether the pass met no error and Degraded whether it lists anything; their transition times
      move exactly when they flip, and no other condition is touched. */
  lemma ConditionsMeaning(s: PolicyStatus, e: Evaluation, now: int)
    ensures var p := Publish(s, e, now);
            && READY in p.conditions && DEGRADED in p.conditions
            && (p.conditions[READY].status <==> e.errors == 0)
            && (p.conditions[DEGRADED].status <==> e.active != [])
            && p.active == e.active && p.truncated == e.truncated && p.conditions[DEGRADED].detail == |p.active|
            && (forall kind :: kind in {READY, DEGRADED} ==>
                  && p.conditions[kind].generation == e.generation
                  && p.conditions[kind].transition ==
                       if kind in s.conditions && s.conditions[kind].status == p.conditions[kind].status
                       then s.conditions[kind].transition else now)
            && (forall kind :: kind !in {READY, DEGRADED} ==>
                  (kind in p.conditions <==> kind in s.conditions)
                  && (kind in s.conditions ==> p.conditions[kind] == s.conditions[kind]))
  {
    assert READY != DEGRADED by { assert |READY| != |DEGRADED|; }
  }

  lemma SetAgain(conditions: map<string, Condition>, r: Condition, d: Condition, r': Condition, d': Condition)
    requires r' == r.(transition := r'.transition) && d' == d.(transition := d'.transition)
    ensures var set1 := SetCondition(SetCondition(conditions, READY, r), DEGRADED, d);
            SetCondition(SetCondition(set1, READY, r'), DEGRADED, d') == set1
  {
    assert READY != DEGRADED by { assert |READY| != |DEGRADED|; }
  }

  /** Publishing the same findings again, with nothing more acted on, changes nothing, even at a later time. */
  lemma PublishAgain(s: PolicyStatus, e: Evaluation, now: int, last: Option<int>, later: int)
    ensures var p := Publish(s, e, now).(lastEvaluation := last);
            Publish(p, e.(acted := 0), later) == p
  {
    var again := e.(acted := 0);
    SetAgain(s.conditions, ReadyNow(e, now), DegradedNow(e, now), ReadyNow(again, later), DegradedNow(again, later));
    hide SetCondition;
  }

  datatype StatusWriter = Foreign | Initialised | Evaluated(e: Evaluation, now: int)

  datatype StatusVersion = StatusVersion(status: PolicyStatus, writer: StatusWriter)

  /** Every version the operator wrote is its change applied to the very version it replaced, and an
      evaluation wrote only because it had something to change. */
  ghost predicate Chained(h: seq<StatusVersion>) {
    forall k :: 0 < k < |h| ==> LinkOk(h[k - 1].status, h[k])
  }

  ghost predicate LinkOk(before: PolicyStatus, v: StatusVersion) {
    match v.writer
    case Foreign => true
    case Initialised => v.status == before.(phase := "Pending")
    case Evaluated(e, now) =>
      && Publish(before, e, now) != before
      && v.status == Publish(before, e, now).(lastEvaluation := Some(now))
  }

  /** What a writer contributed to the lifetime counter. */
  function Contribution(before: PolicyStatus, v: StatusVersion): int {
    match v.writer
    case Foreign => v.status.scaledDown - before.scaledDown
    case Initialised => 0
    case Evaluated(e, _) => e.acted
  }

  /** What the operator (`ours`), or everybody else, contributed from version `from` on. */
  function Share(h: seq<StatusVersion>, from: nat, ours: bool): int {
    if |h| <= from || |h| <= 1 then 0
    else
      var v := h[|h| - 1];
      Share(h[..|h| - 1], from, ours)
      + if v.writer.Foreign? == ours then 0 else Contribution(h[|h| - 2].status, v)
  }

  /** The lifetime counter is exact: over any stretch of any history it moves by what the operator's own
      versions counted plus what others added, so no retry counts twice and no other update is lost. */
  lemma {:induction false} CounterIsExact(h: seq<StatusVersion>, from: nat)
    requires 0 < from <= |h| && Chained(h)
    ensures h[|h| - 1].status.scaledDown ==
            h[from - 1].status.scaledDown + Share(h, from, true) + Share(h, from, false)
  {
    if |h| > from {
      CounterIsExact(h[..|h| - 1], from);
      assert LinkOk(h[|h| - 2].status, h[|h| - 1]);
    }
  }

  /** The operator wrote version `wrote` of what `h` adds to `h0`, and nothing else of it. */
  ghost predicate OnlyWrote(h0: seq<StatusVersion>, h: seq<StatusVersion>, wrote: Option<nat>) {
    && h0 <= h
    && (wrote.Some? ==> |h0| <= wrote.value < |h|)
    && forall k :: |h0| <= k < |h| ==> (h[k].writer.Foreign? <==> wrote != Some(k))
  }

  lemma {:induction false} ShareOfOneWrite(h0: seq<StatusVersion>, h: seq<StatusVersion>, wrote: Option<nat>)
    requires 0 < |h0| && OnlyWrote(h0, h, wrote)
    ensures Share(h, |h0|, true) ==
            if wrote.Some? then Contribution(h[wrote.value - 1].status, h[wrote.value]) else 0
  {
    if |h| > |h0| {
      ShareOfOneWrite(h0, h[..|h| - 1], if wrote == Some(|h| - 1) then None else wrote);
    }
  }

  lemma {:induction false} ShareAdds(h: seq<StatusVersion>, middle: nat, from: nat)
    requires 0 < from <= middle <= |h|
    ensures Share(h, from, true) == Share(h[..middle], from, true) + Share(h, middle, true)
  {
    if |h| == middle {
      assert h[..middle] == h;
    } else {
      ShareAdds(h[..|h| - 1], middle, from);
      assert h[..|h| - 1][..middle] == h[..middle];
    }
  }

  /** The evaluation time moves only together with a change to something else in the status. */
  lemma EvaluationTimeMeansChange(h: seq<StatusVersion>, k: nat)
    requires Chained(h) && 0 < k < |h| && !h[k].writer.Foreign?
    ensures h[k].status.lastEvaluation != h[k - 1].status.lastEvaluation ==>
              h[k].status.(lastEvaluation := None) != h[k - 1].status.(lastEvaluation := None)
  {
    assert LinkOk(h[k - 1].status, h[k]);
  }
}
