/** What a finished stop may be believed about: when the stopped workload carries the record of the call that
    stopped it, when a call that reports success stopped anything, and the runs in which neither holds. */
module StopOutcomes {
  import opened Cluster
  import opened StopProtocol
  import Decimal

  // ----- What a call was shown -----

  /** The workload that this event shows to a read of call `i`, if that is what the event is. */
  function Shown(s: State, e: Event, i: nat): Option<Workload>
    requires |s.history| > 0
  {
    if e.Operator? && e.call == i && i < |s.calls| && IsRead(s.calls[i].pc) then
      var v := Pick(|s.history|, e.choice);
      if v.Some? then Some(s.history[v.value].workload) else None
    else None
  }

  /** The guard of the branch that leaves the annotate loop without a record: a conflicting attempt has left a
      count behind, and the re-read shows zero. */
  ghost predicate SkipsAt(s: State, e: Event, i: nat)
    requires |s.history| > 0
  {
    && Shown(s, e, i).Some? && s.calls[i].pc.AnnotateGet?
    && s.calls[i].previous > 0 && Count(Shown(s, e, i).value) == 0
  }

  /** Past the first check, the call is shown a workload that is stopped already. */
  ghost predicate FindsAt(s: State, e: Event, i: nat)
    requires |s.history| > 0
  {
    && Shown(s, e, i).Some? && (s.calls[i].pc.ScaleGet? || s.calls[i].pc.SuspendGet?)
    && IsStopped(s.calls[i].cron, Shown(s, e, i).value)
  }

  ghost predicate SeesStopAt(s: State, e: Event, i: nat)
    requires |s.history| > 0
  {
    Shown(s, e, i).Some? && IsStopped(s.calls[i].cron, Shown(s, e, i).value)
  }

  datatype Happening = Skips | Finds | SeesStop

  ghost predicate At(what: Happening, s: State, e: Event, i: nat)
    requires |s.history| > 0
  {
    match what
    case Skips => SkipsAt(s, e, i)
    case Finds => FindsAt(s, e, i)
    case SeesStop => SeesStopAt(s, e, i)
  }

  /** It happened to call `i` at some event of the run. */
  ghost predicate Happened(what: Happening, s: State, events: seq<Event>, i: nat)
    requires |s.history| > 0
  {
    events != [] &&
    (var before := events[..|events| - 1];
     Happened(what, s, before, i) || At(what, Run(s, before), events[|events| - 1], i))
  }

  // ----- Whose record a stop carries -----

  lemma SkipStep(t: State, e: Event, i: nat)
    requires |t.history| > 0 && i < |t.calls|
    ensures Apply(t, e).calls[i].skipped <==> t.calls[i].skipped || At(Skips, t, e, i)
  {
  }

  /** The call's memory of having skipped is exactly the guard having been met. */
  lemma {:induction false} SkippedMeansServed(s: State, events: seq<Event>, i: nat)
    requires Initial(s) && i < |s.calls|
    ensures Run(s, events).calls[i].skipped <==> Happened(Skips, s, events, i)
  {
    if events != [] {
      SkippedMeansServed(s, events[..|events| - 1], i);
      SkipStep(Run(s, events[..|events| - 1]), events[|events| - 1], i);
      hide At, Apply;
    }
  }

  /** Version j is call i's record of the count it replaced. */
  ghost predicate Records(t: State, j: nat, i: nat) {
    && 0 < j < |t.history| && i < |t.calls|
    && t.history[j].writer == Annotator(i)
    && t.history[j].workload ==
         Annotated(t.history[j - 1].workload, t.calls[i].stamp, Count(t.history[j - 1].workload))
  }

  /** What can be read back from version k is call i's stamp and the count that call recorded earlier. */
  ghost predicate CarriesRecordOf(t: State, k: nat, i: nat)
    requires k < |t.history|
  {
    exists j :: 0 < j < k && Records(t, j, i)
      && RecordOf(t.history[k].workload) ==
           Some(Record(t.calls[i].stamp, Decimal.Format(Count(t.history[j - 1].workload))))
  }

  /** Whatever record call i wrote can still be read from version k. */
  ghost predicate RecordIntact(t: State, k: nat, i: nat)
    requires k < |t.history|
  {
    forall j :: 0 < j <= k && Records(t, j, i) ==> RecordOf(t.history[k].workload) == RecordOf(t.history[j].workload)
  }

  lemma RecordsOnce(t: State, j: nat, i: nat)
    requires Consistent(t) && j < |t.history| && t.history[j].writer == Annotator(i)
    ensures Records(t, j, i) && t.calls[i].recorded == Some(j)
    ensures RecordOf(t.history[j].workload) ==
            Some(Record(t.calls[i].stamp, Decimal.Format(Count(t.history[j - 1].workload))))
  {
    assert VersionOk(t.history, j, t.calls);
    RecordReadsBack(t.history[j - 1].workload, t.calls[i].stamp, Count(t.history[j - 1].workload));
  }

  lemma StopOfCall(s: State, events: seq<Event>, k: nat, i: nat)
    requires Initial(s) && k < |Run(s, events).history| && Run(s, events).history[k].writer == Scaler(i)
    ensures Consistent(Run(s, events)) && i < |s.calls| && k > 0
    ensures var t := Run(s, events);
            && RecordOf(t.history[k].workload) == RecordOf(t.history[k - 1].workload)
            && (if t.calls[i].skipped then t.calls[i].recorded.None?
                else t.calls[i].recorded.Some? && t.calls[i].recorded.value < k
                     && t.history[t.calls[i].recorded.value].writer == Annotator(i))
  {
    ExactRecord(s, events);
    var t := Run(s, events);
    assert VersionOk(t.history, k, t.calls);
    assert CallOk(t.history, i, t.calls[i]);
  }

  /** A stop comes after a record written by the same call unless the skipping guard was met. */
  lemma StopHasOwnRecordUnlessSkipped(s: State, events: seq<Event>, k: nat, i: nat)
    requires Initial(s)
    requires k < |Run(s, events).history| && Run(s, events).history[k].writer == Scaler(i)
    ensures (exists j :: 0 < j < k && Records(Run(s, events), j, i)) <==> !Happened(Skips, s, events, i)
  {
    StopOfCall(s, events, k, i);
    SkippedMeansServed(s, events, i);
    var t := Run(s, events);
    hide Happened, Consistent, Run;
    if !t.calls[i].skipped {
      RecordsOnce(t, t.calls[i].recorded.value, i);
    }
    if j :| 0 < j < k && Records(t, j, i) {
      RecordsOnce(t, j, i);
    }
  }

  /** The exact condition under which a stopped workload carries the record of the call that stopped it: the
      call never met the skipping guard, and its record could still be read from the version the stop replaced. */
  lemma StopCarriesOwnRecord(s: State, events: seq<Event>, k: nat, i: nat)
    requires Initial(s)
    requires k < |Run(s, events).history| && Run(s, events).history[k].writer == Scaler(i)
    ensures k > 0
    ensures CarriesRecordOf(Run(s, events), k, i) <==>
            !Happened(Skips, s, events, i) && RecordIntact(Run(s, events), k - 1, i)
  {
    StopOfCall(s, events, k, i);
    StopHasOwnRecordUnlessSkipped(s, events, k, i);
    var t := Run(s, events);
    hide Happened, Consistent, Run, RecordOf;
    forall j | 0 < j < |t.history| && Records(t, j, i)
      ensures t.calls[i].recorded == Some(j)
      ensures RecordOf(t.history[j].workload) ==
              Some(Record(t.calls[i].stamp, Decimal.Format(Count(t.history[j - 1].workload))))
    {
      RecordsOnce(t, j, i);
    }
  }

  /** A record stays readable as long as outsiders leave it alone and no other call records over it. */
  lemma {:induction false} LeftAloneStaysIntact(t: State, j: nat, k: nat, i: nat)
    requires Consistent(t) && Records(t, j, i) && j <= k < |t.history|
    requires forall m :: j < m <= k && t.history[m].writer.Outside? ==>
               RecordOf(t.history[m].workload) == RecordOf(t.history[m - 1].workload)
    requires forall m :: j < m <= k ==> !t.history[m].writer.Annotator? && !t.history[m].writer.Suspender?
    ensures RecordIntact(t, k, i)
    ensures RecordOf(t.history[k].workload) == RecordOf(t.history[j].workload)
  {
    if k == j {
      forall l | 0 < l <= k && Records(t, l, i) ensures l == j {
        RecordsOnce(t, l, i);
        RecordsOnce(t, j, i);
      }
    } else {
      LeftAloneStaysIntact(t, j, k - 1, i);
      assert VersionOk(t.history, k, t.calls);
      forall l | 0 < l <= k && Records(t, l, i) ensures l == j {
        RecordsOnce(t, l, i);
        RecordsOnce(t, j, i);
      }
      hide Consistent, VersionOk, Records, Annotated;
    }
  }

  // ----- Who stopped it -----

  ghost predicate StoppedBy(v: Version, i: nat) {
    v.writer == Scaler(i) || v.writer == Suspender(i)
  }

  /** Call i wrote a version that stops the workload. */
  ghost predicate Stops(h: seq<Version>, i: nat) {
    exists k :: 0 <= k < |h| && StoppedBy(h[k], i)
  }

  lemma StopMeansDone(t: State, k: nat, i: nat)
    requires Consistent(t) && k < |t.history| && StoppedBy(t.history[k], i)
    ensures i < |t.calls| && t.calls[i].pc.Done? && t.calls[i].pc.result != Ok(false)
    ensures k > 0 && !IsStopped(t.calls[i].cron, t.history[k - 1].workload)
    ensures IsStopped(t.calls[i].cron, t.history[k].workload)
  {
    assert VersionOk(t.history, k, t.calls);
  }

  /** A call stops the workload at most once. */
  lemma {:induction false} StopsAtMostOnce(s: State, events: seq<Event>, i: nat, k: nat, l: nat)
    requires Initial(s) && k < |Run(s, events).history| && l < |Run(s, events).history|
    requires StoppedBy(Run(s, events).history[k], i) && StoppedBy(Run(s, events).history[l], i)
    ensures k == l
  {
    if events != [] {
      var before := events[..|events| - 1];
      var t := Run(s, before);
      ExactRecord(s, before);
      if k < |t.history| && l < |t.history| {
        StopsAtMostOnce(s, before, i, k, l);
      } else if k < |t.history| {
        StopMeansDone(t, k, i);
      } else if l < |t.history| {
        StopMeansDone(t, l, i);
      }
    }
  }

  /** One event, as far as call i and its stops are concerned. */
  lemma StopStep(t: State, e: Event, i: nat)
    requires Consistent(t) && i < |t.calls| && !t.calls[i].dryRun
    ensures var u := Apply(t, e);
            && (At(Finds, t, e, i) ==>
                  u.calls[i].pc == Done(Ok(true)) && u.history == t.history && !t.calls[i].pc.Done?)
            && (t.calls[i].pc.Done? ==> u.calls[i] == t.calls[i])
            && (|u.history| > |t.history| && StoppedBy(u.history[|t.history|], i) ==> !t.calls[i].pc.Done?)
            && (u.calls[i].pc == Done(Ok(true)) && !t.calls[i].pc.Done? ==>
                  At(Finds, t, e, i) || (|u.history| > |t.history| && StoppedBy(u.history[|t.history|], i)))
            && (u.calls[i].pc == Done(Ok(false)) && !t.calls[i].pc.Done? ==> At(SeesStop, t, e, i))
  {
    assert CallOk(t.history, i, t.calls[i]);
    hide VersionOk, Consistent, Written;
  }

  lemma StopsGrow(t: State, u: State, i: nat)
    requires t.history <= u.history && |u.history| <= |t.history| + 1
    ensures Stops(u.history, i) <==>
            Stops(t.history, i) || (|u.history| > |t.history| && StoppedBy(u.history[|t.history|], i))
  {
    if Stops(t.history, i) {
      var k :| 0 <= k < |t.history| && StoppedBy(t.history[k], i);
      assert StoppedBy(u.history[k], i);
    }
  }

  lemma NotDoneHasNotStopped(t: State, i: nat)
    requires Consistent(t) && i < |t.calls| && !t.calls[i].pc.Done?
    ensures !Stops(t.history, i)
  {
    if k :| 0 <= k < |t.history| && StoppedBy(t.history[k], i) {
      StopMeansDone(t, k, i);
    }
  }

  /** A call that finds the workload stopped is done, and it is not the one that stopped it. */
  lemma {:induction false} FoundEndsTheCall(s: State, events: seq<Event>, i: nat)
    requires Initial(s) && i < |s.calls| && !s.calls[i].dryRun
    ensures Happened(Finds, s, events, i) ==>
              Run(s, events).calls[i].pc == Done(Ok(true)) && !Stops(Run(s, events).history, i)
  {
    if events != [] {
      var before := events[..|events| - 1];
      var t, e := Run(s, before), events[|events| - 1];
      FoundEndsTheCall(s, before, i);
      CallsKeepTheirNature(s, before);
      ExactRecord(s, before);
      StopStep(t, e, i);
      StopsGrow(t, Apply(t, e), i);
      if At(Finds, t, e, i) {
        NotDoneHasNotStopped(t, i);
      }
      hide At, Apply, Consistent, Stops;
    }
  }

  lemma {:induction false} SuccessHasACause(s: State, events: seq<Event>, i: nat)
    requires Initial(s) && i < |s.calls| && !s.calls[i].dryRun
    ensures var t := Run(s, events);
            && (t.calls[i].pc == Done(Ok(true)) ==> Stops(t.history, i) || Happened(Finds, s, events, i))
            && (t.calls[i].pc == Done(Ok(false)) ==> Happened(SeesStop, s, events, i))
  {
    if events != [] {
      var before := events[..|events| - 1];
      var t, e := Run(s, before), events[|events| - 1];
      SuccessHasACause(s, before, i);
      CallsKeepTheirNature(s, before);
      ExactRecord(s, before);
      StopStep(t, e, i);
      StopsGrow(t, Apply(t, e), i);
      hide At, Apply, Consistent, Stops;
    }
  }

  /** What `true` means, for every call that is not a dry run: the call stopped the workload itself exactly if
      it was never shown, past its first check, a workload stopped already. */
  lemma TrueMeansStopped(s: State, events: seq<Event>, i: nat)
    requires Initial(s) && i < |s.calls| && !s.calls[i].dryRun
    requires Run(s, events).calls[i].pc == Done(Ok(true))
    ensures Stops(Run(s, events).history, i) <==> !Happened(Finds, s, events, i)
  {
    SuccessHasACause(s, events, i);
    FoundEndsTheCall(s, events, i);
  }

  /** What `false` means: the call wrote nothing and was shown a stopped workload. */
  lemma FalseMeansUntouched(s: State, events: seq<Event>, i: nat)
    requires Initial(s) && i < |s.calls|
    requires Run(s, events).calls[i].pc == Done(Ok(false))
    ensures forall k :: 0 <= k < |Run(s, events).history| ==>
              Run(s, events).history[k].writer !in {Annotator(i), Scaler(i), Suspender(i)}
    ensures !s.calls[i].dryRun ==> Happened(SeesStop, s, events, i)
  {
    ExactRecord(s, events);
    var t := Run(s, events);
    assert CallOk(t.history, i, t.calls[i]);
    forall k | 0 <= k < |t.history| ensures t.history[k].writer !in {Annotator(i), Scaler(i), Suspender(i)} {
      assert VersionOk(t.history, k, t.calls);
    }
    if !s.calls[i].dryRun {
      SuccessHasACause(s, events, i);
    }
  }

  /** For the caller: when nobody else ever leaves the workload stopped, `true` means that this call stopped
      it, exactly once. */
  lemma TrueIsOursWhenAlone(s: State, events: seq<Event>, i: nat)
    requires Initial(s) && i < |s.calls| && !s.calls[i].dryRun
    requires Run(s, events).calls[i].pc == Done(Ok(true))
    requires forall v :: v in Run(s, events).history && IsStopped(s.calls[i].cron, v.workload) ==> StoppedBy(v, i)
    ensures var h := Run(s, events).history;
            exists k :: 0 <= k < |h| && StoppedBy(h[k], i)
                        && forall l :: 0 <= l < |h| && StoppedBy(h[l], i) ==> l == k
  {
    TrueMeansStopped(s, events, i);
    if Happened(Finds, s, events, i) {
      FoundWasThere(s, events, i);
      FoundEndsTheCall(s, events, i);
    }
    var t := Run(s, events);
    var k :| 0 <= k < |t.history| && StoppedBy(t.history[k], i);
    forall l | 0 <= l < |t.history| && StoppedBy(t.history[l], i) ensures l == k {
      StopsAtMostOnce(s, events, i, k, l);
    }
  }

  /** What a call was shown is a version of the history. */
  lemma {:induction false} FoundWasThere(s: State, events: seq<Event>, i: nat)
    requires |s.history| > 0 && i < |s.calls| && Happened(Finds, s, events, i)
    ensures exists k :: 0 <= k < |Run(s, events).history|
                        && IsStopped(s.calls[i].cron, Run(s, events).history[k].workload)
  {
    var before := events[..|events| - 1];
    var t, u, e := Run(s, before), Run(s, events), events[|events| - 1];
    if Happened(Finds, s, before, i) {
      FoundWasThere(s, before, i);
      hide At, Apply;
      var k :| 0 <= k < |t.history| && IsStopped(s.calls[i].cron, t.history[k].workload);
      assert u.history[k] == t.history[k];
    } else {
      CallsKeepTheirNature(s, before);
      assert u.history == t.history;
      assert IsStopped(s.calls[i].cron, u.history[Pick(|t.history|, e.choice).value].workload);
    }
  }

  // ----- Runs in which the belief is wrong -----

  lemma RunTwo(s: State, a: Event, b: Event)
    requires |s.history| > 0
    ensures Run(s, [a, b]) == Apply(Apply(s, a), b)
  {
    hide Apply;
    assert Run(s, []) == s;
    RunStep(s, [], a);
    RunStep(s, [a], b);
    hide Run;
    assert [] + [a] == [a];
    assert [a] + [b] == [a, b];
  }

  lemma RunFour(s: State, a: Event, b: Event, c: Event, d: Event)
    requires |s.history| > 0
    ensures Run(s, [a, b, c, d]) == Apply(Apply(Apply(Apply(s, a), b), c), d)
  {
    hide Apply, Run;
    RunTwo(s, a, b);
    RunTwo(Run(s, [a, b]), c, d);
    RunConcat(s, [a, b], [c, d]);
    assert [a, b] + [c, d] == [a, b, c, d];
  }

  /** A read and an update by call `i`, both answered with version `v`. */
  function ReadAndWrite(i: nat, v: nat): (e: seq<Event>)
    ensures |e| == 2
  {
    [Operator(i, Serve(v)), Operator(i, Serve(v))]
  }

  lemma ReadApplies(m: State, i: nat, v: nat)
    requires v < |m.history| && i < |m.calls| && IsRead(m.calls[i].pc)
    ensures Apply(m, Operator(i, Serve(v))) ==
            m.(calls := m.calls[i := AfterRead(m.calls[i], Some(v), m.history[v].workload)])
  {
    hide AfterRead;
  }

  lemma UpdateApplies(m: State, i: nat, v: nat)
    requires |m.history| > 0 && i < |m.calls| && IsUpdate(m.calls[i].pc) && m.calls[i].pc.base == |m.history| - 1
    ensures Apply(m, Operator(i, Serve(v))) ==
            State(m.history + [Version(Written(m.calls[i], Newest(m)), WriterOf(m.calls[i].pc, i))],
                  m.calls[i := AfterUpdate(m.calls[i], Landed, |m.history|)])
  {
    hide AfterUpdate, Written, WriterOf;
  }

  /** From m to t, call i has come to c, and no other call has moved. */
  ghost predicate OnlyMoved(m: State, t: State, i: nat, c: Call) {
    && |t.calls| == |m.calls| && i < |t.calls| && t.calls[i] == c
    && forall j :: 0 <= j < |t.calls| && j != i ==> t.calls[j] == m.calls[j]
  }

  lemma RecordsNow(m: State, i: nat)
    requires |m.history| > 0 && i < |m.calls| && m.calls[i].pc == AnnotateGet && Count(Newest(m)) > 0
    ensures var n, w, c := |m.history|, Newest(m), m.calls[i];
            var t := Run(m, ReadAndWrite(i, n - 1));
            && t.history == m.history + [Version(Annotated(w, c.stamp, Count(w)), Annotator(i))]
            && OnlyMoved(m, t, i, c.(pc := ScaleGet, left := ATTEMPTS, previous := Count(w), recorded := Some(n)))
  {
    hide Annotated, Run, Apply, Count;
    var e, v := ReadAndWrite(i, |m.history| - 1), |m.history| - 1;
    RunTwo(m, e[0], e[1]);
    ReadApplies(m, i, v);
    UpdateApplies(Apply(m, e[0]), i, v);
  }

  lemma ScalesNow(m: State, i: nat)
    requires |m.history| > 0 && i < |m.calls| && m.calls[i].pc == ScaleGet && Count(Newest(m)) > 0
    ensures var t := Run(m, ReadAndWrite(i, |m.history| - 1));
            && t.history == m.history + [Version(Scaled(Newest(m)), Scaler(i))]
            && OnlyMoved(m, t, i, m.calls[i].(pc := Done(Ok(true))))
  {
    hide Annotated, Run, Apply, Count;
    var e, v := ReadAndWrite(i, |m.history| - 1), |m.history| - 1;
    RunTwo(m, e[0], e[1]);
    ReadApplies(m, i, v);
    UpdateApplies(Apply(m, e[0]), i, v);
  }

  function OneCall(w: Workload, cron: bool, stamp: Stamp): (s: State)
    ensures Initial(s)
  {
    State([Version(w, Outside)], [NewCall(cron, stamp, false)])
  }

  /** Read a running workload, lose a conflict to an outsider who scales it to zero, and re-read zero. */
  function SkippingStart(w: Workload): seq<Event> {
    [Operator(0, Serve(0)), Operator(0, Serve(0)), Edit(w.(replicas := Some(0))), Operator(0, Serve(0))]
  }

  /** Go on to /scale after the outsider has scaled the workload back up to `again`. */
  function SkippingEnd(w: Workload, again: nat): seq<Event> {
    [Operator(0, Serve(1)), Edit(w.(replicas := Some(again))), Operator(0, Serve(2)), Operator(0, Serve(2))]
  }

  lemma AfterSkippingStart(w: Workload, stamp: Stamp)
    requires Count(w) > 0
    ensures var s := OneCall(w, false, stamp);
            Run(s, SkippingStart(w)) ==
            State([Version(w, Outside), Version(w.(replicas := Some(0)), Outside)],
                  [s.calls[0].(pc := AnnotateGet, left := ATTEMPTS - 1, previous := Count(w))])
  {
    var e := SkippingStart(w);
    RunFour(OneCall(w, false, stamp), e[0], e[1], e[2], e[3]);
  }

  lemma AfterSkippingEnd(m: State, w: Workload, again: nat)
    requires again > 0 && |m.history| == 2 && |m.calls| == 1 && Count(m.history[1].workload) == 0
    requires m.calls[0].pc == AnnotateGet && m.calls[0].previous > 0
    ensures var edited := w.(replicas := Some(again));
            Run(m, SkippingEnd(w, again)) ==
            State(m.history + [Version(edited, Outside), Version(Scaled(edited), Scaler(0))],
                  [m.calls[0].(pc := Done(Ok(true)), left := ATTEMPTS, skipped := true)])
  {
    var e := SkippingEnd(w, again);
    RunFour(m, e[0], e[1], e[2], e[3]);
  }

  /** Recording before stopping fails under interference: this run meets the skipping guard, stops a workload
      of `again` replicas, reports success, and leaves nothing to restore it from. */
  lemma StopWithoutRecord(w: Workload, stamp: Stamp, again: nat)
    requires Count(w) > 0 && again > 0 && RecordOf(w).None?
    ensures var s, events := OneCall(w, false, stamp), SkippingStart(w) + SkippingEnd(w, again);
            var t := Run(s, events);
            && Happened(Skips, s, events, 0)
            && t.calls[0].pc == Done(Ok(true))
            && |t.history| == 4 && t.history[2].workload.replicas == Some(again) && t.history[3].writer == Scaler(0)
            && Count(Newest(t)) == 0 && RecordOf(Newest(t)).None?
  {
    var s, events := OneCall(w, false, stamp), SkippingStart(w) + SkippingEnd(w, again);
    hide Run, Happened, SkippingStart, SkippingEnd;
    AfterSkippingStart(w, stamp);
    RunConcat(s, SkippingStart(w), SkippingEnd(w, again));
    AfterSkippingEnd(Run(s, SkippingStart(w)), w, again);
    SkippedMeansServed(s, events, 0);
  }

  /** On a workload that was stopped once and restored: read the stale version before that stop, lose the update,
      re-read the stop itself, and go on to /scale. */
  function MistakenStart(): seq<Event> {
    [Operator(0, Serve(0)), Operator(0, Serve(0)), Operator(0, Serve(0)), Operator(0, Serve(1))]
  }

  function Restored(w: Workload, stamp: Stamp): (s: State)
    ensures Initial(s)
  {
    State([Version(w, Outside), Version(w.(replicas := Some(0)), Outside), Version(w, Outside)],
          [NewCall(false, stamp, false)])
  }

  lemma AfterMistakenStart(w: Workload, stamp: Stamp)
    requires Count(w) > 0
    ensures var s := Restored(w, stamp);
            Run(s, MistakenStart()) ==
            s.(calls := [s.calls[0].(pc := ScaleGet, left := ATTEMPTS, previous := Count(w), skipped := true)])
  {
    var e := MistakenStart();
    RunFour(Restored(w, stamp), e[0], e[1], e[2], e[3]);
  }

  lemma AfterMistake(w: Workload, stamp: Stamp)
    requires Count(w) > 0
    ensures var s := Restored(w, stamp);
            Run(s, MistakenStart() + ReadAndWrite(0, 2)) ==
            State(s.history + [Version(Scaled(w), Scaler(0))],
                  [s.calls[0].(pc := Done(Ok(true)), left := ATTEMPTS, previous := Count(w), skipped := true)])
  {
    var s := Restored(w, stamp);
    hide Run, MistakenStart, ReadAndWrite;
    AfterMistakenStart(w, stamp);
    RunConcat(s, MistakenStart(), ReadAndWrite(0, 2));
    ScalesNow(Run(s, MistakenStart()), 0);
  }

  lemma {:induction false} OperatorsDisturbNothing(s: State, events: seq<Event>)
    requires |s.history| > 0 && forall e :: e in events ==> e.Operator?
    ensures Undisturbed(s, events)
  {
    if events != [] {
      assert events[|events| - 1] in events;
      OperatorsDisturbNothing(s, events[..|events| - 1]);
      hide Run;
    }
  }

  /** Without any outsider in the run: stale reads alone make a call take the earlier stop of a restored workload
      for one of this run, and it stops the workload without a record. */
  lemma StopOfRestoredWithoutRecord(w: Workload, stamp: Stamp)
    requires Count(w) > 0 && RecordOf(w).None?
    ensures var s, events := Restored(w, stamp), MistakenStart() + ReadAndWrite(0, 2);
            var t := Run(s, events);
            && Running(s) && Undisturbed(s, events) && !NoSkipOnOld(s, events, |s.history| - 1)
            && t.calls[0].pc == Done(Ok(true)) && |t.history| == 4 && t.history[3].writer == Scaler(0)
            && Count(Newest(t)) == 0 && RecordOf(Newest(t)).None?
  {
    var s, events := Restored(w, stamp), MistakenStart() + ReadAndWrite(0, 2);
    OperatorsDisturbNothing(s, events);
    AfterMistake(w, stamp);
    ScalingKeepsRecord(w);
    hide Run, RecordOf, MistakenStart, ReadAndWrite, Undisturbed, NoSkipOnOld;
    if NoSkipOnOld(s, events, |s.history| - 1) {
      RecordBeforeStop(s, events, 3);
      assert false;
    }
  }

  lemma ScalingKeepsRecord(w: Workload)
    ensures RecordOf(Scaled(w)) == RecordOf(w)
  {
  }

  /** Record the count, after which an outsider puts the workload back as it was. */
  function DroppingStart(w: Workload): seq<Event> {
    [Operator(0, Serve(0)), Operator(0, Serve(0)), Operator(0, Serve(0)), Edit(w)]
  }

  lemma AfterDroppingStart(w: Workload, stamp: Stamp)
    requires Count(w) > 0
    ensures var s := OneCall(w, false, stamp);
            Run(s, DroppingStart(w)) ==
            State([Version(w, Outside), Version(Annotated(w, stamp, Count(w)), Annotator(0)), Version(w, Outside)],
                  [s.calls[0].(pc := ScaleGet, left := ATTEMPTS, previous := Count(w), recorded := Some(1))])
  {
    var e := DroppingStart(w);
    RunFour(OneCall(w, false, stamp), e[0], e[1], e[2], e[3]);
  }

  lemma AfterDropping(w: Workload, stamp: Stamp)
    requires Count(w) > 0
    ensures var s := OneCall(w, false, stamp);
            Run(s, DroppingStart(w) + ReadAndWrite(0, 2)) ==
            State([Version(w, Outside), Version(Annotated(w, stamp, Count(w)), Annotator(0)), Version(w, Outside),
                   Version(Scaled(w), Scaler(0))],
                  [s.calls[0].(pc := Done(Ok(true)), left := ATTEMPTS, previous := Count(w), recorded := Some(1))])
  {
    var s := OneCall(w, false, stamp);
    hide Run, DroppingStart, ReadAndWrite, Annotated;
    AfterDroppingStart(w, stamp);
    RunConcat(s, DroppingStart(w), ReadAndWrite(0, 2));
    ScalesNow(Run(s, DroppingStart(w)), 0);
  }

  /** The other way to fail: the call records the count and never skips, an outsider drops the annotations
      before the scale, and the workload is stopped without a record all the same. */
  lemma StopAfterRecordDropped(w: Workload, stamp: Stamp)
    requires Count(w) > 0 && RecordOf(w).None?
    ensures var s, events := OneCall(w, false, stamp), DroppingStart(w) + ReadAndWrite(0, 2);
            var t := Run(s, events);
            && !Happened(Skips, s, events, 0)
            && t.calls[0].pc == Done(Ok(true))
            && |t.history| == 4 && t.history[3].writer == Scaler(0) && !RecordIntact(t, 2, 0)
            && Count(Newest(t)) == 0 && RecordOf(Newest(t)).None?
  {
    var s, events := OneCall(w, false, stamp), DroppingStart(w) + ReadAndWrite(0, 2);
    AfterDropping(w, stamp);
    SkippedMeansServed(s, events, 0);
    RecordReadsBack(w, stamp, Count(w));
    assert RecordOf(Scaled(w)) == RecordOf(w);
    hide Run, Happened, DroppingStart, ReadAndWrite, RecordOf, Annotated;
    assert Records(Run(s, events), 1, 0);
  }

  function TwoCalls(w: Workload, cron: bool, a: Stamp, b: Stamp): (s: State)
    ensures Initial(s)
  {
    State([Version(w, Outside)], [NewCall(cron, a, false), NewCall(cron, b, false)])
  }

  function BothPassTheCheck(): seq<Event> {
    [Operator(0, Serve(0)), Operator(1, Serve(0)), Operator(0, Serve(0)), Operator(0, Serve(0))]
  }

  lemma AfterBothPass(w: Workload, cron: bool, a: Stamp, b: Stamp)
    requires !IsStopped(cron, w)
    ensures var s := TwoCalls(w, cron, a, b);
            Run(s, BothPassTheCheck()) ==
            if cron then
              State([Version(w, Outside), Version(Suspended(w, a), Suspender(0))],
                    [s.calls[0].(pc := Done(Ok(true)), left := ATTEMPTS),
                     s.calls[1].(pc := SuspendGet, left := ATTEMPTS)])
            else
              State([Version(w, Outside), Version(Annotated(w, a, Count(w)), Annotator(0))],
                    [s.calls[0].(pc := ScaleGet, left := ATTEMPTS, previous := Count(w), recorded := Some(1)),
                     s.calls[1].(pc := AnnotateGet, left := ATTEMPTS)])
  {
    var e := BothPassTheCheck();
    RunFour(TwoCalls(w, cron, a, b), e[0], e[1], e[2], e[3]);
  }

  /** The second call reads the newest version, finds it stopped, and reports success. */
  lemma SecondFinds(s: State, events: seq<Event>, m: State)
    requires Initial(s) && m == Run(s, events) && |m.calls| == 2
    requires (m.calls[1].pc.ScaleGet? && !m.calls[1].cron) || (m.calls[1].pc.SuspendGet? && m.calls[1].cron)
    requires IsStopped(m.calls[1].cron, Newest(m))
    ensures var last := Operator(1, Serve(|m.history| - 1));
            && Run(s, events + [last]) == m.(calls := m.calls[1 := m.calls[1].(pc := Done(Ok(true)))])
            && Happened(Finds, s, events + [last], 1)
  {
    var last := Operator(1, Serve(|m.history| - 1));
    assert At(Finds, m, last, 1);
    hide Run, Apply, At;
    RunStep(s, events, last);
    ReadApplies(m, 1, |m.history| - 1);
    HappensNow(Finds, s, events, last, 1);
  }

  lemma HappensNow(what: Happening, s: State, events: seq<Event>, e: Event, i: nat)
    requires |s.history| > 0
    ensures Happened(what, s, events + [e], i) <==> Happened(what, s, events, i) || At(what, Run(s, events), e, i)
  {
    hide Run, At;
    assert (events + [e])[..|events|] == events;
  }

  /** Two calls report success for one suspension: the second wrote nothing at all. */
  lemma TwoSuccessesOneSuspension(w: Workload, a: Stamp, b: Stamp)
    requires !IsSuspended(w)
    ensures var s, events := TwoCalls(w, true, a, b), BothPassTheCheck() + [Operator(1, Serve(1))];
            var t := Run(s, events);
            && t.calls[0].pc == t.calls[1].pc == Done(Ok(true))
            && t.history == [Version(w, Outside), Version(Suspended(w, a), Suspender(0))]
            && Happened(Finds, s, events, 1) && !Stops(t.history, 1)
  {
    var s := TwoCalls(w, true, a, b);
    hide Run, Happened, BothPassTheCheck;
    AfterBothPass(w, true, a, b);
    SecondFinds(s, BothPassTheCheck(), Run(s, BothPassTheCheck()));
  }

  lemma AfterBothRecord(w: Workload, a: Stamp, b: Stamp)
    requires Count(w) > 0
    ensures var s, noted := TwoCalls(w, false, a, b), Annotated(Annotated(w, a, Count(w)), b, Count(w));
            Run(s, BothPassTheCheck() + ReadAndWrite(1, 1)) ==
            State([Version(w, Outside), Version(Annotated(w, a, Count(w)), Annotator(0)), Version(noted, Annotator(1))],
                  [s.calls[0].(pc := ScaleGet, left := ATTEMPTS, previous := Count(w), recorded := Some(1)),
                   s.calls[1].(pc := ScaleGet, left := ATTEMPTS, previous := Count(w), recorded := Some(2))])
  {
    var s, e := TwoCalls(w, false, a, b), BothPassTheCheck();
    hide Run, BothPassTheCheck, ReadAndWrite, Annotated;
    AfterBothPass(w, false, a, b);
    RunConcat(s, e, ReadAndWrite(1, 1));
    RecordsNow(Run(s, e), 1);
  }

  lemma FirstScales(s: State, e: seq<Event>, m: State)
    requires |s.history| > 0 && m == Run(s, e) && |m.history| == 3 && |m.calls| == 2
    requires m.calls[0].pc == ScaleGet && Count(Newest(m)) > 0
    ensures var t := Run(s, e + ReadAndWrite(0, 2));
            && |t.history| == 4 && t.history[3] == Version(Scaled(Newest(m)), Scaler(0))
            && |t.calls| == 2 && t.calls[0].pc == Done(Ok(true)) && t.calls[1] == m.calls[1]
  {
    hide Run, ReadAndWrite, Count;
    RunConcat(s, e, ReadAndWrite(0, 2));
    ScalesNow(m, 0);
  }

  /** Two calls report success for one stop through /scale, and the record names the one that stopped nothing. */
  lemma TwoSuccessesOneStop(w: Workload, a: Stamp, b: Stamp)
    requires Count(w) > 0
    ensures var s, events := TwoCalls(w, false, a, b),
              BothPassTheCheck() + ReadAndWrite(1, 1) + ReadAndWrite(0, 2) + [Operator(1, Serve(3))];
            var t := Run(s, events);
            && t.calls[0].pc == t.calls[1].pc == Done(Ok(true))
            && Happened(Finds, s, events, 1) && !Stops(t.history, 1)
            && |t.history| == 4 && t.history[3].writer == Scaler(0) && Count(Newest(t)) == 0
            && StampOf(Newest(t)) == Some(b)
  {
    var s, first := TwoCalls(w, false, a, b), BothPassTheCheck() + ReadAndWrite(1, 1);
    var e := first + ReadAndWrite(0, 2);
    hide Run, Happened, BothPassTheCheck, ReadAndWrite, StampOf, Annotated, Stops;
    AfterBothRecord(w, a, b);
    FirstScales(s, first, Run(s, first));
    SecondFinds(s, e, Run(s, e));
    FoundEndsTheCall(s, e + [Operator(1, Serve(3))], 1);
    NotedCarriesStamp(Annotated(w, a, Count(w)), b);
  }

  lemma NotedCarriesStamp(w: Workload, stamp: Stamp)
    ensures StampOf(Scaled(Annotated(w, stamp, Count(w)))) == Some(stamp)
  {
    RecordReadsBack(w, stamp, Count(w));
  }
}
