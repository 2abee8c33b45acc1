/** The two-phase stop of one workload as a step system. Every version the API server ever stored stays in
    the history; a read may return any of them, an update lands only on the newest, any call may fail, and an
    update may land although its caller is told it failed. Operator calls and outside writers interleave freely. */
module StopProtocol {
  import opened Cluster
  import Decimal

  const REASON: string := "crashloop-operator.lauger.de/scaled-down-reason"
  const AT: string := "crashloop-operator.lauger.de/scaled-down-at"
  const BY: string := "crashloop-operator.lauger.de/scaled-down-by"
  const PREVIOUS: string := "crashloop-operator.lauger.de/previous-replicas"

  /** The attempts of one conflict-retry loop. Nothing below depends on the number. */
  const ATTEMPTS: nat := 5

  /** What an operator call writes about itself. */
  datatype Stamp = Stamp(reason: string, at: string, policy: string)

  datatype Record = Record(stamp: Stamp, previous: string)

  function Stamped(w: Workload, stamp: Stamp): Workload {
    w.(annotations := w.annotations[REASON := stamp.reason][AT := stamp.at][BY := stamp.policy])
  }

  function Annotated(w: Workload, stamp: Stamp, previous: nat): (r: Workload)
    ensures r == w.(annotations := r.annotations)
  {
    var stamped := Stamped(w, stamp);
    stamped.(annotations := stamped.annotations[PREVIOUS := Decimal.Format(previous)])
  }

  function Scaled(w: Workload): Workload {
    w.(replicas := Some(0))
  }

  function Suspended(w: Workload, stamp: Stamp): Workload {
    Stamped(w, stamp).(suspend := Some(true))
  }

  function StampOf(w: Workload): Option<Stamp> {
    if REASON in w.annotations && AT in w.annotations && BY in w.annotations
    then Some(Stamp(w.annotations[REASON], w.annotations[AT], w.annotations[BY]))
    else None
  }

  function RecordOf(w: Workload): Option<Record> {
    var stamp := StampOf(w);
    if stamp.Some? && PREVIOUS in w.annotations then Some(Record(stamp.value, w.annotations[PREVIOUS])) else None
  }

  /** What a write leaves on the workload is exactly what can be read back from it. */
  lemma RecordReadsBack(w: Workload, stamp: Stamp, previous: nat)
    ensures StampOf(Stamped(w, stamp)) == StampOf(Suspended(w, stamp)) == Some(stamp)
    ensures RecordOf(Annotated(w, stamp, previous)) == Some(Record(stamp, Decimal.Format(previous)))
    ensures Decimal.Parse(RecordOf(Annotated(w, stamp, previous)).value.previous) == Some(previous)
    ensures REASON in Stamped(w, stamp).annotations && BY in Stamped(w, stamp).annotations
    ensures Stamped(w, stamp).annotations[REASON] == stamp.reason && Stamped(w, stamp).annotations[BY] == stamp.policy
    ensures RecordOf(w).Some? ==> RecordOf(Stamped(w, stamp)) == Some(Record(stamp, RecordOf(w).value.previous))
  {
    assert AT[|AT| - 1] != BY[|BY| - 1];
    assert |REASON| != |AT| && |REASON| != |BY| && |PREVIOUS| != |REASON| && |PREVIOUS| != |AT| && |PREVIOUS| != |BY|;
    Decimal.RoundTrip(previous);
  }

  datatype Writer = Outside | Annotator(call: nat) | Scaler(call: nat) | Suspender(call: nat)

  datatype Version = Version(workload: Workload, writer: Writer)

  datatype Pc =
    | InitialGet
    | AnnotateGet | AnnotateUpdate(base: nat)
    | ScaleGet | ScaleUpdate(base: nat)
    | SuspendGet | SuspendUpdate(base: nat)
    | Done(result: Result<bool>)

  /** One call of scaleWorkloadToZero, or of the CronJob branch of scaleDownWorkload. `previous` and `left`
      are the call's own variables; `recorded` and `skipped` remember how its annotate loop ended. */
  datatype Call = Call(
    cron: bool, stamp: Stamp, dryRun: bool,
    pc: Pc, previous: nat, left: nat,
    recorded: Option<nat>, skipped: bool)

  function NewCall(cron: bool, stamp: Stamp, dryRun: bool): Call {
    Call(cron, stamp, dryRun, InitialGet, 0, 0, None, false)
  }

  /** How the API server treats one request. */
  datatype Choice = Serve(version: nat) | Refuse | Clash | Lost

  datatype Submission = Landed | LandedUnseen | Rejected | Conflicting

  /** The version a read of an object with `n` versions returns. */
  function Pick(n: nat, choice: Choice): (v: Option<nat>)
    requires n > 0
    ensures v.Some? ==> v.value < n
  {
    if !choice.Serve? then None
    else if choice.version < n then Some(choice.version)
    else Some(n - 1)
  }

  /** How an update of version `base` of an object with `n` versions is answered. */
  function Submit(n: nat, base: nat, choice: Choice): (s: Submission)
    ensures s.Landed? || s.LandedUnseen? ==> base + 1 == n
  {
    if choice.Refuse? then Rejected
    else if choice.Clash? || base + 1 != n then Conflicting
    else if choice.Lost? then LandedUnseen
    else Landed
  }

  function Finish(c: Call, r: Result<bool>): Call {
    c.(pc := Done(r))
  }

  function Retry(c: Call, again: Pc): Call {
    if c.left <= 1 then Finish(c, Err(Conflict)) else c.(pc := again, left := c.left - 1)
  }

  predicate IsStopped(cron: bool, w: Workload) {
    if cron then IsSuspended(w) else Count(w) == 0
  }

  predicate IsRead(pc: Pc) {
    pc.InitialGet? || pc.AnnotateGet? || pc.ScaleGet? || pc.SuspendGet?
  }

  /** What a call does with the version it has read, or with a refusal. */
  function AfterRead(c: Call, v: Option<nat>, w: Workload): (r: Call)
    requires IsRead(c.pc)
    ensures (r.cron, r.stamp, r.dryRun, r.recorded) == (c.cron, c.stamp, c.dryRun, c.recorded)
  {
    if v.None? then Finish(c, Err(Unavailable))
    else match c.pc
      case InitialGet =>
        if IsStopped(c.cron, w) then Finish(c, Ok(false))
        else if c.dryRun then Finish(c, Ok(true))
        else c.(pc := if c.cron then SuspendGet else AnnotateGet, left := ATTEMPTS)
      case AnnotateGet =>
        if Count(w) > 0 then c.(pc := AnnotateUpdate(v.value), previous := Count(w))
        else if c.previous == 0 then Finish(c, Ok(false))
        else c.(pc := ScaleGet, left := ATTEMPTS, skipped := true)
      case ScaleGet =>
        if Count(w) == 0 then Finish(c, Ok(true)) else c.(pc := ScaleUpdate(v.value))
      case SuspendGet =>
        if IsSuspended(w) then Finish(c, Ok(true)) else c.(pc := SuspendUpdate(v.value))
  }

  predicate IsUpdate(pc: Pc) {
    pc.AnnotateUpdate? || pc.ScaleUpdate? || pc.SuspendUpdate?
  }

  /** The object an update submits, made from the version it was read at. */
  function Written(c: Call, w: Workload): Workload
    requires IsUpdate(c.pc)
  {
    match c.pc
    case AnnotateUpdate(_) => Annotated(w, c.stamp, c.previous)
    case ScaleUpdate(_) => Scaled(w)
    case SuspendUpdate(_) => Suspended(w, c.stamp)
  }

  function WriterOf(pc: Pc, i: nat): Writer
    requires IsUpdate(pc)
  {
    match pc
    case AnnotateUpdate(_) => Annotator(i)
    case ScaleUpdate(_) => Scaler(i)
    case SuspendUpdate(_) => Suspender(i)
  }

  predicate Lands(s: Submission) {
    s.Landed? || s.LandedUnseen?
  }

  /** What a call makes of the answer to its update; `at` is where the version went if it landed. */
  function AfterUpdate(c: Call, s: Submission, at: nat): (r: Call)
    requires IsUpdate(c.pc)
    ensures (r.cron, r.stamp, r.dryRun, r.previous, r.skipped) == (c.cron, c.stamp, c.dryRun, c.previous, c.skipped)
  {
    var noted := if c.pc.AnnotateUpdate? && Lands(s) then c.(recorded := Some(at)) else c;
    match s
    case Landed =>
      if c.pc.AnnotateUpdate? then noted.(pc := ScaleGet, left := ATTEMPTS) else Finish(noted, Ok(true))
    case Conflicting =>
      Retry(c, if c.pc.AnnotateUpdate? then AnnotateGet else if c.pc.ScaleUpdate? then ScaleGet else SuspendGet)
    case _ => Finish(noted, Err(Unavailable))
  }

  /** One request of call `i`, answered as `choice` says. */
  function Step(h: seq<Version>, i: nat, c: Call, choice: Choice): (r: (seq<Version>, Call))
    requires |h| > 0
    ensures h <= r.0 && |r.0| <= |h| + 1
    ensures (r.1.cron, r.1.stamp, r.1.dryRun) == (c.cron, c.stamp, c.dryRun)
  {
    if IsRead(c.pc) then
      var v := Pick(|h|, choice);
      (h, AfterRead(c, v, h[if v.Some? then v.value else 0].workload))
    else if IsUpdate(c.pc) then
      var s := Submit(|h|, c.pc.base, choice);
      (if Lands(s) then h + [Version(Written(c, h[c.pc.base].workload), WriterOf(c.pc, i))] else h,
       AfterUpdate(c, s, |h|))
    else (h, c)
  }

  datatype State = State(history: seq<Version>, calls: seq<Call>)

  datatype Event = Operator(call: nat, choice: Choice) | Edit(workload: Workload)

  function Apply(s: State, e: Event): (r: State)
    requires |s.history| > 0
    ensures s.history <= r.history && |r.history| <= |s.history| + 1 && |r.calls| == |s.calls|
  {
    match e
    case Edit(workload) => s.(history := s.history + [Version(workload, Outside)])
    case Operator(i, choice) =>
      if i >= |s.calls| then s
      else
        var next := Step(s.history, i, s.calls[i], choice);
        State(next.0, s.calls[i := next.1])
  }

  function Run(s: State, events: seq<Event>): (r: State)
    requires |s.history| > 0
    ensures s.history <= r.history && |r.calls| == |s.calls|
  {
    if events == [] then s else Apply(Run(s, events[..|events| - 1]), events[|events| - 1])
  }

  /** Appending one event runs one more step. */
  lemma RunStep(s: State, events: seq<Event>, e: Event)
    requires |s.history| > 0
    ensures Run(s, events + [e]) == Apply(Run(s, events), e)
  {
    assert (events + [e])[..|events|] == events;
  }

  lemma {:induction false} RunConcat(s: State, a: seq<Event>, b: seq<Event>)
    requires |s.history| > 0
    ensures Run(s, a + b) == Run(Run(s, a), b)
  {
    if b == [] {
      assert a + b == a;
    } else {
      var front := b[..|b| - 1];
      RunConcat(s, a, front);
      assert (a + b)[..|a + b| - 1] == a + front;
    }
  }

  function Newest(s: State): Workload
    requires |s.history| > 0
  {
    s.history[|s.history| - 1].workload
  }

  ghost predicate Initial(s: State) {
    && |s.history| > 0
    && (forall k :: 0 <= k < |s.history| ==> s.history[k].writer == Outside)
    && (forall i :: 0 <= i < |s.calls| ==> s.calls[i] == NewCall(s.calls[i].cron, s.calls[i].stamp, s.calls[i].dryRun))
  }

  // ----- What every run keeps, whoever else writes -----

  ghost predicate CallOk(h: seq<Version>, i: nat, c: Call) {
    && (c.recorded.Some? ==> 0 < c.recorded.value < |h| && h[c.recorded.value].writer == Annotator(i) && !c.skipped)
    && (c.pc.InitialGet? ==> c.previous == 0)
    && (c.pc.InitialGet? || c.pc.AnnotateGet? || c.pc.AnnotateUpdate? ==> c.recorded.None? && !c.skipped)
    && (c.pc.AnnotateUpdate? ==> c.pc.base < |h| && c.previous == Count(h[c.pc.base].workload) > 0)
    && (c.pc.ScaleGet? || c.pc.ScaleUpdate? ==> c.recorded.Some? || c.skipped)
    && (c.pc.ScaleUpdate? ==> c.pc.base < |h| && Count(h[c.pc.base].workload) > 0)
    && (c.pc.SuspendUpdate? ==> c.pc.base < |h| && !IsSuspended(h[c.pc.base].workload))
    && (c.dryRun ==> c.pc.InitialGet? || c.pc.Done?)
    && (c.cron ==> c.pc.InitialGet? || c.pc.SuspendGet? || c.pc.SuspendUpdate? || c.pc.Done?)
    && (!c.cron ==> !c.pc.SuspendGet? && !c.pc.SuspendUpdate?)
    && (c.pc == Done(Ok(false)) ==> c.recorded.None? && !c.skipped)
  }

  /** What an operator's write may say, judged against the very version it replaced. */
  ghost predicate VersionOk(h: seq<Version>, k: nat, calls: seq<Call>)
    requires k < |h|
  {
    match h[k].writer
    case Outside => true
    case Annotator(i) =>
      && 0 < k && i < |calls| && !calls[i].dryRun && !calls[i].cron && calls[i].recorded == Some(k)
      && Count(h[k - 1].workload) > 0
      && h[k].workload == Annotated(h[k - 1].workload, calls[i].stamp, Count(h[k - 1].workload))
    case Scaler(i) =>
      && 0 < k && i < |calls| && !calls[i].dryRun && !calls[i].cron
      && Count(h[k - 1].workload) > 0
      && h[k].workload == Scaled(h[k - 1].workload)
      && calls[i].pc.Done? && calls[i].pc.result != Ok(false)
      && (calls[i].skipped || (calls[i].recorded.Some? && calls[i].recorded.value < k))
    case Suspender(i) =>
      && 0 < k && i < |calls| && !calls[i].dryRun && calls[i].cron
      && !IsSuspended(h[k - 1].workload)
      && h[k].workload == Suspended(h[k - 1].workload, calls[i].stamp)
      && calls[i].pc.Done? && calls[i].pc.result != Ok(false)
  }

  ghost predicate Consistent(s: State) {
    && |s.history| > 0
    && (forall i :: 0 <= i < |s.calls| ==> CallOk(s.history, i, s.calls[i]))
    && (forall k :: 0 <= k < |s.history| ==> VersionOk(s.history, k, s.calls))
  }

  lemma CallOkGrows(h: seq<Version>, more: seq<Version>, i: nat, c: Call)
    requires CallOk(h, i, c) && h <= more
    ensures CallOk(more, i, c)
  {
  }

  lemma ReadKeepsCall(h: seq<Version>, i: nat, c: Call, v: Option<nat>)
    requires |h| > 0 && CallOk(h, i, c) && IsRead(c.pc) && (v.Some? ==> v.value < |h|)
    ensures var c' := AfterRead(c, v, h[if v.Some? then v.value else 0].workload);
            CallOk(h, i, c') && (c.skipped ==> c'.skipped)
  {
  }

  lemma UpdateKeepsCall(h: seq<Version>, i: nat, c: Call, s: Submission, h': seq<Version>)
    requires |h| > 0 && CallOk(h, i, c) && IsUpdate(c.pc)
    requires if Lands(s) then h < h' && |h'| == |h| + 1 && h'[|h|].writer == WriterOf(c.pc, i) else h' == h
    ensures CallOk(h', i, AfterUpdate(c, s, |h|))
    ensures c.recorded.Some? ==> AfterUpdate(c, s, |h|).recorded == c.recorded
  {
  }

  /** A step keeps its own call in order, and what earlier versions say about the call stays true. */
  lemma StepKeepsCall(h: seq<Version>, i: nat, c: Call, choice: Choice)
    requires |h| > 0 && CallOk(h, i, c)
    ensures var next := Step(h, i, c, choice);
            && CallOk(next.0, i, next.1)
            && (c.recorded.Some? ==> next.1.recorded == c.recorded)
            && (c.skipped ==> next.1.skipped)
  {
    var next := Step(h, i, c, choice);
    if IsRead(c.pc) {
      ReadKeepsCall(h, i, c, Pick(|h|, choice));
    } else if IsUpdate(c.pc) {
      UpdateKeepsCall(h, i, c, Submit(|h|, c.pc.base, choice), next.0);
    }
    hide CallOk, AfterRead, AfterUpdate, Written;
  }

  lemma StepWritesWell(h: seq<Version>, calls: seq<Call>, i: nat, choice: Choice)
    requires |h| > 0 && i < |calls| && CallOk(h, i, calls[i])
    requires |Step(h, i, calls[i], choice).0| > |h|
    ensures var next := Step(h, i, calls[i], choice);
            VersionOk(next.0, |h|, calls[i := next.1])
  {
  }

  lemma VersionOkStays(h: seq<Version>, k: nat, calls: seq<Call>, i: nat, choice: Choice)
    requires |h| > 0 && k < |h| && i < |calls| && CallOk(h, i, calls[i]) && VersionOk(h, k, calls)
    ensures var next := Step(h, i, calls[i], choice);
            VersionOk(next.0, k, calls[i := next.1])
  {
    StepKeepsCall(h, i, calls[i], choice);
    var next := Step(h, i, calls[i], choice);
    assert next.0[k] == h[k] && (k > 0 ==> next.0[k - 1] == h[k - 1]);
  }

  lemma ApplyKeepsConsistent(s: State, e: Event)
    requires Consistent(s)
    ensures Consistent(Apply(s, e))
  {
    var t := Apply(s, e);
    forall j | 0 <= j < |t.calls| ensures CallOk(t.history, j, t.calls[j]) {
      if e.Operator? && e.call == j {
        StepKeepsCall(s.history, j, s.calls[j], e.choice);
      } else {
        CallOkGrows(s.history, t.history, j, s.calls[j]);
      }
    }
    forall k | 0 <= k < |t.history| ensures VersionOk(t.history, k, t.calls) {
      if e.Operator? && e.call < |s.calls| {
        if k < |s.history| {
          VersionOkStays(s.history, k, s.calls, e.call, e.choice);
        } else {
          StepWritesWell(s.history, s.calls, e.call, e.choice);
        }
      } else if k < |s.history| {
        assert VersionOk(s.history, k, s.calls);
      }
    }
  }

  /** Exact record under interference: along every run, whatever outsiders write and however calls fail, an
      annotate write stores the positive count of the very version it replaces and lands at most once a call;
      a scale write changes the count alone and follows that call's record unless the call skipped it; a
      suspension carries its record in the same version. */
  lemma ExactRecord(s: State, events: seq<Event>)
    requires Initial(s)
    ensures Consistent(Run(s, events))
  {
    RunKeepsConsistent(s, events);
  }

  lemma {:induction false} RunKeepsConsistent(s: State, events: seq<Event>)
    requires Consistent(s)
    ensures Consistent(Run(s, events))
  {
    if events != [] {
      RunKeepsConsistent(s, events[..|events| - 1]);
      ApplyKeepsConsistent(Run(s, events[..|events| - 1]), events[|events| - 1]);
    }
  }

  /** A dry-run call never writes. */
  lemma DryRunWritesNothing(s: State, events: seq<Event>, k: nat)
    requires Initial(s) && k < |Run(s, events).history|
    requires forall i :: 0 <= i < |s.calls| ==> s.calls[i].dryRun
    ensures Run(s, events).history[k].writer == Outside
  {
    ExactRecord(s, events);
    CallsKeepTheirNature(s, events);
    assert VersionOk(Run(s, events).history, k, Run(s, events).calls);
  }

  lemma {:induction false} CallsKeepTheirNature(s: State, events: seq<Event>)
    requires |s.history| > 0
    ensures forall i :: 0 <= i < |s.calls| ==>
      var c := Run(s, events).calls[i];
      (c.cron, c.stamp, c.dryRun) == (s.calls[i].cron, s.calls[i].stamp, s.calls[i].dryRun)
  {
    if events != [] {
      CallsKeepTheirNature(s, events[..|events| - 1]);
    }
  }

  // ----- Once stopped, always stopped -----

  /** No operator step changes a stopped workload, however many calls are under way and whatever they have read. */
  lemma {:induction false} StoppedStaysUntouched(s: State, events: seq<Event>)
    requires Consistent(s)
    requires forall i :: 0 <= i < |s.calls| ==> IsStopped(s.calls[i].cron, Newest(s))
    requires forall e :: e in events ==> e.Operator?
    ensures Run(s, events).history == s.history
  {
    if events != [] {
      var before := events[..|events| - 1];
      StoppedStaysUntouched(s, before);
      var t := Run(s, before);
      CallsKeepTheirNature(s, before);
      RunKeepsConsistent(s, before);
      var e := events[|events| - 1];
      if e.call < |t.calls| {
        assert CallOk(t.history, e.call, t.calls[e.call]);
      }
    }
  }

  // ----- Runs in which no outsider starts or stops the workload -----

  /** An outside write that neither takes the count to or from zero nor touches the record. */
  ghost predicate Gentle(before: Workload, after: Workload) {
    RecordOf(after) == RecordOf(before) && (Count(after) == 0 <==> Count(before) == 0)
  }

  ghost predicate Undisturbed(s: State, events: seq<Event>)
    requires |s.history| > 0
  {
    events == [] ||
    (var before := events[..|events| - 1];
     var e := events[|events| - 1];
     Undisturbed(s, before) && (e.Edit? ==> Gentle(Newest(Run(s, before)), e.workload)))
  }

  /** The version that an event shows to a read, if it is a read that is answered. */
  function ServedVersion(s: State, e: Event): (v: Option<nat>)
    requires |s.history| > 0
    ensures v.Some? ==> v.value < |s.history| && e.Operator? && e.call < |s.calls| && IsRead(s.calls[e.call].pc)
  {
    if e.Operator? && e.call < |s.calls| && IsRead(s.calls[e.call].pc) then Pick(|s.history|, e.choice) else None
  }

  /** The guard that skips the record, met on a version at zero that was replaced before the run began: the cache
      still shows an earlier stop of a workload that has long been restored. */
  ghost predicate SkipsOnOld(s: State, e: Event, start: nat)
    requires |s.history| > 0
  {
    var v := ServedVersion(s, e);
    && v.Some? && v.value < start && Count(s.history[v.value].workload) == 0
    && s.calls[e.call].pc.AnnotateGet? && s.calls[e.call].previous > 0
  }

  /** No call of the run takes an earlier stop for one of this run. */
  ghost predicate NoSkipOnOld(s: State, events: seq<Event>, start: nat)
    requires |s.history| > 0
  {
    events == [] ||
    (var before := events[..|events| - 1];
     NoSkipOnOld(s, before, start) && !SkipsOnOld(Run(s, before), events[|events| - 1], start))
  }

  /** Version k names an operator call as the one that stops the workload, and as previous replicas the
      positive count of some earlier version, no earlier than the one the run started from. */
  ghost predicate Recorded(h: seq<Version>, k: nat, calls: seq<Call>, start: nat)
    requires k < |h|
  {
    var record := RecordOf(h[k].workload);
    && record.Some?
    && (exists i :: 0 <= i < |calls| && record.value.stamp == calls[i].stamp)
    && (exists j :: start <= j < k && Count(h[j].workload) > 0
                    && record.value.previous == Decimal.Format(Count(h[j].workload)))
  }

  ghost predicate Scaling(c: Call) {
    c.pc.ScaleGet? || c.pc.ScaleUpdate?
  }

  ghost predicate RecordKept(s: State, start: nat) {
    var h := s.history;
    && start < |h| && Count(h[start].workload) > 0
    && (forall k :: start < k < |h| && Count(h[k].workload) == 0 ==>
          Recorded(h, k, s.calls, start) && Count(Newest(s)) == 0)
    && (forall i :: 0 <= i < |s.calls| && Scaling(s.calls[i]) ==> Recorded(h, |h| - 1, s.calls, start))
  }

  ghost predicate Orderly(s: State, start: nat) {
    Consistent(s) && (forall i :: 0 <= i < |s.calls| ==> !s.calls[i].cron) && RecordKept(s, start)
  }

  ghost predicate SameStamps(calls: seq<Call>, calls': seq<Call>) {
    |calls| == |calls'| && forall i :: 0 <= i < |calls| ==> calls'[i].stamp == calls[i].stamp
  }

  lemma RecordedStays(h: seq<Version>, h': seq<Version>, k: nat, calls: seq<Call>, calls': seq<Call>, start: nat)
    requires k < |h| && h <= h' && SameStamps(calls, calls')
    ensures Recorded(h, k, calls, start) <==> Recorded(h', k, calls', start)
  {
  }

  /** A call can only come to scaling from scaling, by the record just written, or after a stop of this run. */
  ghost predicate ScalingExplained(s: State, t: State, i: nat, start: nat)
    requires |s.history| > 0 && i < |s.calls| && |t.calls| == |s.calls|
  {
    Scaling(t.calls[i]) ==>
      || Scaling(s.calls[i])
      || (|t.history| == |s.history| + 1 && t.history[|s.history|].writer.Annotator?)
      || (exists v :: start <= v < |s.history| && Count(s.history[v].workload) == 0)
  }

  /** What one new version does to the record. */
  ghost predicate WriteExplained(s: State, t: State, start: nat)
    requires |s.history| > 0 && |t.history| == |s.history| + 1
  {
    var n := |s.history|;
    && (Recorded(t.history, n - 1, t.calls, start) ==> Recorded(t.history, n, t.calls, start))
    && (Count(Newest(t)) == 0 ==> Count(Newest(s)) == 0 || Recorded(t.history, n - 1, t.calls, start))
    && (Count(Newest(s)) == 0 ==> Count(Newest(t)) == 0)
    && (t.history[n].writer.Annotator? ==> Recorded(t.history, n, t.calls, start))
  }

  /** What one step does to the record, told without the step itself. */
  ghost predicate RecordStep(s: State, t: State, start: nat)
    requires |s.history| > 0
  {
    && s.history <= t.history && |t.history| <= |s.history| + 1 && SameStamps(s.calls, t.calls)
    && (|t.history| == |s.history| + 1 ==> WriteExplained(s, t, start))
    && (forall i :: 0 <= i < |s.calls| ==> ScalingExplained(s, t, i, start))
  }

  lemma EditIsRecordStep(s: State, e: Event, start: nat)
    requires Orderly(s, start) && e.Edit? && Gentle(Newest(s), e.workload)
    ensures RecordStep(s, Apply(s, e), start)
  {
  }

  lemma ScalingComesFrom(s: State, e: Event, i: nat, start: nat)
    requires |s.history| > 0 && e.Operator? && e.call < |s.calls| && i < |s.calls| && !SkipsOnOld(s, e, start)
    ensures ScalingExplained(s, Apply(s, e), i, start)
  {
  }

  lemma WriteIsRecordStep(h: seq<Version>, i: nat, calls: seq<Call>, choice: Choice, start: nat)
    requires start < |h| && i < |calls| && !calls[i].cron && CallOk(h, i, calls[i])
    requires Scaling(calls[i]) ==> Recorded(h, |h| - 1, calls, start)
    requires |Step(h, i, calls[i], choice).0| > |h|
    ensures var next := Step(h, i, calls[i], choice);
            var n, calls' := |h|, calls[i := next.1];
            && Count(h[n - 1].workload) > 0
            && (Recorded(next.0, n - 1, calls', start) ==> Recorded(next.0, n, calls', start))
            && (Count(next.0[n].workload) == 0 ==> Recorded(next.0, n - 1, calls', start))
            && (next.0[n].writer.Annotator? ==> Recorded(next.0, n, calls', start))
  {
    var next := Step(h, i, calls[i], choice);
    var n, calls' := |h|, calls[i := next.1];
    RecordedStays(h, next.0, n - 1, calls, calls', start);
    assert next.0[n - 1] == h[n - 1];
    if next.0[n].writer.Annotator? {
      RecordReadsBack(h[n - 1].workload, calls[i].stamp, calls[i].previous);
      assert calls'[i].stamp == calls[i].stamp;
    } else {
      assert RecordOf(next.0[n].workload) == RecordOf(h[n - 1].workload);
    }
  }

  lemma OperatorWriteExplained(s: State, e: Event, start: nat)
    requires Orderly(s, start) && e.Operator? && e.call < |s.calls| && |Apply(s, e).history| > |s.history|
    ensures WriteExplained(s, Apply(s, e), start)
  {
    assert CallOk(s.history, e.call, s.calls[e.call]);
    hide Recorded, Step, CallOk, VersionOk;
    WriteIsRecordStep(s.history, e.call, s.calls, e.choice, start);
  }

  lemma OperatorIsRecordStep(s: State, e: Event, start: nat)
    requires Orderly(s, start) && e.Operator? && e.call < |s.calls| && !SkipsOnOld(s, e, start)
    ensures RecordStep(s, Apply(s, e), start)
  {
    hide Recorded, Step, CallOk, VersionOk;
    if |Apply(s, e).history| > |s.history| {
      OperatorWriteExplained(s, e, start);
    }
    forall i | 0 <= i < |s.calls| ensures ScalingExplained(s, Apply(s, e), i, start) {
      ScalingComesFrom(s, e, i, start);
    }
    hide WriteExplained, ScalingExplained, SkipsOnOld;
  }

  lemma StepKeepsStops(s: State, t: State, start: nat, k: nat)
    requires |s.history| > 0 && RecordKept(s, start) && RecordStep(s, t, start)
    requires start < k < |t.history| && Count(t.history[k].workload) == 0
    ensures Recorded(t.history, k, t.calls, start) && Count(Newest(t)) == 0
  {
    var n := |s.history|;
    RecordedStays(s.history, t.history, n - 1, s.calls, t.calls, start);
    if k < n {
      assert s.history[k] == t.history[k];
      RecordedStays(s.history, t.history, k, s.calls, t.calls, start);
    }
    assert s.history[n - 1].workload == Newest(s);
    hide Recorded, ScalingExplained;
  }

  lemma StepKeepsScaling(s: State, t: State, start: nat, i: nat)
    requires |s.history| > 0 && RecordKept(s, start) && RecordStep(s, t, start)
    requires i < |t.calls| && Scaling(t.calls[i])
    ensures Recorded(t.history, |t.history| - 1, t.calls, start)
  {
    var n := |s.history|;
    RecordedStays(s.history, t.history, n - 1, s.calls, t.calls, start);
    assert ScalingExplained(s, t, i, start);
    if v :| start <= v < n && Count(s.history[v].workload) == 0 {
      assert s.history[n - 1].workload == Newest(s);
    }
    hide Recorded;
  }

  lemma RecordStepKeepsRecord(s: State, t: State, start: nat)
    requires |s.history| > 0 && RecordKept(s, start) && RecordStep(s, t, start)
    ensures RecordKept(t, start)
  {
    forall k | start < k < |t.history| && Count(t.history[k].workload) == 0
      ensures Recorded(t.history, k, t.calls, start) && Count(Newest(t)) == 0
    {
      StepKeepsStops(s, t, start, k);
    }
    forall i | 0 <= i < |t.calls| && Scaling(t.calls[i])
      ensures Recorded(t.history, |t.history| - 1, t.calls, start)
    {
      StepKeepsScaling(s, t, start, i);
    }
    hide Recorded, WriteExplained, ScalingExplained;
  }

  lemma ApplyKeepsOrderly(s: State, e: Event, start: nat)
    requires Orderly(s, start) && (e.Edit? ==> Gentle(Newest(s), e.workload)) && !SkipsOnOld(s, e, start)
    ensures Orderly(Apply(s, e), start)
  {
    ApplyKeepsConsistent(s, e);
    hide SkipsOnOld;
    if e.Edit? {
      EditIsRecordStep(s, e, start);
      RecordStepKeepsRecord(s, Apply(s, e), start);
    } else if e.call < |s.calls| {
      OperatorIsRecordStep(s, e, start);
      RecordStepKeepsRecord(s, Apply(s, e), start);
    }
  }

  /** The workload is running when the calls begin, whatever it has been through before. */
  ghost predicate Running(s: State) {
    && Initial(s)
    && (forall i :: 0 <= i < |s.calls| ==> !s.calls[i].cron)
    && Count(Newest(s)) > 0
  }

  lemma {:induction false} UndisturbedIsOrderly(s: State, events: seq<Event>)
    requires Running(s) && Undisturbed(s, events) && NoSkipOnOld(s, events, |s.history| - 1)
    ensures Orderly(Run(s, events), |s.history| - 1)
  {
    if events != [] {
      UndisturbedIsOrderly(s, events[..|events| - 1]);
      ApplyKeepsOrderly(Run(s, events[..|events| - 1]), events[|events| - 1], |s.history| - 1);
    }
  }

  /** Outsiders leave the count itself alone as well. */
  ghost predicate CountKept(s: State, events: seq<Event>)
    requires |s.history| > 0
  {
    events == [] ||
    (var before := events[..|events| - 1];
     var e := events[|events| - 1];
     CountKept(s, before) && (e.Edit? ==> Count(e.workload) == Count(Newest(Run(s, before)))))
  }

  lemma WrittenCount(s: State, e: Event)
    requires Consistent(s) && |Apply(s, e).history| > |s.history|
    requires e.Edit? ==> Count(e.workload) == Count(Newest(s))
    ensures Count(Newest(Apply(s, e))) in {0, Count(Newest(s))}
  {
    ApplyKeepsConsistent(s, e);
    var t := Apply(s, e);
    assert VersionOk(t.history, |s.history|, t.calls);
    assert t.history[|s.history| - 1] == s.history[|s.history| - 1];
  }

  /** From the version the run starts from on, every version has that version's count or is at zero. */
  lemma {:induction false} CountsAreAllOrNothing(s: State, events: seq<Event>)
    requires Initial(s) && CountKept(s, events)
    ensures forall k :: |s.history| - 1 <= k < |Run(s, events).history| ==>
              Count(Run(s, events).history[k].workload) in {0, Count(Newest(s))}
  {
    if events != [] {
      var before := events[..|events| - 1];
      CountsAreAllOrNothing(s, before);
      ExactRecord(s, before);
      var t, u := Run(s, before), Run(s, events);
      assert Newest(t) == t.history[|t.history| - 1].workload;
      if |u.history| > |t.history| {
        WrittenCount(t, events[|events| - 1]);
      }
    }
  }

  /** Record before stop: a workload is running, whatever its past. Over every run of any number of calls with
      stale reads, conflicts and failures, with outsiders that may rescale the workload but neither start nor
      stop it nor touch its record, and in which no call takes an earlier stop for one of this run, whenever a
      version stored by the run is at zero it names a call of this run and the decimal of a positive count the
      workload had since the run began, and the workload stays at zero. */
  lemma RecordBeforeStop(s: State, events: seq<Event>, k: nat)
    requires Running(s) && Undisturbed(s, events) && NoSkipOnOld(s, events, |s.history| - 1)
    requires |s.history| <= k < |Run(s, events).history| && Count(Run(s, events).history[k].workload) == 0
    ensures Recorded(Run(s, events).history, k, Run(s, events).calls, |s.history| - 1)
    ensures Count(Newest(Run(s, events))) == 0
  {
    UndisturbedIsOrderly(s, events);
  }

  /** When outsiders also keep the count, the record reads back as the count the workload started with. */
  lemma RecordIsStartingCount(s: State, events: seq<Event>, k: nat)
    requires Running(s) && Undisturbed(s, events) && CountKept(s, events) && NoSkipOnOld(s, events, |s.history| - 1)
    requires |s.history| <= k < |Run(s, events).history| && Count(Run(s, events).history[k].workload) == 0
    ensures var record := RecordOf(Run(s, events).history[k].workload);
            && record.Some? && Decimal.Parse(record.value.previous) == Some(Count(Newest(s)))
            && exists i :: 0 <= i < |s.calls| && record.value.stamp == s.calls[i].stamp
  {
    var t, start := Run(s, events), |s.history| - 1;
    RecordBeforeStop(s, events, k);
    CountsAreAllOrNothing(s, events);
    CallsKeepTheirNature(s, events);
    var record := RecordOf(t.history[k].workload).value;
    var j :| start <= j < k && Count(t.history[j].workload) > 0
             && record.previous == Decimal.Format(Count(t.history[j].workload));
    Decimal.RoundTrip(Count(Newest(s)));
    var i :| 0 <= i < |t.calls| && record.stamp == t.calls[i].stamp;
    assert record.stamp == s.calls[i].stamp;
  }

  /** On a workload that has never been at zero there is no earlier stop to be taken for one of this run. */
  lemma {:induction false} NeverStoppedNeverMistaken(s: State, events: seq<Event>)
    requires |s.history| > 0 && forall k :: 0 <= k < |s.history| ==> Count(s.history[k].workload) > 0
    ensures NoSkipOnOld(s, events, |s.history| - 1)
  {
    if events != [] {
      NeverStoppedNeverMistaken(s, events[..|events| - 1]);
      assert s.history <= Run(s, events[..|events| - 1]).history;
      hide Run;
    }
  }

  /** A CronJob is never suspended without saying by whom: the suspension and its record are one write. */
  lemma SuspensionIsRecorded(s: State, events: seq<Event>, k: nat)
    requires Initial(s) && k < |Run(s, events).history|
    requires Run(s, events).history[k].writer.Suspender?
    ensures var t := Run(s, events);
            && k > 0 && !IsSuspended(t.history[k - 1].workload) && IsSuspended(t.history[k].workload)
            && exists i :: 0 <= i < |s.calls| && StampOf(t.history[k].workload) == Some(s.calls[i].stamp)
  {
    ExactRecord(s, events);
    CallsKeepTheirNature(s, events);
    var t := Run(s, events);
    assert VersionOk(t.history, k, t.calls);
    var i := t.history[k].writer.call;
    RecordReadsBack(t.history[k - 1].workload, t.calls[i].stamp, 0);
    assert StampOf(t.history[k].workload) == Some(s.calls[i].stamp);
  }
}
