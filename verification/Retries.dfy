/** How often a stop tries again, and what that is good for: the outcome of a call told from the answers its
    requests got, and its success once it is left alone. */
module Retries {
  import opened Cluster
  import opened StopProtocol
  import opened StopOutcomes

  /** The three conflict-retry loops, by the update they repeat. */
  datatype Loop = Annotating | Scaling | Suspending

  predicate InUpdate(pc: Pc, loop: Loop) {
    match loop
    case Annotating => pc.AnnotateUpdate?
    case Scaling => pc.ScaleUpdate?
    case Suspending => pc.SuspendUpdate?
  }

  predicate InRead(pc: Pc, loop: Loop) {
    match loop
    case Annotating => pc.AnnotateGet?
    case Scaling => pc.ScaleGet?
    case Suspending => pc.SuspendGet?
  }

  /** This event answers an update of call `i` in this loop with a conflict: the server says so, or the version it
      was made from is no longer the newest. */
  predicate ConflictsAt(s: State, e: Event, i: nat, loop: Loop) {
    && e.Operator? && e.call == i && i < |s.calls|
    && InUpdate(s.calls[i].pc, loop)
    && match s.calls[i].pc
       case AnnotateUpdate(base) => Rebuffed(s, e.choice, base)
       case ScaleUpdate(base) => Rebuffed(s, e.choice, base)
       case SuspendUpdate(base) => Rebuffed(s, e.choice, base)
       case _ => false
  }

  predicate Rebuffed(s: State, choice: Choice, base: nat) {
    !choice.Refuse? && (choice.Clash? || base + 1 != |s.history|)
  }

  /** How many updates of call `i` in this loop the run answers with a conflict. */
  function Conflicts(s: State, events: seq<Event>, i: nat, loop: Loop): nat
    requires |s.history| > 0
  {
    if events == [] then 0
    else
      var before := events[..|events| - 1];
      Conflicts(s, before, i, loop)
      + if ConflictsAt(Run(s, before), events[|events| - 1], i, loop) then 1 else 0
  }

  /** This event leaves a request of call `i` without an answer that the call may believe: a read that is refused,
      an update that is refused, or one that lands although the call is told it failed. */
  predicate FailsAt(s: State, e: Event, i: nat) {
    && e.Operator? && e.call == i && i < |s.calls|
    && match s.calls[i].pc
       case AnnotateUpdate(base) => Unanswered(s, e.choice, base)
       case ScaleUpdate(base) => Unanswered(s, e.choice, base)
       case SuspendUpdate(base) => Unanswered(s, e.choice, base)
       case Done(_) => false
       case _ => !e.choice.Serve?
  }

  predicate Unanswered(s: State, choice: Choice, base: nat) {
    choice.Refuse? || (choice.Lost? && base + 1 == |s.history|)
  }

  predicate Failed(s: State, events: seq<Event>, i: nat)
    requires |s.history| > 0
  {
    events != [] &&
    (var before := events[..|events| - 1];
     Failed(s, before, i) || FailsAt(Run(s, before), events[|events| - 1], i))
  }

  /** The attempts of one loop, as the client library's default has them. */
  const TRIES: nat := 5

  /** Where a call stands, told by its conflicts so far. */
  ghost predicate Stands(c: Call, annotating: nat, scaling: nat, suspending: nat, failed: bool) {
    && (c.pc.InitialGet? ==> annotating == scaling == suspending == 0)
    && (c.pc.AnnotateGet? || c.pc.AnnotateUpdate? ==>
          annotating < TRIES && c.left == TRIES - annotating && scaling == suspending == 0)
    && (c.pc.ScaleGet? || c.pc.ScaleUpdate? ==>
          annotating < TRIES && scaling < TRIES && c.left == TRIES - scaling && suspending == 0)
    && (c.pc.SuspendGet? || c.pc.SuspendUpdate? ==>
          suspending < TRIES && c.left == TRIES - suspending && annotating == scaling == 0)
    && annotating <= TRIES && scaling <= TRIES && suspending <= TRIES
    && (c.pc == Done(Err(Conflict)) <==> annotating == TRIES || scaling == TRIES || suspending == TRIES)
    && (c.pc == Done(Err(Unavailable)) <==> failed)
    && (c.pc.Done? && c.pc.result.Err? ==> c.pc.result.error in {Conflict, Unavailable})
  }

  lemma ReadStands(c: Call, v: Option<nat>, w: Workload, a: nat, b: nat, d: nat, failed: bool)
    requires Stands(c, a, b, d, failed) && IsRead(c.pc)
    ensures Stands(AfterRead(c, v, w), a, b, d, failed || v.None?)
  {
    hide Count, IsSuspended;
  }

  lemma UpdateStands(c: Call, s: Submission, at: nat, a: nat, b: nat, d: nat, failed: bool)
    requires Stands(c, a, b, d, failed) && IsUpdate(c.pc)
    ensures Stands(AfterUpdate(c, s, at),
                   a + if s.Conflicting? && c.pc.AnnotateUpdate? then 1 else 0,
                   b + if s.Conflicting? && c.pc.ScaleUpdate? then 1 else 0,
                   d + if s.Conflicting? && c.pc.SuspendUpdate? then 1 else 0,
                   failed || s.Rejected? || s.LandedUnseen?)
  {
  }

  /** What an event is to call `i`, in the terms above. */
  lemma AnswerMeaning(t: State, i: nat, choice: Choice)
    requires |t.history| > 0 && i < |t.calls|
    ensures var e, c := Operator(i, choice), t.calls[i];
            && (forall loop :: ConflictsAt(t, e, i, loop) <==>
                  InUpdate(c.pc, loop) && Submit(|t.history|, c.pc.base, choice).Conflicting?)
            && (FailsAt(t, e, i) <==>
                  || (IsRead(c.pc) && Pick(|t.history|, choice).None?)
                  || (IsUpdate(c.pc) && (Submit(|t.history|, c.pc.base, choice).Rejected?
                                         || Submit(|t.history|, c.pc.base, choice).LandedUnseen?)))
  {
  }

  lemma StepStands(t: State, e: Event, i: nat, a: nat, b: nat, d: nat, failed: bool)
    requires |t.history| > 0 && i < |t.calls| && Stands(t.calls[i], a, b, d, failed)
    ensures Stands(Apply(t, e).calls[i],
                   a + if ConflictsAt(t, e, i, Annotating) then 1 else 0,
                   b + if ConflictsAt(t, e, i, Loop.Scaling) then 1 else 0,
                   d + if ConflictsAt(t, e, i, Suspending) then 1 else 0,
                   failed || FailsAt(t, e, i))
  {
    hide Written, AfterRead, AfterUpdate, Submit, Pick;
    if e.Operator? && e.call == i {
      var c, n := t.calls[i], |t.history|;
      AnswerMeaning(t, i, e.choice);
      if IsRead(c.pc) {
        var v := Pick(n, e.choice);
        ReadStands(c, v, t.history[if v.Some? then v.value else 0].workload, a, b, d, failed);
      } else if IsUpdate(c.pc) {
        UpdateStands(c, Submit(n, c.pc.base, e.choice), n, a, b, d, failed);
      }
      hide Stands, ConflictsAt, FailsAt;
    }
  }

  lemma {:induction false} RunStands(s: State, events: seq<Event>, i: nat)
    requires Initial(s) && i < |s.calls|
    ensures Stands(Run(s, events).calls[i], Conflicts(s, events, i, Annotating), Conflicts(s, events, i, Scaling),
                   Conflicts(s, events, i, Suspending), Failed(s, events, i))
  {
    if events != [] {
      var before := events[..|events| - 1];
      RunStands(s, before, i);
      StepStands(Run(s, before), events[|events| - 1], i, Conflicts(s, before, i, Annotating),
                 Conflicts(s, before, i, Scaling), Conflicts(s, before, i, Suspending), Failed(s, before, i));
      hide Stands, ConflictsAt, FailsAt, Apply;
    }
  }

  /** A call gives up on conflicts exactly when five updates of one of its loops were answered with one, and on a
      failure exactly when a request was left without an answer. It ends in no other error. */
  lemma WhenACallGivesUp(s: State, events: seq<Event>, i: nat)
    requires Initial(s) && i < |s.calls|
    ensures var pc := Run(s, events).calls[i].pc;
            && (pc == Done(Err(Conflict)) <==> exists loop :: Conflicts(s, events, i, loop) == 5)
            && (pc == Done(Err(Unavailable)) <==> Failed(s, events, i))
            && (pc.Done? && pc.result.Err? ==> pc.result.error in {Conflict, Unavailable})
    ensures forall loop :: Conflicts(s, events, i, loop) <= 5
  {
    hide Run, Conflicts, Failed;
    RunStands(s, events, i);
    FiveMeansSome(s, events, i);
  }

  /** Some loop has five conflicts, loop by loop. */
  lemma FiveMeansSome(s: State, events: seq<Event>, i: nat)
    requires |s.history| > 0
    ensures (exists loop :: Conflicts(s, events, i, loop) == 5) <==>
            || Conflicts(s, events, i, Annotating) == 5
            || Conflicts(s, events, i, Loop.Scaling) == 5
            || Conflicts(s, events, i, Suspending) == 5
    ensures (forall loop :: Conflicts(s, events, i, loop) <= 5) <==>
            && Conflicts(s, events, i, Annotating) <= 5
            && Conflicts(s, events, i, Loop.Scaling) <= 5
            && Conflicts(s, events, i, Suspending) <= 5
  {
    hide Run, Conflicts;
    if Conflicts(s, events, i, Annotating) <= 5 && Conflicts(s, events, i, Loop.Scaling) <= 5
       && Conflicts(s, events, i, Suspending) <= 5 {
      forall loop ensures Conflicts(s, events, i, loop) <= 5 {
        match loop {
          case Annotating =>
          case Scaling =>
          case Suspending =>
        }
      }
    }
    if loop :| Conflicts(s, events, i, loop) == 5 {
      match loop {
        case Annotating =>
        case Scaling =>
        case Suspending =>
      }
    }
  }

  /** A conflict that is not the fifth of its loop sends the call back to the loop's read, with nothing written. */
  lemma ConflictIsRetried(s: State, events: seq<Event>, e: Event, i: nat, loop: Loop)
    requires Initial(s) && i < |s.calls|
    requires ConflictsAt(Run(s, events), e, i, loop) && Conflicts(s, events + [e], i, loop) < 5
    ensures var t, u := Run(s, events), Run(s, events + [e]);
            InRead(u.calls[i].pc, loop) && u.history == t.history && u.calls[i].previous == t.calls[i].previous
  {
    RunStands(s, events, i);
    RunStep(s, events, e);
    assert (events + [e])[..|events|] == events;
    hide Run, Written;
  }

  // ----- Success -----

  lemma SuspendsNow(m: State, i: nat)
    requires |m.history| > 0 && i < |m.calls| && m.calls[i].pc == SuspendGet && !IsSuspended(Newest(m))
    ensures var t := Run(m, ReadAndWrite(i, |m.history| - 1));
            && t.history == m.history + [Version(Suspended(Newest(m), m.calls[i].stamp), Suspender(i))]
            && OnlyMoved(m, t, i, m.calls[i].(pc := Done(Ok(true))))
  {
    hide Run, Apply, Suspended, IsSuspended;
    var e, v := ReadAndWrite(i, |m.history| - 1), |m.history| - 1;
    RunTwo(m, e[0], e[1]);
    ReadApplies(m, i, v);
    UpdateApplies(Apply(m, e[0]), i, v);
  }

  /** The requests of a call from the read of this loop to its end, each answered at once on the newest of `n`
      versions. */
  function Undisputed(i: nat, n: nat, loop: Loop): seq<Event>
    requires n > 0
  {
    if loop.Annotating? then ReadAndWrite(i, n - 1) + ReadAndWrite(i, n) else ReadAndWrite(i, n - 1)
  }

  /** What a running workload comes to. */
  function StoppedFrom(w: Workload, stamp: Stamp, loop: Loop): Workload {
    match loop
    case Annotating => Scaled(Annotated(w, stamp, Count(w)))
    case Scaling => Scaled(w)
    case Suspending => Suspended(w, stamp)
  }

  lemma AnnotatingStops(m: State, i: nat)
    requires |m.history| > 0 && i < |m.calls| && m.calls[i].pc == AnnotateGet && Count(Newest(m)) > 0
    ensures var t := Run(m, Undisputed(i, |m.history|, Annotating));
            && |t.calls| == |m.calls| && t.calls[i].pc == Done(Ok(true))
            && Newest(t) == StoppedFrom(Newest(m), m.calls[i].stamp, Annotating)
            && t.history[|t.history| - 1].writer == Scaler(i)
  {
    var n := |m.history|;
    var first, second := ReadAndWrite(i, n - 1), ReadAndWrite(i, n);
    hide Run, ReadAndWrite;
    RecordsNow(m, i);
    RunConcat(m, first, second);
    CountKeptByRecord(Newest(m), m.calls[i].stamp);
    hide Annotated, Count;
    ScalesNow(Run(m, first), i);
  }

  lemma CountKeptByRecord(w: Workload, stamp: Stamp)
    ensures Count(Annotated(w, stamp, Count(w))) == Count(w)
  {
  }

  /** From the read of any of its loops, a call whose requests are answered at once stops a running workload and
      reports it. */
  lemma UndisputedStops(m: State, i: nat, loop: Loop)
    requires |m.history| > 0 && i < |m.calls| && InRead(m.calls[i].pc, loop)
    requires if loop.Suspending? then !IsSuspended(Newest(m)) else Count(Newest(m)) > 0
    ensures var t := Run(m, Undisputed(i, |m.history|, loop));
            && |t.calls| == |m.calls| && t.calls[i].pc == Done(Ok(true))
            && Newest(t) == StoppedFrom(Newest(m), m.calls[i].stamp, loop)
            && StoppedBy(t.history[|t.history| - 1], i)
  {
    hide Run;
    match loop {
      case Annotating => AnnotatingStops(m, i);
      case Scaling => ScalesNow(m, i);
      case Suspending => SuspendsNow(m, i);
    }
  }

  lemma ThenUndisputed(s: State, events: seq<Event>, m: State, i: nat, loop: Loop)
    requires |s.history| > 0 && m == Run(s, events) && i < |m.calls| && InRead(m.calls[i].pc, loop)
    requires if loop.Suspending? then !IsSuspended(Newest(m)) else Count(Newest(m)) > 0
    ensures var u := Run(s, events + Undisputed(i, |m.history|, loop));
            && u.calls[i].pc == Done(Ok(true))
            && Newest(u) == StoppedFrom(Newest(m), m.calls[i].stamp, loop)
            && StoppedBy(u.history[|u.history| - 1], i)
  {
    hide Run, Undisputed, StoppedFrom;
    UndisputedStops(m, i, loop);
    RunConcat(s, events, Undisputed(i, |m.history|, loop));
  }

  lemma AfterConflict(s: State, events: seq<Event>, e: Event, i: nat, loop: Loop)
    requires Initial(s) && i < |s.calls|
    requires ConflictsAt(Run(s, events), e, i, loop) && Conflicts(s, events + [e], i, loop) < 5
    ensures var t, m := Run(s, events), Run(s, events + [e]);
            && InRead(m.calls[i].pc, loop) && m.calls[i].stamp == s.calls[i].stamp
            && |m.history| == |t.history| && Newest(m) == Newest(t)
  {
    CallsKeepTheirNature(s, events + [e]);
    ConflictIsRetried(s, events, e, i, loop);
    hide Run, Conflicts, ConflictsAt;
  }

  /** Conflicts cost nothing but time: whatever has happened before, a call met by a conflict that is not the fifth
      of its loop reads again, and if that read and the writes after it are answered at once on a running
      workload, the call stops it and reports `true`. */
  lemma RetriedCallStops(s: State, events: seq<Event>, e: Event, i: nat, loop: Loop)
    requires |s.history| > 0 && Initial(s) && i < |s.calls|
    requires ConflictsAt(Run(s, events), e, i, loop) && Conflicts(s, events + [e], i, loop) < 5
    requires var w := Newest(Run(s, events)); if loop.Suspending? then !IsSuspended(w) else Count(w) > 0
    ensures var t := Run(s, events);
            var u := Run(s, events + [e] + Undisputed(i, |t.history|, loop));
            && u.calls[i].pc == Done(Ok(true))
            && Newest(u) == StoppedFrom(Newest(t), s.calls[i].stamp, loop)
            && StoppedBy(u.history[|u.history| - 1], i)
  {
    hide *;
    AfterConflict(s, events, e, i, loop);
    ThenUndisputed(s, events + [e], Run(s, events + [e]), i, loop);
  }
}
