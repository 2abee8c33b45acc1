/** The operator's client, seen from one pass, and the stop of one workload through it. On a quiet client nobody
    else writes and reads are fresh; otherwise outsiders may write before any request, reads may be stale, and
    any request may fail. Whatever happens, each conflict-retry loop is shown to be a run of the step system. */
module Clients {
  import opened Cluster
  import opened Status
  import P = StopProtocol

  /** One stored version of a workload, and whether the operator wrote it. */
  datatype Entry = Entry(workload: Workload, ours: bool)

  function Others(ws: seq<Workload>): (es: seq<Entry>)
    ensures |es| == |ws| && forall k :: 0 <= k < |ws| ==> es[k] == Entry(ws[k], false)
  {
    seq(|ws|, k requires 0 <= k < |ws| => Entry(ws[k], false))
  }

  function Outsiders(ws: seq<Workload>): (h: seq<P.Version>)
    ensures |h| == |ws| && forall k :: 0 <= k < |ws| ==> h[k] == P.Version(ws[k], P.Outside)
  {
    seq(|ws|, k requires 0 <= k < |ws| => P.Version(ws[k], P.Outside))
  }

  /** What a call finds when it starts: versions it has not written itself. */
  function Found(es: seq<Entry>): (h: seq<P.Version>)
    ensures |h| == |es| && forall k :: 0 <= k < |es| ==> h[k] == P.Version(es[k].workload, P.Outside)
  {
    seq(|es|, k requires 0 <= k < |es| => P.Version(es[k].workload, P.Outside))
  }

  function Edits(ws: seq<Workload>): (es: seq<P.Event>)
    ensures |es| == |ws| && forall k :: 0 <= k < |ws| ==> es[k] == P.Edit(ws[k])
  {
    seq(|ws|, k requires 0 <= k < |ws| => P.Edit(ws[k]))
  }

  lemma {:induction false} RunEdits(s: P.State, ws: seq<Workload>)
    requires |s.history| > 0
    ensures P.Run(s, Edits(ws)) == s.(history := s.history + Outsiders(ws))
  {
    if ws == [] {
      assert s.history + Outsiders(ws) == s.history;
    } else {
      var front := ws[..|ws| - 1];
      RunEdits(s, front);
      assert Edits(ws)[..|ws| - 1] == Edits(front);
      assert s.history + Outsiders(ws) == s.history + Outsiders(front) + [P.Version(ws[|ws| - 1], P.Outside)];
    }
  }

  /** The events behind one request: whatever outsiders wrote first, then the request itself. */
  function RequestEvents(ws: seq<Workload>, choice: P.Choice): seq<P.Event> {
    Edits(ws) + [P.Operator(0, choice)]
  }

  lemma RunRequest(start: P.State, trace: seq<P.Event>, ws: seq<Workload>, choice: P.Choice)
    requires |start.history| > 0
    ensures var s := P.Run(start, trace);
            P.Run(start, trace + RequestEvents(ws, choice)) ==
            P.Apply(s.(history := s.history + Outsiders(ws)), P.Operator(0, choice))
  {
    var s := P.Run(start, trace);
    P.RunConcat(start, trace, RequestEvents(ws, choice));
    P.RunConcat(s, Edits(ws), [P.Operator(0, choice)]);
    RunEdits(s, ws);
    P.RunStep(s, Edits(ws), P.Operator(0, choice));
  }

  /** The kinds an owner can have. */
  const KINDS: set<string> := {"Deployment", "StatefulSet", "CronJob"}

  function StoppedAs(w: Workload, cron: bool, stamp: P.Stamp): Workload {
    if cron then P.Suspended(w, stamp) else P.Scaled(P.Annotated(w, stamp, Count(w)))
  }

  ghost predicate AllStored(all: map<Ref, seq<Entry>>) {
    forall r :: r in all ==> |all[r]| > 0
  }

  function NewestAll(all: map<Ref, seq<Entry>>): Objects
    requires AllStored(all)
  {
    map r | r in all :: all[r][|all[r]| - 1].workload
  }

  lemma NewestAllAfter(all: map<Ref, seq<Entry>>, ref: Ref, es: seq<Entry>)
    requires AllStored(all) && ref in all && |es| > 0
    ensures AllStored(all[ref := es])
    ensures NewestAll(all[ref := es]) == NewestAll(all)[ref := es[|es| - 1].workload]
    ensures es == all[ref] ==> all[ref := es] == all && NewestAll(all[ref := es]) == NewestAll(all)
  {
  }

  class Client {
    const quiet: bool
    const view: View
    /** Every version of each workload, oldest first. */
    var workloads: map<Ref, seq<Entry>>
    /** Every version of each policy's status, oldest first. */
    var statuses: map<string, seq<StatusVersion>>
    /** How many status updates have been answered with a conflict, and how many status requests have failed. */
    ghost var conflicts: nat
    ghost var failures: nat

    ghost predicate Valid()
      reads this
    {
      && AllStored(workloads)
      && (forall n :: n in statuses ==> |statuses[n]| > 0 && Chained(statuses[n]))
    }

    function Objects(): Objects
      requires Valid()
      reads this
    {
      NewestAll(workloads)
    }

    /** A read of the newest version. */
    function Read(ref: Ref): Result<Workload>
      requires Valid()
      reads this
    {
      ReadObject(view, Objects(), ref)
    }

    method Interfere(ref: Ref) returns (outside: seq<Workload>)
      requires Valid() && ref in workloads
      modifies this`workloads
      ensures Valid()
      ensures workloads == old(workloads)[ref := old(workloads[ref]) + Others(outside)]
      ensures quiet ==> outside == []
    {
      outside := [];
      if !quiet {
        outside := *;
      }
      workloads := workloads[ref := workloads[ref] + Others(outside)];
    }

    /** The version a read returns, if any. */
    method Get(ref: Ref) returns (v: Option<nat>, ghost outside: seq<Workload>, ghost choice: P.Choice)
      requires Valid() && ref in workloads
      modifies this`workloads
      ensures Valid()
      ensures workloads == old(workloads)[ref := old(workloads[ref]) + Others(outside)]
      ensures v == P.Pick(|workloads[ref]|, choice)
      ensures quiet ==> outside == []
      ensures quiet ==> v == if GetWorkload(ref) in view.faults then None else Some(|workloads[ref]| - 1)
    {
      outside := Interfere(ref);
      var answer: P.Choice := *;
      if quiet {
        answer := if GetWorkload(ref) in view.faults then P.Refuse else P.Serve(|workloads[ref]| - 1);
      }
      choice := answer;
      v := P.Pick(|workloads[ref]|, answer);
    }

    /** An update of the object as read at version `base`. */
    method Update(ref: Ref, base: nat, w: Workload)
      returns (s: P.Submission, ghost outside: seq<Workload>, ghost choice: P.Choice)
      requires Valid() && ref in workloads
      modifies this`workloads
      ensures Valid()
      ensures s == P.Submit(|old(workloads[ref])| + |outside|, base, choice)
      ensures workloads == old(workloads)[ref := old(workloads[ref]) + Others(outside)
                                               + if P.Lands(s) then [Entry(w, true)] else []]
      ensures quiet ==> outside == []
      ensures quiet && base + 1 == |old(workloads[ref])| ==> s.Landed?
    {
      outside := Interfere(ref);
      var answer: P.Choice := *;
      if quiet {
        answer := P.Serve(base);
      }
      choice := answer;
      s := P.Submit(|workloads[ref]|, base, answer);
      if P.Lands(s) {
        workloads := workloads[ref := workloads[ref] + [Entry(w, true)]];
      } else {
        assert workloads[ref] + [] == workloads[ref];
      }
    }

    /** Outsiders write a policy's status. */
    method InterfereStatus(name: string)
      requires Valid() && name in statuses
      modifies this`statuses
      ensures Valid() && name in statuses
      ensures statuses == old(statuses)[name := statuses[name]] && old(statuses[name]) <= statuses[name]
      ensures forall k :: |old(statuses[name])| <= k < |statuses[name]| ==> statuses[name][k].writer.Foreign?
      ensures quiet ==> statuses == old(statuses)
    {
      hide Publish;
      if !quiet {
        var outside: seq<PolicyStatus> := *;
        var h := statuses[name] + seq(|outside|, k requires 0 <= k < |outside| => StatusVersion(outside[k], Foreign));
        statuses := statuses[name := h];
      }
    }

    method GetStatus(name: string) returns (v: Option<nat>)
      requires Valid() && name in statuses
      modifies this`statuses, this`conflicts, this`failures
      ensures Valid() && name in statuses
      ensures statuses == old(statuses)[name := statuses[name]] && old(statuses[name]) <= statuses[name]
      ensures forall k :: |old(statuses[name])| <= k < |statuses[name]| ==> statuses[name][k].writer.Foreign?
      ensures v.Some? ==> v.value < |statuses[name]|
      ensures conflicts == old(conflicts) && failures == old(failures) + if v.None? then 1 else 0
      ensures quiet ==> statuses == old(statuses) && v == Some(|statuses[name]| - 1)
    {
      InterfereStatus(name);
      var choice: P.Choice := *;
      if quiet {
        choice := P.Serve(|statuses[name]| - 1);
      }
      v := P.Pick(|statuses[name]|, choice);
      failures := failures + if v.None? then 1 else 0;
    }

    method UpdateStatus(name: string, base: nat, version: StatusVersion) returns (s: P.Submission)
      requires Valid() && name in statuses && base < |statuses[name]|
      requires LinkOk(statuses[name][base].status, version) && !version.writer.Foreign?
      modifies this`statuses, this`conflicts, this`failures
      ensures Valid() && name in statuses
      ensures statuses == old(statuses)[name := statuses[name]] && old(statuses[name]) <= statuses[name]
      ensures var h, n := statuses[name], |old(statuses[name])|;
              var end := if P.Lands(s) then |h| - 1 else |h|;
              && n <= end && (P.Lands(s) ==> h[end] == version)
              && forall k :: n <= k < end ==> h[k].writer.Foreign?
      ensures conflicts == old(conflicts) + if s.Conflicting? then 1 else 0
      ensures failures == old(failures) + if s.Rejected? || s.LandedUnseen? then 1 else 0
      ensures quiet && base + 1 == |old(statuses[name])| ==>
                s.Landed? && statuses[name] == old(statuses[name]) + [version]
    {
      hide LinkOk;
      InterfereStatus(name);
      var choice: P.Choice := *;
      if quiet {
        choice := P.Serve(base);
      }
      s := P.Submit(|statuses[name]|, base, choice);
      conflicts := conflicts + if s.Conflicting? then 1 else 0;
      failures := failures + if s.Rejected? || s.LandedUnseen? then 1 else 0;
      if P.Lands(s) {
        statuses := statuses[name := statuses[name] + [version]];
      }
    }
  }

  /** Reading the newest version, as an API server with these faults would answer. */
  function ReadObject(view: View, objects: Objects, ref: Ref): Result<Workload> {
    if GetWorkload(ref) in view.faults then Err(Unavailable)
    else if ref !in objects then Err(NotFound)
    else Ok(objects[ref])
  }

  function NewestOf(client: Client, ref: Ref): Workload
    requires client.Valid() && ref in client.workloads
    reads client
  {
    client.workloads[ref][|client.workloads[ref]| - 1].workload
  }

  // ----- Following the code with the step system -----

  /** One answered request of the lone call of this pass, on stored objects without their writers' names. */
  function CallStep(es: seq<Entry>, c: P.Call, choice: P.Choice): (r: (seq<Entry>, P.Call))
    requires |es| > 0
  {
    if P.IsRead(c.pc) then
      var v := P.Pick(|es|, choice);
      (es, P.AfterRead(c, v, es[if v.Some? then v.value else 0].workload))
    else if P.IsUpdate(c.pc) then
      var s := P.Submit(|es|, c.pc.base, choice);
      (es + if P.Lands(s) then [Entry(P.Written(c, es[c.pc.base].workload), true)] else [], P.AfterUpdate(c, s, |es|))
    else (es, c)
  }

  /** The versions stored since es0 are those of the history, and ours are those a call of the history wrote. */
  ghost predicate Matches(es0: seq<Entry>, es: seq<Entry>, h: seq<P.Version>) {
    && es0 <= es && |h| == |es| > 0
    && (forall k :: 0 <= k < |es| ==> h[k].workload == es[k].workload)
    && (forall k :: |es0| <= k < |es| ==> (es[k].ours <==> h[k].writer != P.Outside))
  }

  /** The stored objects and the call's variables are where the step system gets by these events. */
  ghost predicate Tracks(es0: seq<Entry>, c0: P.Call, trace: seq<P.Event>, es: seq<Entry>, c: P.Call) {
    && |es0| > 0
    && var t := P.Run(P.State(Found(es0), [c0]), trace);
    Matches(es0, es, t.history) && t.calls == [c]
  }

  lemma StepMatches(es0: seq<Entry>, es: seq<Entry>, h: seq<P.Version>, c: P.Call, choice: P.Choice)
    requires Matches(es0, es, h)
    ensures var next, plain := P.Step(h, 0, c, choice), CallStep(es, c, choice);
            Matches(es0, plain.0, next.0) && next.1 == plain.1
  {
    assert es + [] == es;
    hide P.AfterRead, P.AfterUpdate, P.Written;
  }

  lemma Follow(
    es0: seq<Entry>, c0: P.Call, trace: seq<P.Event>, es: seq<Entry>, c: P.Call,
    outside: seq<Workload>, choice: P.Choice)
    requires Tracks(es0, c0, trace, es, c)
    ensures var next := CallStep(es + Others(outside), c, choice);
            Tracks(es0, c0, trace + RequestEvents(outside, choice), next.0, next.1)
  {
    hide P.Run, P.Step, P.Apply, CallStep, RequestEvents;
    var start := P.State(Found(es0), [c0]);
    RunRequest(start, trace, outside, choice);
    var t := P.Run(start, trace);
    var h := t.history + Outsiders(outside);
    StepMatches(es0, es + Others(outside), h, c, choice);
    RequestApplies(t.(history := h), c, choice);
  }

  lemma RequestApplies(s: P.State, c: P.Call, choice: P.Choice)
    requires |s.history| > 0 && s.calls == [c]
    ensures P.Apply(s, P.Operator(0, choice)) ==
            P.State(P.Step(s.history, 0, c, choice).0, [P.Step(s.history, 0, c, choice).1])
  {
    hide P.Step;
  }

  /** A finished call, as its caller sees it. */
  ghost predicate IsCall(es0: seq<Entry>, c0: P.Call, trace: seq<P.Event>, es: seq<Entry>, r: Result<bool>) {
    exists c :: Tracks(es0, c0, trace, es, c) && c.pc == P.Done(r)
  }

  /** A read on behalf of the call, followed by the step system. */
  method AskRead(
    client: Client, ref: Ref, ghost es0: seq<Entry>, ghost c0: P.Call, ghost before: seq<P.Event>, ghost c: P.Call)
    returns (v: Option<nat>, ghost trace: seq<P.Event>, ghost c': P.Call)
    requires client.Valid() && ref in client.workloads
    requires Tracks(es0, c0, before, client.workloads[ref], c) && P.IsRead(c.pc)
    modifies client`workloads
    ensures client.Valid() && ref in client.workloads
    ensures client.workloads == old(client.workloads)[ref := client.workloads[ref]]
    ensures v.Some? ==> v.value < |client.workloads[ref]|
    ensures c' == P.AfterRead(c, v, client.workloads[ref][if v.Some? then v.value else 0].workload)
    ensures Tracks(es0, c0, trace, client.workloads[ref], c')
    ensures client.quiet ==> client.workloads == old(client.workloads)
    ensures client.quiet ==>
              v == if GetWorkload(ref) in client.view.faults then None else Some(|client.workloads[ref]| - 1)
  {
    hide Tracks;
    ghost var outside, choice;
    ghost var es := client.workloads[ref];
    v, outside, choice := client.Get(ref);
    Follow(es0, c0, before, es, c, outside, choice);
    assert es + Others([]) == es;
    trace, c' := before + RequestEvents(outside, choice), CallStep(es + Others(outside), c, choice).1;
  }

  /** An update on behalf of the call, followed by the step system. */
  method AskUpdate(
    client: Client, ref: Ref, base: nat, w: Workload,
    ghost es0: seq<Entry>, ghost c0: P.Call, ghost before: seq<P.Event>, ghost c: P.Call)
    returns (err: Option<Error>, ghost trace: seq<P.Event>, ghost c': P.Call)
    requires client.Valid() && ref in client.workloads && base < |client.workloads[ref]|
    requires Tracks(es0, c0, before, client.workloads[ref], c)
    requires P.IsUpdate(c.pc) && c.pc.base == base && w == P.Written(c, client.workloads[ref][base].workload)
    modifies client`workloads
    ensures client.Valid() && ref in client.workloads
    ensures client.workloads == old(client.workloads)[ref := client.workloads[ref]]
    ensures match err
            case None => exists at :: c' == P.AfterUpdate(c, P.Landed, at)
            case Some(Conflict) => c' == P.AfterUpdate(c, P.Conflicting, 0)
            case Some(e) => e == Unavailable && c'.pc == P.Done(Err(Unavailable))
    ensures Tracks(es0, c0, trace, client.workloads[ref], c')
    ensures client.quiet && base + 1 == |old(client.workloads[ref])| ==>
              err.None? && client.workloads[ref] == old(client.workloads[ref]) + [Entry(w, true)]
  {
    hide Tracks;
    ghost var outside, choice;
    ghost var es := client.workloads[ref];
    var s;
    s, outside, choice := client.Update(ref, base, w);
    Follow(es0, c0, before, es, c, outside, choice);
    assert (es + Others(outside))[base] == es[base];
    trace, c' := before + RequestEvents(outside, choice), CallStep(es + Others(outside), c, choice).1;
    assert c' == P.AfterUpdate(c, s, |es + Others(outside)|);
    err := match s case Landed => None case Conflicting => Some(Conflict) case _ => Some(Unavailable);
  }

  /** One attempt of the annotate loop: the closure retried at helpers.go:500. */
  method AnnotateOnce(
    client: Client, ref: Ref, stamp: P.Stamp, carried: nat,
    ghost es0: seq<Entry>, ghost c0: P.Call, ghost before: seq<P.Event>, ghost c: P.Call)
    returns (err: Option<Error>, previous: nat, ghost trace: seq<P.Event>, ghost c': P.Call)
    requires client.Valid() && ref in client.workloads
    requires Tracks(es0, c0, before, client.workloads[ref], c)
    requires c.pc == P.AnnotateGet && c.previous == carried && c.stamp == stamp
    modifies client`workloads
    ensures client.Valid() && ref in client.workloads
    ensures client.workloads == old(client.workloads)[ref := client.workloads[ref]]
    ensures Tracks(es0, c0, trace, client.workloads[ref], c')
    ensures c' == match err
                  case Some(Conflict) => P.Retry(c.(previous := previous), P.AnnotateGet)
                  case Some(e) => c'.(pc := P.Done(Err(e)))
                  case None =>
                    if previous == 0 then c.(pc := P.Done(Ok(false)))
                    else c'.(pc := P.ScaleGet, left := P.ATTEMPTS, previous := previous,
                             cron := c.cron, stamp := c.stamp, dryRun := c.dryRun)
    ensures client.quiet && GetWorkload(ref) !in client.view.faults && Count(old(NewestOf(client, ref))) > 0 ==>
              && err.None? && previous > 0
              && client.workloads[ref] == old(client.workloads[ref]
                   + [Entry(P.Annotated(NewestOf(client, ref), stamp, Count(NewestOf(client, ref))), true)])
  {
    hide Tracks, P.Annotated;
    previous := carried;
    var v;
    v, trace, c' := AskRead(client, ref, es0, c0, before, c);
    if v.None? {
      return Some(Unavailable), previous, trace, c';
    }
    var current := Count(client.workloads[ref][v.value].workload);
    if current == 0 {
      return None, previous, trace, c';
    }
    previous := current;
    var annotated := P.Annotated(client.workloads[ref][v.value].workload, stamp, previous);
    err, trace, c' := AskUpdate(client, ref, v.value, annotated, es0, c0, trace, c');
  }

  /** One attempt of the scale loop: the closure retried at helpers.go:528. */
  method ScaleOnce(
    client: Client, ref: Ref,
    ghost es0: seq<Entry>, ghost c0: P.Call, ghost before: seq<P.Event>, ghost c: P.Call)
    returns (err: Option<Error>, ghost trace: seq<P.Event>, ghost c': P.Call)
    requires client.Valid() && ref in client.workloads
    requires Tracks(es0, c0, before, client.workloads[ref], c)
    requires c.pc == P.ScaleGet
    modifies client`workloads
    ensures client.Valid() && ref in client.workloads
    ensures client.workloads == old(client.workloads)[ref := client.workloads[ref]]
    ensures Tracks(es0, c0, trace, client.workloads[ref], c')
    ensures c' == match err
                  case Some(Conflict) => P.Retry(c, P.ScaleGet)
                  case Some(e) => c'.(pc := P.Done(Err(e)))
                  case None => c.(pc := P.Done(Ok(true)))
    ensures client.quiet && GetWorkload(ref) !in client.view.faults && Count(old(NewestOf(client, ref))) > 0 ==>
              && err.None?
              && client.workloads[ref] == old(client.workloads[ref] + [Entry(P.Scaled(NewestOf(client, ref)), true)])
  {
    hide Tracks;
    var v;
    v, trace, c' := AskRead(client, ref, es0, c0, before, c);
    if v.None? {
      return Some(Unavailable), trace, c';
    }
    if Count(client.workloads[ref][v.value].workload) == 0 {
      return None, trace, c';
    }
    var scaled := P.Scaled(client.workloads[ref][v.value].workload);
    err, trace, c' := AskUpdate(client, ref, v.value, scaled, es0, c0, trace, c');
  }

  /** What a quiet client comes to, in one read and its writes. */
  ghost predicate StopsQuietly(
    es0: seq<Entry>, es: seq<Entry>, r: Result<bool>, cron: bool, stamp: P.Stamp, dryRun: bool, fault: bool)
    requires |es0| > 0
  {
    var w := es0[|es0| - 1].workload;
    if fault then r.Err? && es == es0
    else
      && r == Ok(!P.IsStopped(cron, w))
      && if dryRun || P.IsStopped(cron, w) then es == es0
         else es0 < es && es[|es| - 1].workload == StoppedAs(w, cron, stamp)
  }

  lemma Started(es: seq<Entry>, c: P.Call)
    requires |es| > 0
    ensures Tracks(es, c, [], es, c)
  {
  }

  /** The annotate loop, with the count it carries from attempt to attempt. */
  method AnnotateWithRetry(
    client: Client, ref: Ref, stamp: P.Stamp,
    ghost es0: seq<Entry>, ghost c0: P.Call, ghost before: seq<P.Event>, ghost start: P.Call)
    returns (err: Option<Error>, previous: nat, ghost trace: seq<P.Event>, ghost c: P.Call)
    requires client.Valid() && ref in client.workloads
    requires Tracks(es0, c0, before, client.workloads[ref], start)
    requires start.pc == P.AnnotateGet && start.left == P.ATTEMPTS && start.previous == 0 && start.stamp == stamp
    modifies client`workloads
    ensures client.Valid() && ref in client.workloads
    ensures client.workloads == old(client.workloads)[ref := client.workloads[ref]]
    ensures Tracks(es0, c0, trace, client.workloads[ref], c)
    ensures c.pc == if err.Some? then P.Done(Err(err.value))
                    else if previous == 0 then P.Done(Ok(false))
                    else P.ScaleGet
    ensures c.pc.ScaleGet? ==> c.left == P.ATTEMPTS
    ensures client.quiet && GetWorkload(ref) !in client.view.faults && Count(old(NewestOf(client, ref))) > 0 ==>
              && err.None? && previous > 0
              && client.workloads[ref] == old(client.workloads[ref]
                   + [Entry(P.Annotated(NewestOf(client, ref), stamp, Count(NewestOf(client, ref))), true)])
  {
    hide Tracks;
    previous, trace, c := 0, before, start;
    var attempt := 0;
    err := Some(Conflict);
    while err == Some(Conflict) && attempt < P.ATTEMPTS
      invariant client.Valid() && ref in client.workloads
      invariant client.workloads == old(client.workloads)[ref := client.workloads[ref]]
      invariant Tracks(es0, c0, trace, client.workloads[ref], c)
      invariant err == Some(Conflict) ==> c.stamp == stamp && c.previous == previous
      invariant match err
                case Some(Conflict) =>
                  if attempt < P.ATTEMPTS then c.pc == P.AnnotateGet && c.left == P.ATTEMPTS - attempt
                  else c.pc == P.Done(Err(Conflict))
                case Some(e) => c.pc == P.Done(Err(e))
                case None =>
                  if previous == 0 then c.pc == P.Done(Ok(false)) else c.pc == P.ScaleGet && c.left == P.ATTEMPTS
      invariant client.quiet && GetWorkload(ref) !in client.view.faults && Count(old(NewestOf(client, ref))) > 0 ==>
        if err.None? then
          previous > 0 && client.workloads[ref] == old(client.workloads[ref]
            + [Entry(P.Annotated(NewestOf(client, ref), stamp, Count(NewestOf(client, ref))), true)])
        else err == Some(Conflict) && attempt == 0 && client.workloads[ref] == old(client.workloads[ref])
    {
      err, previous, trace, c := AnnotateOnce(client, ref, stamp, previous, es0, c0, trace, c);
      attempt := attempt + 1;
    }
  }

  /** The scale loop. */
  method ScaleWithRetry(
    client: Client, ref: Ref,
    ghost es0: seq<Entry>, ghost c0: P.Call, ghost before: seq<P.Event>, ghost start: P.Call)
    returns (err: Option<Error>, ghost trace: seq<P.Event>, ghost c: P.Call)
    requires client.Valid() && ref in client.workloads
    requires Tracks(es0, c0, before, client.workloads[ref], start)
    requires start.pc == P.ScaleGet && start.left == P.ATTEMPTS
    modifies client`workloads
    ensures client.Valid() && ref in client.workloads
    ensures client.workloads == old(client.workloads)[ref := client.workloads[ref]]
    ensures Tracks(es0, c0, trace, client.workloads[ref], c)
    ensures c.pc == P.Done(if err.Some? then Err(err.value) else Ok(true))
    ensures client.quiet && GetWorkload(ref) !in client.view.faults && Count(old(NewestOf(client, ref))) > 0 ==>
              && err.None?
              && client.workloads[ref] == old(client.workloads[ref] + [Entry(P.Scaled(NewestOf(client, ref)), true)])
  {
    hide Tracks;
    trace, c := before, start;
    var attempt := 0;
    err := Some(Conflict);
    while err == Some(Conflict) && attempt < P.ATTEMPTS
      invariant client.Valid() && ref in client.workloads
      invariant client.workloads == old(client.workloads)[ref := client.workloads[ref]]
      invariant Tracks(es0, c0, trace, client.workloads[ref], c)
      invariant match err
                case Some(Conflict) =>
                  if attempt < P.ATTEMPTS then c.pc == P.ScaleGet && c.left == P.ATTEMPTS - attempt
                  else c.pc == P.Done(Err(Conflict))
                case Some(e) => c.pc == P.Done(Err(e))
                case None => c.pc == P.Done(Ok(true))
      invariant client.quiet && GetWorkload(ref) !in client.view.faults && Count(old(NewestOf(client, ref))) > 0 ==>
        if err.None?
        then client.workloads[ref] == old(client.workloads[ref] + [Entry(P.Scaled(NewestOf(client, ref)), true)])
        else err == Some(Conflict) && attempt == 0 && client.workloads[ref] == old(client.workloads[ref])
    {
      err, trace, c := ScaleOnce(client, ref, es0, c0, trace, c);
      attempt := attempt + 1;
    }
  }

  /** The two phases, one after the other (helpers.go:499-540). */
  method RecordAndScale(
    client: Client, ref: Ref, stamp: P.Stamp,
    ghost es0: seq<Entry>, ghost c0: P.Call, ghost before: seq<P.Event>, ghost start: P.Call)
    returns (r: Result<bool>, ghost trace: seq<P.Event>, ghost c: P.Call)
    requires client.Valid() && ref in client.workloads
    requires Tracks(es0, c0, before, client.workloads[ref], start)
    requires start.pc == P.AnnotateGet && start.left == P.ATTEMPTS && start.previous == 0 && start.stamp == stamp
    modifies client`workloads
    ensures client.Valid() && ref in client.workloads
    ensures client.workloads == old(client.workloads)[ref := client.workloads[ref]]
    ensures Tracks(es0, c0, trace, client.workloads[ref], c)
    ensures c.pc == P.Done(r)
    ensures client.quiet && GetWorkload(ref) !in client.view.faults && Count(old(NewestOf(client, ref))) > 0 ==>
              && r == Ok(true)
              && old(client.workloads[ref]) < client.workloads[ref]
              && NewestOf(client, ref) == StoppedAs(old(NewestOf(client, ref)), false, stamp)
  {
    hide Tracks, P.Annotated, P.Scaled;
    var err, previous;
    err, previous, trace, c := AnnotateWithRetry(client, ref, stamp, es0, c0, before, start);
    if err.Some? {
      return Err(err.value), trace, c;
    }
    if previous == 0 {
      return Ok(false), trace, c;
    }
    assert client.workloads == old(client.workloads)[ref := client.workloads[ref]];
    err, trace, c := ScaleWithRetry(client, ref, es0, c0, trace, c);
    assert client.workloads == old(client.workloads)[ref := client.workloads[ref]];
    r := if err.Some? then Err(err.value) else Ok(true);
  }

  /** scaleWorkloadToZero: record, then scale. Everything it does is a run of the step system; on a quiet
      client it stops a running workload at once. */
  method ScaleWorkloadToZero(
    client: Client, ref: Ref, stamp: P.Stamp, dryRun: bool, ghost es0: seq<Entry>, ghost c0: P.Call)
    returns (r: Result<bool>, ghost trace: seq<P.Event>, ghost c: P.Call)
    requires client.Valid() && ref in client.workloads
    requires c0 == P.NewCall(false, stamp, dryRun) && Tracks(es0, c0, [], client.workloads[ref], c0)
    modifies client`workloads
    ensures client.Valid() && ref in client.workloads
    ensures client.workloads == old(client.workloads)[ref := client.workloads[ref]]
    ensures Tracks(es0, c0, trace, client.workloads[ref], c)
    ensures c.pc == P.Done(r)
    ensures client.quiet ==> StopsQuietly(old(client.workloads[ref]), client.workloads[ref], r, false, stamp, dryRun,
                                          GetWorkload(ref) in client.view.faults)
  {
    hide Tracks, StoppedAs;
    var v;
    v, trace, c := AskRead(client, ref, es0, c0, [], c0);
    if v.None? {
      return Err(Unavailable), trace, c;
    }
    if Count(client.workloads[ref][v.value].workload) == 0 {
      return Ok(false), trace, c;
    }
    if dryRun {
      return Ok(true), trace, c;
    }
    r, trace, c := RecordAndScale(client, ref, stamp, es0, c0, trace, c);
  }

  /** One attempt of the CronJob loop: the closure retried at helpers.go:567. */
  method SuspendOnce(
    client: Client, ref: Ref, stamp: P.Stamp,
    ghost es0: seq<Entry>, ghost c0: P.Call, ghost before: seq<P.Event>, ghost c: P.Call)
    returns (err: Option<Error>, ghost trace: seq<P.Event>, ghost c': P.Call)
    requires client.Valid() && ref in client.workloads
    requires Tracks(es0, c0, before, client.workloads[ref], c)
    requires c.pc == P.SuspendGet && c.stamp == stamp
    modifies client`workloads
    ensures client.Valid() && ref in client.workloads
    ensures client.workloads == old(client.workloads)[ref := client.workloads[ref]]
    ensures Tracks(es0, c0, trace, client.workloads[ref], c')
    ensures c' == match err
                  case Some(Conflict) => P.Retry(c, P.SuspendGet)
                  case Some(e) => c'.(pc := P.Done(Err(e)))
                  case None => c.(pc := P.Done(Ok(true)))
    ensures client.quiet && GetWorkload(ref) !in client.view.faults && !IsSuspended(old(NewestOf(client, ref))) ==>
              && err.None?
              && client.workloads[ref] ==
                   old(client.workloads[ref] + [Entry(P.Suspended(NewestOf(client, ref), stamp), true)])
  {
    hide Tracks;
    var v;
    v, trace, c' := AskRead(client, ref, es0, c0, before, c);
    if v.None? {
      return Some(Unavailable), trace, c';
    }
    if IsSuspended(client.workloads[ref][v.value].workload) {
      return None, trace, c';
    }
    var suspended := P.Suspended(client.workloads[ref][v.value].workload, stamp);
    err, trace, c' := AskUpdate(client, ref, v.value, suspended, es0, c0, trace, c');
  }

  method SuspendWithRetry(
    client: Client, ref: Ref, stamp: P.Stamp,
    ghost es0: seq<Entry>, ghost c0: P.Call, ghost before: seq<P.Event>, ghost start: P.Call)
    returns (err: Option<Error>, ghost trace: seq<P.Event>, ghost c: P.Call)
    requires client.Valid() && ref in client.workloads
    requires Tracks(es0, c0, before, client.workloads[ref], start)
    requires start.pc == P.SuspendGet && start.left == P.ATTEMPTS && start.stamp == stamp
    modifies client`workloads
    ensures client.Valid() && ref in client.workloads
    ensures client.workloads == old(client.workloads)[ref := client.workloads[ref]]
    ensures Tracks(es0, c0, trace, client.workloads[ref], c)
    ensures c.pc == P.Done(if err.Some? then Err(err.value) else Ok(true))
    ensures client.quiet && GetWorkload(ref) !in client.view.faults && !IsSuspended(old(NewestOf(client, ref))) ==>
              && err.None?
              && client.workloads[ref] ==
                   old(client.workloads[ref] + [Entry(P.Suspended(NewestOf(client, ref), stamp), true)])
  {
    hide Tracks;
    trace, c := before, start;
    var attempt := 0;
    err := Some(Conflict);
    while err == Some(Conflict) && attempt < P.ATTEMPTS
      invariant client.Valid() && ref in client.workloads
      invariant client.workloads == old(client.workloads)[ref := client.workloads[ref]]
      invariant Tracks(es0, c0, trace, client.workloads[ref], c)
      invariant err == Some(Conflict) ==> c.stamp == stamp
      invariant match err
                case Some(Conflict) =>
                  if attempt < P.ATTEMPTS then c.pc == P.SuspendGet && c.left == P.ATTEMPTS - attempt
                  else c.pc == P.Done(Err(Conflict))
                case Some(e) => c.pc == P.Done(Err(e))
                case None => c.pc == P.Done(Ok(true))
      invariant client.quiet && GetWorkload(ref) !in client.view.faults && !IsSuspended(old(NewestOf(client, ref))) ==>
        if err.None?
        then client.workloads[ref] ==
               old(client.workloads[ref] + [Entry(P.Suspended(NewestOf(client, ref), stamp), true)])
        else err == Some(Conflict) && attempt == 0 && client.workloads[ref] == old(client.workloads[ref])
    {
      err, trace, c := SuspendOnce(client, ref, stamp, es0, c0, trace, c);
      attempt := attempt + 1;
    }
  }

  /** The CronJob branch of scaleDownWorkload: one write carries both the suspension and its record. */
  method SuspendCronJob(
    client: Client, ref: Ref, stamp: P.Stamp, dryRun: bool, ghost es0: seq<Entry>, ghost c0: P.Call)
    returns (r: Result<bool>, ghost trace: seq<P.Event>, ghost c: P.Call)
    requires client.Valid() && ref in client.workloads
    requires c0 == P.NewCall(true, stamp, dryRun) && Tracks(es0, c0, [], client.workloads[ref], c0)
    modifies client`workloads
    ensures client.Valid() && ref in client.workloads
    ensures client.workloads == old(client.workloads)[ref := client.workloads[ref]]
    ensures Tracks(es0, c0, trace, client.workloads[ref], c)
    ensures c.pc == P.Done(r)
    ensures client.quiet ==> StopsQuietly(old(client.workloads[ref]), client.workloads[ref], r, true, stamp, dryRun,
                                          GetWorkload(ref) in client.view.faults)
  {
    hide Tracks, P.Suspended;
    var v;
    v, trace, c := AskRead(client, ref, es0, c0, [], c0);
    if v.None? {
      r := Err(Unavailable);
    } else if IsSuspended(client.workloads[ref][v.value].workload) {
      r := Ok(false);
    } else if dryRun {
      r := Ok(true);
    } else {
      var err;
      err, trace, c := SuspendWithRetry(client, ref, stamp, es0, c0, trace, c);
      r := if err.Some? then Err(err.value) else Ok(true);
    }
  }

  /** scaleDownWorkload. Under interference it is a run of the step system; on a quiet client it stops what
      is running and leaves everything else as it was. */
  method ScaleDownWorkload(client: Client, ref: Ref, stamp: P.Stamp, dryRun: bool)
    returns (r: Result<bool>, ghost trace: seq<P.Event>)
    requires client.Valid() && ref.kind in KINDS
    modifies client`workloads
    ensures client.Valid() && client.workloads.Keys == old(client.workloads.Keys)
    ensures ref !in client.workloads ==> r.Err? && client.workloads == old(client.workloads)
    ensures ref in client.workloads ==>
              && client.workloads == old(client.workloads)[ref := client.workloads[ref]]
              && IsCall(old(client.workloads)[ref], P.NewCall(ref.kind == "CronJob", stamp, dryRun), trace,
                        client.workloads[ref], r)
    ensures client.quiet && (r != Ok(true) || dryRun) ==> client.workloads == old(client.workloads)
    ensures client.quiet ==>
              var read := old(client.Read(ref));
              && (r.Err? <==> read.Err?)
              && (read.Ok? ==> r == Ok(!P.IsStopped(ref.kind == "CronJob", read.value)))
              && client.Objects() ==
                   if r == Ok(true) && !dryRun
                   then old(client.Objects())[ref := StoppedAs(read.value, ref.kind == "CronJob", stamp)]
                   else old(client.Objects())
  {
    hide Tracks, StoppedAs;
    ghost var c;
    trace := [];
    if ref !in client.workloads {
      return Err(NotFound), trace;
    }
    ghost var es0, c0 := client.workloads[ref], P.NewCall(ref.kind == "CronJob", stamp, dryRun);
    Started(es0, c0);
    if ref.kind == "CronJob" {
      r, trace, c := SuspendCronJob(client, ref, stamp, dryRun, es0, c0);
    } else {
      r, trace, c := ScaleWorkloadToZero(client, ref, stamp, dryRun, es0, c0);
    }
    NewestAllAfter(old(client.workloads), ref, client.workloads[ref]);
  }
}
