/** The two status writes of a pass, with their conflict-retry loops. */
module StatusWrites {
  import opened Cluster
  import opened Status
  import opened Clients
  import P = StopProtocol

  /** What one evaluation makes of the newest status when nobody interferes. */
  function Evaluate(s: PolicyStatus, e: Evaluation, now: int): PolicyStatus {
    if Publish(s, e, now) == s then s else Publish(s, e, now).(lastEvaluation := Some(now))
  }

  function NewestStatus(client: Client, name: string): PolicyStatus
    requires client.Valid() && name in client.statuses
    reads client
  {
    client.statuses[name][|client.statuses[name]| - 1].status
  }

  /** One attempt of the evaluation write: the closure retried at helpers.go:42. */
  method EvaluateOnce(client: Client, name: string, e: Evaluation, now: int)
    returns (err: Option<Error>, ghost wrote: Option<nat>)
    requires client.Valid() && name in client.statuses
    modifies client`statuses, client`conflicts, client`failures
    ensures client.Valid() && name in client.statuses
    ensures client.statuses == old(client.statuses)[name := client.statuses[name]]
    ensures OnlyWrote(old(client.statuses[name]), client.statuses[name], wrote)
    ensures client.conflicts == old(client.conflicts) + if err == Some(Conflict) then 1 else 0
    ensures client.failures == old(client.failures) + if err == Some(Unavailable) then 1 else 0
    ensures err.Some? ==> err.value in {Conflict, Unavailable}
    ensures wrote.Some? ==> err != Some(Conflict) && client.statuses[name][wrote.value].writer == Evaluated(e, now)
    ensures err.None? && wrote.None? ==>
              exists k :: 0 <= k < |client.statuses[name]|
                          && Publish(client.statuses[name][k].status, e, now) == client.statuses[name][k].status
    ensures client.quiet ==>
              var s := old(NewestStatus(client, name));
              && err.None? && (wrote.None? <==> Publish(s, e, now) == s)
              && client.statuses[name] == old(client.statuses[name])
                   + if wrote.None? then [] else [StatusVersion(Evaluate(s, e, now), Evaluated(e, now))]
  {
    hide Publish, Chained;
    wrote := None;
    var v := client.GetStatus(name);
    if v.None? {
      return Some(Unavailable), None;
    }
    var before := client.statuses[name][v.value].status;
    var after := Publish(before, e, now);
    if after == before {
      return None, None;
    }
    var s := client.UpdateStatus(name, v.value,
      StatusVersion(after.(lastEvaluation := Some(now)), Evaluated(e, now)));
    if P.Lands(s) {
      wrote := Some(|client.statuses[name]| - 1);
    }
    err := match s case Landed => None case Conflicting => Some(Conflict) case _ => Some(Unavailable);
  }

  /** A status that needs no change has nothing to count. */
  lemma NothingToCount(h: seq<StatusVersion>, e: Evaluation, now: int)
    requires exists k :: 0 <= k < |h| && Publish(h[k].status, e, now) == h[k].status
    ensures e.acted == 0
  {
    var k :| 0 <= k < |h| && Publish(h[k].status, e, now) == h[k].status;
    assert Publish(h[k].status, e, now).scaledDown == h[k].status.scaledDown + e.acted;
  }

  /** updatePolicyStatusIfChanged: at most one version is written, it counts the pass once, on top of whatever
      others wrote, and success without a write means some version needed no change. */
  method UpdateIfChanged(client: Client, name: string, e: Evaluation, now: int)
    returns (err: Option<Error>, ghost wrote: Option<nat>)
    requires client.Valid() && name in client.statuses
    modifies client`statuses, client`conflicts, client`failures
    ensures client.Valid() && name in client.statuses
    ensures client.statuses == old(client.statuses)[name := client.statuses[name]]
    ensures OnlyWrote(old(client.statuses[name]), client.statuses[name], wrote)
    ensures err == Some(Conflict) <==> client.conflicts == old(client.conflicts) + 5
    ensures old(client.conflicts) <= client.conflicts <= old(client.conflicts) + 5
    ensures client.failures == old(client.failures) + if err == Some(Unavailable) then 1 else 0
    ensures err.Some? ==> err.value in {Conflict, Unavailable}
    ensures wrote.Some? ==> client.statuses[name][wrote.value].writer == Evaluated(e, now)
    ensures Share(client.statuses[name], |old(client.statuses[name])|, true) == if wrote.Some? then e.acted else 0
    ensures err.None? ==> Share(client.statuses[name], |old(client.statuses[name])|, true) == e.acted
    ensures err.None? && wrote.None? ==>
              exists k :: 0 <= k < |client.statuses[name]|
                          && Publish(client.statuses[name][k].status, e, now) == client.statuses[name][k].status
    ensures client.quiet ==>
              var s := old(NewestStatus(client, name));
              && err.None? && (wrote.None? <==> Publish(s, e, now) == s)
              && client.statuses[name] == old(client.statuses[name])
                   + if wrote.None? then [] else [StatusVersion(Evaluate(s, e, now), Evaluated(e, now))]
  {
    hide Publish, Chained;
    wrote, err := None, Some(Conflict);
    var attempt := 0;
    while err == Some(Conflict) && attempt < P.ATTEMPTS
      invariant attempt <= 5 && (attempt == 0 ==> err == Some(Conflict))
      invariant client.Valid() && name in client.statuses
      invariant client.statuses == old(client.statuses)[name := client.statuses[name]]
      invariant OnlyWrote(old(client.statuses[name]), client.statuses[name], wrote)
      invariant client.conflicts == old(client.conflicts) + attempt - if err == Some(Conflict) then 0 else 1
      invariant client.failures == old(client.failures) + if err == Some(Unavailable) then 1 else 0
      invariant err.Some? ==> err.value in {Conflict, Unavailable}
      invariant wrote.Some? ==> err != Some(Conflict) && client.statuses[name][wrote.value].writer == Evaluated(e, now)
      invariant err.None? && wrote.None? ==>
        exists k :: 0 <= k < |client.statuses[name]|
                    && Publish(client.statuses[name][k].status, e, now) == client.statuses[name][k].status
      invariant client.quiet ==>
        if err.Some? then attempt == 0 && err == Some(Conflict) && client.statuses == old(client.statuses)
        else
          var s := old(NewestStatus(client, name));
          && (wrote.None? <==> Publish(s, e, now) == s)
          && client.statuses[name] == old(client.statuses[name])
               + if wrote.None? then [] else [StatusVersion(Evaluate(s, e, now), Evaluated(e, now))]
    {
      err, wrote := EvaluateOnce(client, name, e, now);
      attempt := attempt + 1;
    }
    ShareOfOneWrite(old(client.statuses[name]), client.statuses[name], wrote);
    if err.None? && wrote.None? {
      NothingToCount(client.statuses[name], e, now);
    }
  }

  /** One attempt of the initial write: the closure retried at helpers.go:26. */
  method InitialiseOnce(client: Client, name: string) returns (err: Option<Error>, ghost wrote: Option<nat>)
    requires client.Valid() && name in client.statuses
    modifies client`statuses, client`conflicts, client`failures
    ensures client.Valid() && name in client.statuses
    ensures client.statuses == old(client.statuses)[name := client.statuses[name]]
    ensures OnlyWrote(old(client.statuses[name]), client.statuses[name], wrote)
    ensures client.conflicts == old(client.conflicts) + if err == Some(Conflict) then 1 else 0
    ensures client.failures == old(client.failures) + if err == Some(Unavailable) then 1 else 0
    ensures err.Some? ==> err.value in {Conflict, Unavailable}
    ensures wrote.Some? ==> err != Some(Conflict) && client.statuses[name][wrote.value].writer == Initialised
    ensures client.quiet ==>
              && err.None?
              && client.statuses[name] == old(client.statuses[name])
                   + [StatusVersion(old(NewestStatus(client, name)).(phase := "Pending"), Initialised)]
  {
    hide Publish, Chained;
    wrote := None;
    var v := client.GetStatus(name);
    if v.None? {
      return Some(Unavailable), None;
    }
    var before := client.statuses[name][v.value].status;
    var s := client.UpdateStatus(name, v.value, StatusVersion(before.(phase := "Pending"), Initialised));
    if P.Lands(s) {
      wrote := Some(|client.statuses[name]| - 1);
    }
    err := match s case Landed => None case Conflicting => Some(Conflict) case _ => Some(Unavailable);
  }

  /** updateStatusWithRetry, as used for the initial phase. */
  method SetInitialPhase(client: Client, name: string) returns (err: Option<Error>, ghost wrote: Option<nat>)
    requires client.Valid() && name in client.statuses
    modifies client`statuses, client`conflicts, client`failures
    ensures client.Valid() && name in client.statuses
    ensures client.statuses == old(client.statuses)[name := client.statuses[name]]
    ensures OnlyWrote(old(client.statuses[name]), client.statuses[name], wrote)
    ensures err == Some(Conflict) <==> client.conflicts == old(client.conflicts) + 5
    ensures old(client.conflicts) <= client.conflicts <= old(client.conflicts) + 5
    ensures client.failures == old(client.failures) + if err == Some(Unavailable) then 1 else 0
    ensures err.Some? ==> err.value in {Conflict, Unavailable}
    ensures Share(client.statuses[name], |old(client.statuses[name])|, true) == 0
    ensures client.quiet ==>
              && err.None?
              && client.statuses[name] == old(client.statuses[name])
                   + [StatusVersion(old(NewestStatus(client, name)).(phase := "Pending"), Initialised)]
  {
    hide Publish, Chained;
    wrote, err := None, Some(Conflict);
    var attempt := 0;
    while err == Some(Conflict) && attempt < P.ATTEMPTS
      invariant attempt <= 5 && (attempt == 0 ==> err == Some(Conflict))
      invariant client.Valid() && name in client.statuses
      invariant client.statuses == old(client.statuses)[name := client.statuses[name]]
      invariant OnlyWrote(old(client.statuses[name]), client.statuses[name], wrote)
      invariant client.conflicts == old(client.conflicts) + attempt - if err == Some(Conflict) then 0 else 1
      invariant client.failures == old(client.failures) + if err == Some(Unavailable) then 1 else 0
      invariant err.Some? ==> err.value in {Conflict, Unavailable}
      invariant wrote.Some? ==> err != Some(Conflict) && client.statuses[name][wrote.value].writer == Initialised
      invariant client.quiet ==>
        if err.Some? then attempt == 0 && err == Some(Conflict) && client.statuses == old(client.statuses)
        else client.statuses[name] == old(client.statuses[name])
                  + [StatusVersion(old(NewestStatus(client, name)).(phase := "Pending"), Initialised)]
    {
      err, wrote := InitialiseOnce(client, name);
      attempt := attempt + 1;
    }
    ShareOfOneWrite(old(client.statuses[name]), client.statuses[name], wrote);
  }
}
