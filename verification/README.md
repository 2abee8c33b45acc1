# crashloop-operator: a verified model

crashloop-operator watches pods that keep failing and stops the workload behind them: a Deployment or StatefulSet is
scaled to zero, a CronJob is suspended. Cluster-wide policies say which failures count, how long they must last, and
which workloads may be touched. Policies overlap, so for every failing pod the most restrictive policy that would act
is elected. What was stopped, by whom, and how many replicas it had is recorded in annotations on the workload.

This project models that logic in Dafny and proves what it keeps. Pods, ReplicaSets, Jobs, workloads, policies and
namespaces are values; the clock is an integer parameter. The retry loops, the reconcile pass, the namespace cache and
the list-building loops are methods with loops, run against a `Client` object that stores every version of every
workload and policy status, and which of them the operator wrote. Each such method is proved against a function or a step system, and the theorems are about
those.

- `StopProtocol` is the two-phase stop as a step system: any number of operator calls and outside writers interleave on
  one workload, reads may be stale, updates may conflict, be refused, or land although the caller is told they failed.
  `StopOutcomes` says what a finished call may be believed about, `Retries` how often it tries again and that it
  gets there once it is left alone.
- `Clients` runs the same stop as code. Every execution, whatever interferes, is proved to be a run of the step system.
- `PassSpec` and `PassTheorems` say what one reconcile pass comes to, as a fold over the pods and then as a set;
  `PassWrites` what a pass may write whoever interferes; `Reconcile` is the pass as it runs.
- `Arbitration`, `Correlation`, `Owners` and `Policies` hold the gates, the election and the replica correlation;
  `Indexes` the indexed pod lookups; `Status`, `StatusWrites` and `Attribution` the published status;
  `DetectionDelay` the requeue arithmetic over runs of timer wakes.
- `Reference` says the operator's judgement once more in terms of the objects alone, with every default written out and
  no list walked. `Meaning` proves that the model judges exactly so, up to what a whole pass acts on, and `Published`
  the same of what a pass leaves behind: annotations, status, errors and the time it asks to be woken.

A client is either quiet (nobody else writes, reads are fresh, and only reads listed as faults fail) or it is not (then
everything above may happen on every request). Results that need a quiet client say so; the others hold for both.

## Where the code and its comments disagree

The model follows the code.

- The comment on `scaleWorkloadToZero` says no workload is stopped without a record. There are two ways to get there.
  The count carried from a conflicting attempt lets the call go on to `/scale` after re-reading zero without having
  written a record (`internal/controller/helpers.go:499-525`). An outsider can bring that about
  (`StopOutcomes.StopWithoutRecord`), and so can stale reads alone, on a workload that was stopped before and restored
  (`StopOutcomes.StopOfRestoredWithoutRecord`). Or an outsider drops the annotations between the two phases
  (`StopOutcomes.StopAfterRecordDropped`). `StopOutcomes.StopCarriesOwnRecord` is the exact condition for a stop to carry
  its own call's record: neither happened. `StopProtocol.RecordBeforeStop` is the guarantee over whole runs: it holds as
  long as outsiders neither start nor stop the workload nor touch its record, and no call takes an earlier stop for one
  of the run, which cannot happen to a workload that was never at zero (`StopProtocol.NeverStoppedNeverMistaken`).
- A call that finds the workload stopped inside its retry loop reports `true` although it stopped nothing
  (`internal/controller/helpers.go:532-534`, `571-573`), so two policies can count one stop
  (`StopOutcomes.TwoSuccessesOneSuspension`, `StopOutcomes.TwoSuccessesOneStop`). `StopOutcomes.TrueMeansStopped` is
  the exact condition.
- Container correlation is described as the stricter mode. It also counts classic init containers, which the pod check
  leaves out (`internal/controller/policyresolve.go:91-101`). `Correlation.ClassicInitSplitsTheModes` says exactly when
  that matters.
- "A workload is scaled down once, by one identifiable policy" holds per failing pod and instant. Two policies can each
  win the same workload on different pods (`PassTheorems.TwoActorsForOneWorkload`), or on one pod at different instants
  (`PassTheorems.TwoActorsOnOnePod`). `PassTheorems.BothActMeansBothWin` and `PassTheorems.BothOfAPairAct` say exactly
  when. It is still stopped only once (`PassTheorems.StopsOnlyOnce`), but two dry-run policies both count it, and so do
  a dry-run policy and the policy that stops it afterwards.
- `policyWouldAct` reads the clock again. A pod let through as waiting stays let through, but another replica that only
  loops may leave its window in between (`Arbitration.AgreementLost`), and so may a pod let through as looping
  (`Arbitration.LoopingAgreementLost`); then no policy wins and the loop, finding no winner, goes on
  (`internal/controller/crashlooppolicy_controller.go:227`). `Arbitration.LaterAgreement` is the exact condition.
- A watched reason that is the empty string matches in `podHasFailureReason` and is never indexed
  (`internal/controller/indexes.go:29`). `Indexes.LookupLosesNothing` shows that this is the only loss.
- The comment at `internal/controller/crashlooppolicy_controller.go:262-264` says a failed listing leaves the active list
  incomplete rather than empty. It leaves it empty, and Degraded then reads false whatever is held
  (`Attribution.DegradedMeaning`).
- `activeScaledDown` reports annotations, not replica counts: a workload somebody scaled back up stays listed
  (`Attribution.RestoredIsStillHeld`).

## Model

| member | source | states |
|---|---|---|
| `StopProtocol.ExactRecord` | internal/controller/helpers.go:499-540 | Along every run with outside writers, stale reads, conflicts and lost answers: an annotate write stores the positive count of the very version it replaces and lands at most once per call, a scale write changes only the count and comes after that call's record unless the call skipped it, and a suspension carries its record in the same version |
| `StopProtocol.RunKeepsConsistent` | internal/controller/helpers.go:477-541 | The same as an invariant: any run from a consistent state stays consistent |
| `StopProtocol.StepKeepsCall` | internal/controller/helpers.go:485-540 | Every answer to every request keeps a call's local variables true of the stored versions, and a record once noted stays noted |
| `StopOutcomes.StopHasOwnRecordUnlessSkipped` | internal/controller/helpers.go:499-525 | A stop by a call comes after a record written by that same call if and only if the call was never shown a count of zero by the annotate loop's read while carrying an earlier count |
| `StopOutcomes.StopCarriesOwnRecord` | internal/controller/helpers.go:499-540 | The stopped version itself carries the stopping call's stamp and the count that call recorded if and only if the call never met that guard and the record could still be read from the version the stop replaced |
| `StopOutcomes.LeftAloneStaysIntact` | internal/controller/helpers.go:510-518 | A record stays readable while outsiders leave it alone and no other call records over it |
| `StopOutcomes.StopWithoutRecord` | internal/controller/helpers.go:499-525 | A concrete run, for any running workload without a record and any later count, that meets the guard, stops the workload, reports success and leaves nothing to restore it from |
| `StopOutcomes.StopOfRestoredWithoutRecord` | internal/controller/helpers.go:499-525 | The same without any outsider in the run: stale reads alone, on a workload that was stopped and restored before, break only the premise about earlier stops and end at zero without a record |
| `StopOutcomes.StopAfterRecordDropped` | internal/controller/helpers.go:519-536 | The other such run: the guard is never met, an outsider drops the annotations before the scale |
| `StopProtocol.RecordBeforeStop` | internal/controller/helpers.go:472-476 | A workload is running, whatever its past. Over every run in which outsiders may rescale but neither start nor stop it nor touch its record, and no call skips the record on a version at zero from before the run, any version at zero stored by the run names a call of the run and the decimal of a positive count the workload had since the run began, and the newest version stays at zero |
| `StopProtocol.NeverStoppedNeverMistaken` | internal/controller/helpers.go:504-508 | On a workload whose stored versions were all running, no run contains such a skip |
| `StopProtocol.RecordIsStartingCount` | README.md:126-135 | When outsiders also keep the count, the recorded text parses back to the count of the version the run started from |
| `StopProtocol.CountsAreAllOrNothing` | internal/controller/helpers.go:527-540 | The operator never scales to anything but zero: with outsiders keeping the count, every version from the start of the run on is at the starting count or at zero |
| `StopProtocol.StoppedStaysUntouched` | internal/controller/helpers.go:492-494 | Once the newest version is stopped no further operator step, by any number of calls with whatever stale reads, adds a version |
| `StopProtocol.SuspensionIsRecorded` | internal/controller/helpers.go:567-582 | A suspension replaces a running CronJob and carries its call's reason, time and policy in the same write |
| `StopOutcomes.TrueMeansStopped` | internal/controller/helpers.go:527-540 | A call that is no dry run and reports true wrote a version that stops the workload if and only if no read past its first check showed it a stopped one |
| `StopOutcomes.TrueIsOursWhenAlone` | internal/controller/helpers.go:532-540 | When nobody else leaves the workload stopped, true means this call stopped it, exactly once |
| `StopOutcomes.FalseMeansUntouched` | internal/controller/helpers.go:492-525 | A call that reports false wrote nothing, and was shown a stopped workload |
| `StopOutcomes.StopsAtMostOnce` | internal/controller/helpers.go:527-540 | No call writes two versions that stop the workload |
| `StopOutcomes.TwoSuccessesOneSuspension` | internal/controller/helpers.go:567-586 | A run of two calls that both report true for one suspension, the second having written nothing |
| `StopOutcomes.TwoSuccessesOneStop` | internal/controller/helpers.go:527-540 | A run of two calls that both report true for one stop through /scale, with the record naming the one that stopped nothing |
| `Retries.WhenACallGivesUp` | internal/controller/helpers.go:500-539 | Over every run, a call ends in a conflict iff five updates of one of its three loops were answered with a conflict, ends in a failure iff some request was refused or left without an answer it may believe, and in no other error |
| `Retries.ConflictIsRetried` | internal/controller/helpers.go:500-539 | A conflict that is not the fifth of its loop sends the call back to that loop's read, with nothing written and the carried count kept |
| `Retries.UndisputedStops` | internal/controller/helpers.go:500-539 | From the read of any of its loops, a call whose requests are answered at once stops a running workload, as that loop would, and reports true |
| `Retries.RetriedCallStops` | internal/controller/helpers.go:464-476 | So does a call that was just met by a conflict which is not the fifth of its loop, whatever has happened before |
| `StopProtocol.DryRunWritesNothing` | internal/controller/helpers.go:495-497 | In any run of dry-run calls every version is an outsider's |
| `StopProtocol.RecordReadsBack` | internal/controller/helpers.go:510-518 | The four annotations do not overwrite each other: what a write leaves is what is read back, count included |
| `Decimal.RoundTrip` | internal/controller/helpers.go:517 | Reading the decimal text of a count gives the count |
| `Decimal.TextIsDecimal` | internal/controller/helpers.go:517 | The text of a count is its base-ten digits, units last |
| `Clients.Client.Get` | internal/controller/helpers.go:501-503 | A read returns some stored version or fails; on a quiet client the newest one |
| `Clients.Client.Update` | internal/controller/helpers.go:519 | An update lands only on the newest version and then adds exactly the submitted object, marked as the operator's; on a quiet client it lands |
| `Clients.AnnotateWithRetry` | internal/controller/helpers.go:499-522 | The annotate loop is a run of the step system that ends in an error, with nothing to do, or ready to scale; on a quiet client it adds exactly one annotated version of a running workload |
| `Clients.ScaleWithRetry` | internal/controller/helpers.go:527-539 | The scale loop runs until the step system's call is done, in an error or in success, so it retries as `Retries` says; on a quiet client it adds exactly the same workload at zero |
| `Clients.ScaleWorkloadToZero` | internal/controller/helpers.go:477-541 | Under any interference the call is a run of the step system; on a quiet client it stops exactly a running workload, recording first, and leaves a stopped one and a dry run untouched |
| `Clients.SuspendCronJob` | internal/controller/helpers.go:556-587 | The same for the CronJob branch, in one write |
| `Clients.ScaleDownWorkload` | internal/controller/helpers.go:545-590 | The dispatch over kinds: a missing workload is an error and changes nothing, no other workload changes, under interference the call is a run of the step system that accounts for every version the operator wrote, and on a quiet client the outcome is determined by the newest version |
| `Clients.Follow` | internal/controller/helpers.go:500-540 | The refinement step: one answered request of the running code is the matching step of the step system, after whatever outsiders wrote first |
| `Pods.FailureReason` | internal/controller/helpers.go:59-80 | A reason is found iff some container or init container waits with a watched reason; it is that container's reason, and a regular container's if one waits |
| `Pods.LoopReasonMeaning` | internal/controller/helpers.go:94-152 | A pod is looping iff it is live and some regular container or sidecar meets all loop criteria; the reason reported is a watched one |
| `Pods.LoopExceedsRestarts` | internal/controller/helpers.go:130-132 | A restart loop always exceeds the restart threshold of the waiting path too |
| `Pods.FailingSince` | internal/controller/helpers.go:198-215 | The failure start is known iff a readiness condition is false with a time, and ContainersReady is used whenever it is usable |
| `Meaning.SettingsMeaning` | internal/controller/policyresolve.go:18-82 | Every setting in force, in terms of the spec, with its default |
| `Meaning.RunningMeaning` | internal/controller/helpers.go:445-461 | A CronJob is stopped iff suspend is set and true, another workload iff its count is set and zero |
| `Meaning.GateIsAcceptance` | internal/controller/crashlooppolicy_controller.go:143-165 | In terms of statuses, thresholds and conditions: the loop's gate, and that of `policyWouldAct`, accept a pod iff it keeps dying for a watched reason within the window, or waits for one and either has a container at the restart threshold or has not been ready for the time in force; and the gate defers it until an instant iff only the clock is missing |
| `Meaning.UnderThresholdWaitsForTheClock` | internal/controller/helpers.go:166-233 | No pod whose containers are all under the restart threshold is accepted before it has been failing for the time in force |
| `Owners.OwnerIsWhoOwnsIt` | internal/controller/helpers.go:248-303 | The resolved owner is the StatefulSet the controller reference names, or what controls the pod through exactly the ReplicaSet or Job that reference means, uid included, and nothing else |
| `Meaning.OwnerMeaning` | internal/controller/helpers.go:246-303 | For every pod: resolution fails iff the ReplicaSet or Job its controller reference names cannot be read, and otherwise finds the owner iff one owns it |
| `Owners.KeyIsInjective` | internal/controller/helpers.go:315-318 | Two workloads share a key iff they are the same, when namespaces and kinds hold no slash |
| `Owners.KeyClash` | internal/controller/helpers.go:315-318 | Without that guarantee two different workloads can share a key |
| `Owners.SortByCreation` | internal/controller/helpers.go:418-423 | The sort permutes the jobs into creation order and ends in the newest |
| `Owners.AllReplicasFailing` | internal/controller/helpers.go:342-443 | The lookups, list loops and early exits compute the answer of the specification for all three kinds and all errors |
| `Meaning.SelectedReplicasMeaning` | internal/controller/helpers.go:342-393 | For a Deployment or StatefulSet the answer is yes iff it is readable and runs, its selector is valid, the pods can be listed, and those of its namespace that the selector matches are there and all fail in the policy's mode; it fails iff it is unreadable or, while it runs, the selector is invalid or the pods cannot be listed |
| `Meaning.JobReplicasMeaning` | internal/controller/helpers.go:395-440 | The same for a CronJob by its latest job, when creation times differ |
| `Owners.NewestJobDecides` | internal/controller/helpers.go:395-440 | When creation times differ, a CronJob counts as failing iff the owned job created after all others has pods and they all fail, however jobs and pods are listed |
| `Correlation.FailingContainerNames` | internal/controller/policyresolve.go:84-113 | The names returned are exactly those some container of the pod fails under |
| `Correlation.ReplicasAllFailing` | internal/controller/policyresolve.go:115-155 | In Container mode the intersection loop answers yes iff the list is non-empty and one container name fails in every pod; in Pod mode iff it is non-empty and every pod fails |
| `Meaning.CorrelationMeaning` | internal/controller/policyresolve.go:115-155 | Over any listing of a workload's replicas the answer is that some container name fails in all of them, or that all of them fail, by the raw criteria |
| `Correlation.ReplicasFailIgnoresOrder` | internal/controller/policyresolve.go:115-155 | The answer depends on the set of pods only |
| `Correlation.PodAndContainerJudgement` | internal/controller/policyresolve.go:84-113 | Some container name fails iff the pod matches or a classic init container meets the loop criteria |
| `Correlation.ContainerModeIsStricter` | internal/controller/policyresolve.go:202-206 | Container mode implies Pod mode when no classic init container meets the loop criteria |
| `Correlation.ClassicInitSplitsTheModes` | internal/controller/policyresolve.go:91-101 | For any replicas, Container mode acts and Pod mode does not iff some name fails in all of them and one of them fails by a classic init container alone |
| `Correlation.ReplicasFailMonotone` | internal/controller/policyresolve.go:115-180 | Lower restart threshold and Pod before Container only ever add failing replica sets |
| `Policies.RestartThreshold` | internal/controller/policyresolve.go:32-37 | The threshold in force is at least one whatever the object says |
| `Policies.ReconcileInterval` | internal/controller/policyresolve.go:46-55 | The interval in force is positive whatever the object says |
| `Policies.OrderIsTotal` | internal/controller/policyresolve.go:182-211 | Of two policies with different names exactly one is the more restrictive, and none is more restrictive than itself |
| `Policies.OrderIsTransitive` | internal/controller/policyresolve.go:182-211 | The order is transitive |
| `Policies.BeforeIsLexicographic` | internal/controller/policyresolve.go:210 | Names compare character by character from the left, a proper prefix first |
| `Policies.OrderIsLexicographic` | README.md:175-185 | One policy is the more restrictive iff its rank (restart threshold, duration threshold, all-replicas, correlation, dry run) is smaller at the first difference, or the ranks are equal and its name comes first |
| `Arbitration.AdmissionMeaning` | internal/controller/helpers.go:721-748 | An existing namespace is admitted iff there is no selector, it is empty, or it matches the namespace's labels |
| `Meaning.ScopeMeaning` | internal/controller/helpers.go:721-748 | Resolution fails iff the selector is invalid, or is not empty and the namespaces cannot be listed; otherwise a pod is in scope iff its namespace is not excluded and matches a selector that is not empty |
| `Arbitration.NamespaceResolver.constructor` | internal/controller/policyresolve.go:220-222 | The cache starts empty and valid |
| `Arbitration.NamespaceResolver.Allowed` | internal/controller/policyresolve.go:224-239 | Every answer, cached or not, equals a fresh resolution, and a failed one is not remembered |
| `Arbitration.PolicyWouldAct` | internal/controller/policyresolve.go:241-305 | With its cache and early returns it computes the gates of the specification, errors included |
| `Meaning.ExclusionMeaning` | internal/controller/helpers.go:684-719 | The exclusion check fails iff the selector is invalid or the workload cannot be read for another reason than being gone, and excludes iff the selector matches the labels |
| `Meaning.ExclusionInForce` | internal/controller/crashlooppolicy_controller.go:190-202 | What passes the owner gates is not matched by a valid selector; what is matched is refused without error; what is not matched, or gone, is judged as if there were no selector; an invalid selector or an unreadable workload is an error |
| `Meaning.WouldActMeaning` | internal/controller/policyresolve.go:241-305 | For every policy, pod and workload, `policyWouldAct` says yes, and fails, exactly when the reference does |
| `Arbitration.WinningPolicy` | internal/controller/policyresolve.go:307-334 | The minimum-finding loop returns the least acting policy, none iff no policy acts, an error only if some policy cannot be judged |
| `Arbitration.WinnerIsUnique` | internal/controller/policyresolve.go:182-184 | Any two answers over lists with the same policies agree, whatever the order |
| `Arbitration.ExactlyOneWins` | internal/controller/crashlooppolicy_controller.go:218-231 | For a pod and owner, exactly one policy of the list passes the winner check if any policy acts, and it is the returned winner |
| `Arbitration.GatesAgree` | internal/controller/crashlooppolicy_controller.go:131-216 | At one clock value the loop's inline gates and `policyWouldAct` accept the same pods, and a (pod, owner) reaches the winner check iff `policyWouldAct` holds |
| `Arbitration.WinnerExistsWhenReached` | internal/controller/crashlooppolicy_controller.go:221-231 | A listed policy that reaches the winner check always finds a winner |
| `Arbitration.WaitingPassesLaterToo` | internal/controller/helpers.go:217-222 | A pod accepted because it waits is still accepted at any later clock value |
| `Arbitration.LaterAgreement` | internal/controller/crashlooppolicy_controller.go:218-231 | For any pod that reached the winner check, the policy still acts at a later clock iff the pod waits or still loops then and its replicas, where all are asked for, still count as failing then |
| `Arbitration.AgreementSurvives` | internal/controller/crashlooppolicy_controller.go:218-231 | It does as long as no container of the cluster's pods stops failing in between |
| `Arbitration.AgreementLost` | internal/controller/crashlooppolicy_controller.go:221-231 | A concrete cluster in which it does not: the winner check is reached, and one tick later nobody acts and there is no winner |
| `Arbitration.LoopingAgreementLost` | internal/controller/crashlooppolicy_controller.go:146-153 | The same for a single pod that merely loops, at the last instant of its window |
| `Arbitration.AskingNoMoreActsEverywhere` | internal/controller/policyresolve.go:182-191 | Of two policies that look at the same things, the one that asks no more acts wherever the other would, classic init containers aside when the correlation modes differ |
| `Arbitration.AskingLessIsMoreRestrictive` | internal/controller/policyresolve.go:182-191 | Of two policies that look at the same things, one that asks no more, and less of something that can stop an action, is the more restrictive |
| `Arbitration.DominantPolicyWins` | README.md:160-185 | A listed policy that asks no more than every other and precedes them all wins every workload that anyone wins |
| `Indexes.IndexValues` | internal/controller/indexes.go:20-84 | Both index functions return exactly the values the pod is filed under, each once |
| `Indexes.IsInteresting` | internal/controller/crashlooppolicy_controller.go:370-372 | The watch filter lets through exactly the pods filed under some value of some index |
| `Published.IndexMeaning` | internal/controller/indexes.go:20-84 | A pod is filed under a reason iff that is not empty and some container waits for it, or has restarted and last died for it |
| `Indexes.ListPodsByIndex` | internal/controller/indexes.go:88-107 | The lookup returns exactly the pods a full scan for any of the values would, each once, and fails iff one of its lists fails |
| `Indexes.ListCandidatePods` | internal/controller/indexes.go:112-139 | The two lookups together return every index-matching pod exactly once, in an order fixed by the cluster's |
| `Published.CandidatesMeaning` | internal/controller/indexes.go:112-139 | The listing holds a pod iff it is in the cluster and filed under a watched waiting or termination reason |
| `Indexes.LookupLosesNothing` | internal/controller/indexes.go:20-45 | Every failing pod is a candidate if and only if the policy does not watch for the empty reason |
| `Indexes.MapPodToPolicy` | internal/controller/crashlooppolicy_controller.go:376-405 | A pod event enqueues exactly the policies that do not exclude its namespace, in list order, none if they cannot be listed |
| `Indexes.ActingPairIsWatched` | internal/controller/crashlooppolicy_controller.go:366-405 | A pod some policy acts on is a candidate, passes the watch filter, and enqueues that policy |
| `Status.SetCondition` | internal/controller/crashlooppolicy_controller.go:305-311 | The transition time moves only when the status flips and no other condition changes |
| `Status.ConditionsMeaning` | internal/controller/crashlooppolicy_controller.go:295-330 | Ready is true iff the pass met no error, Degraded iff it lists anything, and its count is the length of the published list; transition times move exactly on flips and no other condition is touched |
| `Published.StatusMeaning` | internal/controller/crashlooppolicy_controller.go:286-333 | After a quiet pass that does not give up, whatever the status was: the phase, the observed generation, the counter grown by the acted count, the active list and what it omits, both conditions, and an evaluation time that moved iff something else did |
| `Published.GivenUpMeaning` | internal/controller/crashlooppolicy_controller.go:62-118 | After one that gives up: an error, nothing acted on, and a status that differs only in a phase set for the first time |
| `Published.GivesUpMeaning` | internal/controller/crashlooppolicy_controller.go:97-118 | A pass gives up iff the policies, the namespaces or a watched reason cannot be looked up |
| `Status.PublishAgain` | internal/controller/helpers.go:35-50 | Publishing the same findings again with nothing acted on is no change, even later |
| `Status.CounterIsExact` | internal/controller/crashlooppolicy_controller.go:288-291 | Over any stretch of any history the lifetime counter moves by what the operator's versions counted plus what others added: no retry counts twice, no foreign update is lost |
| `Status.EvaluationTimeMeansChange` | internal/controller/helpers.go:38-40 | The evaluation time moves only together with another change of the status |
| `StatusWrites.UpdateIfChanged` | internal/controller/helpers.go:41-55 | Whatever interferes, at most one version is written, it counts the pass once on top of the version it replaces, and on success the operator's share of the counter grows by exactly the acted count |
| `StatusWrites.SetInitialPhase` | internal/controller/helpers.go:25-33 | At most one version is written, it changes the phase alone and leaves the counter |
| `Attribution.FindActive` | internal/controller/helpers.go:594-682 | The three listing loops return exactly the annotated, attributed, admitted workloads of targeted kinds; any failed list drops the whole result |
| `Published.HeldMeaning` | internal/controller/helpers.go:602-622 | A workload is held by a policy iff it is of a targeted kind, in an admitted namespace, and carries a reason and the policy's name |
| `Published.ActiveListMeaning` | internal/controller/crashlooppolicy_controller.go:262-278 | The active list is what is held, cut at a thousand with the rest counted, and empty iff nothing is held or some targeted kind cannot be listed |
| `Attribution.FindingsAreComplete` | internal/controller/crashlooppolicy_controller.go:271-278 | Listed plus omitted is the number of held workloads up to what the 32-bit omitted count can hold, at most 1000 are listed, each once, and the list is complete when nothing is omitted |
| `Attribution.HoldersAreDisjoint` | internal/controller/helpers.go:607-610 | Policies with different names never list the same workload |
| `Attribution.DegradedMeaning` | internal/controller/crashlooppolicy_controller.go:262-330 | Degraded is published as true iff the listing worked and some workload is held |
| `Attribution.StoppedIsHeld` | internal/controller/helpers.go:514-516 | A workload stopped in a policy's name is held by that policy |
| `Attribution.RestoredIsStillHeld` | internal/controller/helpers.go:602-622 | Changing the replica count or the suspension of a workload changes nothing about who holds it |
| `PassSpec.PassMeaning` | internal/controller/crashlooppolicy_controller.go:120-260 | The fold over the candidate pods, workload by workload: each is judged once on the first pod that speaks for it, exactly those judged so are acted on and stopped in the policy's name, nothing else changes, and no error is counted iff every owner could be told and no judgement failed |
| `Meaning.ActsOnMeaning` | internal/controller/crashlooppolicy_controller.go:120-260 | Among any policies, a pass acts on a workload iff it is readable and running and, for the first pod of the listing that speaks for it, by the reference every policy can be judged, this one acts, and no other acting policy is before it in the order |
| `Meaning.ClaimMeaning` | internal/controller/crashlooppolicy_controller.go:131-188 | A pod speaks for a workload iff by the reference it is in scope, accepted, and known to be owned by it, and the kind is targeted |
| `Meaning.PassActsOnTheDoomed` | internal/controller/crashlooppolicy_controller.go:128-260 | With one policy, a pass over the candidates acts on a workload iff the reference dooms it: readable, running, owning an accepted pod of the cluster in scope, of a targeted kind, not excluded, and all its replicas failing where that is asked |
| `Meaning.FailsMeaning` | internal/controller/crashlooppolicy_controller.go:190-240 | A workload counts as an error iff its own gates cannot be told, or they are passed and some policy cannot be judged or the workload cannot be read |
| `Meaning.UnresolvedMeaning` | internal/controller/crashlooppolicy_controller.go:167-173 | A pod counts as an error iff it is in scope, accepted, and its owner cannot be told |
| `Published.ErrorsCounted` | internal/controller/crashlooppolicy_controller.go:123-126 | The errors of a pass are one for every such pod and one for every such workload |
| `Published.StampMeaning` | internal/controller/crashlooppolicy_controller.go:234-235 | The recorded reason quotes what the pod is failing with: a watched reason some container waits for, or else one it keeps dying for |
| `Published.StoppedMeaning` | internal/controller/helpers.go:510-536 | A stop writes the named annotations and the count or the suspension, and nothing else of the workload |
| `PassTheorems.PassIsSetComprehension` | internal/controller/crashlooppolicy_controller.go:128-260 | With one policy the workloads acted on are exactly the running targets that own some accepted pod of the cluster and pass the owner gates, whatever order the pods come in |
| `PassTheorems.ActedIsSetComprehension` | internal/controller/crashlooppolicy_controller.go:128-260 | The same over any listing: which workloads are acted on depends on the listing as a set |
| `PassTheorems.SecondPassActsOnNothing` | internal/controller/helpers.go:492-494 | After a real pass, whatever errors it met, a second one at the same clock, with any number of policies, acts on nothing, writes no workload and meets equally many errors |
| `PassTheorems.SecondPassWritesNoStatus` | internal/controller/helpers.go:35-50 | Nor does it write status, whether or not the active list can be collected |
| `PassTheorems.DryRunIsFaithful` | internal/controller/helpers.go:495-497 | With one policy, a dry-run pass changes no workload and reports exactly those the real pass changes |
| `PassTheorems.StopsOnlyOnce` | README.md:160-168 | Along any sequence of passes of any policies, clocks, views and pods, a workload a real pass acted on is acted on by no later pass, never changes again, and names the policy that stopped it |
| `PassTheorems.PassIgnoresAnnotations` | internal/controller/crashlooppolicy_controller.go:128-240 | What a pass acts on does not depend on the annotations of any workload |
| `PassTheorems.RecordedIsRetried` | internal/controller/helpers.go:472-476 | A workload that was recorded and then not scaled is acted on by the next pass exactly as if nothing had been written |
| `PassTheorems.ActedIsHeld` | internal/controller/crashlooppolicy_controller.go:265 | Everything a real pass acted on is held by its policy when the pass collects its active list |
| `PassTheorems.SameSpeakerOneActor` | internal/controller/crashlooppolicy_controller.go:218-231 | Two policies that judge a workload on the same pod at the same instant do not both act |
| `PassTheorems.TwoActorsForOneWorkload` | internal/controller/crashlooppolicy_controller.go:183-188 | On different pods they can: two policies watching different reasons each act on the same workload at the same instant |
| `PassTheorems.TwoActorsOnOnePod` | internal/controller/crashlooppolicy_controller.go:83-85 | On one pod they can at different instants: a dry-run policy with the shorter duration reports the workload first, and a more restrictive one acts on it later |
| `PassTheorems.BothActMeansBothWin` | internal/controller/crashlooppolicy_controller.go:183-231 | Two passes, each at its own instant, on its own view, listing and workloads, both act on a workload iff it is running for both and each policy wins the election on the first pod of its own listing that speaks for it |
| `PassTheorems.BothOfAPairAct` | internal/controller/crashlooppolicy_controller.go:131-231 | Of a pair of policies that judge a running workload, each at its own instant, both act iff the owner passes the gates of each and the more restrictive would not have acted at the other's instant on the other's pod |
| `PassWrites.CallIsVisible` | internal/controller/helpers.go:477-587 | Everything stored by a finished call, whoever wrote in between: each of its versions is what it may make of the version it replaced, at most one stops the workload, and a dry run or a call that answers false wrote none |
| `PassWrites.TrueIsVisible` | internal/controller/helpers.go:527-587 | A call that answers true stored a stop iff it did not find the workload stopped, and some stored version is stopped |
| `PassWrites.PassLeavesAllInOrder` | internal/controller/crashlooppolicy_controller.go:233-240 | After a pass under any interference: every version the operator added is well written in the policy's name for a pod that claims the workload, none is stopped twice, what nobody claims is unchanged, and a dry-run pass added nothing |
| `Reconcile.Judge` | internal/controller/crashlooppolicy_controller.go:190-231 | Exclusion, replica check and winner check let the policy go on iff its gates hold, every policy can be judged, and none that acts outranks it |
| `Reconcile.JudgeAndStop` | internal/controller/crashlooppolicy_controller.go:190-240 | Whoever interferes, judging and stopping leaves everything alone or makes one call on this workload, whose answer is the verdict; on a quiet client the verdict is the specified one |
| `Reconcile.EvaluatePods` | internal/controller/crashlooppolicy_controller.go:120-260 | The candidate loop with its processed keys: whoever interferes, each workload is left alone or touched by one call for a pod that claims it, and the list holds, once each, those whose call answered true; it finds the earliest expiry, and on a quiet client computes the fold |
| `Reconcile.EarliestExpiry` | internal/controller/crashlooppolicy_controller.go:154-163 | The accumulator is the least expiry among the deferred pods, none iff no pod is deferred |
| `Published.RequeueMeaning` | internal/controller/crashlooppolicy_controller.go:334-338 | A quiet pass that does not give up asks to run again after the interval in force if no candidate in scope waits for the clock alone, and otherwise after the smaller of that interval and the larger of a second and the time left to the earliest such instant |
| `Reconcile.PublishFindings` | internal/controller/crashlooppolicy_controller.go:262-333 | One status write at most, counting the acted workloads exactly on success; on a quiet client the findings are what the status says |
| `Reconcile.EvaluatePolicy` | internal/controller/crashlooppolicy_controller.go:94-338 | The pass from the policy list on, with the same guarantees as the whole |
| `Reconcile.Reconcile` | internal/controller/crashlooppolicy_controller.go:49-339 | A whole pass: whoever interferes, each workload is left alone or touched by one call for a pod that claims it, and the counter moves, on the operator's account, by the number of calls that answered true or not at all, exactly on success; on a quiet client it gives up without a trace on unreadable input and otherwise is the fold over the listing of the candidates, with its findings published and the requeue computed from them |
| `Reconcile.ReconcileTwice` | internal/controller/crashlooppolicy_controller.go:128-333 | Run twice in a row on a quiet client at one clock, whatever errors the first pass met, the second pass acts on nothing and stores no version of any workload or status |
| `DetectionDelay.WaitingPodIsListed` | internal/controller/indexes.go:112-139 | A pod waiting for the duration threshold is in every listing of the candidates |
| `DetectionDelay.GateIsTheClock` | internal/controller/crashlooppolicy_controller.go:154-165 | Such a pod is deferred, reporting its exact expiry, strictly before failing-since plus threshold and accepted from then on |
| `DetectionDelay.WakesAdvance` | internal/controller/policyresolve.go:46-55 | Every timer wake advances the clock by at least the smaller of the interval and one second |
| `DetectionDelay.DetectionIsBounded` | internal/controller/crashlooppolicy_controller.go:334-338 | Along every run of timer wakes long enough to stride past the expiry, all passes before some pass deferred the pod, that pass accepts it, and unless it is the first it starts less than one pass length plus one second after the expiry |
| `DetectionDelay.RequeueIsBounded` | internal/controller/helpers.go:235-237 | The requeue is positive, never beyond the interval, and never beyond the later of the expiry and one second |

## Left out

- Clients.Client.Get: the owner gates and the listings of a pass read the newest version; only the stop itself and the
  status writes see stale versions and outside writers between their requests.
- Reconcile.EvaluatePods: which workloads a pass acts on is determined on a quiet client only; under interference the
  contract says what each workload may have been through, not which of the possibilities it was.
- PassTheorems.PassIsSetComprehension: stated for a policy list of one policy; for several, `PassSpec.PassMeaning` gives
  the acted set through the first pod that speaks for each workload, since there the order of pods matters.
- Arbitration.WinningPolicy: which error is returned is not modelled, only that there is one.
- Status.CounterIsExact: counts in unbounded integers; the counter of the source is 32 bits wide.
- The API server, its cache and the client library: reduced to a stored sequence of versions per object, reads of some
  version, and updates that land only on the newest. Creation and deletion of workloads and policies during a pass.
- Errors other than not-found and conflict are one kind, and an object's reads fail for a whole pass or not at all
  outside the stop and status writes.
- The back-off between attempts: a retry loop is five attempts, the client library's default, without the pauses.
- Label selector parsing and matching, and `time.ParseDuration`: an arbitrary predicate with a validity flag, and an
  already parsed duration.
- Reconcile.Judge: the winner check uses the clock value of the pass, where the source reads the clock again; what a
  later reading changes is the subject of `Arbitration.LaterAgreement` and not part of the pass.
- The clock: one value per pass, and a second one when the pass ends.
- Saturation of very large durations and times: both are unbounded integers.
- Ties in job creation time, which the unstable sort of the source may break either way; the model takes the last listed.
- Metrics, events, log lines and message wording (a condition keeps the number its message quotes).
- `listPodsByWaitingReasons`, which repeats `listPodsByIndex`; the defaulting accessors beyond the two bounds above.
- A policy that cannot be read at the start of a pass, and the deletion of per-policy metrics.
- The program's entry point, generated deep copies, manifests, charts and scripts.
