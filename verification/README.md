# Compliance status sync of a leaf hub, verified

A leaf hub watches policies and keeps a hub of hubs informed of their compliance. Every policy is folded, in a fixed
order, into four bundles:

- **clusters-per-policy** (CpP): the full state, resent only when a policy or a cluster comes or goes;
- **complete**: only the non-compliant and unknown clusters;
- **delta**: the changes since a base, found against a cache of records;
- **minimal**: two counts per policy.

A hybrid manager flips between complete and delta mode on transport callbacks, and re-bases the delta bundle whenever it
opens a new delta line. A controller decides what to send by comparing bundle versions with the versions last sent.

This project models these parts in Dafny and proves what they guarantee together. `dafny verify dfyconfig.toml` checks it.

## How it is built

- Each bundle is a class whose methods take the source's steps in place. Each method is proved to take the bundle's state
  to what a function of the old state says (`UpdateCpp`, `UpdateComplete`, `UpdateDelta`, and so on), and lemmas state what
  those functions mean: exact change tests, exact views, generations that rise exactly when they should.
- `Protocol.dfy` puts the bundles, the manager and the record of what was sent into one state machine whose steps are a
  policy update, a policy delete, one pass of `syncBundles` and one delivery report. Within a pass the surroundings decide
  the configured level, the fate of every send, and which reports are delivered before a bundle's predicate is evaluated,
  between that and the marshalling of its message, and between marshalling and the fate of the send.
  `PolicyStatusSync.dfy` has the objects (manager, producer, collection entries, controller) and proves that each
  controller method is exactly the corresponding step.
- `BundleAgreement.dfy`, `HybridLine.dfy`, `LineReplay.dfy` and `SentVersions.dfy` hold the four parts of one joint
  invariant; `Reachability.dfy` proves it for every run.
- The results for every reachable state, run and pass are in `Guarantees.dfy` (agreement and reconstruction), `LastRead.dfy`
  (bundles against what was read), `SentContent.dfy` (messages against what the bundles hold), `LineIds.dfy` (IDs of a delta
  line), `LineBases.dfy` (what a delta line rests on), `SendOutcomes.dfy` (what every fate of a send does) and `Passes.dfy`
  (what one pass hands over), over the account of delivery reports in `Reports.dfy`. `WitnessRuns.dfy` has the runs in which
  an expectation fails.
- The delta's receiver is part of the state: `hub` starts from the records taken when a line is opened (or when a policy
  is first read from the base), kept in `openings`, and applies every delta the bundle flushes. The history of a line is
  `attempts`. `RebuiltFromHanded` compares it with what the messages of that history, as any receiver can read them, make
  of `openings`.

## Assumptions

- The clusters named in the status of one policy are distinct. `RepeatedNameDefeatsTest` shows why this is needed.
- A controller update, a controller delete and a callback are each one atomic step.
- Versions are ordered by incarnation, then generation, and neither wraps around. One process sends at a time, and only
  starting processes change the stored incarnation.
- Message keys are kept apart as data: a delta message key with its number never equals a plain key.
- Nothing is assumed of delivery reports: any number of them may come at any time. The runs in `WitnessRuns.dfy` need no
  more than the transport gives, one report for each message it accepted.

## Where code and comments, or code and expectation, part

- The comment at pkg/controller/policies/policy_status_sync.go:93 says compliance is not sent in a cycle in which CpP was
  sent. The code has no such rule. `CppWithComplianceInOnePass` says exactly when CpP goes out with one of the two
  compliance bundles, and `BothFullBundlesInOnePass` when it goes out with complete, both in terms of the state before the
  pass and of what happens during it. `CompleteGoesOutWithCpp` and `DeltaGoesOutWithCpp` are runs in which they do.
- The comment at pkg/bundle/grc/complete_compliance_status_bundle.go:149 says a removed cluster does not count as a change.
  The code counts it exactly when the cluster was listed: `RemovedClusterCounts`, and `RemovalRaisesComplete` for a run.
- A delta line may rest on a complete generation that was never handed to the transport, because any success report and any
  attempt in complete mode opens a line. `SwitchOpensSentBase` says when the base was sent, whoever opens the line, and
  `TurnOpensSentBase` says it of a bundle's turn. Two kinds of runs fail: a late success report opens the line
  (`LateSuccessOpensUnsentBase`), or a delta message's own attempt does, after a failure report brought complete mode back
  while it was being sent (`DeltaAttemptOpensUnsentBase`); the fallback to complete is then lost. `DeltaSendOpensLine` says
  exactly when a delta send opens a line.
- The attempts of a line need not use the IDs 0, 1, 2 and so on. `LineIdsWithoutGap` says exactly in which runs they do, and
  exactly in which they are for the line's own messages altogether; `OrderlyTurn` says which turns break it: a complete
  message whose attempt meets a delta line (`CompleteAttemptTakesIdZero`), and a delta message whose attempt meets a line
  opened after it was marshalled (`DeltaAttemptOnNewLine`), unless it fits the start of that line. So an ID may be skipped
  (`AnIdIsSkipped`) or used twice (`AnIdIsRepeated`).
- A late message that fits the start of a line by ID and base may still bring changes of an earlier line. They never
  contradict the records, but may add clusters that are gone: `RebuiltFromHanded` says exactly when.
- Reports on delta messages never reach the manager, because their keys carry a number: `DeltaReportsGoNowhere`.
- The records of a deleted policy stay in the delta's cache unless a change of it was pending: `DeleteForgetsChanges`.

## Model

| member | source | states |
|---|---|---|
| Guarantees.LineReconstruction | pkg/bundle/grc/delta_compliance_status_bundle.go:65-162 | in every reachable state a receiver that applied every flushed delta of the line, and then the pending one, holds exactly the records of each cached policy, and so the listed status of every live policy and cluster |
| Guarantees.RebuiltFromHanded | pkg/bundle/grc/delta_compliance_status_bundle.go:140-162 | in every reachable state, a policy's opening records, overridden in order by the changes in the handed-over messages a receiver takes for the line's by kind, ID and base, and then by those the next delta message would carry, agree with every record and so with the listed status of every live cluster; they are the records exactly unless the line's first message was late and brought clusters beyond them |
| Guarantees.FallbackLosesNothing | pkg/bundle/grc/delta_compliance_status_bundle.go:85-101 | an update that makes the delta record a change also raises the CpP or the complete generation, so no change lives only in the delta |
| Guarantees.CacheAgreement | pkg/bundle/grc/delta_compliance_status_bundle.go:48-54 | in every reachable state each CpP policy has pairwise disjoint records that give its clusters the status CpP gives them |
| Guarantees.CompleteIsExactView | pkg/bundle/grc/complete_compliance_status_bundle.go:36-97 | complete lists a policy if and only if CpP lists a non-compliant or unknown cluster for it, with exactly those sets, and never an entry with both lists empty |
| Guarantees.MinimalAgreesWithCpp | pkg/bundle/grc/minimal_compliance_status_bundle.go:31-84 | minimal holds CpP's policies in CpP's order, with the lengths of CpP's lists as counts |
| Guarantees.QuietUpdateKeepsStatus | pkg/bundle/grc/clusters_per_policy_bundle.go:54-62 | an update that raises neither full generation read exactly the status already held |
| Guarantees.VersionPairIdentifiesState | pkg/bundle/grc/complete_compliance_status_bundle.go:95-96 | two points of a run with the same CpP and complete generations have the same complete content and the same full status of every policy, although deletes never raise the complete generation |
| LastRead.ProcessReportsAsRead | pkg/controller/generic/generic_status_sync_controller.go:113-157 | in every run of a process CpP, complete and minimal report exactly the policies read and not deleted since, each as last read: every cluster by its state, the alerts, the remediation action, and the counts of all clusters and of those not compliant; of any other policy no change is pending in delta |
| LastRead.ReReadRaisesNothing | pkg/controller/generic/generic_status_sync_controller.go:113-129 | reading a policy again as it was last read raises no generation and records no change, in any of the four bundles |
| LastRead.NoOriginChangesNothing | pkg/bundle/grc/clusters_per_policy_bundle.go:42-45 | a policy without the origin annotation changes no bundle, updated or deleted |
| LastRead.MinimalVersionIdentifiesContent | pkg/bundle/grc/minimal_compliance_status_bundle.go:31-84 | two points of a run with the same minimal generation have the same minimal content |
| LastRead.CppVersionIdentifiesClusters | pkg/bundle/grc/clusters_per_policy_bundle.go:33-87 | two points of a run with the same CpP generation list the same policies with the same clusters |
| SentContent.LastMessageSaysWhatIsHeld | pkg/controller/generic/generic_status_sync_controller.go:203-214 | in every reachable state in which a bundle is unchanged since it was last sent, the last message of its kind says what it holds: CpP's policies and cluster sets, minimal's counts, and complete's alerts if CpP is unchanged too |
| SentContent.CppMessage | pkg/helpers/helpers.go:61-84 | a CpP turn that sends hands over one message, with the plain key and the present version, that gives exactly the full status of every policy |
| SentContent.CompleteMessage | pkg/bundle/grc/complete_compliance_status_bundle.go:12-25 | a complete turn that sends hands over one message that shows exactly CpP's alerts and is based on CpP's present version |
| SentContent.MinimalMessage | pkg/helpers/helpers.go:61-84 | a minimal turn that sends hands over one message with CpP's policies in its order and the counts of its lists |
| SentContent.DeltaMessage | pkg/helpers/helpers.go:61-84 | a delta turn that sends hands over one message with the line's ID in its key and the line's base, which contradicts CpP for no live cluster |
| LineIds.CounterLockstep | pkg/controller/generic/hybrid_sync_manager.go:94-113 | delta mode implies transportation ID = sent-delta count < factor; a line has at most factor attempts, each but the first for the delta message of its own ID, with the line's base and exactly what was pending; hybrid sync disabled never leaves complete mode |
| LineIds.LineIdsWithoutGap | pkg/controller/generic/hybrid_sync_manager.go:103-112 | in a run from a fresh process, with any reports anywhere, the attempts of every line at every point use the IDs 0, 1, 2, ... without gap or repeat if and only if no turn of the run disturbs the IDs; and they are for the line's own messages, with its base and what was pending, if and only if no turn disturbs these |
| LineIds.OrderlyTurn | pkg/controller/generic/hybrid_sync_manager.go:94-113 | one bundle's turn leaves the IDs of a line in order if and only if it is not an accepted send of complete with a success as last word since its predicate was evaluated, nor one of a delta with an ID other than 0, a success as last word during the send and complete mode active before it; likewise for the line's own messages, where a delta with the ID 0 is let through only if it equals what the new line starts with |
| LineIds.DeltaAttemptOnNewLine | pkg/controller/generic/hybrid_sync_manager.go:94-151 | a delta message's own attempt is the first of a line opened since it was marshalled if and only if the last word during the send was a success and complete mode was active before it; the next delta message then has the ID 1, whatever ID this one had |
| LineIds.CompleteAttemptTakesIdZero | pkg/controller/generic/hybrid_sync_manager.go:94-126 | a complete message's own attempt uses up the ID 0 of a line if and only if the last report that reached the manager since its predicate was evaluated was a success |
| Reports.ModeFollowsLastWord | pkg/controller/generic/hybrid_sync_manager.go:115-136 | after any reports the mode is the one set by the last report that reached the manager |
| Reports.DeltaReportsGoNowhere | pkg/transport/kafka/producer.go:180-190 | reports on delta messages change nothing, since their numbered keys are not subscribed |
| LineBases.LineKeepsBase | pkg/bundle/grc/delta_compliance_status_bundle.go:144-145 | over any run, while the line is the same its base is constant and its attempts only grow |
| LineBases.BaseNeverAhead | pkg/bundle/grc/delta_compliance_status_bundle.go:140-153 | the delta's base never exceeds the complete generation and equals it when a line is opened |
| LineBases.LineOpening | pkg/controller/generic/hybrid_sync_manager.go:143-151 | an accepted complete send leaves a line whose base is the generation just sent, with nothing pending and records recoverable from that payload and CpP's cluster sets; if no report is heard during it, in delta mode with ID and count 0 |
| Reports.WhenReportsOpen | pkg/controller/generic/hybrid_sync_manager.go:115-136 | delta mode after any reports is that of a new line if and only if the last word was a success and complete mode was active at some point before it |
| LineBases.SwitchOpensSentBase | pkg/controller/generic/hybrid_sync_manager.go:143-151 | whoever opens a line, it rests on a generation that was handed to the transport if and only if complete is unchanged since it was last sent and was sent at all |
| LineBases.SuccessOpensSentBase | pkg/controller/generic/hybrid_sync_manager.go:115-124 | so for a line opened by a success report |
| LineBases.TurnOpensSentBase | pkg/controller/generic/hybrid_sync_manager.go:94-101 | a line opened in one bundle's turn, by a report or by the send's own attempt, rests on a generation that was handed over if and only if complete was handed over in this very turn, or is unchanged since it was last sent and was sent at all |
| LineBases.DeltaSendOpensLine | pkg/controller/generic/hybrid_sync_manager.go:94-136 | an accepted delta send opens a line if and only if a failure is heard between the evaluation of its predicate and its attempt; if that failure is the last word, its own attempt opens it, delta mode is back and complete is not due |
| SendOutcomes.RefusedTurn | pkg/transport/kafka/producer.go:224-230 | with hybrid sync enabled, a refused message of complete or delta ends its turn in complete mode, and otherwise leaves manager and delta bundle exactly as the reports alone leave them: no line is opened by it and no attempt counted |
| SendOutcomes.TurnWithoutCallback | pkg/transport/kafka/producer.go:203-222 | a message dropped before it is produced, and any message of CpP or minimal, leaves mode, line, attempts and all bundles exactly as the reports alone leave them |
| SendOutcomes.TurnWithoutSend | pkg/controller/generic/generic_status_sync_controller.go:198-212 | a turn that sends nothing, or whose bundle cannot be marshalled, leaves exactly what the reports delivered up to there leave |
| SendOutcomes.NothingSwitches | pkg/controller/generic/hybrid_sync_manager.go:75-80 | with a switch factor of zero or below or a transport without support for deltas, a turn with any send and any reports touches only what was handed over and last sent |
| SendOutcomes.DisabledSendsNoDelta | pkg/controller/generic/hybrid_sync_manager.go:75-80 | in every reachable state of such a process complete mode is on, no line was opened, no attempt counted and no delta message handed over |
| SendOutcomes.AcceptedCompleteSwitches | pkg/controller/generic/hybrid_sync_manager.go:75-101 | an accepted complete send without reports switches to delta mode if and only if the factor is positive and the transport supports deltas |
| WitnessRuns.LateSuccessOpensUnsentBase | pkg/controller/generic/hybrid_sync_manager.go:115-124 | a run whose late success report opens a line on a complete generation that was never handed to the transport |
| WitnessRuns.DeltaAttemptOpensUnsentBase | pkg/controller/generic/hybrid_sync_manager.go:94-101 | a run in which a delta message's own attempt opens a line on a complete generation that was never handed over and is not due, although a failure had just brought complete mode back |
| WitnessRuns.AnIdIsSkipped | pkg/controller/generic/hybrid_sync_manager.go:94-124 | a run in which a complete message uses up the ID 0 of a line |
| WitnessRuns.AnIdIsRepeated | pkg/controller/generic/hybrid_sync_manager.go:94-136 | a run, with one report for each of two complete messages, in which a line's first attempt is for a delta message with the ID 1 and its next delta message has the ID 1 too |
| Guarantees.DeltaSendReachesReceiver | pkg/controller/generic/hybrid_sync_manager.go:103-112 | an accepted delta send during which no failure is heard has the line's next ID; below the factor the receiver's view is overridden by exactly its payload and nothing stays pending, at the factor complete mode is back |
| Passes.OneInformativeBundle | pkg/controller/generic/generic_status_sync_controller.go:194-217 | in every pass, with any reports delivered during it, a delta sent besides complete has no objects |
| Passes.CppWithComplianceInOnePass | pkg/controller/policies/policy_status_sync.go:93-100 | a pass hands over CpP and complete or delta if and only if CpP is changed, at the full level and can be marshalled, and either complete is due and can be marshalled, or it is not due and delta is due and can be marshalled; due means changed since last sent, at the full level, and in the mode the reports of the pass so far leave |
| Passes.BothFullBundlesInOnePass | pkg/controller/policies/policy_status_sync.go:93-100 | a pass hands over both CpP and complete if and only if both are changed since last sent, at the full level and can be marshalled, and the last word of the reports up to complete's turn leaves complete mode |
| WitnessRuns.CompleteGoesOutWithCpp | pkg/controller/policies/policy_status_sync.go:93-100 | a reachable state whose next pass hands over both CpP and complete |
| WitnessRuns.DeltaGoesOutWithCpp | pkg/controller/policies/policy_status_sync.go:93-100 | a reachable state whose next pass hands over CpP and a delta with a change, and no complete |
| Passes.EntryHands | pkg/controller/generic/generic_status_sync_controller.go:198-215 | a bundle's turn hands over one message, marshalled in the state its windows of reports left, and makes the bundle's version the last sent exactly when it is due and can be marshalled; a due one that cannot stops the pass |
| Passes.WhenATurnSends | pkg/controller/policies/policy_status_sync.go:83-84 | a turn hands something over if and only if the level is the bundle's (minimal for minimal, full for the others), complete and delta are in the mode the reports before leave, the bundle is newer than last sent, and it can be marshalled |
| Passes.LevelDecides | pkg/controller/policies/policy_status_sync.go:83-100 | under one level throughout, a pass at the full level hands over no minimal; at the minimal level nothing but minimal, exactly when it has changed and can be marshalled; at any other level nothing |
| Passes.UnmarshallableEndsPass | pkg/controller/generic/generic_status_sync_controller.go:207-212 | a due bundle that cannot be marshalled ends the pass with nothing further handed over or marked as sent |
| SentVersions.SentVersionsIncrease | cmd/manager/main.go:187-243 | over any run with any crashes, restarts and failed starts, the versions handed over for one bundle strictly increase, and last-sent never exceeds current |
| SentVersions.IncarnationsCountStarts | cmd/manager/main.go:205-242 | when no start fails, the processes have the incarnations 0, 1, 2, ... over any run with crashes and restarts |
| SentVersions.IncarnationStore.GetIncarnation | cmd/manager/main.go:205-242 | reads, increments and stores the incarnation, starting at 0; on a fault no incarnation is returned |
| SentVersions.SyncEntryKeepsVersions | pkg/controller/generic/generic_status_sync_controller.go:203-214 | one bundle's turn keeps the order of handed-over versions and last-sent within current |
| Reachability.ReachableInv | pkg/controller/generic/generic_status_sync_controller.go:113-217 | the joint invariant of bundles, line and versions holds in every reachable state |
| BundleAgreement.UpdateKeepsState | pkg/controller/generic/generic_status_sync_controller.go:124-126 | an update keeps the agreement of all four bundles |
| BundleAgreement.DeleteKeepsState | pkg/controller/generic/generic_status_sync_controller.go:150-152 | a delete keeps the agreement of all four bundles |
| BundleAgreement.RecordsFollow | pkg/bundle/grc/delta_compliance_status_bundle.go:79-88 | after an update the records give the policy's clusters the status read, taken from the base or brought up to date |
| HybridLine.AttemptKeepsLine | pkg/controller/generic/hybrid_sync_manager.go:94-113 | an attempt keeps counters and IDs in step and the history of the line regular |
| HybridLine.DeliverEffect | pkg/controller/generic/hybrid_sync_manager.go:115-151 | any reports leave contents, versions and the record of sending alone; the line goes on, or a fresh one is open |
| LineReplay.AttemptReplays | pkg/controller/generic/hybrid_sync_manager.go:103-112 | an attempt keeps what a receiver makes of the opening records and the line's messages in step with what was flushed |
| ClustersPerPolicy.ChangeTestExact | pkg/bundle/grc/clusters_per_policy_bundle.go:156-163 | total length plus containment answers if and only if the cluster set changed |
| ClustersPerPolicy.RepeatedNameDefeatsTest | pkg/bundle/grc/clusters_per_policy_bundle.go:156-163 | with a repeated cluster name the test can miss an added cluster |
| ClustersPerPolicy.UpdateEffect | pkg/bundle/grc/clusters_per_policy_bundle.go:33-63 | an update always refreshes the policy's three lists, touches no other policy, and raises the generation by one exactly when the policy set or a cluster set changed |
| ClustersPerPolicy.DeleteEffect | pkg/bundle/grc/clusters_per_policy_bundle.go:66-87 | a delete removes exactly the policy and raises the generation exactly when it was listed |
| ClustersPerPolicy.ClustersPerPolicyBundle.constructor | pkg/bundle/grc/clusters_per_policy_bundle.go:12-23 | an empty bundle of generation 0 |
| ClustersPerPolicy.ClustersPerPolicyBundle.UpdateObject | pkg/bundle/grc/clusters_per_policy_bundle.go:33-63 | takes the bundle to the specified update, for policies with and without an ID |
| ClustersPerPolicy.ClustersPerPolicyBundle.DeleteObject | pkg/bundle/grc/clusters_per_policy_bundle.go:66-87 | takes the bundle to the specified delete |
| ClustersPerPolicy.ClustersPerPolicyBundle.UpdateObjectIfChanged | pkg/bundle/grc/clusters_per_policy_bundle.go:151-171 | replaces the lists in place and answers the change test |
| ClustersPerPolicy.GetClusterStatuses | pkg/bundle/grc/clusters_per_policy_bundle.go:109-136 | the three lists of the status in order, and all names |
| ClustersPerPolicy.ClusterListContains | pkg/bundle/grc/clusters_per_policy_bundle.go:173-181 | true if and only if every name of the one list is in the other |
| Policies.GroupingConserves | pkg/bundle/grc/clusters_per_policy_bundle.go:109-136 | the three lists are a partition of the policy's clusters, of the same total length, and give each its status |
| Policies.GroupedByState | pkg/bundle/grc/clusters_per_policy_bundle.go:109-136 | a cluster is listed as compliant or non-compliant if and only if the status gives it that state, and as unknown if and only if it gives it any other |
| CompleteCompliance.ListTestExact | pkg/bundle/grc/complete_compliance_status_bundle.go:154-177 | for duplicate-free lists, equal length plus one-way containment holds if and only if the sets are equal |
| CompleteCompliance.CompleteUpdateEffect | pkg/bundle/grc/complete_compliance_status_bundle.go:36-73 | an update shows exactly the alert view of the status read, never leaves an empty entry, and raises the generation by one exactly when what is shown changed |
| CompleteCompliance.RemovedClusterCounts | pkg/bundle/grc/complete_compliance_status_bundle.go:149-163 | a status that lacks just one cluster of the status shown raises the generation if and only if that cluster was not compliant |
| WitnessRuns.RemovalRaisesComplete | pkg/bundle/grc/complete_compliance_status_bundle.go:149-163 | a reachable state in which removing a policy's one, failing cluster raises complete's generation |
| CompleteCompliance.CompleteDeleteEffect | pkg/bundle/grc/complete_compliance_status_bundle.go:76-97 | a delete hides exactly the policy and leaves the generation |
| CompleteCompliance.ComplianceStatusBundle.constructor | pkg/bundle/grc/complete_compliance_status_bundle.go:12-25 | an empty bundle holding the base's own version object |
| CompleteCompliance.ComplianceStatusBundle.UpdateObject | pkg/bundle/grc/complete_compliance_status_bundle.go:36-73 | takes the bundle to the specified update |
| CompleteCompliance.ComplianceStatusBundle.DeleteObject | pkg/bundle/grc/complete_compliance_status_bundle.go:76-97 | takes the bundle to the specified delete |
| CompleteCompliance.ComplianceStatusBundle.UpdateBundleIfObjectChanged | pkg/bundle/grc/complete_compliance_status_bundle.go:150-163 | replaces the lists in place exactly when the test says they differ |
| CompleteCompliance.GetNonCompliantAndUnknownClusters | pkg/bundle/grc/complete_compliance_status_bundle.go:129-147 | the two lists of the status in order |
| CompleteCompliance.CompareClusterLists | pkg/bundle/grc/complete_compliance_status_bundle.go:165-177 | the length-and-containment test |
| MinimalCompliance.MinimalUpdateEffect | pkg/bundle/grc/minimal_compliance_status_bundle.go:31-60 | an update stores the policy's triple and raises the generation by one exactly when the stored triple changed |
| MinimalCompliance.MinimalDeleteEffect | pkg/bundle/grc/minimal_compliance_status_bundle.go:63-84 | a delete removes exactly the policy and raises the generation by one exactly when it was listed |
| MinimalCompliance.NotCompliantCounts | pkg/bundle/grc/minimal_compliance_status_bundle.go:142-153 | the count is the number of clusters whose state is not compliant |
| MinimalCompliance.CountsAreListLengths | pkg/bundle/grc/minimal_compliance_status_bundle.go:142-153 | the two counts are the total length of the three lists and the length of the last two |
| MinimalCompliance.UpdateKeepsAgreement | pkg/bundle/grc/minimal_compliance_status_bundle.go:31-60 | the same update keeps minimal and CpP in agreement, position by position |
| MinimalCompliance.DeleteKeepsAgreement | pkg/bundle/grc/minimal_compliance_status_bundle.go:63-84 | the same delete keeps minimal and CpP in agreement |
| MinimalCompliance.MinimalComplianceStatusBundle.UpdateObject | pkg/bundle/grc/minimal_compliance_status_bundle.go:31-60 | takes the bundle to the specified update |
| MinimalCompliance.MinimalComplianceStatusBundle.DeleteObject | pkg/bundle/grc/minimal_compliance_status_bundle.go:63-84 | takes the bundle to the specified delete |
| MinimalCompliance.MinimalComplianceStatusBundle.UpdateObjectIfChanged | pkg/bundle/grc/minimal_compliance_status_bundle.go:116-140 | whichever branch is taken, the stored triple becomes the new one, and the answer is whether it differed |
| MinimalCompliance.GetNumOfClusters | pkg/bundle/grc/minimal_compliance_status_bundle.go:142-153 | counts all clusters and those not compliant |
| DeltaCompliance.AbsorbEffect | pkg/bundle/grc/delta_compliance_status_bundle.go:218-260 | the records are overridden by the status read and stay disjoint; the clusters collected are exactly the changed ones, as a partition |
| DeltaCompliance.UpdateRecordsChanges | pkg/bundle/grc/delta_compliance_status_bundle.go:65-102 | exactly the clusters whose status differs from the records go on top of what was pending, and the generation rises by one exactly when there are any |
| DeltaCompliance.UpdateReconstructs | pkg/bundle/grc/delta_compliance_status_bundle.go:65-102 | an update keeps the receiver's view overridden by what is pending equal to the records, and pending IDs unique and cached |
| DeltaCompliance.DeleteReconstructs | pkg/bundle/grc/delta_compliance_status_bundle.go:105-129 | so does a delete |
| DeltaCompliance.DeleteForgetsChanges | pkg/bundle/grc/delta_compliance_status_bundle.go:119-128 | nothing stays pending for a deleted policy, and its records go exactly when something was pending |
| DeltaCompliance.ResetReconstructs | pkg/bundle/grc/delta_compliance_status_bundle.go:156-162 | so does a flush, which moves what is pending to the receiver |
| DeltaCompliance.SyncReconstructs | pkg/bundle/grc/delta_compliance_status_bundle.go:140-153 | so does opening a line on a base |
| DeltaCompliance.BaseRecords | pkg/bundle/grc/delta_compliance_status_bundle.go:180-187 | the records taken from a base are those of exactly its policies |
| DeltaCompliance.MergeStatuses | pkg/bundle/grc/delta_compliance_status_bundle.go:263-320 | last writer wins: in whatever order the map is walked, the rebuilt lists are duplicate-free and disjoint, and give the old statuses overridden by the new |
| DeltaCompliance.DeltaComplianceStatusBundle.constructor | pkg/bundle/grc/delta_compliance_status_bundle.go:18-35 | an empty bundle whose base version is a copy |
| DeltaCompliance.DeltaComplianceStatusBundle.UpdateObject | pkg/bundle/grc/delta_compliance_status_bundle.go:65-102 | takes the bundle to the specified update |
| DeltaCompliance.DeltaComplianceStatusBundle.DeleteObject | pkg/bundle/grc/delta_compliance_status_bundle.go:105-129 | takes the bundle to the specified delete |
| DeltaCompliance.DeltaComplianceStatusBundle.SyncState | pkg/bundle/grc/delta_compliance_status_bundle.go:140-153 | base generation and records are taken anew and the ID is 0 |
| DeltaCompliance.DeltaComplianceStatusBundle.Reset | pkg/bundle/grc/delta_compliance_status_bundle.go:156-162 | the pending objects are flushed and the ID goes up |
| DeltaCompliance.DeltaComplianceStatusBundle.UpdateSpecificPolicyRecordsFromBase | pkg/bundle/grc/delta_compliance_status_bundle.go:164-177 | the records of one policy are read from the base, if it lists the policy |
| DeltaCompliance.DeltaComplianceStatusBundle.UpdatePolicyRecordsFromBase | pkg/bundle/grc/delta_compliance_status_bundle.go:180-187 | the records become those of the base |
| DeltaCompliance.DeltaComplianceStatusBundle.GetChangedClusters | pkg/bundle/grc/delta_compliance_status_bundle.go:218-260 | collects the changed clusters and brings the records up to date, cluster by cluster |
| DeltaCompliance.DeltaComplianceStatusBundle.UpdatePolicyComplianceStatus | pkg/bundle/grc/delta_compliance_status_bundle.go:263-301 | the pending entry becomes the old one overridden by the changes, as a partition |
| Collections.Pigeonhole | pkg/bundle/grc/complete_compliance_status_bundle.go:165-177 | for duplicate-free lists of one length, containment is equality of sets |
| Collections.ContainsString | pkg/bundle/helpers.go:6-14 | true if and only if the string is in the list |
| Collections.CreateSetFromSlice | pkg/bundle/helpers.go:17-28 | the set of the list's items |
| Collections.GetObjectIndexByUID | pkg/bundle/grc/clusters_per_policy_bundle.go:97-105 | the first position of the ID, if any |
| PolicyStatusSync.HybridSyncManager.HandleTransportationAttempt | pkg/controller/generic/hybrid_sync_manager.go:94-113 | complete mode opens a line; delta mode counts, and returns to complete mode at the factor or flushes |
| PolicyStatusSync.HybridSyncManager.HandleTransportationSuccess | pkg/controller/generic/hybrid_sync_manager.go:115-124 | opens a line in complete mode, changes nothing in delta mode |
| PolicyStatusSync.HybridSyncManager.HandleTransportationFailure | pkg/controller/generic/hybrid_sync_manager.go:126-136 | complete mode afterwards |
| PolicyStatusSync.HybridSyncManager.SwitchToDeltaStateMode | pkg/controller/generic/hybrid_sync_manager.go:143-151 | delta mode, count 0, delta bundle flushed and then synced |
| PolicyStatusSync.BundleCollectionEntry.constructor | pkg/controller/generic/bundle_collection_entry.go:9-17 | the last-sent version is a copy of the bundle's present one |
| PolicyStatusSync.BundleCollectionEntry.AppendPredicate | pkg/controller/generic/hybrid_sync_manager.go:60-73 | the mode check is added to the entry's own condition |
| PolicyStatusSync.Producer.Subscribe | pkg/transport/kafka/producer.go:193-195 | registers the callbacks under the key |
| PolicyStatusSync.GetHybridComplianceBundleCollectionEntries | pkg/controller/policies/policy_status_sync.go:122-147 | both compliance bundles over CpP, their entries under one manager, which is subscribed exactly when hybrid sync is enabled |
| PolicyStatusSync.PolicyStatusController.constructor | pkg/controller/policies/policy_status_sync.go:66-101 | the collection is wired in order and its state is that of a fresh process |
| PolicyStatusSync.PolicyStatusController.UpdateObject | pkg/controller/generic/generic_status_sync_controller.go:113-129 | is exactly the update step of the state machine |
| PolicyStatusSync.PolicyStatusController.DeleteObject | pkg/controller/generic/generic_status_sync_controller.go:146-157 | is exactly the delete step |
| PolicyStatusSync.PolicyStatusController.SyncBundles | pkg/controller/generic/generic_status_sync_controller.go:194-217 | is exactly the pass step, whatever the surroundings do |
| PolicyStatusSync.PolicyStatusController.SendAsync | pkg/transport/kafka/producer.go:203-236 | the message is handed over, and an accepted or refused send fires its one callback if subscribed |
| PolicyStatusSync.PolicyStatusController.HandleDeliveryReport | pkg/transport/kafka/producer.go:180-190 | is exactly the report step |
| PolicyStatusSync.PolicyStatusController.BaseVersions | pkg/bundle/grc/complete_compliance_status_bundle.go:18 | complete's base version is the CpP version at all times, through the shared object |
| GenericStatus.KeepsLatest | pkg/bundle/generic_status_bundle.go:37-73 | if a resource version identifies content, the bundle holds exactly the latest read of every object |
| GenericStatus.OnlyNewsChanges | pkg/bundle/generic_status_bundle.go:37-73 | if a resource version identifies content, an event raises the generation by one exactly when it is news (a read other than the latest of its object, or a delete of an object held), and otherwise changes nothing at all |
| GenericStatus.GenerationCountsNews | pkg/bundle/generic_status_bundle.go:37-73 | the generation is the number of news so far |
| GenericStatus.NoNewsNoHandover | pkg/controller/generic/generic_status_sync_controller.go:203-214 | from a point of a run at which an entry is current to any later one without news since, nothing more is handed over for it |
| GenericStatus.PassSendsOnlyWanted | pkg/controller/generic/generic_status_sync_controller.go:198-214 | a pass changes only wanted entries whose bundle is newer than last sent, and hands these over with the bundle's generation and objects |
| GenericStatus.NothingSkippedNorRepeated | pkg/controller/generic/generic_status_sync_controller.go:203-214 | over any run of a collection, handed-over generations strictly increase, and equal current and last-sent versions mean the content handed over is the bundle's |
| GenericStatus.CleanPassIsCurrent | pkg/controller/generic/generic_status_sync_controller.go:198-215 | after a pass without marshalling errors what was handed over for each wanted entry is current |
| GenericStatus.CleanPassSendsLatest | pkg/controller/generic/generic_status_sync_controller.go:113-217 | after any run of a collection that ends in a pass without marshalling errors, what was handed over for each wanted entry holds exactly the latest read of every object, manipulated |
| GenericStatus.FailedPassKeepsRest | pkg/controller/generic/generic_status_sync_controller.go:207-212 | after a marshalling error that entry and every later one are unchanged, and earlier ones went through |
| GenericStatus.BundleEntry.constructor | pkg/controller/generic/bundle_collection_entry.go:9-17 | the last-sent version is a copy of the bundle's present one, and nothing was handed over |
| GenericStatus.SyncBundles | pkg/controller/generic/generic_status_sync_controller.go:194-217 | one pass over the entry objects hands over every due entry up to the first that cannot be marshalled, and changes no other |
| GenericStatus.GenericStatusBundle.UpdateObject | pkg/bundle/generic_status_bundle.go:37-58 | the object is manipulated in place and taken in when new or of another resource version |
| GenericStatus.GenericStatusBundle.DeleteObject | pkg/bundle/generic_status_bundle.go:61-73 | takes the bundle to the specified delete |
| LocalPolicySync.SpecBundleMustBeLast | pkg/controller/local_policies/local_policy_sync.go:68-76 | of all orders of the three bundles, exactly those with the spec bundle last give both status bundles the status as read |
| LocalPolicySync.StatusesAsRead | pkg/controller/local_policies/local_policy_sync.go:44-86 | in every run CpP holds the statuses as last read, complete shows exactly their alerts, and the spec bundle holds blank statuses only |
| LocalPolicySync.SpecAsRead | pkg/controller/local_policies/local_policy_sync.go:68-86 | in every run the spec bundle holds exactly the latest read of every policy without its status, and its generation counts the news |
| LocalPolicySync.LocalPolicyController.UpdateObject | pkg/controller/generic/generic_status_sync_controller.go:124-126 | both status bundles take in the status as read although the shared object ends up blank |
| LocalPolicySync.LocalPolicyController.Reconcile | pkg/controller/generic/generic_status_sync_controller.go:75-107 | a reconcile of a fresh object is exactly the update or delete step |

## Left out

- LocalPolicySync.LocalPolicyController: its sends are the generic pass and are not repeated.
- Guarantees.LineReconstruction: the receiver is the one described above, not the hub's code, which is not part of this model; nothing is claimed about eventual delivery, since the last-sent version advances even when a send fails later.
- SentVersions.SentVersionsIncrease: assumes one process at a time and unbounded counters, so a standby process that claimed an earlier incarnation and takes over later is not covered.
- PolicyStatusSync.PolicyStatusController.SyncEntry: the payload, the version and the ID of a message are read at one moment, so a report delivered between those readings is not modelled.
- Interleavings inside one controller step or one callback; locks are not modelled.
- Objects other than policies in the four policy bundles, and the manager's error for an entry that wraps no delta bundle: the controller never creates them.
- JSON, compression, the transport clients, and the text of keys and versions.
- The sync-service transport is the case in which hybrid sync is disabled.
- Kubernetes calls, finalizers, requeueing, event filters, cleaning of metadata fields, tickers and sync intervals.
- The other controllers, which are wiring over the generic bundle, and the control-info bundle.
