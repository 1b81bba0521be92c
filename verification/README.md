# Verified model of the AIBrix gateway cache

This project models the parts of the AIBrix gateway that keep counts which several
goroutines, informers and gateway replicas change at once, and proves that those counts
stay right over whole runs and under every interleaving of their atomic steps.

Check it with `dafny verify dfyconfig.toml` (Dafny 4.11).

| file | what it models |
|---|---|
| `PodStats.dfy` | per-pod request counters across delete, snapshot, resume and re-add |
| `PodStatsRuns.dfy` | what a whole schedule makes of those counters, read off the schedule |
| `StatsRecords.dfy` | storing and taking the per-attempt statistics record, behind the request's flags and lock |
| `RunningRequests.dfy` | the cross-gateway running-request hash, its two scripts, paired writes and the hard cap |
| `DriftRepair.dfy` | repair of a gateway's own drifted field |
| `GatewayLiveness.dfy` | heartbeats, exclusion of silent gateways, pruning of their fields |
| `DecodeLedger.dfy` | publishing the decode ledger, and reading the other gateways' ledgers |
| `GatewaySnapshot.dfy` | the snapshot reader with its per-key fallback |
| `PodModelIndex.dfy` | the two-way index between pods and models |
| `OutputPredictor.dfy` | the rotating output-length histogram and its weighted prediction |
| `KVCacheSlots.dfy` | KV-cache slot ranges and node-list comparison |
| `GpuProfile.dfy` | nearest-index lookup of a GPU profile |
| `Options.dfy` | a value that may be missing |

Code that updates objects, maps and arrays in place is modelled by classes and by methods
with loops; protocols whose steps run in different goroutines or processes are modelled as
state machines over their atomic steps (a critical section, one map operation, one Redis
script). Every run of such a machine starts in its initial state, and the theorems hold
after every sequence of steps.

`PodStats` and `PodModelIndex` are two views of one store. The counters are guarded by a
lock per pod key and are proved under interleaving; the index is guarded by the store's
mutex and is proved handler by handler.

## Findings

Some promises do not hold without a condition. Each one below has a concrete input or run, and
the exact condition.

- Redis may return a key twice in one scan. If the second read fails, the previous tick's value
  replaces the one just read (`RepeatedKeyCanGoStale`). A round keeps what it reads of a key,
  whatever a pipeline can reply, exactly if the key's only repeats are the first two keys of a
  batch (`FreshIffRepeatsLead`).
- A node list with a repeated name can compare equal to a different list, or unequal to itself.
  The comparison with `b` is exact for every `a` exactly if the names in `b` are distinct
  (`ExactIffDistinctNames`).
- A gateway that comes back between the two round trips of a prune loses its field
  (`ReturningGatewayLosesItsField`). A delete is unseen exactly if every gateway it deletes a
  field of is silent or has nothing there (`DeleteUnseenIff`).
- A caller that completes a request while another one is still adding it passes the flags and
  misses the record (`EarlyCompletionLeaks`). Among completions that know their attempt, a record
  is released exactly if the completion did not look before the store (`ReleasedIffNotEarly`).
  The gateway's own callers complete after adding has returned, and then every record is
  released exactly once (`WaitingCallersReleaseExactlyOnce`) and leaves nothing in the map
  (`NothingStaysBehind`).
- With a window of zero the predictor's eviction loop never ends (`ZeroWindowNeverSettles`); with
  a positive one it always does (`Rotate`).

The hard cap is stated for gateways that are live whenever the admit script runs, as the source
does; under the same condition an admission fails only if there is no place left
(`AdmissionIsExact`). `PlainRequestsEscapeTheSum` and `SilentGatewaysEscapeTheCap` show that neither condition
can be dropped.

## Model

| member | source | states |
|---|---|---|
| `PodStats.DecrementClamped` | pkg/cache/cache_trace.go:95-111 | one less but never below zero, and whether the floor fired |
| `PodStats.TotalsCount` | pkg/cache/cache_trace.go:269-319 | the running total of a generation counts exactly its unfinished requests, the completed total exactly its finished ones |
| `PodStats.Pod.Resume` | pkg/cache/informers.go:434-447 | a resumed pod has the snapshot's counters, load and generation |
| `PodStats.Pod.Reset` | pkg/cache/informers.go:467-478 | an unused buffer is left with zero counters |
| `PodStats.Pod.Complete` | pkg/cache/cache_trace.go:455-482 | a finished request leaves the running count, joins the completed counts and gives its load back |
| `PodStats.DeletedPodSnapshot.Complete` | pkg/cache/cache_trace.go:440-447 | the same on a snapshot, so that a later resume sees it |
| `PodStats.Store.OneHolder` | pkg/cache/cache_trace.go:116-153 | at most one reachable object, live pod or snapshot, carries a generation |
| `PodStats.Store.ResolveFindsCarrier` | pkg/cache/cache_trace.go:142-153 | resolving an outdated pod finds the reachable carrier of its generation whenever there is one |
| `PodStats.Store.CountersAreRequests` | pkg/cache/cache_trace.go:269-484 | every reachable object's running count is the number of unfinished requests of its generation, its completed count the number finished, its pending load the sum of their loads |
| `PodStats.Store.CountersAreTotals` | pkg/cache/cache_trace.go:269-484 | every reachable object's running, completed and token counts and its load are the totals over the requests of its generation |
| `PodStats.Store.CarrierRuns` | pkg/cache/cache_trace.go:457-462 | the carrier of an unfinished request counts at least that one, so the floor cannot fire on it |
| `PodStats.Store.HandoffKeeps` | pkg/cache/informers.go:560-587 | moving a pod into a snapshot keeps generations unique and counters conserved |
| `PodStats.Store.ExpiryKeeps` | pkg/cache/informers.go:593-601 | dropping snapshots keeps every other object conserved |
| `PodStats.Store.PublishKeeps` | pkg/cache/informers.go:464-466 | publishing a seeded pod keeps generations unique and counters conserved |
| `PodStats.Store.RecountConserves` | pkg/cache/cache_trace.go:280-319 | moving a generation's totals and its carrier together keeps every reachable object conserved |
| `PodStats.Store.SeedBuffer` | pkg/cache/informers.go:433-451 | the snapshot is consumed; a same-address re-add within the grace period resumes it, any other gets a fresh generation |
| `PodStats.Store.LoadOrStore` | pkg/cache/informers.go:464-478 | the seeded buffer becomes the entry of a free key; a taken key keeps its entry and the buffer is cleared |
| `PodStats.Store.AddPodLocked` | pkg/cache/informers.go:400-480 | keeps the invariant; an existing entry stays, a new one carries the resumed or a fresh generation, and the buffer is clean again |
| `PodStats.Store.DeletePodLocked` | pkg/cache/informers.go:560-587 | keeps the invariant; the pod leaves the live map and its counters go to a snapshot of its key |
| `PodStats.Store.PruneExpiredDeletedPodSnapshotsLocked` | pkg/cache/informers.go:593-601 | keeps exactly the snapshots parked for less than a minute |
| `PodStats.Store.AddPodStatsCount` | pkg/cache/cache_trace.go:280-319 | the first critical section: counts the request on the live pod or on the snapshot of the same address, exactly if there is one, and records its generation |
| `PodStats.Store.AddPodStatsLoad` | pkg/cache/cache_trace.go:354-375 | the second critical section: the request carries exactly the consumption it was given, or zero without one or without a provider, and that much joins the load of the carrier of the generation it was counted on, whatever happened in between |
| `PodStats.Store.DonePodStats` | pkg/cache/cache_trace.go:436-484 | completes the request on its generation's carrier; the zero floor fires only if nothing reachable carries it |
| `PodStats.Act` | pkg/cache/cache_trace.go:269-498 | one step of the schedule, with the same promises |
| `PodStats.Run` | pkg/cache/cache_trace.go:269-498 | any schedule of starts, loads, completions, deletes and re-adds: the store ends with exactly the generations, parked counters and requests the schedule says, every reachable object agrees with its requests, and the zero floor fired only for requests whose generation no key carried |
| `PodStatsRuns.CountersFollowSchedule` | pkg/cache/cache_trace.go:269-484 | whatever the schedule, every reachable object counts the requests of its generation started and not completed, those completed, the tokens they reported, and the sum of the loads they added and have not given back |
| `PodStatsRuns.TotalsFollowSchedule` | pkg/cache/cache_trace.go:269-484 | in every schedule a generation's totals are the starts less the completions, the completions, and the tokens those reported |
| `PodStatsRuns.LoadsFollowSchedule` | pkg/cache/cache_trace.go:354-375 | in every schedule a request carries exactly the load its second section was given |
| `PodStatsRuns.DeleteSweepsExactly` | pkg/cache/informers.go:560-601 | a delete parks the pod with its address and generation and drops exactly the snapshots parked for a minute |
| `PodStatsRuns.FlapResumesExactly` | pkg/cache/informers.go:433-451 | a pod deleted and added again goes on with its generation exactly if it comes back under the same known address within a minute, and else with one nothing was ever counted on |
| `StatsRecords.NoRecordIsTakenTwice` | pkg/cache/cache_trace.go:155-185 | no record is returned by two completions |
| `StatsRecords.NextKeepsGates` | pkg/types/router_context.go:477-491 | every step keeps the gate: once the flag was won the record is stored or the winner holds the lock, and an adding call that found the attempt routed returns only after the store |
| `StatsRecords.NoForeignRecord` | pkg/cache/cache_trace.go:191-240 | a completion that looked after the store never returns another attempt's record, though request IDs are shared and contexts reused |
| `StatsRecords.ReleasedExactlyOnce` | pkg/cache/cache_trace.go:208-240 | when a completion that looked after the store has returned and no anonymous one is about to take that record, it has been taken by exactly one completion |
| `StatsRecords.WaitingCallersAreNotEarly` | pkg/cache/cache_impl.go:374-402 | if every completing call the flag lets through comes after an adding call has returned, no completion looks before the store |
| `StatsRecords.WaitingCallersReleaseExactlyOnce` | pkg/cache/cache_impl.go:374-434 | then every attempt whose completion has returned has had its record taken exactly once, and by no other attempt |
| `StatsRecords.EarlyCompletionMisses` | pkg/cache/cache_trace.go:220-240 | a completion that looked before the store never gets its own record |
| `StatsRecords.ReleasedIffNotEarly` | pkg/cache/cache_trace.go:208-240 | where every completion knows its attempt and no other one is early, a finished attempt's record is released exactly if its completion did not look before the store |
| `StatsRecords.EarlyCompletionLeaks` | pkg/types/router_context.go:477-491 | a run through the gate in which a caller completes while another is still adding: everything has returned and the record is still there |
| `StatsRecords.RunsKeepOwned` | pkg/cache/cache_trace.go:208-240 | in every run an attempt's key leads only to that attempt, everything in the map has been stored, and a completion that did not look before the store holds its own record until it has left it taken |
| `StatsRecords.KeysLeadToTheirOwn` | pkg/cache/cache_trace.go:191-206 | in every run every key of the map leads to an attempt that has stored under it: its own key, or the alias of its request ID |
| `StatsRecords.NothingStaysBehind` | pkg/cache/cache_trace.go:208-240 | if callers wait, no key leads to the record of an attempt whose completion has returned |
| `StatsRecords.OrdinaryRequest` | pkg/cache/cache_trace.go:191-240 | in any state waiting callers can reach, a request that is routed, added and completed gets its own record back and leaves the map as it was |
| `StatsRecords.UnaddedAttempt` | pkg/types/router_context.go:477-491 | an attempt that ends before its statistics were added leaves nothing in the map, and its context can be used again |
| `StatsRecords.AnonymousTakesWhatItFinds` | pkg/cache/cache_trace.go:220-240 | an anonymous completion that looks while the alias leads to a record returns that record, unless another completion returns it, whatever runs in between |
| `StatsRecords.AnonymousFinishes` | pkg/cache/cache_trace.go:220-240 | three steps of an anonymous completion return an untaken record the alias leads to, and take both its keys out of the map |
| `StatsRecords.RunsKeepTakers` | pkg/cache/cache_trace.go:155-185 | in every run the consumed flag names exactly the completion that got the record |
| `RequestHash.IncrDecr` | pkg/cache/cache_running_requests.go:162-173 | only the caller's field changes; a missing hash is left missing by a decrement; the field never goes below zero |
| `RequestHash.SumOverRemove` | pkg/cache/cache_running_requests.go:773-789 | the order in which fields are summed does not matter |
| `RequestHash.LiveSumByField` | pkg/cache/cache_running_requests.go:773-789 | a field adds its value if its gateway is live and the value positive, and nothing otherwise |
| `RequestHash.SumLiveFields` | pkg/cache/cache_running_requests.go:773-789 | the sum of the live gateways' fields, and exactly the other fields |
| `RequestHash.AdmitScript` | pkg/cache/cache_running_requests.go:273-309 | compares with the limit the live sum that a reader would see if the caller were live and its field raised to its local count, admits exactly if below, and then adds one to the caller's field |
| `RequestProtocol.NextKeepsPaired` | pkg/cache/cache_running_requests.go:162-222 | every step keeps every field equal to its gateway's increments landed and not yet decremented |
| `RequestProtocol.DecrementIsExact` | pkg/cache/cache_running_requests.go:162-173 | neither the missing-hash guard nor the zero clamp fires on a paired decrement |
| `RequestProtocol.RunsArePaired` | pkg/cache/cache_trace.go:253-267 | the same for every run of interleaved asynchronous writes |
| `RequestProtocol.OutstandingIsCount` | pkg/cache/cache_trace.go:253-267 | outstanding requests are the number of those whose increment landed and decrement has not |
| `RequestProtocol.PlainRequest` | pkg/cache/cache_trace.go:253-267 | in any run one request that bypasses admission raises its gateway's field by one and lowers it again, and touches no other |
| `RequestProtocol.QuietRunsEndAtZero` | pkg/cache/cache_trace.go:335-344 | once every write has landed every field is zero |
| `RequestProtocol.OutstandingByGateway` | pkg/cache/cache_running_requests.go:273-309 | the fields of all members add up to the outstanding requests |
| `RequestProtocol.AdmitTotalIsExact` | pkg/cache/cache_running_requests.go:273-309 | what the script compares with the limit is exactly what is outstanding plus what the caller's local count is ahead of its field |
| `RequestProtocol.HardCap` | pkg/cache/cache_running_requests.go:273-371 | in every run admitted outstanding requests never exceed the limit, and if nothing bypasses admission neither does the live sum |
| `RequestProtocol.LiveSumIsOutstanding` | pkg/cache/cache_running_requests.go:773-789 | in every such run the live sum is the number of outstanding requests |
| `RequestProtocol.AdmissionIsExact` | pkg/cache/cache_running_requests.go:273-309 | in every run under the cap's conditions an admission succeeds exactly if what is outstanding, plus what the caller's local count is ahead of its requests, is below the limit; it takes one place, and else changes nothing |
| `RequestProtocol.HardCapOnUnfinished` | pkg/cache/cache_impl.go:212-236 | the number of admitted unfinished requests never exceeds the limit |
| `RequestProtocol.PlainRequestsEscapeTheSum` | pkg/cache/cache_trace.go:335-344 | a run in which a request that bypassed admission lifts the live sum above the limit |
| `RequestProtocol.SilentGatewaysEscapeTheCap` | pkg/cache/cache_running_requests.go:273-309 | a run in which a gateway that is not live lifts the admitted requests above the limit |
| `DriftRepair.CorrectionsAreJustified` | pkg/cache/cache_running_requests.go:512-546 | after any samples, a correction is the least of the last five gaps, all on one side, against their direction |
| `DriftRepair.ObserveSeesGap` | pkg/cache/cache_running_requests.go:512-546 | an observation depends on the difference of the two counts only |
| `DriftRepair.EveryFifthGapCorrects` | pkg/cache/cache_running_requests.go:512-546 | after any samples, a correction is emitted exactly at every fifth gap of a streak on one side, and is the least of those five against their direction |
| `DriftRepair.RepairIsSound` | pkg/cache/cache_running_requests.go:527-546 | with a fixed drift and a transient that vanishes once in five samples, a correction has the right sign, is no larger than the drift, and there is none without drift |
| `DriftRepair.ReachableIsWellFormed` | pkg/cache/cache_running_requests.go:512-546 | the states any samples lead to |
| `DriftRepair.WellFormedIsReachable` | pkg/cache/cache_running_requests.go:512-546 | every one of those states is reached by some samples |
| `DriftRepair.PassNeverOvershoots` | pkg/cache/cache_running_requests.go:647-701 | one pass leaves the field between where it was and the local count |
| `DriftRepair.AgreementIsStable` | pkg/cache/cache_running_requests.go:585-709 | a field that agrees is never touched again |
| `DriftRepair.RepairNeverCrosses` | pkg/cache/cache_running_requests.go:585-709 | over any number of passes the field never crosses the local count and the gap never grows |
| `DriftRepair.RepairConverges` | pkg/cache/cache_running_requests.go:585-709 | five passes from the empty state, nine from any reachable one, close the gap |
| `DriftRepair.ObserveSamples` | pkg/cache/cache_running_requests.go:585-678 | the reading half: each pod's progress, and each correction exactly once |
| `DriftRepair.WriteCorrections` | pkg/cache/cache_running_requests.go:680-709 | the writing half: exactly the corrected pods' hashes change, through the ordinary script |
| `DriftRepair.ReconcileOwnRunningRequests` | pkg/cache/cache_running_requests.go:585-709 | reads in batches of a hundred that may fail and writes that may fail: a pod that could not be read, or whose local count moved, keeps its progress and its hash; any other folds in its sample and gets exactly the correction that emits; pods that left are forgotten |
| `DriftRepair.GoodSampleIsAPass` | pkg/cache/cache_running_requests.go:585-709 | a pod with a good sample and a write that lands makes exactly the pass the convergence theorem is about |
| `GatewayLiveness.RunsKeepInv` | pkg/cache/cache_running_requests.go:449-464 | in every run stored scores are true last heartbeats and only heartbeats past the long window are forgotten |
| `GatewayLiveness.ReadRunningRequests` | pkg/cache/cache_running_requests.go:917-954 | the count a reader gets, and exactly the fields it hands to the prune queue |
| `GatewayLiveness.ReadsFollowHeartbeats` | pkg/cache/cache_running_requests.go:752-811 | a reader sees its local count plus the fields of exactly the others that sent a heartbeat in the short window |
| `GatewayLiveness.BeatIsSeen` | pkg/cache/cache_running_requests.go:449-464 | in any run a heartbeat makes its sender's field count for every other reader for three seconds |
| `GatewayLiveness.SilentContributesNothing` | pkg/cache/cache_running_requests.go:752-789 | a gateway silent for more than three intervals contributes nothing, whatever stands in its field |
| `GatewayLiveness.SafeToPrune` | pkg/cache/cache_running_requests.go:880-893 | the victims are exactly the enqueued fields whose owners have no stored heartbeat of the last ten minutes |
| `GatewayLiveness.CheckMarksOnlySilent` | pkg/cache/cache_running_requests.go:841-900 | in every run a flush marks only fields whose owner was silent for the whole long window |
| `GatewayLiveness.PrunePassIsComplete` | pkg/cache/cache_running_requests.go:841-900 | in any run a read, check and delete of one gateway leave of the others' fields exactly those whose owners sent a heartbeat in the last ten minutes |
| `GatewayLiveness.OnlyMarkedFieldsDisappear` | pkg/cache/cache_running_requests.go:841-900 | fields disappear only through a flush that marked them |
| `GatewayLiveness.PruningIsInvisible` | pkg/cache/cache_running_requests.go:841-900 | in every run, and after every continuation of any steps of any gateways, a prune has changed no reader's count compared with the same run without it, as long as no gateway is back when its field is deleted or comes back later |
| `GatewayLiveness.PruningIsInvisibleToTraffic` | pkg/cache/cache_running_requests.go:841-900 | in particular after any ticks, writes, reads and checks, and heartbeats of gateways whose fields were not deleted |
| `GatewayLiveness.DeleteUnseenIff` | pkg/cache/cache_running_requests.go:841-900 | a delete leaves every reader's count alone exactly if every gateway it deletes a field of is silent or has nothing in that field |
| `GatewayLiveness.ReturningGatewayLosesItsField` | pkg/cache/cache_running_requests.go:841-900 | a run in which a gateway returns between check and delete, and a reader's count drops from one to zero |
| `GatewayLiveness.TrimmingIsInvisible` | pkg/cache/cache_running_requests.go:449-464 | after every run the hashes, prune queues, marks and every reader's count are what they would be had the heartbeat set never been trimmed |
| `DecodeLedger.Publisher.QuietIsUpToDate` | pkg/cache/cache_decode_ledger.go:167-272 | with nothing dirty, unsignalled or in flight, every field is absent exactly if its ledger is zero and else packs it, and exactly those pods are republished |
| `DecodeLedger.Publisher.ChangeLedger` | pkg/cache/cache_decode_ledger.go:58-85 | a ledger change at any moment of a flush keeps the invariant |
| `DecodeLedger.Publisher.MarkDirty` | pkg/cache/cache_decode_ledger.go:167-180 | a signal moves the change to the dirty set |
| `DecodeLedger.Publisher.RepublishTick` | pkg/cache/cache_decode_ledger.go:206-211 | the tick makes the published pods dirty |
| `DecodeLedger.Publisher.BeginFlush` | pkg/cache/cache_decode_ledger.go:221-233 | the flush takes the whole dirty set |
| `DecodeLedger.Publisher.QueueWrite` | pkg/cache/cache_decode_ledger.go:242-253 | queues a delete for a zero ledger, else the packed current ledger |
| `DecodeLedger.Publisher.ExecSucceeds` | pkg/cache/cache_decode_ledger.go:254-272 | all writes are applied and the published set follows them |
| `DecodeLedger.Publisher.ExecFails` | pkg/cache/cache_decode_ledger.go:254-262 | any part of the writes may have been applied; the whole batch is dirty again |
| `DecodeLedger.Publisher.Flush` | pkg/cache/cache_decode_ledger.go:221-272 | after one successful flush every signalled pod is up to date, whatever earlier flushes did |
| `DecodeLedger.LedgersFollowChanges` | pkg/cache/cache_decode_ledger.go:167-272 | flushes and ticks change neither the ledgers nor which changes are unsignalled |
| `DecodeLedger.FlushPublishes` | pkg/cache/cache_decode_ledger.go:221-272 | a flush that reads the dirty pods in any order and succeeds leaves nothing dirty, has written or deleted each of them by its current ledger, and touched no other field |
| `DecodeLedger.Publisher.Run` | pkg/cache/cache_decode_ledger.go:167-272 | any interleaving of changes, signals, ticks and steps of flushes ends in the state the actions say, and if nothing is dirty or in flight and every change was signalled, every field packs the ledger those changes left |
| `RemoteDecodeLoad.SumRemoteDecodeLedger` | pkg/cache/cache_decode_ledger.go:294-327 | the tokens and summed ages of exactly the other live gateways holding a charge, and exactly the dead gateways' fields |
| `RemoteDecodeLoad.AgesAddUp` | pkg/cache/cache_decode_ledger.go:320-326 | summing charge counts and charge times separately gives the summed ages |
| `RemoteDecodeLoad.PackingKeepsAge` | pkg/cache/cache_decode_ledger.go:234-253 | a packed ledger has on the Redis clock the age its charges have on their own clock |
| `RemoteDecodeLoad.PackingKeepsTokens` | pkg/cache/cache_decode_ledger.go:234-253 | a packed ledger holds the tokens of its charges |
| `RemoteDecodeLoad.RemoteTokensAreTrueTokens` | pkg/cache/cache_decode_ledger.go:294-327 | the token sum is that of all the counted gateways' charges |
| `RemoteDecodeLoad.RemoteAgesAreTrueAges` | pkg/cache/cache_decode_ledger.go:294-327 | the elapsed time is the sum over all charges of their ages, each on its own gateway's clock |
| `GatewaySnapshot.ReadGatewaySnapshots` | pkg/cache/cache_gateway_snapshot.go:271-317 | reading in batches is reading key by key, a failed batch counting as no reply for each of its keys |
| `GatewaySnapshot.ReadKey` | pkg/cache/cache_gateway_snapshot.go:290-314 | a reply decides; without one the previous value stands in, or the key is unread |
| `GatewaySnapshot.OnlyScannedKeys` | pkg/cache/cache_gateway_snapshot.go:257-271 | a key the scan did not return is gone |
| `GatewaySnapshot.RoundGivesValue` | pkg/cache/cache_gateway_snapshot.go:271-317 | a key that does not fail after it was read gets the value last read from it, else its previous one if a read failed, else none |
| `GatewaySnapshot.SingleRead` | pkg/cache/cache_gateway_snapshot.go:271-317 | a key scanned once gets what was read, its previous value if the read or its batch failed, and nothing if it was empty or rejected |
| `GatewaySnapshot.LeadingRepeatsDoNotFail` | pkg/cache/cache_gateway_snapshot.go:263-285 | a key repeated only at the head of a batch never fails after it was read, because the first failure of a batch decides it |
| `GatewaySnapshot.BatchesAreIndependent` | pkg/cache/cache_gateway_snapshot.go:271-317 | what happens to one batch leaves the keys of all other batches alone |
| `GatewaySnapshot.StaleRoundIsPossible` | pkg/cache/cache_gateway_snapshot.go:263-285 | for every other repeat, replies a pipeline can give: the first occurrence read, the second failing with its batch or after a rejected key |
| `GatewaySnapshot.RepeatedKeyCanGoStale` | pkg/cache/cache_gateway_snapshot.go:271-317 | under those replies the value just read is lost to the previous one |
| `GatewaySnapshot.FreshIffRepeatsLead` | pkg/cache/cache_gateway_snapshot.go:271-317 | a round keeps what it reads of a key, whatever the replies, exactly if the key's only repeats are the first two keys of a batch |
| `GatewaySnapshot.GroupSnapshotsByPod` | pkg/cache/cache_gateway_snapshot.go:323-334 | each pod's group holds a snapshot that names it once for every key it was read from, and nothing else; no group is empty |
| `GatewaySnapshot.Sync.Tick` | pkg/cache/cache_gateway_snapshot.go:85-143 | over any history of ticks: something is published exactly if some tick could read every key, and then the cache holds for each key the value last read from it, unless a scan repeated that key elsewhere than at the head of a batch |
| `GatewaySnapshot.Sync.CacheIsLastGood` | pkg/cache/cache_gateway_snapshot.go:85-143 | a pod's group holds exactly the snapshots that name it and were last read from some key |
| `GatewaySnapshot.KeyKeepsLastGood` | pkg/cache/cache_gateway_snapshot.go:85-143 | one more round keeps a key's value equal to the last one read since it was last missing, empty or rejected |
| `PodModelIndex.InverseIsUnique` | pkg/cache/informers.go:507-532 | what the pods list determines what the models list |
| `PodModelIndex.AddedPodLists` | pkg/cache/informers.go:120-158 | after an add, unless the pod is a worker or names no model, it is listed also under exactly its base model and its claims with a port |
| `PodModelIndex.UpdatedPodLists` | pkg/cache/informers.go:160-246 | after an update, unless the pod was and stays a worker, it is listed under exactly the new object's base model and claims with a port, and not at all if either object is a Ray worker or the new one a worker or without a model |
| `PodModelIndex.UpdatedAdapterLists` | pkg/cache/informers.go:321-346 | after an adapter update a stored pod lists the adapter exactly if it is a new instance, or listed it and is not an old one |
| `PodModelIndex.OtherEventsList` | pkg/cache/informers.go:248-397 | an adapter that appears or goes is an update from or to no instances, and a deleted pod is listed nowhere |
| `PodModelIndex.Index.BothSidesAgree` | pkg/cache/informers.go:160-397 | a pod is listed by a model exactly if it lists the model, with the same object, and no model is empty |
| `PodModelIndex.Index.AddPodLocked` | pkg/cache/informers.go:400-480 | an entry that exists stays; a new one lists nothing |
| `PodModelIndex.Index.DeletePodLocked` | pkg/cache/informers.go:560-587 | the entry is gone and its models are returned |
| `PodModelIndex.Index.LoadOrStoreModel` | pkg/cache/informers.go:507-524 | an existing model is kept, else the untouched buffered one is published |
| `PodModelIndex.Index.AddMapping` | pkg/cache/informers.go:507-532 | pod and model list each other; no stored model is replaced |
| `PodModelIndex.Index.RemoveMapping` | pkg/cache/informers.go:616-633 | takes the pair out of the sides asked for and reports exactly whether the model is now empty |
| `PodModelIndex.Index.DropModelIfEmpty` | pkg/cache/informers.go:636-641 | removes the model exactly if it has no pod |
| `PodModelIndex.Index.DeleteMapping` | pkg/cache/informers.go:606-610 | the two together; a side that is ignored stays |
| `PodModelIndex.Index.AddPod` | pkg/cache/informers.go:120-158 | keeps the index whole; the pod is listed under its base model and its claims with a port |
| `PodModelIndex.Index.UpdatePod` | pkg/cache/informers.go:160-246 | keeps the index whole; the pod is relisted without its adapters, and every model it goes on serving keeps its object and pending count |
| `PodModelIndex.Index.DeletePod` | pkg/cache/informers.go:248-305 | keeps the index whole; the pod is gone and no surviving model is replaced |
| `PodModelIndex.Index.AddModelAdapter` | pkg/cache/informers.go:307-319 | keeps the index whole; exactly the stored instances list the adapter |
| `PodModelIndex.Index.UpdateModelAdapter` | pkg/cache/informers.go:321-346 | keeps the index whole; the instances are swapped and a model that stays is the same object |
| `PodModelIndex.Index.DeleteModelAdapter` | pkg/cache/informers.go:375-397 | keeps the index whole; the instances no longer list the adapter |
| `PodModelIndex.Index.Handle` | pkg/cache/informers.go:120-397 | any one event keeps the index whole, changes the pods' lists as the event says, and replaces no model that stays |
| `PodModelIndex.Index.Run` | pkg/cache/informers.go:120-397 | any sequence of pod and adapter events leaves the index whole, with the pods listed as the events say and every model serving exactly the pods that list it |
| `TraceLog.HeadSlotIsMaximum` | pkg/cache/output_predictor.go:120-138 | the head's interval is the furthest any timestamp reached |
| `OutputPredictor.Latest` | pkg/cache/output_predictor.go:120-138 | the latest ten-second interval any timestamp lies in, not before the start |
| `Histogram.BucketRounds` | pkg/cache/output_predictor.go:233-242 | a positive token count lies within half a power of two of its bucket's, and the last bucket is open above |
| `Histogram.ChooseIsCumulative` | pkg/cache/output_predictor.go:196-213 | the chosen bucket is the one whose cumulative range holds the cursor |
| `Histogram.ChooseIsWeighted` | pkg/cache/output_predictor.go:196-213 | exactly as many cursors choose a bucket as the row counts for it |
| `OutputPredictor.SimpleOutputPredictor.constructor` | pkg/cache/output_predictor.go:146-169 | rows and buckets as computed from the arguments; with a positive window and limits, an empty predictor that agrees with an empty log |
| `OutputPredictor.SimpleOutputPredictor.WindowIsNaive` | pkg/cache/output_predictor.go:171-190 | every cell counts, over the full log, what was added in the last `rows - 1` intervals up to the head's |
| `OutputPredictor.SimpleOutputPredictor.RowWindowIsNaive` | pkg/cache/output_predictor.go:171-190 | every row sum does the same for its row |
| `OutputPredictor.SimpleOutputPredictor.WindowFollowsSamples` | pkg/cache/output_predictor.go:171-190 | cells and row sums, read off the reported samples |
| `OutputPredictor.SimpleOutputPredictor.Reset` | pkg/cache/output_predictor.go:72-88 | takes one row out of the cells and sums and clears it |
| `OutputPredictor.SimpleOutputPredictor.ForwardLocked` | pkg/cache/output_predictor.go:120-138 | the head moves to the interval of the timestamp, onto a row that is already clear |
| `OutputPredictor.SimpleOutputPredictor.ResetTail` | pkg/cache/output_predictor.go:140-144 | what leaves the sums is exactly the interval that left the ring |
| `OutputPredictor.SimpleOutputPredictor.Rotate` | pkg/cache/output_predictor.go:255-285 | terminates with the size below the spare row and the head in the ring |
| `OutputPredictor.ZeroWindowNeverSettles` | pkg/cache/output_predictor.go:140-144 | with a window of zero no number of evictions ends the eviction loop |
| `OutputPredictor.SimpleOutputPredictor.AddTraceWithTimestamp` | pkg/cache/output_predictor.go:171-190 | whatever the timestamp, the predictor agrees with the log extended by the trace, under the cell of its input bucket's row and its output bucket's column |
| `OutputPredictor.SimpleOutputPredictor.Predict` | pkg/cache/output_predictor.go:196-213 | returns two to the chosen bucket; the scan never falls through |
| `OutputPredictor.SimpleOutputPredictor.PredictionsAreWeighted` | pkg/cache/output_predictor.go:187-213 | in every valid state exactly `inputs[k]` of the cursors predict two to the k |
| `OutputPredictor.SimpleOutputPredictor.PredictionsFollowSamples` | pkg/cache/output_predictor.go:187-213 | of the cursors, one per request of the same input bucket in the window, exactly as many predict two to the k as those requests had output bucket k |
| `OutputPredictor.Replay` | pkg/cache/output_predictor.go:171-190 | after any sequence of adds, in any order of timestamps, every cell counts exactly the requests of its input and output bucket reported in the intervals of the period up to the latest one, and every row sum those of its input bucket |
| `SlotRanges.MaximalIsUnique` | cmd/kvcache-watcher/main.go:647-665 | the same slots in the same order are merged into the same ranges |
| `SlotRanges.CanonicalIffIncreasing` | cmd/kvcache-watcher/main.go:647-665 | merged ranges are ascending and apart exactly if the slots are strictly increasing |
| `SlotRanges.SlotsAreRanges` | cmd/kvcache-watcher/main.go:647-665 | the slots of ranges are those inside one of them |
| `SlotRanges.CanonicalIsUnique` | cmd/kvcache-watcher/main.go:686-696 | canonical ranges are equal exactly if they hold the same set of slots |
| `SlotRanges.MergeSlots` | cmd/kvcache-watcher/main.go:647-665 | sorts in place; the ranges expand to exactly the sorted slots, and are canonical exactly if no slot repeats |
| `SlotRanges.SlotRangesEqual` | cmd/kvcache-watcher/main.go:686-696 | decides equality of ranges, and of slot sets for canonical ones |
| `ClusterNodes.IsNodeListEqual` | cmd/kvcache-watcher/main.go:667-684 | equal lengths, and every node of the second list is the last of its name in the first |
| `ClusterNodes.DistinctMatch` | cmd/kvcache-watcher/main.go:667-684 | with distinct names in the second list, exactly its rearrangements compare equal |
| `ClusterNodes.ExactIffDistinctNames` | cmd/kvcache-watcher/main.go:667-684 | that holds against every first list exactly if the names are distinct |
| `ClusterNodes.MatchIffSameMeaning` | cmd/kvcache-watcher/main.go:667-696 | lists with distinct names compare equal exactly if every name has the same address, port and slot set |
| `ClusterNodes.CalculateSlotDistribution` | cmd/kvcache-watcher/main.go:517-554 | every slot located on a node goes to that node, once and in order |
| `ClusterNodes.BuildNodes` | cmd/kvcache-watcher/main.go:453-468 | one node per pod with an address, in order, with the canonical ranges of exactly the slots the ring gives it |
| `ClusterNodes.NodeHasItsSlots` | cmd/kvcache-watcher/main.go:453-468 | a published node has a slot in its ranges exactly if the ring gives it the slot |
| `ClusterNodes.AddressedAre` | cmd/kvcache-watcher/main.go:453-468 | exactly the pods with an address are published |
| `ClusterNodes.AddressedAreDistinct` | cmd/kvcache-watcher/main.go:453-468 | pods with distinct names give nodes with distinct names |
| `GpuProfile.FindIndex` | pkg/cache/model_gpu_profile.go:117-154 | an index in range; in an ascending row the nearest entry, the higher of two equally near, the first for zero |
| `GpuProfile.GetSignature` | pkg/cache/model_gpu_profile.go:99-157 | each error exactly when it applies, in the order it is looked for; else per dimension the entry of an ascending row nearest to the feature's logarithm, the higher of two equally near, and the first for zero |

## Left out

- Integer width: counters, tokens and charges are unbounded; 32- and 64-bit wrap-around is not modelled.
- Floating point: loads, ledger tokens, clock offsets and profile logarithms are real numbers; rounding, NaN and infinite index entries are not modelled.
- Strings: pod, model, gateway and Redis keys are numbers compared only for equality; formatting and parsing of keys and packed values is not modelled.
- Key expiry in Redis, and the refresh of time-to-live values.
- Redis errors on the admit path and what the gateway does then; lost replies of increments and decrements.
- A Redis command that takes effect after its caller gave up and wrote again.
- Clock-offset measurement; the offset is constant and the liveness clock is shared and never goes back.
- Pod readiness times (`readySince`, `lastPodReadySince`), metric emission, request traces and the queue router's notifications.
- Lock striping: one critical section is one atomic step of its pod key.
- The concurrency of `tryRotate`: the rotation an add triggers happens before the add.
- The spare pod of `addPodLocked` in `PodModelIndex`; `PodStats` models it.
- The claim registry and the base-model note kept beside the index, and resynchronisation of adapters at start-up.
- Stopping and replacing a ledger publisher, and its wake-up channel.
- The consistent-hash ring: an arbitrary map from slots to nodes.
- A heartbeat lookup that fails during a prune, which puts the queued fields back.
- Reading and writing the cluster metadata and its version number.
- Value lookups of a GPU profile once the signature is known.
- OutputPredictor.SimpleOutputPredictor.constructor: promises a usable predictor for a positive window and positive limits only; negative windows are not modelled.
- OutputPredictor.SimpleOutputPredictor.Predict: stated for logs without negative counts, the only ones the gateway writes; other cold-prediction strategies than one token are not modelled.
- OutputPredictor.Replay: demands a positive window and positive limits, under which the constructor promises a usable predictor.
