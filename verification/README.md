# A verified model of the Lumigo Kubernetes operator

The operator instruments the workloads of a namespace: a mutating webhook and a controller write
an injector volume, an init container, a mount and seven environment variables into pod specs,
and take them out again when the namespace's `Lumigo` object is deleted. A telemetry proxy beside
it caches Kubernetes objects and walks their owner references. This project models those parts in
Dafny and proves what they do over all inputs and over whole runs.

`dafny verify dfyconfig.toml` checks everything.

| file | what it models |
|---|---|
| `Sequences.dfy` | replace-first-or-append and filtering, the two list updates behind the mutators |
| `PodSpecs.dfy`, `Injection.dfy`, `InjectionLaws.dfy` | pod specs, injection, removal, the recognisers and the instrumentation check, and their algebra |
| `Workloads.dfy`, `StoredForm.dfy`, `InjectorWebhook.dfy` | whole resources with their `lumigo.auto-trace` label, what storing does to them, and the admission webhook |
| `Passes.dfy`, `DeletionPass.dfy`, `InjectionPass.dfy`, `ResourcePasses.dfy` | the controller's removal and injection passes, workload by workload and over a whole namespace, with failing calls |
| `LabelProtocol.dfy`, `RemovalRaces.dfy` | users, webhook and controller against one API server, in every interleaving; what races do to a removal pass |
| `Conditions.dfy`, `Reconciler.dfy`, `LumigoRuns.dfy` | status conditions, one reconcile, and whole runs of all Lumigo objects |
| `NamespaceConfigs.dfy` | the namespace configuration file of the telemetry proxy |
| `ObjectCache.dfy`, `Emission.dfy` | the two-key LRU cache and the way of new object versions downstream |
| `GroupVersions.dfy`, `Chains.dfy`, `OwnerWalk.dfy`, `KubeClient.dfy` | owner references, the root-owner walk, and both through the caches |
| `LogGrouping.dfy`, `DeleteHandler.dfy` | grouping objects by namespace; deleting from a slice while ranging over it |

## Modelling decisions

- Nil and empty Go slices differ in memory (`Slice`), because `reflect.DeepEqual` tells them apart.
  Laws that identify them say so through `EmptyForNil`.
- Between a write and the next read an object takes its stored form (`AtRest`): the lists of
  environment variables, mounts, volumes and containers and the label maps are left out of the encoding
  when empty, so they come back nil, and the API server fills in container fields that are not set. The
  model has the two defaults that depend on nothing else (termination message path and policy). The
  webhook sees objects in this form, and everything in a store is in it.
- A pod's `SecurityContext` is always present: injection dereferences it without a nil check, and the
  API server defaults it.
- Objects that the code rewrites in place are classes (`PodSpecObject`, `WorkloadObject`,
  `LumigoStatus`, `LumigoObject`, `NamespaceFile`, `LruWithIndexer`, `Client`, `LogRecordSlice`,
  `Handler`). Each method is proved against a function on values, and the laws are about those
  functions.
- Which API calls fail is decided by oracles that are part of the state (`ApiServer.calls` for Gets and
  Updates and `listings` for listings, `Client.faults`) or by parameters (`Answers`, `Write`), so that
  contracts promise what holds under every pattern of failures and also success when nothing goes
  wrong. An update, the finalizer's included, may land although its response is lost. Optimistic
  locking is modelled: a write based on a stale copy has no effect.
- The creation-time sort is not stable, so the model allows every outcome of it.
- Strings are compared as sequences of characters. `ToLower` is ASCII only, which is exact for
  comparisons with "true" and "false".

## What the proofs brought to light

- Injection after injection is absorbed for all pod specs, but removal after injection is not always
  the same as removal alone: injection overwrites a foreign volume, init container or mount that uses
  its names. `RemovalAbsorbsInjection` and `RoundTrip` give the exact conditions.
- Removal reports a mutation for any container whose environment list is nil, although nothing of
  Lumigo's was there (`RemovalReportsNothing`). An environment that removal empties is nil when read
  back, so a second removal reports a mutation again (`RemovalFromReadBack`).
- Injection, too, reports a mutation on every workload that was read back, instrumented or not, because
  the stored injector container has the API server's defaults (`ReadBackIsReinjected`); what is stored
  is the same (`StoredInjectionAbsorbs`).
- The skip marker is written with a plain assignment to the label map, which panics on a nil map. The
  removal pass lists labelled workloads only, but fetches them again, and finds no labels if a user has
  taken them off in between (`PanicIsReachable`), or if its own update landed with the response lost,
  the auto-trace label was the only one and the webhook consumed the marker (`RetryAfterLostResponse`,
  `LostResponsePanics`). It takes exactly such steps (`SafeOverRuns`, `StrippingPanics`, `RetryPanics`).
- The controller's Get is served from a cache that may lag behind. On an older version that removal
  would not change, the pass reports success and leaves the workload instrumented
  (`StaleReadSkipsRemoval`).
- A version label tells the truth in all states of a run exactly if every user write is turned down,
  is truthful itself, or is instrumented by the webhook (`LabelTruthOverRuns`); a forged label lies
  wherever no mutator acts (`ForgedLabelLies`).
- One listed ReplicaSet with an unparsable owner makes every pass fail before any StatefulSet or
  CronJob is reached, so the Lumigo's finalizer is not released while it is there (`RunPass`,
  `ReconcileDeletion`). The branch is defensive: API-server validation rejects such owner references.
  Apart from a retry that panics, nothing else stops a pass while listings are answered, the webhook's
  own included, and fewer than five Gets and Updates fail.
- The webhook spells one kind "Daemonset", so DaemonSets are never handled by it and keep the skip
  marker after the deletion pass (`HandshakeConsumesMarker`). The initial injection of a later Lumigo
  lists only workloads without the label, so it never instruments them again
  (`MarkedIsNeverReinjected`).
- A Lumigo whose deletion is held up by a foreign finalizer becomes active again after its deletion
  pass, and vanishes without any removal pass when that finalizer is dropped
  (`HeldDeletionReactivates`, `ActiveVanishes`).
- Two Lumigos of a namespace with the same creation time can both become active (`TieElectsTwo`);
  with times that differ within each namespace there is never more than one (`SingleActiveOverRuns`).
- A reconcile in a namespace that is gone meanwhile stops its monitoring even if the Lumigo asks for it,
  since an upsert without a uid is a removal (`MonitoringFollows`).
- A write of the namespace file that fails after the file was opened leaves text that no later update
  can parse: monitoring stays as it is for good (`FileSurvivesFailures`).
- Records of watch events never carry a namespace attribute, because the namespace is read from the
  envelope around the object (`WatchObjectsToLogData`).
- A request with an empty namespace name wipes the namespace file (`NamelessRequestErases`); a
  zero-byte file cannot be parsed, so no update of it ever succeeds.
- Overlapping calls of the cache's `Add` emit the same object version twice (`RaceEmitsTwice`).
- A delete event that arrives after the last Lumigo is gone closes the stop channel again, which
  panics (`EventsRemoveExactly`).

## Model

| member | source | states |
|---|---|---|
| `Injection.PodSpecObject.InjectLumigoIntoPodSpec` | controller/src/mutation/mutate.go:361-550 | the in-place rewriting computes the value-level injection and leaves the other fields of the spec alone |
| `Injection.PodSpecObject.RemoveLumigoFromPodSpec` | controller/src/mutation/mutate.go:552-608 | the same for removal, nil lists included |
| `Injection.PatchContainers` | controller/src/mutation/mutate.go:433-547 | every container gets the mount and the seven variables |
| `Injection.StripContainers` | controller/src/mutation/mutate.go:582-605 | every container loses the mounts of the Lumigo volume and the seven variables; its environment is never nil afterwards |
| `Injection.WriteInjectedEnv` | controller/src/mutation/mutate.go:454-543 | the seven find-or-append blocks in order |
| `Sequences.IndexOfKey` | controller/src/mutation/mutate.go:376-381 | the index of the first match, or -1 |
| `Injection.IsContainerInstrumented` | controller/src/mutation/matchers.go:252-328 | true exactly if all Lumigo variables and mounts conform and each required one occurs |
| `PodSpecs.ParseBoolExactly` | controller/src/mutation/matchers.go:278-287 | which texts the check accepts for the logs switch |
| `Sequences.UpsertAllAbsorbs` | controller/src/mutation/mutate.go:454-543 | a chain of find-or-append writes absorbs an earlier chain over the same names, positions included |
| `InjectionLaws.InjectionAbsorbsInjection` | controller/src/mutation/mutate.go:361-550 | for all specs and any two mutators, injecting with both equals injecting with the second |
| `InjectionLaws.FixedPointsAreInstrumented` | controller/src/mutation/mutate.go:302-310 | injection changes nothing exactly on fully instrumented specs |
| `InjectionLaws.InjectionInstruments` | controller/src/mutation/mutate.go:297-316 | injection instruments every spec fully and is idempotent |
| `InjectionLaws.RemovalAbsorbsInjection` | controller/src/mutation/mutate.go:361-608 | removal after injection equals removal, exactly when injection overwrote nothing foreign |
| `InjectionLaws.RoundTrip` | controller/src/mutation/mutate.go:361-608 | removal after injection restores the spec exactly when it was free of Lumigo's names and paths |
| `InjectionLaws.RemovedIsNeverInstrumented` | controller/src/mutation/mutate.go:552-608 | no mutator finds a removed spec already instrumented |
| `InjectionLaws.RemovalReportsNothing` | controller/src/mutation/mutate.go:328-343 | exactly when removal reports that nothing changed |
| `InjectionLaws.RemovalIsIdempotent` | controller/src/mutation/mutate.go:552-608 | removing twice is removing once |
| `InjectionLaws.InjectionMeetsChecker` | controller/src/mutation/matchers.go:252-328 | an injected container passes the check exactly when the duplicates and stray mounts that injection leaves alone conform |
| `InjectionLaws.WellFormedContainersPass` | controller/src/mutation/matchers.go:252-328 | with unique names and paths, and the Lumigo volume mounted nowhere else, it always passes |
| `InjectionLaws.ContainerConfigured` | controller/src/mutation/mutate.go:459-542 | which variable carries which setting |
| `InjectionLaws.InjectorIsConfigured` | controller/src/mutation/mutate.go:362-431 | the injector init container in full: image, variable, mount, and a security context that runs as the pod's file-system group, or as 1234 without one; and its 200 megabyte volume |
| `InjectionLaws.MountIsConfigured` | controller/src/mutation/mutate.go:434-452 | every container gets the Lumigo volume read-only at `/opt/lumigo` |
| `InjectionLaws.RemovalTakesExactly` | controller/src/mutation/mutate.go:552-580 | which volumes and init containers removal takes out, by name and content, and that nothing else changes |
| `InjectionLaws.RemovalTakesFromContainers` | controller/src/mutation/mutate.go:582-605 | which mounts and which seven variables removal takes out of a container |
| `InjectionLaws.ContainerFrame` | controller/src/mutation/mutate.go:434-546 | foreign mounts and variables keep index and value; only injected variables are appended |
| `InjectionLaws.InjectionFrames` | controller/src/mutation/mutate.go:361-431 | foreign volumes and init containers keep index and value; the injected ones are recognised by the removal matchers |
| `Workloads.WorkloadObject.InjectLumigoInto` | controller/src/mutation/mutate.go:253-316 | injection into a resource: opt-out, owned ReplicaSets, labels and the mutation report |
| `Workloads.WorkloadObject.RemoveLumigoFrom` | controller/src/mutation/mutate.go:263-349 | the same for removal |
| `Workloads.DeploymentOwnerExactly` | controller/src/mutation/mutate.go:615-628 | an `apps/v1` Deployment among the owners counts exactly if every API version before it parses; one that does not parse is an error exactly if no such owner precedes it |
| `Workloads.OwnedReplicaSetsAreLeftAlone` | controller/src/mutation/mutate.go:253-272 | both mutators leave a ReplicaSet of a Deployment alone, and no other resource for that reason |
| `Workloads.CaseIsIgnored` | controller/src/mutation/mutate.go:351-359 | "true" and "false" in labels are recognised in any case, and nothing else is |
| `GroupVersions.ApiVersions` | controller/src/mutation/mutate.go:615-628 | the spellings of the API versions that matter, the core group's with and without a slash |
| `InjectorWebhook.AdmissionInstruments` | controller/src/webhooks/injector/injector_webhook.go:98-201 | an admitted workload is fully instrumented unless it opted out, is marked, or is left to its Deployment |
| `InjectorWebhook.WebhookActsExactly` | controller/src/webhooks/injector/injector_webhook.go:98-201 | for every workload and context: when the webhook denies, leaves alone, consumes the marker, respects an opt-out, or instruments, and for whose settings |
| `InjectorWebhook.SecondInjectionReportsNothing` | controller/src/mutation/mutate.go:297-316 | an immediate second injection in memory reports no mutation |
| `InjectorWebhook.LumigoSettingsReachContainers` | controller/src/mutation/mutate.go:127-165 | under an active Lumigo with injection on, its secret, its logging and tracing switches with their defaults, both endpoints and the injector image end up in the pod spec |
| `InjectorWebhook.LabelSettingsReachContainers` | controller/src/webhooks/injector/injector_webhook.go:132-145 | without a Lumigo, a workload that opts in gets the secret and switches of its labels, or the defaults, with both endpoints and the injector image |
| `InjectorWebhook.InjectionReport` | controller/src/mutation/mutate.go:297-326 | a mutation is reported exactly for specs that are not fully instrumented; then resource and template carry the label and nothing else differs |
| `InjectorWebhook.MarkerShieldsOnce` | controller/src/webhooks/injector/injector_webhook.go:175-185 | the skip marker holds off one admission and the next one injects |
| `InjectorWebhook.VersionLabelIsNoOptOut` | controller/src/mutation/mutate.go:128-137 | the version label starts with its prefix and is neither an opt-out nor the skip marker |
| `InjectorWebhook.VersionLabelText` | controller/src/mutation/mutate.go:128-137 | the text of the version label, cut so that it is a valid label value |
| `LabelProtocol.NextTruthful` | controller/src/controllers/lumigo_controller.go:526-722 | of all steps of users, webhook and controller, exactly a dishonest write makes a label lie |
| `LabelProtocol.LabelTruthOverRuns` | controller/src/webhooks/injector/injector_webhook.go:98-201 | in all interleavings, stale reads included, a version label means an instrumented pod spec in every state of a run exactly if every user write of the run is denied, truthful itself, or instrumented by the webhook |
| `LabelProtocol.OrdinaryWritesAreHonest` | controller/src/webhooks/injector/injector_webhook.go:98-201 | edits that a mutator acts on, unlabelled writes, re-applied instrumented manifests and writes that keep the spec meet that condition |
| `LabelProtocol.ForgedLabelLies` | controller/src/webhooks/injector/injector_webhook.go:98-201 | for every kind, a forged label breaks this at once exactly if the write is admitted and no mutator takes care of the workload; it always does in a namespace without a Lumigo |
| `LabelProtocol.RunKeepsConsistent` | controller/src/controllers/lumigo_resource_manager.go:91-113 | over all runs versions are never reused, everything is in stored form, and workers hold what they listed and fetched |
| `StoredForm.ReadBackIsReinjected` | controller/src/mutation/mutate.go:302-310 | no mutator takes a spec that was read back for instrumented |
| `StoredForm.StoredInjectionAbsorbs` | controller/src/mutation/mutate.go:361-550 | injecting, storing and injecting again stores what the second injection alone would, for any two mutators |
| `StoredForm.InjectedCarries` | controller/src/mutation/mutate.go:361-550 | what injection writes carries the instrumentation, stored or not |
| `StoredForm.RemovalFromReadBack` | controller/src/mutation/mutate.go:328-343 | removal from a removed spec that was read back reports a change exactly if a container had no variables of its own |
| `StoredForm.RemovalSettles` | controller/src/mutation/mutate.go:552-608 | but what is stored stays the same |
| `StoredForm.RemovedCarriesNothing` | controller/src/mutation/mutate.go:552-608 | no mutator's instrumentation is left in what removal stores |
| `RemovalRaces.AdmittedPanicsIffStrips` | controller/src/controllers/lumigo_controller.go:848-850 | what a write stores can make the removal pass panic exactly if there is something to remove and the write has no labels, as encoded, where the webhook does not act, or just the marker where it does |
| `RemovalRaces.RemovalStrips` | controller/src/controllers/lumigo_resource_manager.go:98-113 | an update of the removal pass itself does so exactly if a container is left without an environment, the auto-trace label was the only one and the webhook acts |
| `RemovalRaces.SafeOverRuns` | controller/src/controllers/lumigo_controller.go:848-850 | nothing the removal pass panics on is ever stored in a run exactly if no step of the run is a write of either kind |
| `RemovalRaces.NoPanicOverRuns` | controller/src/controllers/lumigo_resource_manager.go:98-110 | and then no step of the run panics |
| `RemovalRaces.PanicTakesAnotherVersion` | controller/src/controllers/lumigo_resource_manager.go:91-110 | a worker panics only on a version other than the one it listed |
| `RemovalRaces.StrippingPanics` | controller/src/controllers/lumigo_resource_manager.go:91-110 | after a user write to a listed workload, the worker's get and removal panic exactly if the write strips |
| `RemovalRaces.RetryPanics` | controller/src/controllers/lumigo_resource_manager.go:98-113 | after an update of its own whose response is lost, the worker's retry panics exactly in the case above |
| `RemovalRaces.PanicIsReachable` | controller/src/controllers/lumigo_controller.go:848-850 | for every pod spec that removal would change, a run from the empty cluster with a DaemonSet that panics |
| `RemovalRaces.LostResponsePanics` | controller/src/controllers/lumigo_resource_manager.go:98-113 | for every pod spec with a container without variables of its own, a run without any other writer that panics |
| `RemovalRaces.StaleReadSkipsRemoval` | controller/src/controllers/lumigo_resource_manager.go:98-113 | exactly when a stale read makes the worker find nothing to do, whatever is stored |
| `RemovalRaces.DaemonSetIsLeftMarked` | controller/src/controllers/lumigo_resource_manager.go:59-89 | the pass leaves a DaemonSet that it changed with the marker, and another removal would store the same |
| `RemovalRaces.MarkedIsNeverReinjected` | controller/src/controllers/lumigo_controller.go:534-580 | over all runs the content of such a DaemonSet stays exactly as it is, whatever later passes run, until a user writes it |
| `Passes.OnlyReplicaSetsFail` | controller/src/mutation/mutate.go:253-272 | the only listed workloads that a pass cannot handle are ReplicaSets with an unparsable owner |
| `DeletionPass.PassOutcome` | controller/src/controllers/lumigo_resource_manager.go:98-113 | the stored spec after the pass is the removed one in every admission context, and what becomes of the labels |
| `DeletionPass.HandshakeConsumesMarker` | controller/src/webhooks/injector/injector_webhook.go:168-201 | while the Lumigo is active the marker is consumed for every kind except DaemonSets |
| `DeletionPass.UnmarkedUpdateIsReinjected` | controller/src/webhooks/injector/injector_webhook.go:175-185 | without the marker the update would be stored with the instrumentation back in |
| `DeletionPass.RetryAfterLostResponse` | controller/src/controllers/lumigo_resource_manager.go:98-113 | exactly when a retry after a lost response finds nothing to do, panics, or stores the same workload once more |
| `InjectionPass.InjectionOutcome` | controller/src/controllers/lumigo_controller.go:553-575 | an unlabelled workload is stored with the version label and the instrumentation of the Lumigo that the webhook acts for, or else of the pass's own |
| `InjectionPass.InjectionSettlesWorkload` | controller/src/controllers/lumigo_controller.go:553-575 | a retry after a lost response stores the same workload and never panics |
| `ResourcePasses.ApiServer.Act` | controller/src/controllers/lumigo_resource_manager.go:98-113 | one attempt on a fetched workload: it gives up only if the workload cannot be handled, the webhook denies or the update fails, and panics exactly on a nil label map |
| `ResourcePasses.ApiServer.WithRetry` | controller/src/controllers/lumigo_controller.go:826-841 | all or nothing even if responses get lost; on a workload that can be handled it gives up only after five failed calls, and panics only after a lost response |
| `ResourcePasses.ApiServer.ProcessKind` | controller/src/controllers/lumigo_resource_manager.go:91-121 | one list-and-process loop, with the set of workloads it got through; in calm conditions it fails only on a workload that cannot be handled or on which a retry panicked |
| `ResourcePasses.ApiServer.ProcessKinds` | controller/src/controllers/lumigo_resource_manager.go:59-217 | the loops in order up to the first that fails, and why it failed |
| `ResourcePasses.ApiServer.RunPass` | controller/src/controllers/lumigo_resource_manager.go:52-231 | either pass: on success everything listed is done; on failure each workload is untouched or done; nothing else changes; in calm conditions, without lost responses or retries that panic, it succeeds exactly unless a ReplicaSet blocks it, and that stops it in any case before StatefulSets and CronJobs |
| `ResourcePasses.ApiServer.RemoveLumigoFromResources` | controller/src/controllers/lumigo_resource_manager.go:52-231 | on success every selected workload has exactly its removed spec, as stored; if all calls are answered it succeeds exactly unless a ReplicaSet blocks it |
| `ResourcePasses.ApiServer.InjectLumigoIntoResources` | controller/src/controllers/lumigo_controller.go:526-722 | on success every unlabelled workload is instrumented; in calm conditions it succeeds exactly unless a ReplicaSet blocks it, lost responses or not |
| `Conditions.LumigoStatus.UpdateLumigoConditions` | controller/src/controllers/conditions/conditions.go:92-111 | the in-place update computes the value-level one |
| `Conditions.ApplyEffect` | controller/src/controllers/conditions/conditions.go:92-121 | an update touches its own condition only, drops none, and adds one only as true |
| `Conditions.TransitionTimeHistory` | controller/src/controllers/conditions/conditions.go:92-121 | after any history the transition time is that of the update that began the current run of equal statuses |
| `Conditions.TransitionsPrecedeUpdates` | controller/src/controllers/conditions/conditions.go:104-111 | with a clock that does not run backwards, transition time is at most update time |
| `Reconciler.LumigoObject.Reconcile` | controller/src/controllers/lumigo_controller.go:146-353 | one reconcile: which finalizer and status it persists and which passes it runs; when it releases the finalizer of a Lumigo that owes a removal, every workload of the namespace that the pass is for has its removed spec; when it injects, in calm conditions every workload that pass is for is instrumented unless a ReplicaSet blocks it |
| `Reconciler.LumigoObject.ReconcileDeletion` | controller/src/controllers/lumigo_controller.go:194-233 | the deletion branch with its removal pass; in calm conditions, without lost responses or retries that panic, the finalizer stays exactly if a removal is owed and a ReplicaSet blocks it |
| `Reconciler.LumigoObject.ReconcileElection` | controller/src/controllers/lumigo_controller.go:235-273 | election, empty spec and credentials |
| `Reconciler.LumigoObject.ReconcileActivation` | controller/src/controllers/lumigo_controller.go:275-352 | initial injection with its pass, monitoring and activation |
| `Reconciler.ReconcilePersists` | controller/src/controllers/lumigo_controller.go:180-352 | a persisted status is never active and in error, loses no condition, and is active exactly when the reconcile went all the way |
| `Reconciler.SwitchesDecide` | controller/src/controllers/lumigo_controller.go:194-290 | exactly when a reconcile runs the removal pass and the initial injection, in terms of the switches of the spec; a switch that is not set counts as on |
| `Reconciler.PersistedConditions` | controller/src/controllers/lumigo_controller.go:227-341 | the status and message of each condition after deletion, activation, a lost election and an invalid token |
| `Reconciler.MonitoringFollows` | controller/src/controllers/lumigo_controller.go:221-310 | after a persisted reconcile the monitoring map has the namespace exactly if the Lumigo is ready, wants it and the namespace still exists, with its token and uid; it is left alone exactly by a Lumigo in error |
| `LumigoRuns.ElectedIsOldest` | controller/src/controllers/lumigo_controller.go:235-261 | the winner over a listing from any earlier moment is still the oldest |
| `LumigoRuns.SingleActiveOverRuns` | controller/src/controllers/lumigo_controller.go:235-261 | if creation times differ within each namespace, no reachable state has two active Lumigos in one, since an active one is the oldest |
| `LumigoRuns.FirstIffMinimum` | controller/src/controllers/internal/sorting/sorting_lumigo.go:17-19 | exactly the oldest can come first in the sort |
| `LumigoRuns.ElectionIsAmbiguousOnTie` | controller/src/controllers/lumigo_controller.go:251-261 | the election can go two ways exactly when the oldest creation time is shared |
| `LumigoRuns.TieElectsTwo` | controller/src/controllers/lumigo_controller.go:251-261 | a run with tied creation times that ends with two active Lumigos |
| `LumigoRuns.ActivationLatch` | controller/src/controllers/conditions/conditions.go:37-137 | over all runs one condition per type, never active and in error, and an Active condition only on objects that were active before |
| `LumigoRuns.InjectionRunsOnce` | controller/src/controllers/lumigo_controller.go:180-290 | once an activation is persisted the initial injection never runs again |
| `LumigoRuns.ActiveIsGuardedOverRuns` | controller/src/controllers/lumigo_controller.go:186-233 | over all runs an active Lumigo that is not being deleted holds the finalizer, and one without it is on its way out and held by a foreign finalizer |
| `LumigoRuns.DeletingBecomesActive` | controller/src/controllers/lumigo_controller.go:186-352 | exactly when a Lumigo on its way out becomes active in a reachable state, and that it takes a foreign finalizer |
| `LumigoRuns.ActiveVanishes` | controller/src/controllers/lumigo_controller.go:194-219 | the two ways an active Lumigo leaves: released after the removal pass that is due, or without any pass when the foreign finalizer is dropped |
| `LumigoRuns.HeldDeletionReactivates` | controller/src/controllers/lumigo_controller.go:186-233 | a run that goes through deletion, reactivation and disappearance while active |
| `NamespaceConfigs.NamespaceFile.Update` | controller/src/controllers/telemetryproxyconfigs/namespace_monitoring_configs.go:34-82 | it succeeds whenever the file can be read, parsed and written, leaves some sorting of the rewritten list, and reports a change exactly if the content changed; what each kind of failure leaves |
| `NamespaceConfigs.SortByName` | controller/src/controllers/telemetryproxyconfigs/namespace_monitoring_configs.go:59-62 | a sorted permutation |
| `NamespaceConfigs.BeforeIsLexicographic` | controller/src/controllers/telemetryproxyconfigs/namespace_monitoring_configs.go:59-62 | the order of names is the lexicographic one |
| `NamespaceConfigs.Rewrite` | controller/src/controllers/telemetryproxyconfigs/namespace_monitoring_configs.go:47-57 | the loop that keeps other namespaces and appends the request |
| `NamespaceConfigs.UpdateRefinesMap` | controller/src/controllers/telemetryproxyconfigs/namespace_monitoring_configs.go:34-82 | one update is an upsert or remove on the map that the file stands for |
| `NamespaceConfigs.FileRefinesMap` | controller/src/controllers/telemetryproxyconfigs/namespace_monitoring_configs.go:20-82 | so is any sequence of updates, and the list stays strictly sorted |
| `NamespaceConfigs.FileSurvivesFailures` | controller/src/controllers/telemetryproxyconfigs/namespace_monitoring_configs.go:34-82 | over any updates, failed ones included, the file stands for the map of the requests that landed, until a truncated write makes it malformed for good |
| `NamespaceConfigs.ContentIsDetermined` | controller/src/controllers/telemetryproxyconfigs/namespace_monitoring_configs.go:59-68 | the content is determined by the map |
| `NamespaceConfigs.UpdatesCommute` | controller/src/controllers/telemetryproxyconfigs/namespace_monitoring_configs.go:20-82 | updates of different namespaces commute down to the content |
| `NamespaceConfigs.RepeatedUpdateIsUnchanged` | controller/src/controllers/telemetryproxyconfigs/namespace_monitoring_configs.go:70-73 | repeating an update changes nothing |
| `NamespaceConfigs.NamelessRequestErases` | controller/src/controllers/telemetryproxyconfigs/namespace_monitoring_configs.go:49-53 | a request without a name drops all entries |
| `ObjectCache.KeysAreInjective` | telemetryproxy/src/processor/k8sdataenricherprocessor/internal/kube.go:356-359 | distinct objects and versions have distinct keys and the two kinds of key never meet |
| `ObjectCache.LruWithIndexer.Add` | telemetryproxy/src/processor/k8sdataenricherprocessor/internal/kube.go:86-108 | accepts exactly the versions whose key is not resident and inserts both keys |
| `ObjectCache.LruWithIndexer.Get` | telemetryproxy/src/processor/k8sdataenricherprocessor/internal/kube.go:119-121 | lookup that refreshes recency |
| `ObjectCache.LookupsAfterHistory` | telemetryproxy/src/processor/k8sdataenricherprocessor/internal/kube.go:78-125 | after any history: size within capacity, versioned keys hold exactly that version, generic keys the last accepted object |
| `ObjectCache.ResidentAfterAccept` | telemetryproxy/src/processor/k8sdataenricherprocessor/internal/kube.go:96-99 | right after an accepted addition both keys are resident, the generic one exactly if the capacity is at least two |
| `ObjectCache.EmittedTwiceOnlyAfterEviction` | telemetryproxy/src/processor/k8sdataenricherprocessor/internal/kube.go:86-108 | with serialised additions a version is emitted again only if an addition to a full cache evicted its key in between |
| `ObjectCache.AcceptedVersionAges` | telemetryproxy/src/processor/k8sdataenricherprocessor/internal/kube.go:96-99 | an accepted version moves down the recency order by at most two per operation, so it stays resident for half the capacity |
| `ObjectCache.GetAges` | telemetryproxy/src/processor/k8sdataenricherprocessor/internal/kube.go:119-121 | a lookup makes its key the most recent and ages others by at most one |
| `ObjectCache.NoEarlyReemission` | telemetryproxy/src/processor/k8sdataenricherprocessor/internal/kube.go:86-108 | a version is not emitted again before half the capacity in operations has gone by |
| `Emission.EmissionConservation` | telemetryproxy/src/processor/k8sdataenricherprocessor/internal/kube.go:101-107 | in every interleaving accepted objects are waiting, buffered or drained, each exactly once, and the buffer stays within 200 |
| `Emission.RaceEmitsTwice` | telemetryproxy/src/processor/k8sdataenricherprocessor/internal/kube.go:91-99 | two overlapping additions of the same version are both accepted |
| `Emission.AcceptedTwiceOverlapsOrEvicted` | telemetryproxy/src/processor/k8sdataenricherprocessor/internal/kube.go:86-108 | in every interleaving a version is accepted again only if the calls overlapped or its key was evicted in between |
| `Emission.Channel.DrainInto` | telemetryproxy/src/processor/k8sdataenricherprocessor/processor.go:371-409 | while senders refill the channel, draining takes what was in it and a beginning of what is offered, and emits the convertible objects in order |
| `Chains.ChainsEndIffAcyclic` | telemetryproxy/src/processor/k8sdataenricherprocessor/internal/kube.go:872-886 | over finitely many nodes all chains end exactly when there is no cycle |
| `OwnerWalk.WalkEndsIffAcyclic` | telemetryproxy/src/processor/k8sdataenricherprocessor/internal/kube.go:872-886 | the root-owner loop ends from every object exactly when the ownership graph is acyclic |
| `OwnerWalk.FirstRelevantIsFirst` | telemetryproxy/src/processor/k8sdataenricherprocessor/internal/kube.go:1030-1040 | the relevant owner reference that only irrelevant ones precede |
| `OwnerWalk.FirstRelevant` | telemetryproxy/src/processor/k8sdataenricherprocessor/internal/kube.go:1030-1040 | a relevant reference of the list, none exactly if none is relevant |
| `OwnerWalk.RelevantKinds` | telemetryproxy/src/processor/k8sdataenricherprocessor/internal/relevant_gvk.go:9-24 | exactly which API versions and kinds are relevant, and as what |
| `OwnerWalk.RefsFollowAncestors` | telemetryproxy/src/processor/k8sdataenricherprocessor/internal/kube.go:1002-1028 | every reference along the walk is of a relevant kind and in the namespace of the start |
| `OwnerWalk.RootIsUnique` | telemetryproxy/src/processor/k8sdataenricherprocessor/internal/kube.go:872-894 | there is one root owner, in the namespace of the event's object |
| `KubeClient.Client.Request` | telemetryproxy/src/processor/k8sdataenricherprocessor/internal/kube.go:1375-1392 | an existing object is found exactly unless all five attempts fail; absence is believed exactly if the last attempt does not fail |
| `KubeClient.Client.GetObject` | telemetryproxy/src/processor/k8sdataenricherprocessor/internal/kube.go:1079-1119 | the answer equals that of the API up to compaction, from any coherent cache content; an error takes a failed request, and a hit answers without any |
| `KubeClient.Client.GetRootOwnerReference` | telemetryproxy/src/processor/k8sdataenricherprocessor/internal/kube.go:872-894 | terminates on acyclic graphs, returns the root of the cache-free walk unless a request failed, and reports an unsupported kind exactly for an event object of one |
| `KubeClient.Client.ResolveRelevantOwner` | telemetryproxy/src/processor/k8sdataenricherprocessor/internal/kube.go:789-817 | the owner object is the one of the API up to compaction unless a request failed |
| `KubeClient.Client.AddOwnerAttributes` | telemetryproxy/src/processor/k8sdataenricherprocessor/processor.go:120-200 | the attributes added are those of a cache-free lookup unless a request failed, and a part of them even then |
| `KubeClient.HitIsSnapshotObject` | telemetryproxy/src/processor/k8sdataenricherprocessor/internal/kube.go:1080-1089 | a hit under the generic key is the compacted object of that name |
| `KubeClient.RegisterKeepsCoherence` | telemetryproxy/src/processor/k8sdataenricherprocessor/internal/kube.go:654-681 | registering a fetched object keeps a cache coherent, evictions included |
| `KubeClient.VersionsAreRemembered` | telemetryproxy/src/processor/k8sdataenricherprocessor/internal/kube.go:131-167 | with the capacities of the client's caches, a version is not emitted again within 5000 operations for pods and 500 for other kinds |
| `KubeClient.ObjectReadThroughCompaction` | telemetryproxy/src/processor/k8sdataenricherprocessor/internal/kube.go:346-354 | compaction keeps everything that owner resolution reads |
| `KubeClient.OwnerAttributesExactly` | telemetryproxy/src/processor/k8sdataenricherprocessor/processor.go:137-195 | the attributes of a pod by kind of owner, with the names and uids of the owner and its owner |
| `KubeClient.NameAttributeIsTop` | telemetryproxy/src/processor/k8sdataenricherprocessor/processor.go:137-195 | a pod of a Deployment's ReplicaSet or a CronJob's Job gets the name of the Deployment or CronJob |
| `KubeClient.RootIsTop` | telemetryproxy/src/processor/k8sdataenricherprocessor/internal/kube.go:872-894 | an event on that pod has that object as root owner exactly when nothing relevant owns it |
| `KubeClient.WalksAgree` | telemetryproxy/src/processor/k8sdataenricherprocessor/processor.go:120-195 | so the attribute and the root owner name the same object |
| `LogGrouping.UnstructuredListToLogData` | telemetryproxy/src/receiver/k8sobjectsreceiver/unstructured_to_logdata.go:48-81 | one group per namespace in order of first occurrence, each with that namespace's objects in input order, through shared record lists |
| `LogGrouping.GroupsAreLabelled` | telemetryproxy/src/receiver/k8sobjectsreceiver/unstructured_to_logdata.go:55-61 | a group carries its namespace as `k8s.namespace.name`, unless the objects have none |
| `LogGrouping.WatchObjectsToLogData` | telemetryproxy/src/receiver/k8sobjectsreceiver/unstructured_to_logdata.go:19-42 | one record with the event attributes and the envelope, in a group without a namespace |
| `LogGrouping.GroupingConserves` | telemetryproxy/src/receiver/k8sobjectsreceiver/unstructured_to_logdata.go:53-79 | the groups together hold every object exactly as often as the input |
| `DeleteHandler.Handler.RangeAndRemove` | controller/src/main.go:331-335 | the range loop over the shifting array removes the one match and nothing else |
| `DeleteHandler.Handler.OnDelete` | controller/src/main.go:322-340 | what is left is the list without the deleted one, the listed items are untouched, and when the channel is closed or panics |
| `DeleteHandler.EventsRemoveExactly` | controller/src/main.go:322-340 | over any events: exactly the deleted ones are gone, in order; closed exactly when nothing is left; a panic exactly when one more event follows |

## Left out

- Kubernetes clients, informers, event recording and logging; JSON encoding, except for what the stored form drops and fills in (that of the namespace file is taken as injective); file access (may fail).
- Error texts: errors carry no message except where a condition stores a fixed one; the token error's cause is not part of the stored message.
- `beInstrumentedWithLumigo.doMatch`, which returns as soon as the injector init container is decided.
- Token syntax, secret lookup and rebinding of dangling events: credentials are valid or not by an answer from outside.
- Reads of the controller's own listing of instrumented resources: it can only fail or succeed.
- Lookups with a resource version, the pod-by-UID cache, and pods found by network address.
- The defaulter webhook, quickstart, the watchdog, the heartbeat receiver, the watch and pull loops, and configuration files.
- `resource.Quantity` and other library values are compared by value; a re-read from the API server may represent them differently.
- `ResourcePasses.ApiServer.RunPass`: nobody else writes workloads while the pass runs and Gets return the current version; other writers and stale reads are the subject of `LabelProtocol` and `RemovalRaces`.
- Defaults that the API server derives from other fields, such as the pull policy from the image tag, and those of pod specs and volumes.
- Liveness: that requeued reconciles eventually run is not stated.
