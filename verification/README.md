# Verified model of the hypervisor lifecycle

The operator manages one hypervisor host through a set of controllers that share a
`Hypervisor` object, an `Eviction` object, the Kubernetes node, and the state of Nova and
Placement. This project models those controllers in Dafny and proves what they guarantee
together. It has three layers.

1. **The drain engine** (`Drain`, `DrainShape`, `DrainOrder`, `DrainBounds`, `Evictions`, `DrainEngine`).
   One pass over the queue of outstanding instances is a function of the queue and of Nova's answers. About
   it and about whole sequences of passes the project proves conservation, sticky failure, the exact
   queue after a pass, exactly when a pass fails or exceeds its limit, the bound on concurrent migrations and the exact length
   of an undisturbed drain. `DrainEngine` holds the
   loops, the in-place reordering and the copying removal, proved against that function.
2. **The protocol** (`Hypervisors`, `Protocol`, `DrainSafety`, `DrainHistory`, `Offboarding`,
   `Deletions`, `Onboarding`, `Membership`, `MaintenanceLaws`, `LifecycleLaws`, `Scenarios`,
   `Witnesses`). Each controller decides from one reading of the shared
   state. A reconcile is *not* atomic: reading, with its external calls, and committing are two
   steps, and any other step may come between them. The membership calls of the
   aggregates controller are steps of their own. Commits and requests may fail. Environment
   steps edit the spec, add instances, change labels, the HA condition or the node, and remove the
   taint. All theorems are about every run of this system from a fresh host. "Only after" is stated
   as the existence of an earlier reading of the run that took effect (its controller had no other
   update under way), together with what it established having held ever since. `MaintenanceController` and
   `LifecycleControllers` hold the controllers in their imperative form, proved to make exactly the
   decisions the protocol assumes. `MaintenanceLaws` and `LifecycleLaws` say what these decisions are
   in the terms of what a controller reads and of the answers it gets.
3. **The algorithms below them** (`Conditions`, `StatusPatch`, `Slices`, `Concurrency`,
   `Migrations`, `Aggregates`, `Traits`, `Placement`).

The central result is `DrainHistory.ReleasedAfterDrain`: when the disruption budget finally
releases a node, then earlier, in this order, a maintenance reconcile found the host empty with no
migration in flight towards it and a finished Eviction; the evicted node was marked with the
offboarding taint; no agent pods were left on it; the host was found free and offboarded; and what
each of these readings established held until the next. The finished Eviction, in turn, stood as
one reading of it had decided and one commit had left it. That reading found that Nova did not know
the host, or it found the queue empty, and then every instance of the preflight list had been
dropped on evidence by a pass of the same unbroken history.

`dafny verify dfyconfig.toml` checks the whole project.

## Where the code does not give what one might expect

- TraitsUpdated and AggregatesUpdated can be True without a handover, on a host whose onboarding
  was aborted (`Scenarios.AbortedReportsTraits`, `Scenarios.AbortedReportsAggregates`); on every
  other host they cannot (`Onboarding.NothingEarlyHolds`). `Onboarding.TraitsTrueExactly` and
  `Onboarding.AggregatesTrueExactly` say in which phases a reconcile makes them True.
- An instance whose lookup fails is not counted, so a failing lookup of a moving instance can let
  the drain exceed its limit (`DrainBounds.HiddenMoverBreaksLimit`). Exactly when it does is
  `DrainBounds.LimitExceededExactly`; `DrainBounds.PassBound` gives the bound that always holds.
- An instance that vanishes between lookup and trigger leaves the Eviction marked as failed while
  others are outstanding (`Evictions.LateVanishingCountsAsFailure`,
  `DrainShape.VanishedCountsAsFailure`). Exactly when a pass ends as failed is
  `DrainShape.FailedExactly`.
- A late status update of a deleted Eviction lands on its successor of the same name
  (`Scenarios.LateUpdateFinishesNewEviction`). `DrainHistory.UpdateLands`: that happens exactly if
  the object was deleted between reading and commit, and the successor takes over the whole status.
- AgentPodsEvicted=True survives the withdrawal of Evicting=False, be it by a detour through `ha`
  (`Scenarios.StalePodsAllowDeletion`) or because an instance shows up again
  (`Scenarios.ReturningInstanceAllowsDeletion`). A second pass through termination may then delete
  the compute service or record Offboarded without Evicting=False, exactly on hosts without a
  service identifier (`Deletions.UnevictedDeletionExactly`, `Deletions.UnevictedOffboardingExactly`).
  Such a node is released while Evicting is True and an instance is counted on the host
  (`Scenarios.ReleasedWhileEvicting`); `Deletions.UnevictedReleaseExactly` says exactly when.
- Termination does not stop an aggregates reconcile that is under way, so a terminating host can
  still join an aggregate (`Scenarios.LateCallJoins`). It does so only by a call of a reconcile that
  read the host before termination (`Membership.LateJoin`).
- A rejected addition does not stop the removals; `Aggregates.UncoveredExactly` says exactly when
  that leaves a host with neither its old nor its new aggregates.
- The onboarding phase can fall back when Nova reports an empty identifier
  (`Scenarios.EmptyIdentifierFallsBack`); `Onboarding.ForwardExactly` gives the exact condition.
- Evicting and IncomingMigrationsSettled are not carried over before they are set again, so their
  transition times move although their status stays, unlike that of HypervisorDisabled
  (`MaintenanceController.RunningDrainRenewsTime`). The time of Evicting stays exactly if it is
  False, the service update failed or the incoming migrations are not settled
  (`MaintenanceController.EvictingTimeExactly`); that of IncomingMigrationsSettled stays exactly if
  Evicting is False or the service update failed (`MaintenanceController.SettledTimeExactly`),
  leaving aside a reconcile at the very time of the old stamp.
- The comment on `deprioritize` speaks of a queue processed from the tail, with index 0 as its back.
  The scan starts at index 0, and the model follows the code: a deferred instance is the first one
  the next pass looks at (`DrainOrder.DeferredIsNext`, smallest case `DrainOrder.DeferredFromTail`).
  `DrainOrder.QueueExactly` gives the exact order.

## Model

| member | source | states |
|---|---|---|
| `Drain.WithoutCounts` | internal/controller/eviction/controller.go:63-73 | removal takes away exactly one occurrence and nothing else |
| `Drain.ToFrontCounts` | internal/controller/eviction/controller.go:75-94 | deferring an instance only permutes the queue |
| `Drain.PassConserves` | internal/controller/eviction/controller.go:295-434 | for every queue, snapshot and limit the queue after a pass is the old one minus instances with departure evidence, read off Nova's server records and counted with multiplicity |
| `Drain.FullScanRemovesDeparted` | internal/controller/eviction/controller.go:315-408 | a scan that is not cut short leaves exactly the instances outstanding that nothing shows to have left |
| `Drain.PassKeepsFailure` | internal/controller/eviction/controller.go:463-482 | a recorded failure survives any pass that does not empty the queue |
| `DrainShape.StaysOutstanding` | internal/controller/eviction/controller.go:322-401 | an instance stays outstanding if its lookup fails, it is in error or being moved, it is on the host and not found gone by a trigger, or it waits elsewhere for a confirmation |
| `DrainShape.StartedAreMovable` | internal/controller/eviction/controller.go:360-426 | only instances on the host that are neither moving, in error nor being deleted are migrated, live exactly if active or running |
| `DrainShape.SucceededExactly` | internal/controller/eviction/controller.go:463-482 | without any failure a pass records success exactly if it saw that an instance had left, else the record stays |
| `DrainShape.UnderwayExactly` | internal/controller/eviction/controller.go:335-364 | the records that count as being moved: two states, or a task state that contains one of two words |
| `DrainShape.PassTriggers` | internal/controller/eviction/controller.go:315-434 | a pass starts exactly the healthy inspected instances whose trigger is accepted, in queue order, until the slots are taken |
| `DrainShape.StartedExactly` | internal/controller/eviction/controller.go:300-434 | how many it starts: the lesser of the free slots and the instances that can be moved |
| `DrainShape.FailedExactly` | internal/controller/eviction/controller.go:315-434 | a pass ends Failed exactly if something is still outstanding and there was a failure before, an inspected instance is broken or being deleted, or a trigger is not accepted; if it empties the queue it ends Succeeded |
| `DrainShape.VanishedCountsAsFailure` | internal/controller/eviction/controller.go:418-433 | an instance whose trigger answers "not found" is dropped, and the pass ends Failed exactly if something else is outstanding |
| `DrainOrder.DeferredIsNext` | internal/controller/eviction/controller.go:75-94 | for every queue: if a pass defers an instance, the queue afterwards begins with a deferred one, and any later pass looks at it first |
| `DrainOrder.QueueExactly` | internal/controller/eviction/controller.go:315-434 | the exact queue after a pass over a duplicate-free queue: deferred instances reversed in front, inspected ones that stay, those not reached, without trials that were gone |
| `DrainOrder.DeferredFromTail` | internal/controller/eviction/controller.go:75-94 | a broken instance at the tail of a queue of two ends up at index 0 |
| `DrainBounds.PassBound` | internal/controller/eviction/controller.go:300-434 | one pass, its status update landing or not, never raises the number of moving instances above the larger of the number before and the limit plus the movers whose lookup fails |
| `DrainBounds.RunBound` | internal/controller/eviction/controller.go:300-434 | over whole runs with visible movers and no foreign migrations, lost status updates included, the number never exceeds the larger of the initial number and the limit |
| `DrainBounds.ConfiguredRunBound` | internal/global/global.go:57-73 | the same with limits resolved from the configuration, whatever traits the host has from round to round; the limit of a trait carried throughout bounds the run too, clamped to 1 |
| `DrainBounds.HiddenMoverBreaksLimit` | internal/controller/eviction/controller.go:322-330 | a moving instance whose lookup fails lets the pass start a second migration under a limit of one |
| `DrainBounds.LimitExceededExactly` | internal/controller/eviction/controller.go:300-434 | the exact condition for exceeding both the limit and the earlier number: a slot seems free, an instance can fill it, and seen and hidden movers with the started ones are more than the limit |
| `DrainBounds.SmoothDrain` | internal/controller/eviction/controller.go:300-434 | closed form of an undisturbed drain: what is triggered, in which order, and what is still queued after k passes |
| `DrainBounds.DrainLength` | internal/controller/eviction/controller.go:300-434 | n instances with limit L are gone after exactly ceil(n/L)+1 passes, each triggered exactly once |
| `Evictions.FinishedIsFinal` | internal/controller/eviction/controller.go:150-157 | a finished Eviction never changes again |
| `Evictions.QueueOnlyShrinks` | internal/controller/eviction/controller.go:168-190 | after the preflight the queue never gains an instance |
| `Evictions.FailureIsSticky` | internal/controller/eviction/controller.go:463-482 | once Failed, MigratingInstance stays Failed in every later state with outstanding instances |
| `Evictions.LateVanishingCountsAsFailure` | internal/controller/eviction/controller.go:418-433 | the smallest queue on which a trigger answered with "not found" leaves a failure on record |
| `Evictions.SuccessIsWitnessed` | internal/controller/eviction/controller.go:168-190 | when success is recorded, the preflight had passed on a host that was disabled or not registered, and every instance of its snapshot has been seen to leave |
| `Evictions.EnabledHostBlocks` | internal/controller/eviction/controller.go:212-236 | while a registered host is not recorded as disabled no preflight passes; the Eviction is marked as blocked and otherwise stays |
| `Evictions.PreflightExactly` | internal/controller/eviction/controller.go:237-280 | otherwise Nova's answer decides: a list becomes the queue, an unknown host ends the Eviction, an error changes nothing |
| `DrainEngine.RemoveInstance` | internal/controller/eviction/controller.go:66-73 | removes the first occurrence into a fresh copy and leaves the argument alone |
| `DrainEngine.Deprioritize` | internal/controller/eviction/controller.go:79-94 | in place, moves the first occurrence to index 0 and keeps the order of the rest |
| `DrainEngine.EvictionObject.SetMigrationSucceeded` | internal/controller/eviction/controller.go:468-482 | records success unless that would hide a failure while instances remain |
| `DrainEngine.EvictionObject.RemoveGone` | internal/controller/eviction/controller.go:286-293 | handles exactly the "not found" replies |
| `DrainEngine.EvictionObject.Inspect` | internal/controller/eviction/controller.go:315-408 | one instance is classified and acted on as the scan specification says |
| `DrainEngine.EvictionObject.Trigger` | internal/controller/eviction/controller.go:411-434 | a refused trigger records the failure before a "not found" is handled |
| `DrainEngine.EvictionObject.EvictNext` | internal/controller/eviction/controller.go:300-461 | the two loops over a snapshot compute the specified pass, including started migrations and retry interval |
| `DrainEngine.EvictionObject.HandlePreflight` | internal/controller/eviction/controller.go:212-280 | outcome of the preflight in all cases of registration, disabling and Nova's reply |
| `DrainEngine.EvictionObject.ReconcileOnce` | internal/controller/eviction/controller.go:114-190 | one reconcile makes the specified step and says whether a status update is sent |
| `Concurrency.ResolveConcurrency` | internal/global/global.go:62-73 | the larger of 1 and the lowest of the default and the matching trait limits |
| `Concurrency.LimitIgnoresOrder` | internal/global/global.go:57-73 | the limit depends only on the set of traits and is the lowest of the default and the matching limits, none counting for less than 1 |
| `Slices.Difference` | internal/utils/slices.go:22-32 | the elements of the second list that are not in the first, in order |
| `Slices.SlicesEqualUnordered` | internal/controller/aggregates_controller.go:196-218 | decides equality of the two lists as multisets |
| `Conditions.UpsertIsMapUpdate` | internal/utils/conditions.go:57-102 | setting a condition changes its own type only and merges with the entry present |
| `Conditions.MergedFields` | internal/utils/conditions.go:57-102 | an update records all that it says; the time stays while the status does, else it is the one it brings or the present one |
| `Conditions.RunRefinesMap` | internal/utils/conditions.go:47-102 | over any sequence of updates there is one entry per type and each type evolves on its own |
| `Conditions.TimeMovesWithStatus` | internal/utils/conditions.go:47-102 | however often a type is updated its transition time stays while its status stays |
| `Conditions.TimeOfLastChange` | internal/utils/conditions.go:47-102 | over any sequence of updates the time is the stamp of the last one that created the entry or changed its status |
| `Conditions.LookupApplied` | internal/utils/conditions.go:25-45 | a server-side apply replaces the owned types by the payload, prunes what it omits, and leaves the other types alone |
| `Conditions.RetainingKeepsTime` | internal/controller/hypervisor_maintenance_controller.go:102-111 | a carried-over condition keeps its time through an update with equal status, one that is not carried over is stamped anew |
| `Conditions.StatusConfig.SetCondition` | internal/utils/conditions.go:57-102 | the search and in-place update is that update, and nothing else changes |
| `Conditions.StatusConfig.Retain` | internal/controller/hypervisor_maintenance_controller.go:105-111 | carries over the stored entry of the type, if there is one |
| `StatusPatch.PatchRoundTrip` | internal/utils/status_patch.go:52-53 | a merge patch applied to the document it was computed from gives the intended document |
| `StatusPatch.BlindPatch` | internal/utils/status_patch.go:52-53 | applied to a later document it keeps the other writer's value exactly if this writer left the field alone or both agree |
| `StatusPatch.ApiServer.PatchWithRetry` | internal/utils/status_patch.go:41-55 | verdict and log for every course of attempts: at most one commit of this writer, last, its update of the document directly before; conflict only after interference in all ten attempts |
| `StatusPatch.CourseExactly` | internal/utils/status_patch.go:41-55 | the first attempt without interference or with a failing request decides, and it is patched exactly if no request fails |
| `StatusPatch.CommitsAreAtomic` | internal/utils/status_patch.go:34-55 | in every interleaving of any number of patching and applying writers each commit is its edit of the document directly before |
| `StatusPatch.LockKeepsAll` | internal/utils/status_patch.go:34-55 | in every such interleaving the condition list is what the committed edits make of it in turn, and each type has what the edits of this type give it |
| `StatusPatch.UntouchedStays` | internal/utils/conditions.go:29-35 | a condition stays as a commit left it while no later edit is about its type |
| `StatusPatch.BlindPatchLosesCondition` | internal/utils/status_patch.go:41-55 | without the lock the second patch would erase the first writer's condition |
| `Migrations.ListActiveIncoming` | internal/openstack/migrations.go:79-99 | keeps exactly the migrations towards the host that are not terminal |
| `Migrations.SettleIncoming` | internal/openstack/migrations.go:125-153 | errs exactly when the listing fails or an abort is refused; no abort is ever sent for anything but an abortable incoming live migration |
| `Migrations.SettlePartitions` | internal/openstack/migrations.go:125-153 | success splits the incoming migrations into aborted and waiting, with multiplicity, and is settled exactly when there are none |
| `Aggregates.PlannedShape` | internal/openstack/aggregates.go:79-80 | additions are of desired aggregates the host is not in, removals of undesired ones it is in |
| `Aggregates.SuccessIsExact` | internal/openstack/aggregates.go:32-48 | success leaves the host in exactly the desired aggregates |
| `Aggregates.NeverUncovered` | internal/openstack/aggregates.go:93-121 | while no call is rejected the host always has all old or all desired memberships, also between calls |
| `Aggregates.UncoveredExactly` | internal/openstack/aggregates.go:93-121 | after any number of calls that fails exactly when some addition has not taken effect and some removal has |
| `Aggregates.ClearingOnlyRemoves` | internal/openstack/aggregates.go:47-48 | with an empty desired list only removals are sent and memberships only shrink |
| `Aggregates.NovaClient.ApplyAggregates` | internal/openstack/aggregates.go:48-138 | the loops send exactly the planned calls (none if a desired aggregate is missing), reach the specified memberships, and return the desired aggregates in order |
| `Traits.ComputeTarget` | internal/controller/traits_controller.go:107-137 | the loops compute the specified target and decide about the update |
| `Traits.TargetIsExact` | internal/controller/traits_controller.go:107-126 | the target holds exactly the non-custom traits in Placement and the traits of the spec, sorted |
| `Traits.TargetIsFixed` | internal/controller/traits_controller.go:107-137 | running again on the result sends no update, for any spec |
| `Traits.UpdateExactly` | internal/controller/traits_controller.go:128-137 | an update is sent exactly when a custom trait in Placement is not in the spec or a trait of the spec is missing |
| `Placement.PlacementClient.CleanupResourceProvider` | internal/openstack/placement.go:126-166 | in every order of the consumers the verdict is the same, the provider goes only if no consumer holds anything and all are cleared, and only such consumers are cleared |
| `Placement.CleanExactly` | internal/openstack/placement.go:131-164 | the cleanup goes through exactly if all consumers are listed, hold nothing and can be cleared, and the provider can be deleted |
| `MaintenanceController.ReconcileComputeService` | internal/controller/hypervisor_maintenance_controller.go:113-185 | the HypervisorDisabled condition in all modes and failures, with its transition time kept while its status stays |
| `MaintenanceController.MaintenanceReconciler.SettleIncomingMigrations` | internal/controller/hypervisor_maintenance_controller.go:315-372 | the condition recorded for each way settling can end, stamped with the current time |
| `MaintenanceController.MaintenanceReconciler.EnsureEviction` | internal/controller/hypervisor_maintenance_controller.go:374-416 | an existing Eviction is kept, a missing one created; finished in either way counts as False |
| `MaintenanceController.MaintenanceReconciler.FollowEviction` | internal/controller/hypervisor_maintenance_controller.go:270-310 | from a settled host on, payload and Eviction as decided by the specification; the Evicting entry is stamped with the current time |
| `MaintenanceController.MaintenanceReconciler.ReconcileEviction` | internal/controller/hypervisor_maintenance_controller.go:187-313 | the drain part of the payload, entry by entry with its times, and the fate of the Eviction in all modes |
| `MaintenanceController.MaintenanceReconciler.Reconcile` | internal/controller/hypervisor_maintenance_controller.go:63-100 | the payload carries exactly the decided update and conditions of no other type; each entry is carried over or stamped anew as specified |
| `MaintenanceController.EvictingTimeExactly` | internal/controller/hypervisor_maintenance_controller.go:76-99 | while the status of Evicting stays, its time stays exactly if it is False, the service update failed or migrations are not settled |
| `MaintenanceController.SettledTimeExactly` | internal/controller/hypervisor_maintenance_controller.go:248-261 | while the status of IncomingMigrationsSettled stays, its time stays exactly if Evicting is False or the service update failed |
| `MaintenanceController.RunningDrainRenewsTime` | internal/controller/hypervisor_maintenance_controller.go:270-310 | an error-free reconcile of a running drain keeps both conditions and renews both times |
| `MaintenanceController.ApplyIsUpdate` | internal/controller/hypervisor_maintenance_controller.go:63-100 | applying that payload to the stored list has the effect of the protocol's update: own conditions replaced or pruned, others kept |
| `MaintenanceLaws.FailedServiceStops` | internal/controller/hypervisor_maintenance_controller.go:76-87 | a refused update of the compute service is recorded as unknown; the Eviction, Evicted and the other conditions stay |
| `MaintenanceLaws.DisabledExactly` | internal/controller/hypervisor_maintenance_controller.go:113-185 | HypervisorDisabled is recorded as the mode wants it exactly if it was on record or Nova accepted the update |
| `MaintenanceLaws.HaKeepsEviction` | internal/controller/hypervisor_maintenance_controller.go:191-226 | in `ha` the Eviction and Evicted stay and the drain conditions are pruned |
| `MaintenanceLaws.CalledOff` | internal/controller/hypervisor_maintenance_controller.go:196-210 | when maintenance is called off nothing of the drain remains, unless the Eviction cannot be deleted |
| `MaintenanceLaws.SettleExactly` | internal/controller/hypervisor_maintenance_controller.go:315-372 | settled exactly if Nova lists no migration in flight to the host, unknown if the listing or an abort fails, else waiting or aborting |
| `MaintenanceLaws.EvictedStays` | internal/controller/hypervisor_maintenance_controller.go:232-240 | an evicted host without instances stays as it is |
| `MaintenanceLaws.EvictedRestarts` | internal/controller/hypervisor_maintenance_controller.go:215-231 | instances on an evicted host delete the Eviction and restart the drain |
| `MaintenanceLaws.UnsettledWaits` | internal/controller/hypervisor_maintenance_controller.go:243-261 | unless the host is quiet it does not count as evicted and no Eviction is created |
| `MaintenanceLaws.QuietCompletes` | internal/controller/hypervisor_maintenance_controller.go:263-268 | on a quiet host a completed drain is kept and recorded as settled |
| `MaintenanceLaws.QuietFollows` | internal/controller/hypervisor_maintenance_controller.go:270-310 | on a quiet host an Eviction is ensured and mirrored, in all outcomes of the requests |
| `MaintenanceLaws.EvictedExactly` | internal/controller/hypervisor_maintenance_controller.go:191-313 | an error-free draining reconcile ends with the host evicted exactly if no instance is left and it was evicted before or is quiet with a finished Eviction |
| `LifecycleControllers.AbortOnboarding` | internal/controller/onboarding_controller.go:176-213 | nothing for a host that never started, succeeded or is aborted for the same reason; otherwise Aborted, still True if the cleanup fails |
| `LifecycleControllers.InitialOnboarding` | internal/controller/onboarding_controller.go:215-250 | Testing exactly when the zone and the test aggregate are applied and the service could be enabled |
| `LifecycleControllers.SmokeTest` | internal/controller/onboarding_controller.go:252-335 | the update for every outcome of the smoke test |
| `LifecycleControllers.CompleteOnboarding` | internal/controller/onboarding_controller.go:337-382 | handover first, success only with aggregates, traits and, if asked for, high availability |
| `LifecycleControllers.ReconcileOnboarding` | internal/controller/onboarding_controller.go:90-174 | the payload of every phase, always seeded with identifiers and stored condition |
| `LifecycleLaws.AbortsExactly` | internal/controller/onboarding_controller.go:176-213 | when onboarding is aborted, with which message, and what a failing cleanup leaves |
| `LifecycleLaws.LooksUpExactly` | internal/controller/onboarding_controller.go:128-143 | missing identifiers are recorded as Nova gives them, and nothing is written without them |
| `LifecycleLaws.PhaseMachine` | internal/controller/onboarding_controller.go:145-382 | which phase follows which, and on which conditions, for every registered host in a normal lifecycle |
| `LifecycleLaws.WritesExactly` | internal/controller/onboarding_controller.go:145-382 | identifiers are kept, and an update is written exactly when the phase moves or a failed test is put on record |
| `LifecycleControllers.ReconcileAggregates` | internal/controller/aggregates_controller.go:53-118 | calls, memberships and status update agree with the decision of the specification |
| `LifecycleLaws.DesiredByPhase` | internal/controller/aggregates_controller.go:124-194 | which aggregates and condition are wanted in each phase |
| `LifecycleLaws.DesiredWhileTerminating` | internal/controller/aggregates_controller.go:127-150 | none once evicted, the present ones until then |
| `LifecycleLaws.AggregatesFailure` | internal/controller/aggregates_controller.go:72-97 | a failing listing or call is recorded and leaves the recorded aggregates alone |
| `Onboarding.RecordedAggregates` | internal/controller/aggregates_controller.go:65-118 | aggregates that are recorded are exactly those the calls leave the host in |
| `Onboarding.TrueMeansApplied` | internal/controller/aggregates_controller.go:65-118 | a True condition means the aggregates of the spec, on record or just reached |
| `LifecycleControllers.ReconcileTraits` | internal/controller/traits_controller.go:56-141 | status update as specified, and the target is sent to Placement exactly when due |
| `LifecycleControllers.SendsExactly` | internal/controller/traits_controller.go:89-132 | when an update is sent to Placement |
| `LifecycleLaws.TraitsOutcome` | internal/controller/traits_controller.go:99-141 | a failing listing or update is recorded and leaves the recorded traits alone, otherwise the target is recorded |
| `LifecycleLaws.TraitsConverge` | internal/controller/traits_controller.go:99-141 | an error-free reconcile out of sync records exactly the standard traits of Placement and those of the spec |
| `LifecycleControllers.OffboardingReconciler.Reconcile` | internal/controller/offboarding_controller.go:57-158 | the gate sequence; Placement is touched only after a deletion was sent, the provider goes only if clean |
| `LifecycleLaws.OffboardingReports` | internal/controller/offboarding_controller.go:68-157 | when the offboarding controller writes, and that the first reconcile only announces it |
| `LifecycleControllers.PodToleratesTaint` | internal/controller/hypervisor_controller.go:372-386 | only tolerations without a time limit count |
| `LifecycleControllers.ComputeAgentPods` | internal/controller/hypervisor_controller.go:314-370 | no verdict if a listing fails, else True exactly when no page of any namespace holds a blocking pod |
| `LifecycleControllers.BlocksExactly` | internal/controller/hypervisor_controller.go:337-386 | what makes a pod block |
| `LifecycleLaws.PodsExactly` | internal/controller/hypervisor_controller.go:147-158 | AgentPodsEvicted is worked out only on a tainted, evicted, terminating host, and is True exactly without a blocking pod |
| `LifecycleControllers.NodeReconciler.EnsureOffboardingTaint` | internal/controller/gardener_node_lifecycle_controller.go:133-155 | adds the taint exactly when it is missing and keeps all others |
| `LifecycleControllers.NodeReconciler.Reconcile` | internal/controller/gardener_node_lifecycle_controller.go:66-131 | taint before budget, and the budget as decided by the specification |
| `LifecycleLaws.NodeExactly` | internal/controller/gardener_node_lifecycle_controller.go:66-131 | when the taint, a budget of 1, a budget of 0, or nothing is written |
| `LifecycleLaws.BudgetIsOneOrZero` | internal/controller/gardener_node_lifecycle_controller.go:90-128 | in every run the budget is unset, 1 or 0 |
| `DrainSafety.EvictedImpliesSettled` | internal/controller/hypervisor_maintenance_controller.go:187-313 | in every state of every run Evicting=False comes with Evicted and settled migrations |
| `DrainSafety.CompletedBranchIsDead` | internal/controller/hypervisor_maintenance_controller.go:263-268 | a reconcile that gets as far as settling never finds Evicting=Succeeded on record |
| `DrainSafety.EvictedRisesCleared` | internal/controller/hypervisor_maintenance_controller.go:270-310 | Evicted rises only by committing the update of a reconcile that found no incoming migration, a finished Eviction and no instances, with a registered service on record as disabled or its update accepted; that very update was under way from its reading on |
| `DrainSafety.InstancesWithdrawEvicted` | internal/controller/hypervisor_maintenance_controller.go:212-310 | in every reachable state an error-free draining reconcile with instances left ends with Evicted false and Evicting not False |
| `Offboarding.OffboardedAfterTeardown` | internal/controller/offboarding_controller.go:68-157 | service deletion and Offboarded come only after effective readings that clear the host, mark the evicted node and find no agent pods, in this order, each holding until the next, with or without service identifier |
| `Offboarding.OffboardedIsFinal` | internal/controller/offboarding_controller.go:79-81 | Offboarded is never withdrawn |
| `Offboarding.ReleaseIsFinal` | internal/controller/gardener_node_lifecycle_controller.go:90-128 | a released node stays released in every run |
| `Deletions.WithdrawnExactly` | internal/controller/hypervisor_maintenance_controller.go:191-231 | in a consistent state Evicting=False is withdrawn exactly in `ha`, without maintenance, or with instances on the host |
| `Deletions.DeletesExactly` | internal/controller/offboarding_controller.go:68-142 | a deletion is sent exactly if all gates are passed and the host is evicted or has no service identifier |
| `Deletions.DeletionIsFact` | internal/controller/offboarding_controller.go:140-142 | a deletion that is sent counts from then on, whatever becomes of the status update |
| `Deletions.UnevictedDeletionExactly` | internal/controller/offboarding_controller.go:89-142 | in every run a deletion without Evicting=False happens exactly on hosts without service identifier; there AgentPodsEvicted goes back to an evicted state that was withdrawn since, and onboarding never began |
| `Deletions.UnevictedOffboardingExactly` | internal/controller/offboarding_controller.go:68-157 | the same for recording Offboarded, also on hosts Nova does not know |
| `Deletions.UnevictedReleaseExactly` | internal/controller/gardener_node_lifecycle_controller.go:90-128 | without Evicting=False a node is released exactly once Offboarded is on record (and HA is off where needed); the reading behind Offboarded saw Evicting=False or no service identifier |
| `DrainHistory.UpdateLands` | internal/controller/eviction/controller.go:192-210 | an update lands on the object it was worked out from unless that was deleted meanwhile, else on a blank successor; either way the object takes it over whole |
| `DrainHistory.StandsOrigin` | internal/controller/eviction/controller.go:114-210 | every Eviction status but the blank one is the work of one effective reading and one commit, and has stood since |
| `DrainHistory.EvolvesUntilDeleted` | internal/controller/eviction/controller.go:114-210 | in the whole protocol, until it is deleted, a finished Eviction stays as it is, the queue only shrinks after the preflight and a failure sticks while instances remain |
| `DrainHistory.ListAccounted` | internal/controller/eviction/controller.go:168-280 | in the whole protocol, with lost and late updates and Evictions deleted meanwhile, every instance of the preflight list a status goes back to (taken on a host disabled or not registered) is still queued or was dropped on evidence by a pass since, without a break |
| `DrainHistory.FinishedIsEmptied` | internal/controller/eviction/controller.go:168-280 | every finished Eviction was finished by one committed reading, which found the host unknown to Nova or the queue empty after every listed instance had been dropped on evidence |
| `DrainHistory.ReleasedAfterDrain` | internal/controller/gardener_node_lifecycle_controller.go:90-128 | the budget reaches 0 only after Offboarded (and HA off on an onboarded node going away), the teardown in order before it, and the completed drain behind the Eviction that cleared the host |
| `Membership.NoCallsBeforeEvicted` | internal/controller/aggregates_controller.go:139-150 | while terminating and not evicted no membership call is sent |
| `Membership.OnlyRemovalsAfterEvicted` | internal/controller/aggregates_controller.go:127-138 | afterwards only removals are sent |
| `Membership.TerminationOnlyLeaves` | internal/controller/aggregates_controller.go:124-150 | over any stretch of termination the host joins only aggregates that a call outstanding at its beginning adds, and leaves none before Evicting=False that no such call removes; with no reconcile under way it joins none and leaves none before Evicting=False |
| `Membership.JoinsExactly` | internal/openstack/aggregates.go:93-106 | a step makes the host join an aggregate exactly if it sends an outstanding addition that takes effect |
| `Membership.LateJoin` | internal/controller/aggregates_controller.go:53-118 | a terminating host joins an aggregate only by a call of a reconcile that read it before termination and has been under way since |
| `Membership.LeftoversExactly` | internal/openstack/aggregates.go:93-121 | once the outstanding calls are sent the host is in an aggregate exactly if it was or one of them adds it, and has left it exactly if one of them removes it |
| `Membership.SentAsPlanned` | internal/openstack/aggregates.go:93-121 | sent one by one with nothing in between, the calls lead to the planned memberships |
| `Onboarding.ForwardExactly` | internal/controller/onboarding_controller.go:128-174 | one decision moves the phase forward exactly unless missing identifiers are looked up again on a host past the first phase |
| `Onboarding.PhasesMoveForward` | internal/controller/onboarding_controller.go:90-213 | over every run phases only move forward, Succeeded and Aborted are final and exclusive, identifiers are never lost |
| `Onboarding.NothingEarlyHolds` | internal/controller/aggregates_controller.go:152-185 | TraitsUpdated and AggregatesUpdated are not True, nor about to be, before handover unless onboarding was aborted |
| `Onboarding.AggregatesTrueExactly` | internal/controller/aggregates_controller.go:124-193 | in every reachable state an error-free reconcile ends with AggregatesUpdated=True exactly on succeeded and aborted hosts and in handover with the traits applied |
| `Onboarding.TraitsTrueExactly` | internal/controller/traits_controller.go:77-137 | an error-free reconcile sets TraitsUpdated=True exactly with the lifecycle enabled, in handover, after success, or after an abort with completed cleanup |
| `Onboarding.SucceededInOrder` | internal/controller/onboarding_controller.go:337-382 | Succeeded only after effective readings in order: exactly zone and test aggregate applied and service enabled, smoke test passed or not required and cleaned up, handover, traits on record or accepted by Placement, host in exactly the aggregates of the spec, and HaEnabled if asked for; each held until the next |
| `Scenarios.AbortedReportsAggregates` | internal/controller/aggregates_controller.go:187-193 | a run of an aborted host with AggregatesUpdated=True and no handover |
| `Scenarios.AbortedReportsTraits` | internal/controller/traits_controller.go:77-98 | a run of an aborted host with TraitsUpdated=True and no handover |
| `Scenarios.LateUpdateFinishesNewEviction` | internal/controller/eviction/controller.go:192-210 | a reachable state in which a late update finishes an Eviction nobody has looked at |
| `Scenarios.StalePodsAllowDeletion` | internal/controller/offboarding_controller.go:89-142 | a reachable state without Evicting condition in which the service is deleted |
| `Scenarios.ReturningInstanceAllowsDeletion` | internal/controller/offboarding_controller.go:89-142 | a reachable state with Evicting=True in which the service is deleted |
| `Scenarios.ReleasedWhileEvicting` | internal/controller/gardener_node_lifecycle_controller.go:90-128 | a reachable state with budget 0, Evicting=True, Evicted false and an instance on the host |
| `Scenarios.LateCallJoins` | internal/controller/aggregates_controller.go:53-118 | a reachable terminating host that joins an aggregate |
| `Scenarios.EmptyIdentifierFallsBack` | internal/controller/onboarding_controller.go:128-156 | a reachable aborted host that falls back to the first phase |
| `Witnesses.OnboardingSucceeds` | internal/controller/onboarding_controller.go:90-174 | a run in which onboarding succeeds |
| `Witnesses.DrainSeesDeparture` | internal/controller/eviction/controller.go:168-190 | a run in which an Eviction is finished after the instance of its preflight list was seen to leave |

## Left out

- HTTP, JSON, paging of Nova lists, authentication: the answers of the external services are inputs.
- Informer caches, work queues, requeue intervals, event filters and leader election: a reconcile may start at any time. The `LifecycleEnabled` filter in front of the aggregates controller is one of these filters.
- Message texts, except where a controller compares them; `Fixed` stands for any fixed text. The counts in messages and the error lists that are only logged are not modelled.
- `OutstandingRamMb` and `HypervisorServiceId` of the Eviction: informational.
- The identifier in a server record is taken to be the identifier that was asked for.
- A failed Kubernetes or compute service request has no effect; only aggregate calls are modelled with the case that an error hides an effect.
- Aggregates.NovaClient.ApplyAggregates: requires distinct aggregate names and identifiers, which Nova ensures and the code's map by name presupposes.
- MaintenanceController.MaintenanceReconciler.Reconcile: requires the stored condition list to have one complete entry per type, which the API server ensures by its list-map schema.
- DrainEngine.RemoveInstance: always copies, while the source shares the backing array if the last element is removed; nothing refers to the old slice after that.
- Undisturbed drains (`DrainBounds.RunBound`) exclude migrations of outstanding instances that others start.
- Creation of the Hypervisor from the node and the transport of labels and annotations: covered by arbitrary spec and label edits.
- The signalling deployment, the Ready condition, certificates, the taint marker of edited objects and logging: only easy facts.
- Test server and volume handling: abstracted to the outcome of cleanup and smoke test.
- Toleration matching: `matches` is the verdict of the Kubernetes helper.
