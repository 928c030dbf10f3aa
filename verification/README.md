# A verified model of the ExtendedDeployment controllers

ExtendedDeployment is a set of Kubernetes controllers that spread one deployment over several regions and roll new versions out region by region. This project models what is hard about them, the replica arithmetic and the rollout protocols, and proves what they promise over all inputs and whole runs. `dafny verify dfyconfig.toml` checks all of it.

| file | what it models |
|---|---|
| Basics, Names, Workloads | Replica counts as the API server holds them and as one pass sees them, and their totals; amounts over lists of names |
| RecreateSync, RecreateRuns, FullRegions, RecreateConvergence | The ReCreate pass over a region (cleanup of unhealthy replicas, scale-down of old workloads, one step of the new one), availability over runs, and when a rollout ends |
| RollingUpdate, RollingRuns, RollingConvergence | The RollingUpdate pass, its surge and availability fences for one pass and over runs, and when a rollout ends |
| DeleteAllFirst | The DeleteAllFirst pass, the saturated cleanup, and exclusivity of versions over runs |
| PodUpdate, InplaceProtocol, InplaceCompletion | The in-place update of one pod, the protocol between the two controllers that bounds how many pods are disrupted, and why an update ends |
| Allocator, AllocatorOrder, Reschedule, RescheduleOrder, RescheduleInputs | Moving replicas between regions, the annotation that carries the plan, conservation, and what the order of the regions decides |
| Revisions, Rollback, Confirmation | Revision history, rollback requests, and the accounting of user confirmations |
| Resources, Ledger, LedgerContents | The capacity estimate of a region, and the ledger of which pods use what on each node |
| Admission, SlowStart | Region replicas as counts or percentages, from webhook to split; pod creation in doubling batches |

## How the system is modelled

- A listed workload has an in-memory replica count (`view`) and a stored one. A scale writes only the stored one; the cleanup is the only place that refreshes the view. A deleted workload stays in the list as `Gone`, and reads that the code makes on its refreshed list skip it. The next listing drops it.
- Lists of old workloads are in any order, so every result holds for whatever order the code sorts them into. Go's random map order is an explicit order parameter.
- Creation of the new workload is a step of its own: the code reads the name of a workload that is still nil after creating it, which ends the pass. `updateNewSs` of `regionSyncOnce` is true at its only call site and is not a parameter.
- Replica counts are unbounded integers; no count in the model grows beyond the 32-bit inputs it is computed from by more than a sum over regions. Go's truncating division is written out. Floating point occurs only in `round(total * percent / 100)` and in minimums of 32-bit values; for 32-bit totals the double result equals the exact rounding used here.
- What the nodes do is nondeterministic: pods may become available, statuses may lag and catch up, containers may restart. Runs that bound availability assume that no pod fails by itself. Clocks enter only as the current time passed to a step.
- A template hash identifies a set of container images. Container names are unique within a pod, so images and statuses are maps. Per-pod updates clone the pod, so a sync's report counts the pods as they were listed. In a sync any refresh and any try may fail, before or after the pod was marked not ready.
- The saturated cleanup may drop any set of empty old workloads in the ReCreate and RollingUpdate runs; the history limit picks one of these. Convergence is stated for a region whose deployment is saturated as soon as the region is, as with a single region.
- Fields the code updates in place are fields of classes. Each method is proved equal to a function of the old state, and the lemmas are about these functions.

## What the proofs brought to light

- RollingUpdate: the exact condition under which a pass keeps the availability floor (`FloorExactly`). The gate before a pass gives it only while the new workload is not above the desired number (`GateMissesScaleDown`).
- RollingUpdate: the exact settings under which every rollout ends (`RolloutsEndExactly`). A `maxSurge` that is left out or does not parse stops every pass (`NoSurgeNeverMoves`). A `maxUnavailable` that does not parse counts as zero because its error is dropped, and with a surge of zero the rollout never moves (`NoRoomExactly`, `StuckForever`). Nothing rejects negative values: under a negative surge some rollouts never end, and under a negative `maxUnavailable` all end exactly when the surge outweighs it.
- DeleteAllFirst: the cleanup of a saturated region deletes old workloads without looking at their pods. While no replicas are wanted, that can leave pods behind which the next rollout starts beside; exactly when is in `CleanExactly`, a run in `GoBackAndLower`.
- ReCreate: the exact condition under which a pass keeps the floor (`SyncFloorExactly`): a new workload that reports more replicas than it will ask for after its step, and fewer than desired, lets the pass cut the olds too far.
- In-place: an unchanged container whose image has no tag blocks its pod until it restarts (`UntaggedUnchangedBlocks`); a pod without the readiness gate that is given a grace period counts as updated while it still runs the old images, and no other pod does (`CountsAtOnceExactly`).
- Rescheduling: when a failover is followed by a shortage in a region that took over, replicas are planned nowhere; exactly when is in `BothPhases`, on the inputs in `NothingLostExactly`, an instance in `ReplicaLost`. Go's map order decides the plan of a region by at most one replica (`TargetOrder`).
- Rollback: a request for a revision that equals the current spec is never cleared and blocks every later pass (`RequestBlocks`).
- Confirmation: a confirmation belongs to the newest stored revision, so a step rolls out the spec it was confirmed under exactly when that spec was already stored (`StepOfItsOwnSpec`); an edit taken back in time leaves it standing (`ConfirmedUnderAnotherSpec`).
- Capacity: the estimate starts from what a node can allocate, not from what is still free, and so promises too much exactly when the promised pods do not fit beside the running ones (`OverbookedExactly`); a node counts minus one, taking room from its region, exactly when it has none of some requested resource (`EstimateNegativeExactly`).
- Admission: a missing total, a missing entry or a negative count is let through although the split cannot read it (`AdmittedCanBeSplit`), and a missing first entry beside a count is dereferenced (`CompareReplicas`).

## Model

| member | source | states |
|---|---|---|
| `RecreateSync.StepSize` | pkg/controllers/extendeddeployment/subset_control.go:446-475 | A step points towards the desired number, does not pass it, is at most one batch either way, and is nonzero while there is something to do and the strategy is known |
| `RecreateSync.ScaleSubset` | pkg/controllers/extendeddeployment/subset_control.go:367-394 | The write goes to the API server only and leaves the in-memory replicas; it fails on a deleted workload and is skipped when nothing changes |
| `RecreateSync.ReplicasCount` | pkg/controllers/extendeddeployment/rolling.go:149-155 | The loop adds up the in-memory replica counts, whatever the API server holds |
| `RecreateSync.RemoveReplicas` | pkg/controllers/extendeddeployment/subset_control.go:718-737 | One unhealthy old is deleted, or scaled with its in-memory copy refreshed, or left alone |
| `RecreateSync.RegionControl.CleanupUnhealthyReplicas` | pkg/controllers/extendeddeployment/subset_control.go:697-744 | The loop meets the recursive cleanup in every case: budget used up, olds used up, or an old with more available than asked for, which fails the pass |
| `RecreateSync.CleanupRemovesUnhealthyOnly` | pkg/controllers/extendeddeployment/subset_control.go:697-744 | Cleanup loses no available replica, removes exactly what it reports and at most its budget, and when it stops short of the budget every remaining old is fully healthy |
| `RecreateSync.CleanupKeepsViews` | pkg/controllers/extendeddeployment/subset_control.go:732-737 | After cleanup every old is deleted or has an in-memory copy equal to the stored one |
| `RecreateSync.CleanupSurvivors` | pkg/controllers/extendeddeployment/subset_control.go:702-740 | After a cleanup the next listing has exactly what an independent description says: unhealthy replicas gone as far as the budget reaches, and a workload deleted if and only if it lost its last replica |
| `RecreateSync.CleanupCounts` | pkg/controllers/extendeddeployment/subset_control.go:718-739 | The cleanup removes as many replicas as are unhealthy, or its budget if that is less |
| `RecreateSync.NoneLeftEmpty` | pkg/controllers/extendeddeployment/subset_control.go:726-737 | An old that had replicas is deleted or left with some; one that had none is untouched |
| `RecreateSync.CleanupFails` | pkg/controllers/extendeddeployment/subset_control.go:720-724 | The cleanup fails at an old that reports more available replicas than its spec if and only if it gets there with budget left |
| `RecreateSync.FailedCleanup` | pkg/controllers/extendeddeployment/subset_control.go:720-724 | A failing cleanup has done what it reached and nothing behind that |
| `RecreateSync.RegionControl.ScaleDownOlds` | pkg/controllers/extendeddeployment/subset_control.go:664-679 | The scale-down loop: olds too small for the remainder are skipped and only subtracted |
| `RecreateSync.ScaleDownFloor` | pkg/controllers/extendeddeployment/subset_control.go:664-679 | On healthy olds scale-down changes nothing or leaves at least the live total minus what it was asked to remove |
| `RecreateSync.ScaleDownExactly` | pkg/controllers/extendeddeployment/subset_control.go:664-679 | Scale-down takes what is left to remove from the first old that is larger, and nothing from any other |
| `RecreateSync.ScaleDownNothing` | pkg/controllers/extendeddeployment/subset_control.go:664-679 | When no old is larger it takes nothing |
| `RecreateSync.SyncNew` | pkg/controllers/extendeddeployment/subset_control.go:685-692 | The new workload moves monotonically towards the desired number and never past it |
| `RecreateSync.RegionControl.RegionSyncOnce` | pkg/controllers/extendeddeployment/subset_control.go:639-695 | The in-place pass equals its specification for olds and new workload, including the failing cleanup |
| `RecreateSync.SyncOldsFloor` | pkg/controllers/extendeddeployment/subset_control.go:639-679 | The olds keep all their available replicas, or enough to reach the desired number with the new workload's |
| `RecreateSync.SyncCleans` | pkg/controllers/extendeddeployment/subset_control.go:643-656 | An excess that unhealthy replicas cover is taken from them alone |
| `RecreateSync.SyncScalesDown` | pkg/controllers/extendeddeployment/subset_control.go:656-679 | Of a larger excess exactly what they do not cover is scaled down |
| `RecreateSync.SyncFails` | pkg/controllers/extendeddeployment/subset_control.go:648-654 | A cleanup that fails ends the pass: nothing is scaled down and the new workload is not touched |
| `RecreateSync.CoveredKeepsOlds` | pkg/controllers/extendeddeployment/subset_control.go:648-679 | When the new workload alone has what is desired, no old loses an available replica |
| `RecreateSync.SyncFloor` | pkg/controllers/extendeddeployment/subset_control.go:639-695 | From a safe state a pass does not take capped availability below the smaller of what it was and the desired number |
| `RecreateSync.SyncCrossesFloor` | pkg/controllers/extendeddeployment/subset_control.go:648-649 | From any other state one healthy old is cut so far that it does |
| `RecreateSync.SyncFloorExactly` | pkg/controllers/extendeddeployment/subset_control.go:639-695 | A pass keeps the floor for every list of olds if and only if the new workload alone has what is desired, or reports no more replicas than it will ask for after the step |
| `RecreateSync.SettledIsSafe` | pkg/controllers/extendeddeployment/subset_control.go:685-692 | A new workload that reports no replicas its spec gave up, or whose spec covers what is desired, is safe under all settings and stays so |
| `RecreateRuns.SyncStepFloor` | pkg/controllers/extendeddeployment/subset_control.go:639-695 | The floor of a safe pass after its writes are persisted and deleted workloads are gone |
| `RecreateRuns.StepFloor` | pkg/controllers/extendeddeployment/update.go:73-141 | A safe pass, creation, any template change, pods progressing and the saturated cleanup all keep the floor |
| `RecreateRuns.AvailabilityOverRuns` | pkg/controllers/extendeddeployment/subset_control.go:639-744 | Over any run whose passes start from safe states, between any two moments, availability does not fall below the smaller of its earlier value and the desired number |
| `RecreateRuns.SettledStep` | pkg/controllers/extendeddeployment/subset_control.go:639-744 | In a settled region every pass is safe, and every event but a template change to an unsettled workload leaves it settled |
| `RecreateRuns.AvailabilityWhenSettled` | pkg/controllers/extendeddeployment/subset_control.go:639-744 | So runs that start settled, with settled template changes, keep the floor whatever the settings |
| `RecreateRuns.UnsafeCrossesFloor` | pkg/controllers/extendeddeployment/subset_control.go:648-649 | An unsafe pass drops a region of five from ten available to four |
| `FullRegions.CleanedIsDone` | pkg/controllers/extendeddeployment/update.go:94-141 | A fully available region at the desired number is saturated, and its cleanup finishes the rollout |
| `RecreateConvergence.AfterRound` | pkg/controllers/extendeddeployment/subset_control.go:639-695 | The new workload moves by exactly one step, and a pass at the desired number empties the olds |
| `RecreateConvergence.RoundIsAStep` | pkg/controllers/extendeddeployment/controller.go:243-253 | Each round is the saturated cleanup or a sync of the run model |
| `RecreateConvergence.RecreateCompletes` | pkg/controllers/extendeddeployment/update.go:94-141 | With pods becoming available between passes the new workload reaches the desired number and every old zero, after at most the distance and one more passes |
| `RecreateConvergence.RecreateFinishesExactly` | pkg/controllers/extendeddeployment/subset_control.go:446-475 | Every rollout finishes if and only if the batch is not empty and the rollout type is set |
| `RecreateConvergence.FullBatches` | pkg/controllers/extendeddeployment/subset_control.go:446-475 | After n rounds the new workload has moved by n full batches, up or down, and not past the desired number |
| `RecreateConvergence.BetaStartsWithOne` | pkg/controllers/extendeddeployment/subset_control.go:451-457 | A Beta rollout starts with one replica |
| `RollingUpdate.ResolveFenceposts` | pkg/controllers/extendeddeployment/rolling.go:134-147 | Never both zero; fails exactly when one of the two does not parse |
| `RollingUpdate.ResolvesTo` | pkg/controllers/extendeddeployment/rolling.go:134-142 | Counts stand for themselves and percentages round up |
| `RollingUpdate.FencepostsExactly` | pkg/controllers/extendeddeployment/rolling.go:126-147 | Bounds left out count as zero, two zeros let one replica be unavailable, and others count as they are; with nothing desired nothing may be unavailable |
| `RollingUpdate.NewReplicas` | pkg/controllers/extendeddeployment/rolling.go:111-124 | The new workload grows, not above the desired number, and the only failure is an unusable surge |
| `RollingUpdate.ReconcileNewSubset` | pkg/controllers/extendeddeployment/rolling.go:29-51 | The method meets the specification of the new workload's turn and changes nothing when the settings stop it |
| `RollingUpdate.ScaleDownOldSubsets` | pkg/controllers/extendeddeployment/rolling.go:80-109 | The loop meets the recursive scale-down, including its stop at an old the cleanup has deleted |
| `RollingUpdate.ReconcileOldSubsets` | pkg/controllers/extendeddeployment/rolling.go:53-78 | Cleanup then scale-down against the new workload as it was listed, not as it was just scaled |
| `RollingUpdate.RollRegion` | pkg/controllers/extendeddeployment/subset_control.go:341-352 | A whole pass on the mutable region equals the specification of the pass |
| `RollingUpdate.RollDownBounds` | pkg/controllers/extendeddeployment/rolling.go:80-109 | Scale-down removes at most its budget of available replicas and adds nothing |
| `RollingUpdate.SurgeFence` | pkg/controllers/extendeddeployment/rolling.go:29-124 | Spec replicas after a pass are at most what they were or desired plus surge |
| `RollingUpdate.NewestExactly` | pkg/controllers/extendeddeployment/rolling.go:29-51 | After a pass the new workload is at the desired number, or below it and at the ceiling, or had no room under the ceiling |
| `RollingUpdate.OldsKeptAtFloor` | pkg/controllers/extendeddeployment/rolling.go:61-68 | A pass that finds no more than the floor, counting what the olds ask for and what the new workload has available, leaves the olds as they are |
| `RollingUpdate.OldsAboveFloor` | pkg/controllers/extendeddeployment/rolling.go:61-77 | What is above the floor is taken from unhealthy replicas first, then the olds are scaled down to what the new workload's spec leaves to the floor |
| `RollingUpdate.OldsWhenCleanupFails` | pkg/controllers/extendeddeployment/rolling.go:69-73 | A cleanup that fails ends the olds' part of the pass |
| `RollingUpdate.RollDownAt` | pkg/controllers/extendeddeployment/rolling.go:88-106 | Olds are scaled down one after the other, each as far as the budget then reaches |
| `RollingUpdate.RollDownStops` | pkg/controllers/extendeddeployment/rolling.go:95-101 | The loop does not get past an old that the cleanup has deleted |
| `RollingUpdate.OldsFloor` | pkg/controllers/extendeddeployment/rolling.go:53-109 | What a pass leaves of the olds: all that was available, short by what the new workload misses, or enough for the floor |
| `RollingUpdate.AvailabilityFence` | pkg/controllers/extendeddeployment/rolling.go:53-109 | From every state and under all settings, availability after a pass misses the floor by at most the replicas the new workload has not got yet; a floor above the desired number counts as that number while the new workload is scaled down |
| `RollingUpdate.FloorExactly` | pkg/controllers/extendeddeployment/rolling.go:29-92 | Under all settings the pass keeps the floor for every list of olds if and only if the settings stop it, or the new workload is fully available or alone reaches the floor and is not scaled down below it |
| `RollingUpdate.FloorCrossed` | pkg/controllers/extendeddeployment/rolling.go:82-84 | A large healthy old makes the pass cross the floor when the new workload is short of its spec and of the floor |
| `RollingUpdate.FloorCrossedAlone` | pkg/controllers/extendeddeployment/rolling.go:33-40 | Scaling the new workload down crosses a floor above the desired number |
| `RollingUpdate.GateGivesFloor` | pkg/controllers/extendeddeployment/subset_control.go:627-630 | Behind the gate, with the new workload not above the desired number, every pass keeps the floor |
| `RollingUpdate.GateMissesScaleDown` | pkg/controllers/extendeddeployment/subset_control.go:613-630 | With the new workload above the desired number the gate lets a pass through that crosses the floor |
| `RollingConvergence.OldsAfter` | pkg/controllers/extendeddeployment/rolling.go:53-109 | Closed form of the olds' total after a pass from a fully available region |
| `RollingConvergence.PassProgress` | pkg/controllers/extendeddeployment/rolling.go:53-147 | Under all settings a pass strictly decreases the replicas left to move if and only if there is something it may do, and otherwise changes no total |
| `RollingConvergence.RoundIsAStep` | pkg/controllers/extendeddeployment/controller.go:243-253 | Each round is the saturated cleanup, when the new workload has the desired number, or else a pass of the run model |
| `RollingConvergence.NoRoomExactly` | pkg/controllers/extendeddeployment/rolling.go:126-147 | Where surge and maxUnavailable are not negative, a rollout cannot finish if and only if the surge is zero and maxUnavailable does not parse: its error is dropped and it counts as zero |
| `RollingConvergence.NoSurgeNeverMoves` | pkg/controllers/extendeddeployment/rolling.go:111-115 | A maxSurge that is left out or does not parse stops every pass: a new workload below the desired number never moves |
| `RollingConvergence.StuckForever` | pkg/controllers/extendeddeployment/rolling.go:29-147 | A region that is not saturated and that nothing may move keeps its totals through any number of rounds |
| `RollingConvergence.RolloutCompletes` | pkg/controllers/extendeddeployment/update.go:94-141 | Under finishing settings every rollout ends with the new workload at the desired number and every old at zero, in at most as many rounds as replicas to move |
| `RollingConvergence.RolloutsEndExactly` | pkg/controllers/extendeddeployment/rolling.go:29-147 | For all settings and desired numbers every rollout ends if and only if the desired number is zero, or the surge is usable and not negative and surge and maxUnavailable together are positive |
| `RollingRuns.StepAsked` | pkg/controllers/extendeddeployment/subset_control.go:319-352 | Every pass, creation and other event keeps the spec total within what it was or the desired number and the surge |
| `RollingRuns.SurgeOverRuns` | pkg/controllers/extendeddeployment/rolling.go:111-124 | So does every run, under all settings |
| `RollingRuns.StepFloor` | pkg/controllers/extendeddeployment/subset_control.go:319-352 | Every safe pass, creation and other event keeps availability at the smaller of what it was and the floor |
| `RollingRuns.AvailabilityOverRuns` | pkg/controllers/extendeddeployment/rolling.go:53-109 | Over any run whose passes start from safe states, availability does not fall below the smaller of an earlier value and the floor |
| `RollingRuns.GatedStep` | pkg/controllers/extendeddeployment/subset_control.go:613-630 | Behind the gate, with the new workload at most at the desired number, every pass is safe, and the new workload stays so |
| `RollingRuns.AvailabilityBehindGate` | pkg/controllers/extendeddeployment/subset_control.go:613-630 | So the gate keeps the floor over every such run |
| `RollingRuns.LowPassKeepsOlds` | pkg/controllers/extendeddeployment/rolling.go:61-68 | A pass of a region with nothing above the floor keeps its olds |
| `RollingRuns.AvailabilityAboveDesired` | pkg/controllers/extendeddeployment/subset_control.go:613-630 | Behind the gate runs keep the floor also with the new workload above the desired number, while there is nothing above the floor |
| `RollingRuns.OldsKeptOverRuns` | pkg/controllers/extendeddeployment/rolling.go:61-68 | And then no old loses a replica, through any number of passes |
| `DeleteAllFirst.Control.ScaleDownOlds` | pkg/controllers/extendeddeployment/subset_control.go:843-859 | Every old is scaled to zero, and the result says whether any was not |
| `DeleteAllFirst.Control.OldPodsRunning` | pkg/controllers/extendeddeployment/subset_control.go:862-892 | Reports drained, without error, if and only if no old reports a replica or has a pod and every listing worked |
| `DeleteAllFirst.Control.RolloutDeleteAllFirst` | pkg/controllers/extendeddeployment/subset_control.go:807-841 | The pass equals its specification: scale down, or wait, or create or scale the new workload |
| `DeleteAllFirst.Control.CleanSaturated` | pkg/controllers/extendeddeployment/update.go:73-141 | The saturated cleanup scales the olds to zero and deletes, beyond the history limit, those that ask for nothing and report nothing available, whatever pods they have |
| `DeleteAllFirst.RolloutExactly` | pkg/controllers/extendeddeployment/subset_control.go:807-841 | After a pass no old asks for replicas; the new workload has exactly the desired number if every old was gone, and is untouched if not |
| `DeleteAllFirst.TwoPassesFinish` | pkg/controllers/extendeddeployment/subset_control.go:807-841 | One pass stops the olds and, once they are drained, one gives the new workload its desired replicas |
| `DeleteAllFirst.CleanupKeepsNewest` | pkg/controllers/extendeddeployment/update.go:73-91 | The newest olds within the history limit are kept, and of the older ones exactly the empty ones are deleted |
| `DeleteAllFirst.CleanWhileWanted` | pkg/controllers/extendeddeployment/update.go:73-91 | While replicas are wanted the cleanup deletes no workload with pods |
| `DeleteAllFirst.StepExclusive` | pkg/controllers/extendeddeployment/subset_control.go:807-892 | Every pass, template change, cluster step and safe cleanup keeps at most one workload active, deleted ones included |
| `DeleteAllFirst.ExclusiveOverRuns` | pkg/controllers/extendeddeployment/subset_control.go:807-892 | So does every run of safe steps, whatever the template changes |
| `DeleteAllFirst.ExclusiveMeansPairs` | pkg/controllers/extendeddeployment/subset_control.go:862-892 | At most one active workload is the same as no two active together |
| `DeleteAllFirst.CleanExactly` | pkg/controllers/extendeddeployment/update.go:79-85 | A cleanup keeps all that follows exclusive if and only if it deletes no workload that still has pods, and it deletes none while replicas are wanted |
| `DeleteAllFirst.GoBackAndLower` | pkg/controllers/extendeddeployment/update.go:79-85 | A run into an unsafe cleanup: back to an empty version while nothing is wanted |
| `PodUpdate.PatchImages` | pkg/controllers/inplaceset/inplace_update.go:131-150 | Exactly the containers named by both pod and update get the new image, and their old images are recorded |
| `PodUpdate.RecordStatuses` | pkg/controllers/inplaceset/inplace_update.go:151-173 | Exactly the changed containers' statuses are recorded |
| `PodUpdate.PodControl.CheckCompleted` | pkg/controllers/inplaceset/inplace_update.go:514-544 | The crossing-off loop answers yes if and only if every recorded container has restarted or had its image already |
| `PodUpdate.PodControl.PatchUpdateSpec` | pkg/controllers/inplaceset/inplace_update.go:131-173 | The patched pod: images, record, and no pending grace |
| `PodUpdate.PodControl.UpdateReadyCondition` | pkg/controllers/inplaceset/inplace_update.go:465-503 | Readiness is withdrawn only from a pod whose containers are ready |
| `PodUpdate.PodControl.TryInplaceUpdate` | pkg/controllers/inplaceset/inplace_update.go:327-415 | The pod after a try: unchanged if tried, else marked not ready when gated, then patched or given a grace period |
| `PodUpdate.PodControl.RefreshPod` | pkg/controllers/inplaceset/inplace_update.go:181-300 | The pod after a refresh: grace finished, still updating, or marked ready |
| `PodUpdate.StepKeepsInv` | pkg/controllers/inplaceset/inplace_update.go:181-415 | A pending grace keeps the pod not ready and matches the recorded update; with no grace pending the pod's spec has the update's images |
| `PodUpdate.ImagesChangeOnlyNotReady` | pkg/controllers/inplaceset/inplace_update.go:181-218 | Images change only while the condition is False, never before the grace is over, and never by the node |
| `PodUpdate.TryRecords` | pkg/controllers/inplaceset/inplace_update.go:377-415 | A try records when it was made, what it asks for and the grace to wait, and patches at once without a grace |
| `PodUpdate.TriedExactly` | pkg/controllers/inplaceset/inplace_update.go:302-325 | After a try the pod is tried for another update if and only if that has the same hash and no other image for a container both name |
| `PodUpdate.GraceHonoured` | pkg/controllers/inplaceset/inplace_update.go:181-218 | Over any run, between a try and the change of images it leads to lie at least the seconds of grace |
| `PodUpdate.GraceEnds` | pkg/controllers/inplaceset/inplace_update.go:198-212 | A refresh makes the patch if and only if that much time has passed since the try |
| `PodUpdate.MarkedReadyExactly` | pkg/controllers/inplaceset/inplace_update.go:259-300 | A refresh marks a gated pod ready if and only if no grace is pending and the recorded containers have restarted |
| `PodUpdate.MarkedExactly` | pkg/controllers/inplaceset/inplace_update.go:465-503 | Being marked takes readiness from a pod whose containers are ready, and from no other |
| `PodUpdate.ReadyComesBackCompleted` | pkg/controllers/inplaceset/inplace_update.go:259-300 | The condition comes back only in a refresh with no grace pending and all recorded containers restarted |
| `PodUpdate.RunKeepsInv` | pkg/controllers/inplaceset/inplace_update.go:181-415 | The invariant holds throughout any run |
| `PodUpdate.PatchRecords` | pkg/controllers/inplaceset/inplace_update.go:131-173 | The step that changes images records the image and status each changed container had |
| `PodUpdate.RecordKeptOverRun` | pkg/controllers/inplaceset/inplace_update.go:302-325 | Within one update nothing overwrites that record |
| `PodUpdate.ReadyOnlyAfterRestart` | pkg/controllers/inplaceset/inplace_update.go:514-544 | Between the patch of a container and the return of readiness the container shows a new image ID or container ID |
| `PodUpdate.CountedMeansUpdated` | pkg/controllers/inplaceset/inplace_update.go:546-571 | A gated pod counts only with the update's images in its spec, no grace pending and every recorded container restarted |
| `PodUpdate.CountedOnlyAfterRestart` | pkg/controllers/inplaceset/inplace_update.go:514-571 | A pod that counts after the patch of a container shows a new image ID or container ID for it |
| `PodUpdate.CountsAtOnceExactly` | pkg/controllers/inplaceset/inplace_update.go:327-415 | A pod that is available when given an update counts for it at once if and only if it has no gate and either waits out a grace period or already runs the tagged new images |
| `PodUpdate.CompletedWithoutRestart` | pkg/controllers/inplaceset/inplace_update.go:514-544 | Right after a patch the update counts as completed if and only if every patched container already had the tagged new image |
| `PodUpdate.UntaggedUnchangedBlocks` | pkg/controllers/inplaceset/inplace_update.go:514-544 | An unchanged container whose image has no tag holds the pod back until it restarts |
| `InplaceProtocol.InplaceSetControl.NotTried` | pkg/controllers/inplaceset/batch.go:67-79 | Lists, in order and without repetition, pods not tried, and all of them |
| `InplaceProtocol.UpdatePods` | pkg/controllers/inplaceset/batch.go:43-65 | Gives the update to the first pods that need it and to no other |
| `InplaceProtocol.FailTry` | pkg/controllers/inplaceset/inplace_update.go:350-365 | A try that fails after its condition was written marks the first pod not tried, if it has the gate, and changes nothing else |
| `InplaceProtocol.InplaceSetControl.ManageInplaceUpdate` | pkg/controllers/inplaceset/batch.go:108-132 | As many pods are given the update as are missing from the number asked for, up to the first try that fails; none under the ReCreate type |
| `InplaceProtocol.InplaceSetControl.RefreshPods` | pkg/controllers/inplaceset/inplace_update.go:240-252 | Pods are refreshed in order up to the first that fails, which is reported |
| `InplaceProtocol.InplaceSetControl.Status` | pkg/controllers/inplaceset/inplace_update.go:546-571 | The report counts the available pods of the update |
| `InplaceProtocol.InplaceSetControl.SyncReplicaSet` | pkg/controllers/inplaceset/controller.go:264-347 | One sync: refresh, which ends it when it fails, then update, then a report on the pods as listed |
| `InplaceProtocol.TryFirstCounts` | pkg/controllers/inplaceset/batch.go:43-65 | Exactly the missing number of pods is newly tried, no counted pod is lost, and untouched pods stay as they were |
| `InplaceProtocol.TrySomeOrderly` | pkg/controllers/inplaceset/batch.go:118-130 | A pod that a failed try has marked is the first not tried and takes the place of one that was to be tried |
| `InplaceProtocol.SyncCounts` | pkg/controllers/inplaceset/controller.go:264-347 | A sync, however it fails, loses no counted pod and tries no more than were asked for |
| `InplaceProtocol.CleanSyncCounts` | pkg/controllers/inplaceset/controller.go:264-347 | One in which nothing fails reports and brings the tried pods up to the number asked for |
| `InplaceProtocol.FailedTryCounts` | pkg/controllers/inplaceset/batch.go:118-124 | A try that fails is the last of its sync: exactly those before it count as tried |
| `InplaceProtocol.NoneTried` | pkg/controllers/inplaceset/batch.go:43-46 | A set of the ReCreate type, and a sync whose refresh fails, give no pod the update |
| `InplaceProtocol.StopAt` | pkg/controllers/inplaceset/inplace_update.go:240-246 | The refresh stops at the first pod that fails and at no other |
| `InplaceProtocol.StepKeepsProtocol` | pkg/controllers/extendeddeployment/subset_control.go:478-544 | Every step of either controller, failing or not, or of the nodes keeps the invariant across number, report and pods |
| `InplaceProtocol.DisruptionBound` | pkg/controllers/extendeddeployment/subset_control.go:615-626 | In every reachable state the pods tried and not yet available number at most the larger of one and the batch size |
| `InplaceProtocol.AvailabilityOverRuns` | pkg/controllers/extendeddeployment/subset_control.go:478-544 | A region that starts fully available stays so but for that many pods, even when writes fail half-way |
| `InplaceCompletion.RaiseExactly` | pkg/controllers/extendeddeployment/subset_control.go:509-531 | A raise happens if and only if the desired number is not reached; it is strict, stays within it, and the first one is below it when more than one pod is desired |
| `InplaceCompletion.RefusedAbove` | pkg/controllers/extendeddeployment/subset_control.go:793-797 | While more replicas are desired than the set has, no in-place step is taken |
| `InplaceCompletion.NumberWithinSet` | pkg/controllers/extendeddeployment/subset_control.go:793-797 | So over every run a raised number stays within the replicas of the set |
| `InplaceCompletion.NumberOverRuns` | pkg/controllers/extendeddeployment/subset_control.go:509-531 | The number after any run is a closed form of how often it was raised |
| `InplaceCompletion.RoundOpensGate` | pkg/controllers/extendeddeployment/subset_control.go:615-626 | However often syncs fail in between, once no pod is disrupted a good sync leaves the pods asked for counted and the gate open |
| `InplaceCompletion.UpdateCompletes` | pkg/controllers/extendeddeployment/subset_control.go:478-544 | After any number of rounds the desired number is asked for and counted, or the next raise is open and there were fewer rounds than pods desired |
| `Allocator.Best` | pkg/controllers/reschedule/reschedule.go:176-188 | The chosen target has the most room |
| `Allocator.GreedyExact` | pkg/controllers/reschedule/reschedule.go:171-198 | Succeeds if and only if the targets' room suffices; then exactly that many replicas are planned and taken from the room |
| `Allocator.GreedyPerRegion` | pkg/controllers/reschedule/reschedule.go:171-198 | Each region gains what its room loses, no room goes negative, and others are untouched |
| `Allocator.GreedyAdditive` | pkg/controllers/reschedule/reschedule.go:171-198 | Placing a and then b is placing a + b |
| `Allocator.GreedyBalanced` | pkg/controllers/reschedule/reschedule.go:171-198 | A region that received something keeps at least the room of any other, less one |
| `Allocator.GreedyOptimal` | pkg/controllers/reschedule/reschedule.go:171-198 | No other distribution of as many replicas leaves a smaller maximum of remaining room |
| `AllocatorOrder.SameRooms` | pkg/controllers/reschedule/reschedule.go:171-198 | Allocations that start with the same rooms, wherever these are, succeed alike and end with the same rooms |
| `AllocatorOrder.TargetOrder` | pkg/controllers/reschedule/reschedule.go:107-124 | Two orders of the same targets succeed alike, leave the same rooms, and plan the same for each region give or take one replica |
| `Reschedule.FindBest` | pkg/controllers/reschedule/reschedule.go:176-188 | The loop finds the first target with the most room |
| `Reschedule.TakeOutFailed` | pkg/controllers/reschedule/reschedule.go:107-124 | The loop empties the failed regions, lists the others and adds up what is displaced |
| `Reschedule.FindReceivers` | pkg/controllers/reschedule/reschedule.go:145-155 | The loop lists the regions without pending pods that gave nothing away |
| `Reschedule.Receivers` | pkg/controllers/reschedule/reschedule.go:145-155 | A region may receive if and only if none of its pods is pending and it is planned with no less than configured |
| `Reschedule.ScheduleInfo.Reschedule` | pkg/controllers/reschedule/reschedule.go:171-198 | The loop over shared records equals the greedy allocation; a nonpositive number places nothing |
| `Reschedule.ScheduleInfo.RescheduleFailedRegions` | pkg/controllers/reschedule/reschedule.go:100-136 | Failover on the shared records, success and failure |
| `Reschedule.ScheduleInfo.RescheduleInsufficientPods` | pkg/controllers/reschedule/reschedule.go:138-170 | The shortage phase on the shared records, success and failure |
| `Reschedule.AnnotationRoundTrip` | pkg/utils/annotation.go:71-73 | Reading desired replicas back from the annotation gives the plan that was written, region by region and in total |
| `Reschedule.FailoverConserves` | pkg/controllers/reschedule/reschedule.go:86-136 | After a successful failover desired replicas add up to the configured ones, with failed regions at zero |
| `Reschedule.FailoverSucceeds` | pkg/controllers/reschedule/reschedule.go:100-124 | Failover succeeds if and only if the regions that did not fail have room for what the failed ones were configured with |
| `Reschedule.ShortageBalance` | pkg/controllers/reschedule/reschedule.go:138-170 | The exact change of the planned total in the shortage phase, from any plan |
| `Reschedule.ShortageConserves` | pkg/controllers/reschedule/reschedule.go:138-170 | The total is conserved if and only if the drift is zero, in particular from a plan as configured with no region having started more than configured |
| `Reschedule.ShortagePlans` | pkg/controllers/reschedule/reschedule.go:156-169 | Afterwards every short region is planned with its running pods less the pending ones, the receivers together gained what those cannot start, and any other region is as before |
| `RescheduleOrder.ShortageAsOne` | pkg/controllers/reschedule/reschedule.go:156-169 | The shortage phase is one allocation of all that is moved, and succeeds if and only if that does |
| `RescheduleOrder.VisitOrderIrrelevant` | pkg/controllers/reschedule/reschedule.go:156-169 | Any order of visiting the short regions succeeds or fails alike, with the same result |
| `RescheduleOrder.BothPhases` | pkg/controllers/reschedule/reschedule.go:100-170 | Failover followed by the shortage phase conserves the total if and only if the drift is zero; with no short region having started more than configured, replicas can only be lost, and none is exactly when no short region received any |
| `RescheduleInputs.NoneToShort` | pkg/controllers/reschedule/reschedule.go:171-198 | If the other targets have room enough above the short regions' level, or that level is no room, nothing is placed in a short region |
| `RescheduleInputs.SomeToShort` | pkg/controllers/reschedule/reschedule.go:171-198 | If they have not, a roomiest short region that comes first receives |
| `RescheduleInputs.FailoverSparesExactly` | pkg/controllers/reschedule/reschedule.go:100-124 | A failover plans nothing into the short regions, in every order of the regions, if and only if their largest room is none or what is displaced is at most the others' room above it |
| `RescheduleInputs.NothingLostExactly` | pkg/controllers/reschedule/reschedule.go:100-170 | So, judged before either phase, no order lets a replica get lost if and only if that holds, no short region having started more than configured |
| `RescheduleOrder.ThreeFailOver` | pkg/controllers/reschedule/reschedule.go:100-136 | A failover of three regions |
| `RescheduleOrder.ThreeShort` | pkg/controllers/reschedule/reschedule.go:138-170 | followed by a shortage in the region that took over |
| `RescheduleOrder.ReplicaLost` | pkg/controllers/reschedule/reschedule.go:160-164 | leaves two of three replicas planned |
| `Revisions.History.SyncRevisions` | pkg/controllers/extendeddeployment/revision.go:130-245 | The sync on the stored list: nothing, a renumbered revision, or a new one and a truncated history |
| `Revisions.History.TruncateHistory` | pkg/controllers/extendeddeployment/revision.go:248-268 | The oldest revisions beyond the limit and one are dropped |
| `Revisions.SyncKeepsInv` | pkg/controllers/extendeddeployment/revision.go:130-245 | Numbers stay increasing and specs distinct, and the newest is the current spec |
| `Revisions.SyncDrops` | pkg/controllers/extendeddeployment/revision.go:181-268 | A sync changes something if and only if the newest is not the current spec; only storing a new spec drops revisions, from the oldest on, down to the limit and one |
| `Revisions.SyncMovesOnly` | pkg/controllers/extendeddeployment/revision.go:159-193 | A sync with a stored spec keeps the same specs stored |
| `Revisions.HistoryOverRuns` | pkg/controllers/extendeddeployment/revision.go:130-268 | Over any run of edits and syncs the invariant holds, and with a fixed limit at most limit and one revisions remain |
| `Revisions.NumberOverRuns` | pkg/controllers/extendeddeployment/revision.go:81-87 | Revisions are numbered one after the other, one for each change of the stored list |
| `Rollback.RollbackControl.FindTarget` | pkg/controllers/extendeddeployment/rollback.go:67-97 | The search finds the revision with that number, or the one before the newest for number zero |
| `Rollback.RollbackControl.CheckRollback` | pkg/controllers/extendeddeployment/rollback.go:42-122 | What a rollback request does to spec, history and request, error cases included |
| `Rollback.RollbackControl.Reconcile` | pkg/controllers/extendeddeployment/controller.go:181-201 | A pass handles the request or syncs the revisions, not both |
| `Rollback.RollsBackTo` | pkg/controllers/extendeddeployment/rollback.go:42-65 | A request for a stored revision that differs makes its spec current, without the hash label, and touches no stored revision |
| `Rollback.NothingToGoBackTo` | pkg/controllers/extendeddeployment/rollback.go:67-122 | A request that cannot be read or names nothing stored is cleared, and nothing else changes |
| `Rollback.TargetExactly` | pkg/controllers/extendeddeployment/rollback.go:67-97 | A number names the revision that carries it, zero the one before the newest |
| `Rollback.EqualButLabel` | pkg/controllers/extendeddeployment/rollback.go:42-56 | Specs count as equal if and only if they differ in nothing but the hash label |
| `Rollback.RollbackToStored` | pkg/controllers/extendeddeployment/rollback.go:42-97 | Rollback to any stored revision then sync makes that spec current and newest and adds none |
| `Rollback.RollbackToPrevious` | pkg/controllers/extendeddeployment/rollback.go:67-97 | Rollback to the previous revision swaps the two newest specs |
| `Rollback.RollbackRoundTrip` | pkg/controllers/extendeddeployment/rollback.go:42-97 | Done twice it restores the spec and the order of the stored specs |
| `Rollback.RequestCleared` | pkg/controllers/extendeddeployment/rollback.go:42-65 | Handling a request clears it if and only if it is unreadable, finds no target, or differs from the current spec |
| `Rollback.RequestBlocks` | pkg/controllers/extendeddeployment/rollback.go:42-122 | A request for what is already current is never cleared and keeps the deployment in place through any number of passes |
| `Confirmation.Reconciler.CheckConfirm` | pkg/controllers/extendeddeployment/controller.go:333-367 | What the check does with the annotation and whether the pass waits |
| `Confirmation.Reconciler.Reconcile` | pkg/controllers/extendeddeployment/controller.go:192-297 | The order of the gates: revisions, saturation, term, confirmation |
| `Confirmation.ManagedExactly` | pkg/controllers/extendeddeployment/controller.go:192-297 | A pass manages the subsets if and only if revisions are up to date, the deployment is not saturated, and some region lacks a new workload, or all are ready and no confirmation is missing |
| `Confirmation.WaitingAsks` | pkg/controllers/extendeddeployment/controller.go:333-367 | A waiting pass asks for the confirmation once and keeps any other text |
| `Confirmation.OtherwiseKept` | pkg/controllers/extendeddeployment/controller.go:192-297 | A pass not at that gate keeps the annotation unless it stores a revision or finds the deployment saturated |
| `Confirmation.PassUsesConfirmation` | pkg/controllers/extendeddeployment/controller.go:254-297 | A pass that stores a revision takes a standing confirmation away, and one that acts on it uses it up |
| `Confirmation.ApplyKeepsInv` | pkg/controllers/extendeddeployment/controller.go:254-297 | Confirmed steps plus a standing confirmation never exceed the confirmations written, and a standing one belongs to the newest stored revision |
| `Confirmation.StepsAtMostConfirmations` | pkg/controllers/extendeddeployment/controller.go:333-367 | In any run there are at most as many confirmed steps as the user wrote true |
| `Confirmation.StepOfItsOwnRevision` | pkg/controllers/extendeddeployment/revision.go:181-203 | A confirmed step rolls out the revision that was newest when true was written |
| `Confirmation.StepOfItsOwnSpec` | pkg/controllers/extendeddeployment/controller.go:254-297 | Over all runs a confirmed step rolls out the spec that true was written under if and only if that spec was the newest stored one at that moment |
| `Confirmation.WrittenIsRecorded` | pkg/controllers/extendeddeployment/controller.go:333-367 | What a run's account says of the last true is what stood when it was written |
| `Confirmation.ConfirmedUnderAnotherSpec` | pkg/controllers/extendeddeployment/controller.go:254-297 | An edit taken back before the next pass is never seen: what was confirmed under it authorises a step of the earlier spec |
| `Resources.Add` | pkg/controllers/deployregion/resource.go:73-90 | Adds each known resource of the list and ignores the others |
| `Resources.Sub` | pkg/controllers/deployregion/resource.go:108-138 | Succeeds if and only if every listed amount is covered, and then takes exactly them away |
| `Resources.MaxDivided` | pkg/controllers/deployregion/resource.go:190-210 | The smallest truncated quotient over the checked resources asked for, and the pod number |
| `Resources.FitIsLargest` | pkg/controllers/deployregion/resource.go:190-210 | The exact fit is the largest number of pods whose requests the node covers |
| `Resources.FitsExactly` | pkg/controllers/deployregion/resource.go:190-210 | A number of pods fits if and only if it is at most the fit |
| `Resources.FitsInFields` | pkg/controllers/deployregion/resource.go:190-210 | Cpu, memory and storage are looked at where requested, and the number of pods always |
| `Resources.ShareSandwich` | pkg/controllers/deployregion/utils.go:26-40 | One truncated quotient after one request is taken away is the exact one or one less |
| `Resources.NodeEstimate` | pkg/controllers/deployregion/utils.go:26-40 | A node's estimate is its exact fit or one less |
| `Resources.RegionAllocatablePods` | pkg/controllers/deployregion/utils.go:26-40 | A region's estimate is the sum of its nodes', negative ones included, and lies between the total fit less one per node and the total fit; a failed region has none |
| `Resources.EstimateNegativeExactly` | pkg/controllers/deployregion/resource.go:190-210 | A node's estimate is never below minus one, and is minus one if and only if it has none of some requested resource |
| `Ledger.Charge` | pkg/controllers/deployregion/cache.go:122-133 | Adding a pod's containers one by one adds its requests |
| `Ledger.GiveBack` | pkg/controllers/deployregion/cache.go:135-152 | Taking them away one by one never hits the error branch when the total is covered |
| `Ledger.NodeControl.CountPod` | pkg/controllers/deployregion/cache.go:122-133 | Adding a pod to a node's map and total |
| `Ledger.NodeControl.OnPodUpdate` | pkg/controllers/deployregion/cache.go:135-152 | A pod that ended gives back what it was charged; a new one is charged; any other changes nothing |
| `Ledger.AddKeepsBalance` | pkg/controllers/deployregion/cache.go:122-133 | Adding keeps the total equal to the sum over the map |
| `Ledger.UpdateKeepsBalance` | pkg/controllers/deployregion/cache.go:135-152 | So does a pod event |
| `Ledger.CanGiveBack` | pkg/controllers/deployregion/resource.go:108-138 | A balanced node's total covers what any of its pods gives back |
| `Ledger.BuildRegion` | pkg/controllers/deployregion/syncContext.go:131-162 | The nested loops charge each listed pod to its node |
| `Ledger.HandleKeepsInv` | pkg/controllers/deployregion/syncContext.go:58-235 | Cache sync, region creation, node and pod events keep every node balanced and every home known |
| `Ledger.LedgerOverRuns` | pkg/controllers/deployregion/syncContext.go:58-235 | Over any run every node's total equals the sum of the requests of the pods in its map |
| `LedgerContents.FilledHolds` | pkg/controllers/deployregion/syncContext.go:131-162 | Filling a node from a listing counts exactly the pods that run on it and have not ended, with their requests |
| `LedgerContents.UpdateHolds` | pkg/controllers/deployregion/cache.go:135-152 | After a pod event its node counts the pod if and only if it has not ended, and every other pod as before |
| `LedgerContents.LastWordOverRuns` | pkg/controllers/deployregion/syncContext.go:58-235 | In every state of a run each node counts exactly the pods last said to run on it, with their requests, and knows its readiness and resources as last said |
| `Ledger.OverbookedExactly` | pkg/controllers/deployregion/utils.go:32-38 | The estimate exceeds what fits into the free part of a node if and only if the estimated pods do not fit beside those that run, and never when nothing runs |
| `Ledger.FullNodeOverbooked` | pkg/controllers/deployregion/utils.go:32-38 | A node with none of a requested resource left and a positive estimate is overbooked |
| `Admission.PercentageRoundTrip` | pkg/controllers/extendeddeployment/controller_util.go:90-105 | Every percentage from 0 to 100, written in decimal, reads back as itself |
| `Admission.SignedRoundTrip` | pkg/controllers/extendeddeployment/controller_util.go:95-98 | A minus makes the number negative, a plus changes nothing, and the range is that of 32 bits |
| `Admission.PercentageExactly` | pkg/controllers/extendeddeployment/controller_util.go:100-102 | A written number is a percentage if and only if it is at most a hundred; a negative one never is |
| `Admission.NotAPercentage` | pkg/controllers/extendeddeployment/controller_util.go:90-98 | Without the percent sign, or with anything but digits behind the sign, nothing is read |
| `Admission.PercentOfNothing` | pkg/controllers/extendeddeployment/controller_util.go:86-88 | A percentage of a negative total is an error |
| `Admission.Share` | pkg/controllers/extendeddeployment/controller_util.go:107-112 | The rounded share is within half a replica of the exact one, halves up |
| `Admission.IsTypeConsistent` | pkg/webhook/v1beta1/extendeddeployment_webhook.go:219-232 | Whether all given entries have the first one's type; a missing first entry is dereferenced |
| `Admission.SumPercentages` | pkg/webhook/v1beta1/extendeddeployment_webhook.go:161-186 | The percentages are added up unless one cannot be read |
| `Admission.CompareReplicas` | pkg/webhook/v1beta1/extendeddeployment_webhook.go:148-195 | Accepts exactly the admissible regions and crashes exactly on a total, a count and a missing first entry |
| `Admission.ConfigureRegions` | pkg/controllers/extendeddeployment/subset_control.go:547-561 | The split succeeds if and only if total and regions can all be read, with the configured replicas in order, else fails at the first bad region |
| `Admission.AdmittedCanBeSplit` | pkg/controllers/extendeddeployment/controller_util.go:79-108 | What is admitted can be split if and only if there are no regions, or there is a total, no entry is missing and no count negative |
| `Admission.SplitIsClose` | pkg/controllers/extendeddeployment/controller_util.go:79-112 | Admitted percentages of n regions split the total to within n/2 |
| `Admission.HalvesRoundUp` | pkg/controllers/extendeddeployment/controller_util.go:107-112 | The bound is reached |
| `Admission.CountsIgnoreTotal` | pkg/webhook/v1beta1/extendeddeployment_webhook.go:148-158 | Nonnegative counts are admitted next to a total and used as they stand |
| `Admission.CountsNeedNoTotal` | pkg/webhook/v1beta1/extendeddeployment_webhook.go:187-193 | Without a total exactly counts and missing entries are let through |
| `SlowStart.RunBatch` | pkg/controllers/inplaceset/controller.go:364-375 | One batch makes all its calls and counts the failures |
| `SlowStart.BoundaryIs` | pkg/controllers/inplaceset/controller.go:363 | Batches start at the initial size times one less than a power of two |
| `SlowStart.SlowStartBatch` | pkg/controllers/inplaceset/controller.go:360-384 | At most count calls; the exact number of successes; an error if and only if one of the calls fails; the failed batch starts at such a boundary, is twice its predecessor as far as there are calls left, and all calls before it succeeded |

## Left out

- API client calls, retries on conflict, informers, events, logging: I/O. A store of replica counts, pods and annotations stands for them, and writes succeed except where an error branch is modelled (deleted workloads, failed listings, failed writes of a pod in an in-place sync).
- A write that fails in the middle of a ReCreate or RollingUpdate pass; the next pass starts from a fresh listing.
- Hashing, JSON, JSON patches of override policies and deep equality of templates: library behaviour; values with equality stand for them.
- InplaceProtocol.InplaceSetControl.SyncReplicaSet: does not create or delete pods; the in-place runs are about a set whose pods already number its replicas.
- Order in which surplus pods are deleted, claiming of pods, names of colliding revisions: decided in library code.
- The burst-limited difference of `manageReplicas`: it adds one minimum to what `SlowStart.SlowStartBatch` states.
- Routing of cache events and deletion of regions from the cache; a deleted region leaves nodes mapped to it.
- A cache listing that has one node in two regions.
- The readiness test of whole regions and the failed flag: mostly queries.
- The names of failed regions in the reschedule annotation: the code appends them to a copy and never stores them.
- Leftover in-place update specs from an earlier rollout: runs of the in-place protocol start without one.
- Several regions in one ReCreate or RollingUpdate pass: regions are handled one after another and share no replica counts; DeleteAllFirst handles one region a pass.
- Wall-clock timeouts of waiting and pending: any step may come at any time instead.
- Adapters, status strings, label and condition helpers, options, manifests: easy or configuration.
