# Verified lifecycle of shpyrd projects

This project models the controllers, the API calls and the small kernels that
decide what happens to a shpyrd project over time, in Dafny 4.11, and proves what
they promise. `dafny verify dfyconfig.toml` checks all of it.

Each part follows one shape. What one operation does is a method over mutable
state, as in the source, proved equal to a function. Runs are sequences of such
steps, interleaved with the steps of everybody else. The main results are about
every run. The modules named `...Outcomes` say what one operation comes to, on
every input and for every answer of its calls, in the fields of the objects themselves.

| files | what they model |
|---|---|
| `Basics` | optional values, write outcomes, byte order, sorting |
| `RestoreProtocol`, `VolumeController`, `RestoreSafety`, `RestoreProgress`, `RestoreOutcomes` | in-place restore of a Volume from a snapshot, one API call at a time |
| `Mounts`, `MountOutcomes` | which process maps may mount which Volumes, and the Deployments rendered |
| `ConfigHash`, `ConfigIdentity`, `ConfigOrder` | the byte stream behind the configuration fingerprint |
| `Releases`, `ReleasePass`, `ReleaseRuns`, `ReleaseImages`, `ReleaseFailures`, `ReleaseOutcomes` | the release history: recording, snapshots, image retirement, optimistic commit |
| `Rollback` | the rollback request and the pass that carries it out |
| `RollbackRequests`, `RollbackOutcomes` | that request as a one-shot annotation: posted, carried out, cleared |
| `BuildJobs`, `BuildRuns`, `BuildOutcomes` | Dockerfile build Jobs |
| `RateLimiter` | the token bucket of the sign-in endpoints |
| `Mirror`, `MirrorRuns`, `MirrorOutcomes` | the RBAC mirror and its wake-ups |
| `RegistryGC`, `RegistryRuns` | registry garbage collection |
| `AppUpdates` | compare-and-swap updates of an App |
| `Buckets`, `BucketKeys`, `BucketOutcomes` | the finalizer protocol of object buckets and their access keys |

## What is assumed of the environment

- There is one worker per key, and a pass reads its controller's own last
  committed write. Anything else may happen between two API calls.
- A write succeeds, conflicts with a stale resource version, or fails and changes
  nothing. Where the source makes two calls behind one name (creating an access
  key and then granting it), the second may fail alone.
- A claim goes only after its deletion was requested and no pod mounts it. Claims
  are deleted, config snapshots and access-key Secrets written, and read-only
  registry configuration set, by the controllers alone.
- In the runs of object buckets the resources have bucket names of their own;
  what happens otherwise has its own lemma.
- Clocks do not run backwards, and two restore requests get different ids.
- `sort.Slice` returns the same elements in the order of their keys, and elements
  of one key in any order. Where it matters that Go sorts up to twelve elements by
  insertion, which keeps such elements as listed, the theorem says so.
- SHA-256 cut to twelve hex digits, JSON, lower-casing and the registry's replies
  are uninterpreted. Where a theorem needs more of them (no collisions, JSON that
  tells variables apart), it says so.

## Where the stronger claim is false

Each has a lemma with a failing run or with the exact condition under which the code
is right, most have both.

- A restore request posted after a finished restore was written to the status, but
  before the request is cleared, is dropped unserved: the clearing patch takes no
  lock (`RestoreSafety.LateRequestIsLost`, `RestoreSafety.DroppedIsServedExactly`).
- A pass that ends in an error drops the request if the status still names that
  snapshot from an earlier restore. If the old claim went just before, the next
  pass puts an empty disk in its place (`RestoreSafety.ErroredPassLosesTheDisk`,
  `RestoreSafety.ErroredPassDropsExactly`).
- Cancelling a restore for a missing snapshot bumps the resource version, so the
  status that says so always conflicts (`RestoreSafety.CancelIsNeverReported`).
- A single-instance Volume is exclusive within one App only
  (`Mounts.ExclusiveAcrossAppsExactly`), and a process scaled to zero beside one
  runs one instance (`Mounts.RunsWhatIsAskedExactly`). A process that mounts one
  Volume twice is accepted, and its pod volumes get one name
  (`Mounts.PodVolumesDifferExactly`).
- A release whose snapshot write fails outright is committed all the same. Its
  snapshot is then missing, unless an earlier pass that did not commit left one
  (`ReleaseRuns.BareRelease`); and what was left can hold other config vars, which
  a rollback would bring (`ReleaseFailures.SnapshotOfOtherVars`).
- Snapshots and images are deleted before the status is committed: the release
  pushed out of a full history can lose both and stay in the history
  (`ReleaseFailures.NextOutLosesBoth`, with `ReleaseRuns.NextOutSnapshotExactly` and
  `ReleaseImages.NextOutImageExactly` for when).
- Images are compared as strings and deleted by digest. An image released again
  while it waits for deletion, or retired while a kept release names its manifest
  by another tag, is deleted in use (`ReleaseImages.DeletesInUseExactly`,
  `ReleaseFailures.TwinIsDeletedInUse`).
- A rollback accepted between the status patch and the clearing patch of the one
  before is dropped and never carried out
  (`RollbackRequests.LateRollbackIsLost`, `RollbackRequests.DroppedIsCarriedExactly`),
  and one whose pass does not get to clear it is carried out again, over config
  vars set since (`RollbackRequests.UnclearedOverwritesVars`,
  `RollbackRequests.CarriedAgainExactly`).
- Two different environment variables of one name, or one Volume mounted twice by a
  process, let the fingerprint depend on the order things are listed in; without
  them it does not (`ConfigOrder.ListingIgnoredExactly`,
  `ConfigOrder.RepeatedNameDependsOnOrder`, `ConfigOrder.RepeatedMountDependsOnOrder`).
  Up to twelve entries it depends on the order within each name alone
  (`ConfigOrder.StreamIdentifiesLists`). Beyond that it can also depend on where
  other names stand (`ConfigOrder.ThirteenVariables`), since the sort is not
  stable; `ConfigOrder.SameBytesExactly` says when it surely does not.
- A build that succeeded gets no image, ever, if the one pass that judges it fails to
  read its pod (`BuildRuns.ImageExactlyIfRead`, `BuildRuns.UnreadOutcomeLosesImage`).
- A build that finishes after a newer one was created is never judged and never
  pruned (`BuildRuns.VerdictIsFinal`, `BuildRuns.OvertakenBuildIsStranded`).
- The mirror's start queues a pass only if there is a project namespace
  (`MirrorRuns.StartWithoutNamespaces`, `MirrorRuns.QuietMeansMirrored`).
- A collection whose switch to read-only fails after its update leaves the registry
  read-only (`RegistryGC.LeftReadOnlyExactly`). A collector can work beside a
  writable registry: a run whose wait ends in an error, be it a failing read or its
  deadline, switches back without waiting for the collector, and a restart leaves a
  collector nobody waits for (`RegistryRuns.FailedWaitLeavesCollector`,
  `RegistryRuns.RestartLeavesCollector`); it happens in these two ways only
  (`RegistryRuns.TurnsWritableExactly`).
- Bucket names are not unique across namespaces, against the comment beside them
  (`Buckets.SameBucketExactly`, `BucketKeys.SharedNameLosesBucket`). Access keys
  that are not in the Secret the cleanup reads are never deleted: a failed read
  is enough (`BucketKeys.FailedReadLeavesKey`), and so is a pass cut between key
  and Secret (`BucketKeys.InterruptedPassLeaksKey`);
  `BucketKeys.GoneMeansCleaned` says exactly when none is left.

## Model

| member | source | states |
|---|---|---|
| RestoreProtocol.PassIsRun | internal/controller/volume_controller.go:74-115 | a pass under any interference is a stretch of a protocol run, so what holds over runs holds over passes |
| RestoreProtocol.UsingCounts | internal/controller/volume_controller.go:416-434 | the count is the number of pods that have not ended and list the claim, zero exactly when there is no such pod |
| VolumeController.VolumeReconciler.Reconcile | internal/controller/volume_controller.go:74-115 | under every interference before every call, a pass does what the protocol's pass does: load, reconcile, end there on a conflict, else the locked status patch, then clear a finished request |
| VolumeController.VolumeReconciler.RestoreInPlace | internal/controller/volume_controller.go:322-336 | a missing snapshot cancels the request with an error, one that is not ready waits, a ready one goes on to the claim |
| VolumeController.VolumeReconciler.ReplaceClaim | internal/controller/volume_controller.go:337-385 | a missing claim is created from the snapshot with the request's id; the request's own claim ends the restore, bound or not |
| VolumeController.VolumeReconciler.RemoveOld | internal/controller/volume_controller.go:386-403 | an old claim is deleted only when no live pod mounts it, and not twice |
| VolumeController.VolumeReconciler.PodsUsing | internal/controller/volume_controller.go:416-434 | the loop counts the pods that have not ended and list the claim, each once |
| VolumeController.VolumeReconciler.ClearRestore | internal/controller/volume_controller.go:406-413 | removes whatever request the Volume has by then |
| VolumeController.VolumeReconciler.KeepClaim | internal/controller/volume_controller.go:124-184 | without a request: creates the claim if missing, else applies what may change (one answer for all its checks), and reports phase and origin from it |
| RestoreOutcomes.BadSizePass | internal/controller/volume_controller.go:117-120 | a size that is not positive is reported, and nothing else happens but that a finished request is dropped |
| RestoreOutcomes.SnapshotNotReadyPass | internal/controller/volume_controller.go:322-336 | left alone, a request for a snapshot that is not there is dropped unreported; one for a snapshot not ready waits, reported as restoring |
| RestoreOutcomes.MissingClaimPass | internal/controller/volume_controller.go:337-358 | without a claim, one is created from the snapshot with the request's id, and the request stays |
| RestoreOutcomes.OwnClaimPass | internal/controller/volume_controller.go:359-385 | the request's own claim ends the restore: phase and snapshot reported, the request dropped |
| RestoreOutcomes.OldClaimPass | internal/controller/volume_controller.go:386-403 | any other claim gets its deletion if every pod has ended or does not list it, and stays as it is otherwise |
| RestoreOutcomes.PlainPass | internal/controller/volume_controller.go:124-184 | without a request, the whole state a pass leaves: a claim from the Volume's own snapshot if there was none, phase and origin reported |
| RestoreOutcomes.FailedCallReported | internal/controller/volume_controller.go:84-101 | in every run: a conflict ends the pass without a word, a failing call changes nothing and the status reports it unless the Volume was written meanwhile |
| RestoreSafety.CallKeeps | internal/controller/volume_controller.go:74-185 | every call of the controller, answered, failing or conflicting, keeps the protocol's invariant |
| RestoreSafety.RestoreIdentity | internal/controller/volume_controller.go:103-107 | over every run, an error-free pass drops a request only while the live claim, not on its way out, carries the snapshot and id it read and was created for it |
| RestoreSafety.DroppedIsServedExactly | internal/controller/volume_controller.go:406-413 | what an error-free pass drops is served if and only if no request was posted since the status was written |
| RestoreSafety.DroppedIsServedIfMade | internal/controller/volume_controller.go:359-362 | whatever pass drops a request, it is served if and only if a claim was created for its id |
| RestoreSafety.ErroredPassDropsExactly | internal/controller/volume_controller.go:88-107 | an errored pass whose status is written drops the request if and only if the status already named its snapshot |
| RestoreSafety.OneClaimPerRequest | internal/controller/volume_controller.go:338-358 | over every run, no request has two claims created for it, and claims follow the order of requests |
| RestoreSafety.ClaimChangesExactly | internal/controller/volume_controller.go:337-403 | all the controller does to the claim: creates it where there is none, from the snapshot and with the id it read; asks to delete one that is neither the read nor the current request's |
| RestoreSafety.DeletesAfterCountingNone | internal/controller/volume_controller.go:388-401 | in every run the deletion is asked for right after a read in which every pod had ended or did not list the claim, with only the others' steps between |
| RestoreSafety.CancelIsNeverReported | internal/controller/volume_controller.go:326-330 | the status patch of a pass that cancelled always conflicts |
| RestoreSafety.LateRequestIsLost | internal/controller/volume_controller.go:103-107 | a run without any error in which a request posted before the clearing patch is dropped unserved |
| RestoreSafety.ErroredPassLosesTheDisk | internal/controller/volume_controller.go:88-107 | a run with one failing read in which a second restore is dropped and the disk replaced by an empty one |
| RestoreProgress.NothingMovesItBack | internal/controller/volume_controller.go:322-403 | no calm run raises the measure (pass behind, stage of the claim, instances asked for, pods), through failing calls, crashes and stale passes |
| RestoreProgress.AppPassForward | internal/controller/mounts.go:117-125 | while instances are asked for, an App pass lowers the measure |
| RestoreProgress.PodEndsForward | internal/controller/volume_controller.go:388-396 | with no instance asked for, a pod that ends lowers the measure |
| RestoreProgress.GoneForward | internal/controller/volume_controller.go:397-403 | the removal of the deleted, unmounted claim lowers the measure |
| RestoreProgress.PassForward | internal/controller/volume_controller.go:322-403 | when it is the controller's turn, any pass whose calls go through lowers the measure, whatever calm steps fall between its calls, bar an edit of the spec once the new claim is there; that claim need not be bound |
| RestoreProgress.PassLowersStage | internal/controller/volume_controller.go:322-403 | such a pass brings the claim at least one stage on, and drops the request only served |
| RestoreProgress.RoundForward | internal/controller/volume_controller.go:322-403 | a round of App pass, pods ending, pass and claim removal moves at least one stage on |
| RestoreProgress.ThreeRoundsServe | internal/controller/volume_controller.go:322-403 | from every reachable state, once the pass in flight has ended in whatever way and left the request pending, three fair rounds drop it with its own claim in place; none waits for that claim to be bound, and the spec may be edited until that claim is there |
| RestoreProgress.LeftAloneIsServed | internal/controller/volume_controller.go:322-403 | from every reachable state, left to the controllers alone, three rounds after the pass in flight serve the request that pass left pending |
| Mounts.CleanIsCanonical | internal/controller/mounts.go:48-54 | a cleaned mount path has plain directories only and cleaning it again changes nothing |
| Mounts.ResolveProcess | internal/controller/mounts.go:43-71 | a process is accepted if and only if its mounts are fine and its single-instance Volumes are free; a refusal names a fault that is there |
| Mounts.ResolveMounts | internal/controller/mounts.go:36-73 | a process map is accepted if and only if every process is fine on its own and no single-instance Volume has two; accepted maps give every process its mounts |
| Mounts.OneMore | internal/controller/mounts.go:61-64 | looking at owners seen so far decides exactly whether the next process shares no single-instance Volume |
| Mounts.RolloutStrategy | internal/controller/desired.go:432-445 | Recreate if and only if some mount is single-instance, else one surge and none unavailable |
| Mounts.Deployment.ApplyMounts | internal/controller/mounts.go:83-129 | pod volumes, claims and paths in name order; zero replicas while restoring, else one beside a single-instance Volume |
| Mounts.Deployment.MutateDeployment | internal/controller/desired.go:369-378 | the rendered replicas, strategy, claims and paths |
| Mounts.ClaimOfVolume | internal/controller/mounts.go:69 | a Deployment mounts a Volume's claim exactly when its process uses the Volume |
| Mounts.PinnedProcess | internal/controller/mounts.go:117-128 | beside a single-instance Volume: Recreate, one instance, none while a restore is on |
| Mounts.RestoreStopsUsers | internal/controller/mounts.go:117-125 | while a Volume is being restored, all Deployments that mount it together ask for no instance |
| Mounts.ExclusiveVolume | internal/controller/mounts.go:61-67 | over all Deployments of an accepted App, a single-instance Volume has at most one instance; exactly one if it is used and nothing is being restored |
| Mounts.ExclusiveAcrossAppsExactly | internal/controller/mounts.go:36-73 | two Apps keep to one instance if and only if they do not both mount the Volume |
| Mounts.RunsWhatIsAskedExactly | internal/controller/mounts.go:117-125 | the Deployment runs the replicas an accepted process asks for if and only if none is asked for during a restore, and one beside a single-instance Volume otherwise |
| Mounts.PodVolumesDifferExactly | internal/controller/mounts.go:83-116 | the pod volumes of an accepted process have names of their own if and only if it mounts no Volume twice |
| MountOutcomes.CleanAppends | internal/controller/mounts.go:48-54 | cleaning a path goes name by name: nothing and dot stay, two dots go up but not above the root, any other name goes down |
| MountOutcomes.ProcessAcceptedExactly | internal/controller/mounts.go:43-71 | a process is fine if and only if each mount is absolute, below the root and to a Volume that is there, no two at one place, and at most one instance is asked for beside a single-instance Volume |
| MountOutcomes.ExclusiveExactly | internal/controller/mounts.go:61-67 | processes keep single-instance Volumes apart if and only if no two of them mount one, said of their mounts |
| MountOutcomes.RendersMounts | internal/controller/mounts.go:83-116 | every mount of an accepted process is rendered, with its pod volume, its claim and its cleaned path, in name order, and nothing else is |
| MountOutcomes.RendersInstances | internal/controller/mounts.go:117-128 | replicas and strategy from the Volumes mounted: none while one is being restored, else one beside a single-instance Volume, else what is asked for, one by default |
| ConfigHash.ConfigStream | internal/controller/status.go:25-91 | the loops over sorted keys write exactly the canonical list of entries, whichever way sort.Slice sorts |
| ConfigHash.WriteSection | internal/controller/status.go:27-45 | one Secret's data, key by key in order, nothing for an absent one |
| ConfigHash.WriteMounts | internal/controller/status.go:64-76 | mounts by process and name, whatever order the map yields |
| ConfigIdentity.TextInjective | internal/controller/status.go:27-89 | different entries have different bytes, across all sections |
| ConfigIdentity.WrittenInjective | internal/controller/status.go:27-89 | the stream decodes uniquely to its entries |
| ConfigIdentity.StreamIdentifies | internal/controller/status.go:25-91 | where no name repeats, whichever way sort.Slice sorts, two configurations give the same bytes if and only if bound vars, globals, sizes, env, mounts and config vars are the same |
| ConfigOrder.StreamTellsEntries | internal/controller/status.go:25-91 | whatever names repeat and whichever way sort.Slice sorts, equal bytes mean the same data and the same env entries and mounts, each as often |
| ConfigOrder.SameBytesExactly | internal/controller/status.go:25-91 | the bytes are the same for every sort that keeps lists of up to k elements in order if and only if the data are, short lists have the same entries of each name in the same order, and long lists are equal or hold the same without two different entries of one name |
| ConfigOrder.ListingIgnoredExactly | internal/controller/status.go:55-76 | the bytes ignore the listing order for every such sort if and only if no two different variables, and no two different mounts of a process, share a name |
| ConfigOrder.StreamIdentifiesLists | internal/controller/status.go:25-91 | for lists short enough for the sort to keep in order (twelve in Go), the bytes are the same if and only if the data are and every name lists the same entries in the same order |
| ConfigOrder.ThirteenVariables | internal/controller/status.go:55-61 | two listings of thirteen variables that agree name by name, and a sort within its promise that turns them into different bytes |
| ConfigOrder.RepeatedNameDependsOnOrder | internal/controller/status.go:55-61 | two variables of one name next to each other, anywhere among others: for some such sort their order changes the bytes, if and only if they differ |
| ConfigOrder.RepeatedMountDependsOnOrder | internal/controller/status.go:64-76 | the same for two mounts of one Volume in one process |
| Releases.UnreferencedExactly | internal/controller/status.go:219-234 | exactly the named images of dropped releases that no kept one uses, each once |
| Releases.UnreferencedImages | internal/controller/status.go:219-234 | the loop lists those images, oldest first |
| Releases.RecordWindow | internal/controller/status.go:210-214 | recording keeps at most twenty releases and pushes out only the oldest |
| Releases.RemainingExactly | internal/controller/registry.go:91-102 | what stays listed is what could be deleted here but was refused |
| Releases.AppStatus.RecordRelease | internal/controller/status.go:174-216 | appends a release unless image and hash are current; retires the images that left |
| Releases.AppStatus.PruneImages | internal/controller/registry.go:77-103 | the new list and the deleted manifests, in every case: deletes off, no client, foreign, refused |
| ReleasePass.AppReconciler.Reconcile | internal/controller/app_controller.go:156-194 | a whole pass up to the status patch, with each write succeeding, conflicting or failing, equals the transaction (the clearing patch after it is in RollbackRequests) |
| ReleasePass.AppReconciler.RecordAndCommit | internal/controller/app_controller.go:387-398 | release, snapshot, prune, then commit: which of them take effect for each outcome |
| ReleasePass.AppReconciler.RestoreRelease | internal/controller/snapshots.go:82-112 | the live vars become the snapshot's, or stay if there is none |
| ReleasePass.AppReconciler.SnapshotRelease | internal/controller/snapshots.go:26-54 | the snapshot of the release becomes the live vars |
| ReleasePass.AppReconciler.PruneSnapshots | internal/controller/snapshots.go:57-76 | deletes exactly the listed snapshots of releases that left, where the delete goes through |
| ReleaseOutcomes.StoppedPassLeavesAll | internal/controller/app_controller.go:357-360 | a pass without an image, whose restore or workloads fail or conflict, leaves everything but the restored vars |
| ReleaseOutcomes.RecordsExactly | internal/controller/app_controller.go:387-398 | the log grows if and only if a requested restore went through, there is an image, the workloads were applied, the snapshot met no conflict, the status was written, and image or fingerprint is not that of the last release; then by exactly that release |
| ReleaseOutcomes.HistoryIsEndOfLog | internal/controller/status.go:210-214 | the status holds the last twenty releases ever committed, in order |
| ReleaseOutcomes.SnapshotsExactly | internal/controller/app_controller.go:393-396 | which snapshots there are after a pass, and with which vars, for every outcome of its calls |
| ReleaseOutcomes.PruneExactly | internal/controller/registry.go:77-103 | which images stay listed and which manifests go, for every registry: deletes off, no client, another host, no digest, refused |
| ReleaseOutcomes.RetiresExactly | internal/controller/app_controller.go:387-398 | when a pass deletes retired images, from which list, and when it commits what is left of that list |
| ReleaseRuns.DurableHistory | internal/controller/status.go:174-216 | over every run: numbers 1, 2, 3, ... without gap or reuse, at most twenty kept, neighbours differ, no committed release taken back |
| ReleaseRuns.SameInputsSameHistory | internal/controller/app_controller.go:387-398 | a pass that meets the current release's image and an equal configuration commits the history unchanged |
| ReleaseRuns.SnapshotCoverage | internal/controller/snapshots.go:26-76 | if snapshot writes succeed or conflict, every committed release has the vars it was hashed from, except possibly the next one out of a full history |
| ReleaseRuns.BareRelease | internal/controller/app_controller.go:393-395 | a committed release has the vars it was hashed from in its snapshot if and only if the snapshot write did not fail, or an earlier pass had left the same vars under the number |
| ReleaseRuns.NextOutSnapshotExactly | internal/controller/app_controller.go:393-396 | the oldest release of a full history loses its snapshot if and only if a pass that records gets to pruning, lists it and its delete goes through; it leaves the history if and only if the pass also commits |
| ReleaseFailures.SnapshotOfOtherVars | internal/controller/app_controller.go:393-395 | a run of two passes that commits a release beside a snapshot of other vars, which a rollback then restores |
| ReleaseFailures.NextOutLosesBoth | internal/controller/app_controller.go:393-398 | a run of twenty deployments and one conflicting pass: a release still in the history without snapshot and image |
| ReleaseFailures.TwinIsDeletedInUse | internal/controller/status.go:219-234 | a run without any failure that deletes the manifest of a kept release, which the retired one named by another tag |
| ReleaseImages.ImageConservation | internal/controller/registry.go:77-103 | with deletes on, every image ever released is in a kept release, listed, deleted, or not this registry's to delete |
| ReleaseImages.DeletesInUseExactly | internal/controller/registry.go:77-103 | a pruning pass deletes a manifest the history it is about to commit names if and only if it releases one that is still listed, or hands over an image a kept release names otherwise, and the delete goes through |
| ReleaseImages.ImagesStaySafe | internal/controller/registry.go:77-103 | in every run that releases no retired manifest again and retires none still named, no committed release loses its image, except possibly the next one out |
| ReleaseImages.NextOutImageExactly | internal/controller/app_controller.go:396-398 | the oldest release of a full history loses its image if and only if a pass gets to pruning, hands that image over, and the registry deletes it |
| Rollback.AppObject.FindRelease | api/v1alpha1/app_types.go:531-539 | finds the release of a number, or none |
| Rollback.AppObject.RestoreSizes | pkg/api/apps.go:703-721 | whatever order the map yields, known processes and web get the recorded sizes, "custom" is left alone |
| Rollback.AppObject.Rollback | pkg/api/apps.go:538-571 | refuses an unknown or current release or a rollout in progress and changes nothing; else pins image, sizes, attachments and the request |
| Rollback.RestoredSizesResolve | pkg/api/apps.go:703-721 | restored sizes resolve to what the release recorded |
| Rollback.MeetsTargetConfig | internal/controller/app_controller.go:229-277 | the pass after a rollback meets the target's very configuration, config vars included |
| Rollback.RollbackRoundTrip | pkg/api/apps.go:538-571 | after a rollback and one committed pass the current release has the target's image and hash and the live vars are the target's; sizes too |
| RollbackOutcomes.RefusedExactly | pkg/api/apps.go:544-555 | a rollback is refused if and only if no release has the number, the last one has it, or the status lags the spec, deploys or builds; with the reason |
| RollbackOutcomes.RolledBackExactly | pkg/api/apps.go:556-564 | the App after an accepted rollback, field by field and process by process |
| RollbackRequests.AppReconciler.Reconcile | internal/controller/app_controller.go:156-203 | a pass under any interference before every call: restore, the rest, locked status patch, clearing patch |
| RollbackRequests.AppReconciler.ClearReleaseNote | internal/controller/app_controller.go:703-711 | removes the annotations its copy has, whatever they are by then |
| RollbackRequests.PassIsRun | internal/controller/app_controller.go:156-203 | such a pass is a stretch of a run |
| RollbackRequests.DroppedIsCarriedExactly | internal/controller/app_controller.go:180-202 | over every run, what a pass drops was carried out if and only if it is the request the pass read; else it was accepted after a status that showed no rollout |
| RollbackRequests.CarriedAgainExactly | internal/controller/app_controller.go:229-239 | over every run, a pass carries a request out again if and only if an earlier one did and ended otherwise than by clearing it |
| RollbackRequests.AtMostOnce | internal/controller/app_controller.go:399-407 | in every run without such a pass, requests are carried out at most once each, in the order they were accepted |
| RollbackRequests.NextPassCarriesOut | internal/controller/snapshots.go:82-112 | from every reachable state, the next pass that goes through carries the pending request out and drops it |
| RollbackRequests.LateRollbackIsLost | internal/controller/app_controller.go:703-711 | a run without any error in which an accepted rollback is never carried out |
| RollbackRequests.UnclearedOverwritesVars | internal/controller/app_controller.go:703-711 | a run in which the clearing patch fails and the next pass overwrites config vars set since |
| RollbackOutcomes.RequestedPass | internal/controller/app_controller.go:156-203 | what a pass left alone makes of a request, for every answer to the calls after the restore |
| RollbackOutcomes.UnrequestedPass | internal/controller/app_controller.go:399-407 | the same without a request |
| RollbackOutcomes.UnrestoredPass | internal/controller/app_controller.go:229-239 | a restore that fails is reported, one that conflicts is not; the request and the vars stay |
| RollbackOutcomes.RequestGoesExactly | internal/controller/app_controller.go:703-711 | a request goes only for a newer one the API accepts, or by a clearing patch of a pass that read one |
| RollbackOutcomes.AcceptedExactly | pkg/api/apps.go:552-554 | a request is taken if and only if the status has seen the whole spec and shows no rollout |
| BuildJobs.BuildReconciler.BuildJobs | internal/controller/dockerfile.go:127-136 | in whatever order Jobs are listed, the live builds in number order |
| BuildJobs.BuildReconciler.NewestImage | internal/controller/dockerfile.go:144-151 | the newest image among builds |
| BuildJobs.BuildReconciler.PruneBuildJobs | internal/controller/dockerfile.go:259-286 | deletes the oldest beyond the limits, from the front, up to the first failing delete |
| BuildJobs.BuildReconciler.JudgeLatest | internal/controller/dockerfile.go:80-120 | the newest build is judged once it finished; in every case the reported image is the newest there is then |
| BuildJobs.BuildReconciler.ReconcileBuild | internal/controller/dockerfile.go:52-124 | a whole pass: a new build for a new key, else judge and prune, with every failing call |
| BuildOutcomes.NewKeyIsBuilt | internal/controller/dockerfile.go:60-77 | in every reachable state a Job is created if and only if there is none or the newest has another key, and the create goes through; it has the pass's key and the next number and is reported as not yet known |
| BuildOutcomes.NewestIsJudged | internal/controller/dockerfile.go:79-124 | what judging makes of the newest Job and what is reported, for every verdict, outcome and failing annotation |
| BuildOutcomes.PrunesExactly | internal/controller/dockerfile.go:259-286 | a Job is deleted if and only if it is older than the newest and live, and ten newer older ones have an image as it has, or five failed as it did |
| BuildOutcomes.FailedDeleteIsReturned | internal/controller/dockerfile.go:259-286 | such a pass errs if and only if deleting one of those fails |
| BuildRuns.NumbersAreNeverReused | internal/controller/dockerfile.go:63-70 | over every run builds are numbered 1, 2, 3, ... and the newest is never deleted |
| BuildRuns.SameKeyOneJob | internal/controller/dockerfile.go:64-77 | with one build key, any run of passes creates at most one Job, none if the newest has the key |
| BuildRuns.VerdictIsFinal | internal/controller/dockerfile.go:80-113 | a verdict never changes while its Job exists, and a build that a newer one overtook has a verdict later if and only if it had one then |
| BuildRuns.OvertakenBuildIsStranded | internal/controller/dockerfile.go:259-271 | a build without a verdict when a newer one exists is never deleted either, unless it fails |
| BuildRuns.ImageExactlyIfRead | internal/controller/dockerfile.go:87-104 | over every run after it, a build that succeeded has an image if and only if the pass that judged it read its outcome |
| BuildRuns.UnreadOutcomeLosesImage | internal/controller/dockerfile.go:185-189 | a run in which one failing list of pods keeps a succeeded build's image from ever being reported |
| BuildRuns.ReportsNewestImage | internal/controller/dockerfile.go:52-124 | in every run and on every return, a pass reports the image of the highest-numbered build that has one; only a pass that cannot list or create Jobs errs with none |
| BuildRuns.ImageNeverGoesBack | internal/controller/dockerfile.go:144-151 | over every run the number of that build never decreases, so an image once there never goes away |
| BuildRuns.PruningKeepsNewest | internal/controller/dockerfile.go:259-286 | pruning that goes through leaves exactly the ten newest successes, the five newest failures and every open build |
| RateLimiter.RateLimiter.Allow | pkg/api/auth.go:814-833 | takes a token if one is there, refills by elapsed time, throws the map away beyond its bound |
| RateLimiter.RateLimiter.Exhausted | pkg/api/auth.go:836-844 | answers without changing anything |
| RateLimiter.AllowKeepsSane | pkg/api/auth.go:814-833 | tokens stay between zero and the burst |
| RateLimiter.RunConserves | pkg/api/auth.go:814-833 | granted plus left is at most what was there, what flowed in, and one burst per map reset |
| RateLimiter.WindowBound | pkg/api/auth.go:809-833 | any window of any run: at most burst + rate * length grants per key, plus one burst per map reset |
| RateLimiter.BurstIsReached | pkg/api/auth.go:809-833 | the bound is met: of n calls at once, exactly the burst (or all) are granted |
| RateLimiter.ExhaustedPredictsAllow | pkg/api/auth.go:836-844 | predicts the answer of allow if and only if a full bucket holds a token or the key's bucket is already short |
| RateLimiter.NewLimiterIs | pkg/api/auth.go:809-811 | a minute's tokens as the burst, refilled over sixty seconds |
| RateLimiter.AllowExactly | pkg/api/auth.go:814-833 | grants if and only if what the key had and the rate times the time since, or a full burst for a new key, makes a token; every bucket after |
| RateLimiter.ExhaustedExactly | pkg/api/auth.go:836-844 | yes if and only if the key is known and its tokens with the inflow fall short of one |
| RateLimiter.WaitingIsEnough | pkg/api/auth.go:814-833 | a key that waits for the time of one token is granted |
| Mirror.ProjectHoldersExactly | internal/controller/membership_controller.go:143-157 | exactly the granted users, and the members and groups of granted teams but the team of everyone |
| Mirror.PlatformHoldersExactly | internal/controller/membership_controller.go:160-168 | exactly the members of the teams that carry the platform role |
| Mirror.ListingExactly | internal/controller/membership_controller.go:201-212 | subjects in key order, none twice, exactly those of the set |
| Mirror.SubjectSet.Sorted | internal/controller/membership_controller.go:201-212 | the map's entries as that listing, whatever order the map yields |
| Mirror.SubjectSet.AddTeam | internal/controller/membership_controller.go:181-199 | adds exactly the team's members and groups |
| Mirror.ProjectSubjects | internal/controller/membership_controller.go:143-157 | the listing of a project role's holders |
| Mirror.PlatformSubjects | internal/controller/membership_controller.go:160-168 | the listing of a platform role's holders |
| MirrorRuns.MembershipReconciler.EnsureBinding | internal/controller/membership_controller.go:216-254 | creates, updates or, for nobody, deletes one binding and touches no other |
| MirrorRuns.MembershipReconciler.Reconcile | internal/controller/membership_controller.go:94-140 | a pass without error leaves every managed binding as wanted and all others alone; one that stops leaves each as it was or as wanted |
| MirrorRuns.PassForgets | internal/controller/membership_controller.go:94-140 | after a pass a managed binding does not depend on the previous bindings |
| MirrorRuns.PassedProjectBinding | internal/controller/membership_controller.go:108-125 | in every served namespace a project role's binding lists exactly its holders, sorted and once each, and is absent if there are none |
| MirrorRuns.PassedPlatformBinding | internal/controller/membership_controller.go:126-134 | the same for platform roles |
| MirrorRuns.QuietMeansMirrored | internal/controller/membership_controller.go:75-92 | over every interleaving of writers, the one-slot channel, queue and passes, the bindings are what the store asks for whenever all is quiet, if and only if a pass was on its way at the start or they were so already |
| MirrorRuns.StartWithoutNamespaces | internal/controller/membership_controller.go:75-92 | a start without project namespaces queues no pass and leaves a platform role without its binding |
| MirrorOutcomes.ProjectBindingExactly | internal/controller/membership_controller.go:108-125 | in a namespace that is not going and of this workspace or none, the bindings of the three project roles name the cluster roles called after them and list exactly the role's users and team members |
| MirrorOutcomes.PlatformBindingExactly | internal/controller/membership_controller.go:126-134 | the seven platform bindings, by name |
| MirrorOutcomes.OthersUntouched | internal/controller/membership_controller.go:94-140 | every other binding stays as it was |
| RegistryGC.Collector.Trigger | internal/controller/registrygc.go:117-125 | starts a run if and only if none is on |
| RegistryGC.Collector.SetReadOnly | internal/controller/registrygc.go:229-273 | each of its calls, the update only if needed, then polling |
| RegistryGC.Collector.Run | internal/controller/registrygc.go:190-224 | a run with its two deferred steps, for all answers |
| RegistryGC.WayOut | internal/controller/registrygc.go:190-224 | a run either fails to switch and does nothing more, or switches back exactly once, last, right after asking for the job's deletion if it created one, its wait over or given up |
| RegistryGC.NotYetStays | internal/controller/registrygc.go:392-413 | a wait or poll that is not over changes nothing and asks again; no other call waits |
| RegistryGC.OrdinaryRun | internal/controller/registrygc.go:190-224 | with calls that go through and any number of unfinished polls, a run ends without error, the collector done, the registry writable and seen so |
| RegistryGC.FailIsReturned | internal/controller/registrygc.go:190-224 | a run in which any call but the deletion fails returns an error, whatever comes after |
| RegistryGC.LeftReadOnlyExactly | internal/controller/registrygc.go:191-193 | a failed switch leaves the registry read-only if and only if it was so or the update went through |
| RegistryRuns.OneRunAtMost | internal/controller/registrygc.go:117-143 | over every interleaving and restart, one run at most is in flight |
| RegistryRuns.CollectorNeedsReadOnly | internal/controller/registrygc.go:190-224 | in every reachable state, restarts included, a collector at work beside a registry that is not read-only and seen rolled out had its run in flight at a restart, or its run's wait answered with an error while it worked |
| RegistryRuns.TurnsWritableExactly | internal/controller/registrygc.go:190-224 | the registry turns writable beside a collector at work if and only if a run switches it back and that collector's run was cut off by a restart or had its wait answered with an error while it worked; no number of polls that find the job unfinished does it |
| RegistryRuns.GaveUpExactly | internal/controller/registrygc.go:392-413 | over every run, a collector is given up if and only if its run's wait was answered with an error while it worked |
| RegistryRuns.WaitsForOwnCollector | internal/controller/registrygc.go:212-224 | a run whose wait met no error does not switch the registry back while its own collector works |
| RegistryRuns.StartsWhenFree | internal/controller/registrygc.go:117-143 | with no run on, a trigger starts one |
| RegistryRuns.FailedWaitLeavesCollector | internal/controller/registrygc.go:212-224 | a run whose wait fails, its deletion accepted or not, leaves its collector at work beside a writable registry |
| RegistryRuns.RestartLeavesCollector | internal/controller/registrygc.go:226-228 | a restart and one more run leave the first run's collector at work beside a writable registry, against the comment |
| RegistryRuns.CreatedReadOnly | internal/controller/registrygc.go:208-211 | a collector starts only while the registry is read-only and seen rolled out |
| AppUpdates.Cluster.MutateApp | pkg/api/apps.go:725-763 | at most five attempts under any interference, each read, change, plan check and conditional store |
| AppUpdates.Cluster.UpdateApp | internal/cli/appclient.go:327-345 | the same loop without a plan |
| AppUpdates.NoLostUpdates | pkg/api/apps.go:725-763 | over every interleaving the App is the start with the successful changes applied one after another in commit order; exactly those report success, each once |
| AppUpdates.FailureChangesNothing | pkg/api/apps.go:725-763 | a call that reports failure changed nothing; one that reports success stored the App it reports, within the plan |
| AppUpdates.ConflictsMeanOthersWrote | pkg/api/apps.go:727-762 | giving up means five attempts and at least five writes of others since the call began, the last after its last read |
| AppUpdates.QuietCall | pkg/api/apps.go:725-763 | a call nobody disturbs stores its change and reports it, or says that the App is not there or the change refused |
| AppUpdates.BrokenCall | pkg/api/apps.go:725-763 | a failing read or write is reported as such and changes nothing |
| AppUpdates.FifthConflictGivesUp | pkg/api/apps.go:727-762 | four conflicts mean another attempt, the fifth gives up |
| Buckets.ObjectBucketReconciler.Reconcile | internal/controller/objectbucket_controller.go:103-146 | a pass under any interference: finalizer before bucket, cleanup before its removal |
| Buckets.ObjectBucketReconciler.Provide | internal/controller/objectbucket_controller.go:148-192 | bucket, then key, then Secret, stopping at the first failure |
| Buckets.ObjectBucketReconciler.Cleanup | internal/controller/objectbucket_controller.go:209-224 | the Secret's key, then the bucket unless retained |
| Buckets.BucketNeedsResource | internal/controller/objectbucket_controller.go:117-134 | over every run with crashes: a bucket is in the store only while its resource exists with the finalizer, or after it went under Retain and until a later cleanup deletes the bucket |
| BucketOutcomes.BucketLeavesExactly | internal/controller/objectbucket_controller.go:209-224 | over every run, a bucket leaves the store if and only if its own resource's worker deletes it, in a cleanup that loaded policy Delete |
| BucketOutcomes.RetainKeepsBucket | internal/controller/objectbucket_controller.go:218-222 | a resource whose cleanup loaded policy Retain goes with its bucket in the store as it was |
| BucketOutcomes.ProvidePass | internal/controller/objectbucket_controller.go:148-192 | the whole state a pass leaves that provides a bucket: finalizer, bucket, key, Secret |
| BucketOutcomes.CleanupPass | internal/controller/objectbucket_controller.go:209-224 | the whole state a cleanup leaves: the Secret's key and the resource gone, the bucket too unless retained |
| BucketOutcomes.NothingToDoPass | internal/controller/objectbucket_controller.go:103-117 | nothing happens without the resource, or for a deleted one that has no finalizer |
| BucketOutcomes.FailEndsPass | internal/controller/objectbucket_controller.go:148-224 | a failing call ends the pass without change, bar the reads of the Secret, which count as finding none; so do finalizer patches of a stale copy |
| BucketKeys.GoneMeansCleaned | internal/controller/objectbucket_controller.go:117-128 | over every run with crashes and failing calls: a resource with its finalizer goes only at the end of a cleanup, its bucket gone or retained; its keys are gone if and only if, at that cleanup's user call, the bucket had none but the one that cleanup read |
| BucketKeys.UserCallExactly | internal/controller/objectbucket_controller.go:209-224 | what the user call of a cleanup leaves of the bucket's keys, whatever its answer |
| Buckets.SameBucketExactly | api/v1alpha1/objectbucket_types.go:95 | two resources share a bucket name if and only if one's namespace is the other's, a dash, and the front of the other's name |
| BucketKeys.SharedNameLosesBucket | api/v1alpha1/objectbucket_types.go:95 | with a shared name, removing one resource takes the other's bucket |
| BucketKeys.CleanupRemovesKeysExactly | internal/controller/objectbucket_controller.go:209-224 | under any interference and whichever calls fail, a cleanup that ends with the resource gone leaves no key if and only if the one it read was the only one |
| BucketKeys.FailedReadLeavesKey | internal/controller/objectbucket_controller.go:212-214 | a run from nothing in which one failing read of the Secret leaves the key of a removed bucket |
| BucketKeys.InterruptedPassLeaksKey | internal/controller/objectbucket_controller.go:153-162 | a pass cut between key and Secret makes the next one create a second key |
| Basics.SortForgetsOrder | internal/controller/status.go:55-56 | whichever way sort.Slice sorts, lists of the same items, no two different ones of one name, sort to one list |
| Basics.KeysInOrder | internal/controller/status.go:35-39 | the keys of a map in byte order, whatever order it yields |
| Basics.LexExactly | internal/controller/status.go:35-39 | byte order: the first difference decides, and a prefix comes first |

## Left out

- Kubernetes client calls, watches, events, logging, owner references and labels:
  only reads, writes and their outcomes are kept.
- kpack, BuildKit scripts, cert-manager, CloudNativePG, Vector and Prometheus text,
  and everything rendered into a Deployment besides replicas, strategy and mounts.
- The `authz`, `edge`, `sizes`, `store` and `tenancy` packages: a catalog size
  resolving to its own name and the loaded teams and grants are all that is used.
- The OIDC flow, cookies, HTTP handlers, the UI and all CLI commands but the
  update loop.
- Descriptions, messages, conditions, timestamps and release notes.
- In `RollbackRequests`, everything between the restored config vars and the status
  patch is one call with one answer, and a rollback is refused for a rollout in
  progress only; `ReleasePass` and `Rollback` have the rest.
- The metadata annotation that travels with config vars into and out of snapshots.
- Floating point in the rate limiter: exact reals, so rounding of tokens is not
  modelled. The lock is taken for granted: calls come one after another.
- `sort.Slice` is any function that sorts and `path.Clean` is a function; the sorting
  algorithm is not modelled.
- Image references come split into host, repository, tag and digest.
- Build keys are plain strings; that different sources have different keys is not
  stated. Number labels are numbers, as the controller writes them.
- Deleting a Volume or an App, deleting claims or Jobs by hand, and restore
  requests set by hand without an id.
- The API's refusal of a restore request while one is on: it rests on a read that may
  be stale, so requests are taken at any time.
- VolumeController.VolumeReconciler.KeepClaim: the checks of access mode, storage
  class and size on an existing claim, and its growth, are one answer: done,
  conflict or failed.
- The pass over processes reads each Volume once; it does not see one Volume change
  between two reads.
- Restarts of the server that runs the mirror once it is up, and the removal of the
  project label from a namespace, which the watch does not report.
- The registry's read-only configuration file and the node the collector runs on:
  their calls succeed or fail.
- The usage report and the status of a bucket, and a credential Secret shared by
  two resources.
- Proofs of eventual progress under fairness as such: progress is a measure, the
  steps that lower it, and a bound on rounds.
