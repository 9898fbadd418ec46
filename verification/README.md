# sds-local-volume: a verified model

This project models the parts of sds-local-volume whose correctness spans several
functions, several passes or several processes, and proves what they are for.

## What is modelled

**The LVMLogicalVolume garbage collector.** `ApiServer` is the API server: objects with a
UID, a resourceVersion, a deletion timestamp and finalizers. An `Environment` decides, for
every API call the collector makes, what the node agent, the CSI driver, users and
administrators wrote just before it, how long it took, whether it failed, and whether a
failed call landed all the same; a theorem for every environment is a theorem for every
interleaving. `FinalizerRemoval` is the read-check-patch-retry loop, `RemovalOutcome` says
exactly how it ends, `Sweep` is a whole pass over an arbitrarily stale cache, `Collector`
the same pass as the imperative program it is, proved equal to `Sweep`. `SweepSafety` says
which writes a pass may make, `SweepVerdicts` what its verdicts mean and when it comes back,
`SweepProgress` and `Draining` that backlogs and volume-with-snapshots chains go away, `SweepInputs` that the
updates and fields the cache drops cannot matter, `SweepPicture` and `Monitoring` that what
is counted and exported adds up.

**The LocalStorageClass controller.** `LvgResolution` expands the LVMVolumeGroup list,
`StorageClasses` renders and compares StorageClasses, `ScComparison` says what the
comparison means, `Validation` and `Admission` are the controller's and the webhook's
checks, `ClassWatch` the event filters. `ClassServer` is the API server for one name, with
an environment that also lets the process die at any call and lets informer reads lag
behind to any state since the pass began; `ClassReconciler` is one pass call by call,
`ClassController` the imperative program proved equal to it.
`ReconcilerSafety`, `ReconcilerProgress`, `ReconcilerReports` (over `ReconcilerSteps`),
`ReconcilerTeardown` and `ReconcilerPersistence` hold the protocol theorems.

**The node watcher.** `NodeLabels` is one pass over the three labels as functions of one
state and the proof that it reaches a fixpoint; `NodeWatcher` the nested loops.

**CSI placement and sizing.** `Sizing` is extent rounding in 64-bit arithmetic, `Placement`
the choice of an LVMVolumeGroup, `Volumes` CreateVolume and ControllerExpandVolume,
`ClassPlacement` and `VolumeOutcomes` what they look at and exactly when they succeed,
`ThickLedger` the books over any sequence of thick creates and expansions, `DriverRemoval`
the driver's own finalizer loop, `DeviceMapper` the mapper names and the mount check.

## Where a property holds only under a condition

- `AlignSizeToExtent` returns the least multiple exactly when size + extent - 1 stays below
  2^63 (and is not negative, or negative by whole extents). Beyond, it aligns to nothing and
  every later check passes (`Sizing.OverflowAlignsToNothing`,
  `Volumes.OverflowPassesEveryCheck`). Aligning an aligned size again is harmless exactly
  when there is room for it (`Sizing.AlignIsIdempotent`), which an extent of three bytes does
  not leave at the top (`Sizing.AlignTwiceCanOverflow`).
- A mapper name can be read back exactly when no slash in the path is followed by a slash
  or a hyphen; any other path shares its mapper path with a plain one
  (`DeviceMapper.DecodeInverts`, `DeviceMapper.OtherPathsCollide`).
- With cleanup method, labels and length equal, hasSCDiff is map equality exactly if the
  StorageClass names each LVMVolumeGroup once or names one the class does not call for
  (`ScComparison.MapEqualityBoundary`, with `ScComparison.RepetitionHidesADifference` as an
  instance of the other case).
- One undisturbed pass over a valid class repairs the StorageClass exactly if there is none
  yet, or its parameters parse and do not hide a missing LVMVolumeGroup behind a repeated
  one (`ReconcilerProgress.SelfStabilises`). Otherwise it never does: unreadable parameters
  fail every pass (`ReconcilerProgress.UnparsableNeverHeals`), a hidden LVMVolumeGroup is
  reported as success by every pass (`ReconcilerProgress.RepetitionNeverHeals`). Where no
  difference is seen, nothing is repaired: LVM type, file system type, contiguity, reclaim
  policy, binding mode and annotations are not compared
  (`ReconcilerProgress.NoDifferenceNoRepair`).
- Repeated passes of the node watcher come to rest exactly if no LVMVolumeGroup that a
  LocalStorageClass names is reported both by a selected node and by an unselected one that
  still carries the node label: from the third pass on nothing is written, and otherwise
  every pass writes (`NodeLabels.SettlesExactlyIfUncontested`). One pass is enough if no
  LVMVolumeGroup reported by both is named or carries the candidate label, in particular if
  none is reported by both (`NodeLabels.OnePassSettles`).
- Immediate placement compares with the free space of the LVMVolumeGroup it uses, for every
  distribution of free space over a class, exactly if no node comes first in two of its
  LVMVolumeGroups (`Placement.OneEachExactlyIfCompared`).
- A retried Immediate create reports the node and volume group the existing volume is on
  exactly if that group is the first with the most free space at the time of the retry
  (`Volumes.RetryReportsPlace`).

## Assumptions

- The LocalStorageClass protocol: the read and the list that open a pass are current; only
  the controller writes its finalizers and the StorageClasses of its provisioner; nobody
  else puts finalizers on either. The status subresource is written atomically, and a Ready
  condition is stale when its observed generation is behind the object's.
- Label selectors are predicates on label sets, and the lvm-volume-groups parameter is read
  back as it was written.
- Times are integers; the collector's clock moves only while a call is served.
- The node watcher reads current state: what its informer has not caught up with, and
  writes by others during a pass, are not modelled. Every node has a label map and every
  LocalStorageClass a spec.lvm.
- The node agent makes a logical volume as large as its spec says, in whole extents, and
  books exactly that (`ThickLedger`, `Volumes.RetryFollowsStored`).

## Model

| member | source | states |
|---|---|---|
| FinalizerRemoval.RemoveIsSafe | images/controller/pkg/controller/lvm_logical_volume_gc.go:889-966 | In every interleaving with other writers, lost answers and retries, at most one patch lands, and only on the object with the classified UID, being deleted, held by both finalizers; it takes off the CSI finalizer and nothing else, so never a last one |
| FinalizerRemoval.PatchEffect | images/controller/pkg/controller/lvm_logical_volume_gc.go:944-962 | An optimistically locked patch lands on the version that was read or not at all |
| FinalizerRemoval.RemoveAfterRelease | images/controller/pkg/controller/lvm_logical_volume_gc.go:889-966 | A retry after a patch that landed unnoticed writes nothing more |
| RemovalOutcome.OutcomeIsExact | images/controller/pkg/controller/lvm_logical_volume_gc.go:895-987 | The exact outcome in every environment: removed exactly if some attempt, after nothing but lost ones and before the attempts run out, reads the classified object being deleted with both finalizers and patches it undisturbed; failed exactly if an answer is not worth repeating, the live object is not being deleted, or every attempt is lost; likewise for an object gone or already released, without the agent's finalizer, or succeeded by another |
| RemovalOutcome.RemovedOnceQuiet | images/controller/pkg/controller/lvm_logical_volume_gc.go:897-986 | However others write the object and calls fail in passing: if they leave both finalizers on it and the disturbance ends before the attempts do, the CSI finalizer comes off and the agent's stays |
| Collector.GarbageCollector.RemoveCsiFinalizer | images/controller/pkg/controller/lvm_logical_volume_gc.go:889-966 | The bounded retry loop computes the specified removal, outcome and new server state |
| Collector.GarbageCollector.RemoveOnce | images/controller/pkg/controller/lvm_logical_volume_gc.go:896-962 | One attempt: which answers end the removal, which are worth another attempt |
| Collector.LiveConfirmation.Load | images/controller/pkg/controller/lvm_logical_volume_gc.go:1008-1034 | Reuses a picture younger than the maximum age, otherwise reads all three lists; a failed list leaves every field as it was |
| Collector.ReclaimBudget.Spend | images/controller/pkg/controller/lvm_logical_volume_gc.go:523-532 | Grants while something remains, and otherwise records that the pass was truncated |
| Collector.GarbageCollector.Attempt | images/controller/pkg/controller/lvm_logical_volume_gc.go:697-784 | Budget, live confirmation, announcement and removal in that order, with the verdict of each |
| Collector.GarbageCollector.Reclaim | images/controller/pkg/controller/lvm_logical_volume_gc.go:651-784 | The verdict and effect for an orphaned volume: active, retained, blocked, waiting out its grace period or removed |
| Collector.GarbageCollector.ReclaimSnapshot | images/controller/pkg/controller/lvm_logical_volume_gc.go:793-862 | The same for a snapshot |
| Collector.GarbageCollector.SweepSnapshots | images/controller/pkg/controller/lvm_logical_volume_gc.go:604-639 | The loop over snapshots yields the specified picture, requeue delay and writes |
| Collector.GarbageCollector.SweepVolumes | images/controller/pkg/controller/lvm_logical_volume_gc.go:536-595 | The loop over volumes likewise |
| Collector.GarbageCollector.RunSweep | images/controller/pkg/controller/lvm_logical_volume_gc.go:424-505 | One pass: throttle, lists, snapshots before volumes, publication, requeue delay; exported metrics are this pass's picture |
| Collector.ReferencingPersistentVolumes | images/controller/pkg/controller/lvm_logical_volume_gc.go:1063-1098 | Builds the reference map, first referrer kept |
| Sweep.ReferencesAreExact | images/controller/pkg/controller/lvm_logical_volume_gc.go:1063-1098 | A volume is referenced exactly by a PersistentVolume of its name or one of the own driver with its name as handle |
| SweepVerdicts.FirstReferrerIsKept | images/controller/pkg/controller/lvm_logical_volume_gc.go:1063-1098 | What it is referenced by is the first such PersistentVolume, with its driver |
| Collector.SnapshotContentHandles | images/controller/pkg/controller/lvm_logical_volume_gc.go:1108-1142 | Collects the handles; none when the kind is not served |
| Sweep.HandlesAreExact | images/controller/pkg/controller/lvm_logical_volume_gc.go:1108-1142 | A snapshot is in use exactly if a VolumeSnapshotContent of the own driver carries its handle in status or source |
| Collector.SnapshottedVolumeNames | images/controller/pkg/controller/lvm_logical_volume_gc.go:1146-1155 | Collects the source names |
| Sweep.SourcesAreExact | images/controller/pkg/controller/lvm_logical_volume_gc.go:1146-1155 | Exactly the non-empty names some snapshot was taken from |
| SweepSafety.SweepWritesOnlyJustified | images/controller/pkg/controller/lvm_logical_volume_gc.go:424-505 | Under an arbitrarily stale cache every write of a pass is justified: past grace, and in an uncached picture read in this very pass and young enough referenced by nobody |
| SweepSafety.RemovalIsJustified | images/controller/pkg/controller/lvm_logical_volume_gc.go:697-732 | One removal carries its own justification in the journal before it |
| SweepSafety.SweepIsBounded | images/controller/pkg/controller/lvm_logical_volume_gc.go:497-532 | At most maxReclaims removals a pass; a truncated pass asks to come back within the backlog delay |
| SweepSafety.FailedConfirmationWritesNothing | images/controller/pkg/controller/lvm_logical_volume_gc.go:711-722 | A failed load writes nothing, changes no field and leaves the picture as old as it was |
| SweepSafety.RemovedOnlyAfterGrace | images/controller/pkg/controller/lvm_logical_volume_gc.go:691-709 | If the cache holds older states of the server's objects, the live object's own deletion lies a whole grace period back |
| SweepSafety.NeverBothInOnePass | images/controller/pkg/controller/lvm_logical_volume_gc.go:473-483 | If a pass takes the finalizer off a snapshot and off a volume, no cached snapshot of that name and UID was taken from that volume |
| SweepVerdicts.AttemptExplains | images/controller/pkg/controller/lvm_logical_volume_gc.go:697-784 | Each reason of an attempt is given exactly when its cause holds: a list failed, the confirmed picture has a PersistentVolume, snapshot or VolumeSnapshotContent for the object, or the removal ended without the agent's finalizer, on a successor or in failure; nothing is announced or written unless no reason speaks against it |
| SweepVerdicts.ReclaimExplains | images/controller/pkg/controller/lvm_logical_volume_gc.go:651-709 | Which volumes are active, retained, blocked or waiting without an attempt, each exactly when; one inside its grace period asks to come back when that ends; all others are attempted |
| SweepVerdicts.ReclaimSnapshotExplains | images/controller/pkg/controller/lvm_logical_volume_gc.go:793-828 | The same for snapshots |
| SweepVerdicts.ReasonsAreTrue | images/controller/pkg/controller/lvm_logical_volume_gc.go:424-505 | Under any cache and in every environment, where the published picture says that a PersistentVolume, a snapshot or a VolumeSnapshotContent is in the way, the pass saw one: in an uncached list it read itself or among the cached snapshots |
| SweepVerdicts.ComesBackForGrace | images/controller/pkg/controller/lvm_logical_volume_gc.go:486-504 | Whatever is still inside its grace period when a pass ends, the pass asks to come back, after no more than was left of that period when it began |
| SweepVerdicts.NothingPendingNoDelay | images/controller/pkg/controller/lvm_logical_volume_gc.go:486-504 | With no grace period running and nothing put off, a pass asks for no delay of its own |
| SweepVerdicts.ThrottledExactly | images/controller/pkg/controller/lvm_logical_volume_gc.go:424-440 | A pass is turned away exactly while the last one that published ended less than the minimum interval ago, and asks for just what is left of it |
| SweepVerdicts.PublishedPassesAreApart | images/controller/pkg/controller/lvm_logical_volume_gc.go:424-485 | Two passes that publish are the minimum interval apart |
| SweepVerdicts.BudgetIsKept | images/controller/pkg/controller/lvm_logical_volume_gc.go:497-532 | A pass that put something off has counted it and spent its budget |
| SweepProgress.CalmPass | images/controller/pkg/controller/lvm_logical_volume_gc.go:424-532 | With a current cache, no other writers and working calls, a pass frees at least min(E, maxReclaims - K) objects, only eligible ones, and nothing else changes |
| Draining.BacklogDrains | images/controller/pkg/controller/lvm_logical_volume_gc.go:497-532 | After n such passes at most E - n * (maxReclaims - K) of E eligible objects are left |
| Draining.ChainGoesAway | images/controller/pkg/controller/lvm_logical_volume_gc.go:473-483 | Alternating passes and agent steps, a chain being deleted anywhere in a cluster keeps its order in every state, and until it is gone every round leaves the two parties less to do, so it is gone after as many rounds as there were objects and CSI finalizers; of the rest of the cluster only that nothing is inside its grace period and that held snapshots do not eat up the budget |
| Draining.EverythingGoesAway | images/controller/pkg/controller/lvm_logical_volume_gc.go:669-689 | In particular a cluster in which everything is being deleted empties |
| Draining.PassOnChain | images/controller/pkg/controller/lvm_logical_volume_gc.go:669-689 | A pass never frees a volume of the chain whose snapshots are still there, and if it frees nothing at all some object is the agent's to finish |
| SweepInputs.StrippingIsIdempotent | images/controller/pkg/controller/lvm_logical_volume_gc.go:1174-1194 | Stripping twice is stripping once |
| SweepInputs.StrippingKeepsReferences | images/controller/pkg/controller/lvm_logical_volume_gc.go:1063-1194 | Stripped PersistentVolumes give the same reference map |
| Collector.CachedPersistentVolume.Strip | images/controller/pkg/controller/lvm_logical_volume_gc.go:1174-1194 | The in-place edit is the specified stripping |
| SweepInputs.IgnoredUpdatesChangeNothing | images/controller/pkg/controller/lvm_logical_volume_gc.go:347-377 | A sweep over a cache that differs only in updates the predicates call unchanged, and in stripping, publishes the same picture and makes the same calls and writes |
| SweepInputs.OnlyInputsWake | images/controller/pkg/controller/lvm_logical_volume_gc.go:347-377 | An update that leaves alone the deletion, the finalizers, the status and what a sweep reads of the spec wakes nothing |
| SweepPicture.PictureIsComplete | images/controller/pkg/controller/lvm_logical_volume_gc.go:547-639 | Counts and bytes sum to the totals; the orphans listed are exactly the owned unreferenced volumes; a reason is given exactly when something is blocked |
| SweepPicture.CountsAreExact | images/controller/pkg/controller/lvm_logical_volume_gc.go:547-556 | For each phase and type the count and bytes are those of the cached volumes of that phase and type, and there is a line exactly if there is such a volume |
| SweepPicture.ClassesPartition | images/controller/pkg/controller/lvm_logical_volume_gc.go:558-583 | Every volume is exactly one of: without the driver's finalizer, with it and referred to by a PersistentVolume, with it and referred to by none |
| Monitoring.Recorder.SetLVMLogicalVolumeSweep | images/controller/pkg/monitoring/monitoring.go:519-591 | Whatever was exported before, afterwards exactly this sweep's series are |
| Monitoring.LastPictureDecides | images/controller/pkg/monitoring/monitoring.go:519-591 | Two groups that export the same picture are equal, so history leaves no trace |
| Monitoring.OrphanGaugesAreExact | images/controller/pkg/monitoring/monitoring.go:546-570 | There is a byte series for exactly the names, groups, types, states and reasons of the listed orphans, with the bytes of the last that has them |
| Monitoring.OrphanGaugesAddUp | images/controller/pkg/monitoring/monitoring.go:546-570 | The orphan gauges sum over the states to the number of orphans |
| Monitoring.SnapshotGaugesAreExact | images/controller/pkg/monitoring/monitoring.go:572-587 | The same for orphaned snapshots |
| Monitoring.SnapshotGaugesAddUp | images/controller/pkg/monitoring/monitoring.go:572-587 | The snapshot gauges sum over the states to the number of orphaned snapshots |
| Monitoring.StatesAreCounted | images/controller/pkg/monitoring/monitoring.go:546-570 | Each aggregate gauge is the number of listed orphans in its state |
| Monitoring.SnapshotStatesAreCounted | images/controller/pkg/monitoring/monitoring.go:565-584 | The same for snapshots, and each of their states has its gauge |
| LvgResolution.ResolveEffectiveLvgs | images/controller/pkg/controller/local_storage_class_watcher_func.go:71-124 | The loops over entries and LVMVolumeGroups compute the specified list or failure |
| LvgResolution.NamedListResolves | images/controller/pkg/controller/local_storage_class_watcher_func.go:71-124 | A list of names fails exactly on a repeated name and otherwise gives exactly its entries with their pools, strictly sorted |
| LvgResolution.SelectorListResolves | images/controller/pkg/controller/local_storage_class_watcher_func.go:71-133 | A list of selectors fails exactly on a malformed one or an LVMVolumeGroup matched with two pools, and otherwise gives exactly the matches, each once, strictly sorted |
| LvgResolution.SelectorOrderIsIrrelevant | images/controller/pkg/controller/local_storage_class_watcher_func.go:71-133 | Neither the order nor the repetition of selectors or LVMVolumeGroups matters |
| LvgResolution.NameOrderIsIrrelevant | images/controller/pkg/controller/local_storage_class_watcher_func.go:71-124 | The order of names does not matter, and the LVMVolumeGroups not at all |
| Names.SortedListingIsUnique | images/controller/pkg/controller/local_storage_class_watcher_func.go:119-121 | A set of targets has one strictly sorted listing |
| Names.SortSorts | images/controller/pkg/controller/local_storage_class_watcher_func.go:119-121 | Sorting by name loses and adds nothing |
| LvgResolution.OnlyLabelsMatter | images/controller/pkg/controller/local_storage_class_watcher.go:254-266 | Only names and labels of LVMVolumeGroups enter the effective list |
| ClassWatch.MapLvgChange | images/controller/pkg/controller/local_storage_class_watcher.go:232-252 | An LVMVolumeGroup event enqueues exactly the classes that use a selector |
| ClassWatch.LscUsesLabelSelector | images/controller/pkg/controller/local_storage_class_watcher_func.go:46-56 | True exactly if some entry has a selector |
| ClassWatch.NotEnqueuedUnaffected | images/controller/pkg/controller/local_storage_class_watcher.go:232-252 | A class not enqueued resolves to the same list whatever happened to the LVMVolumeGroups |
| ClassWatch.IgnoredLvgUpdateUnaffecting | images/controller/pkg/controller/local_storage_class_watcher.go:254-266 | An LVMVolumeGroup update the predicate drops changes no class's list |
| ClassWatch.IgnoredClassUpdateUnaffecting | images/controller/pkg/controller/local_storage_class_watcher.go:278-324 | A LocalStorageClass update the handler drops calls for the same list and the same StorageClass |
| StorageClasses.CheckScDiff | images/controller/pkg/controller/local_storage_class_watcher_func.go:400-490 | The comparison loops compute the specified verdict |
| ScComparison.DiffIsMapEquality | images/controller/pkg/controller/local_storage_class_watcher_func.go:400-490 | With each LVMVolumeGroup named once and a pool known on one side, no difference is found exactly when cleanup, filtered labels and the name-to-pool maps (names only for Thick) agree |
| ScComparison.OrderAndIgnoredLabelsNeverDiffer | images/controller/pkg/controller/local_storage_class_watcher_func.go:400-490 | LVMVolumeGroup order and labels under ignored prefixes never change the verdict |
| ScComparison.MapEqualityBoundary | images/controller/pkg/controller/local_storage_class_watcher_func.go:407-445 | With cleanup, labels and length equal the verdict is map equality exactly if the StorageClass repeats no name or names something the class does not call for |
| ScComparison.DiffIsInclusion | images/controller/pkg/controller/local_storage_class_watcher_func.go:400-446 | Repeated names or not, no difference means equal cleanup, labels and length and one-way inclusion |
| ScComparison.ComparisonFailsExactly | images/controller/pkg/controller/local_storage_class_watcher_func.go:424-440 | The comparison fails exactly for a Thin class where, after entries that agree, one has a pool neither in the StorageClass nor in the class |
| ScComparison.IgnoredIsPrefixed | images/controller/pkg/controller/local_storage_class_watcher_func.go:477-488 | A label is ignored exactly if its key begins with a non-empty prefix of the list, or is one |
| ScComparison.RepetitionHidesADifference | images/controller/pkg/controller/local_storage_class_watcher_func.go:415-443 | An instance: a StorageClass naming a twice is taken for one naming a and b |
| ScComparison.ConfiguredHasNoDiff | images/controller/pkg/controller/local_storage_class_watcher_func.go:643-712 | What the controller renders, it finds no difference in, whatever annotations it kept |
| ScComparison.ConfiguredIsCalledFor | images/controller/pkg/controller/local_storage_class_watcher_func.go:643-712 | The StorageClass rendered has the class's reclaim policy, binding mode, LVM type, cleanup, LVMVolumeGroups, its file system type or ext4, contiguous exactly if asked for, its labels but the ignored ones, and the controller's own label, annotation and finalizer |
| ScComparison.AnnotationsSurvive | images/controller/pkg/controller/local_storage_class_watcher_func.go:1212-1230 | Recreating keeps the annotations others put there and restores the controller's own |
| Validation.ValidateLocalStorageClass | images/controller/pkg/controller/local_storage_class_watcher_func.go:886-982 | Valid exactly if every demand holds: no foreign StorageClass, well-formed unmixed entries, no shared node, every LVMVolumeGroup and pool there |
| Validation.ValidateEntries | images/controller/pkg/controller/local_storage_class_watcher_func.go:905-945 | The entry loop accepts exactly well-formed, unmixed entries whose selectors match something |
| Validation.FindLvgsOnTheSameNode | images/controller/pkg/controller/local_storage_class_watcher_func.go:1068-1097 | Exactly the nodes reported more than once by the class's LVMVolumeGroups |
| ClassPlacement.SharesNodeExactly | images/controller/pkg/controller/local_storage_class_watcher_func.go:1068-1097 | A class shares a node exactly if some node is reported at two places of its groups |
| Validation.FindUnmanagedDuplicatedSc | images/controller/pkg/controller/local_storage_class_watcher_func.go:984-992 | Found exactly if another provisioner has a StorageClass of this name |
| Validation.FindNonexistentThinPools | images/controller/pkg/controller/local_storage_class_watcher_func.go:1005-1034 | Exactly the targets whose pool their LVMVolumeGroup does not report |
| Validation.FindNonexistentLvgs | images/controller/pkg/controller/local_storage_class_watcher_func.go:1052-1066 | Exactly the targets no LVMVolumeGroup has the name of |
| Validation.FindAnyThinPool | images/controller/pkg/controller/local_storage_class_watcher_func.go:994-1003 | Exactly the targets with a pool |
| Validation.CountLvgsMatchingSelector | images/controller/pkg/controller/local_storage_class_watcher_func.go:1036-1050 | Positive exactly if the selector parses and matches something |
| Admission.LscValidate | images/webhooks/handlers/lscValidator.go:53-146 | The webhook accepts exactly the classes with well-formed, unmixed entries and distinct, existing names |
| Admission.AcceptedNamesResolve | images/webhooks/handlers/lscValidator.go:74-146 | An accepted class of names always resolves, to a permutation of its entries |
| Admission.AdmissionAgrees | images/controller/pkg/controller/local_storage_class_watcher_func.go:886-982 | The controller finds a resolvable class valid exactly when the webhook accepts it and there is no foreign StorageClass, no shared node, no selector without a match and no missing pool |
| ReconcilerSafety.NeverOrphaned | images/controller/pkg/controller/local_storage_class_watcher_func.go:142-316 | Over any run of passes with users, failures and crashes at any call, in every state a managed StorageClass has its LocalStorageClass with a controller finalizer, and no step of the controller's changes another provisioner's StorageClass |
| ReconcilerSafety.AddFinalizerEffect | images/controller/pkg/controller/local_storage_class_watcher_func.go:861-884 | Whatever the retries met, "ensured" means the LocalStorageClass is held now |
| ReconcilerSafety.ReleaseScEffect | images/controller/pkg/controller/local_storage_class_watcher_func.go:1164-1210 | "Removed" means no controller finalizer, old spelling or new, is left on the StorageClass now, stale reads notwithstanding |
| ReconcilerSafety.DeleteManagedEffect | images/controller/pkg/controller/local_storage_class_watcher_func.go:1118-1134 | A delete that succeeds leaves no StorageClass of this provisioner, and no delete lets go of the LocalStorageClass |
| ReconcilerSafety.RecreateGood | images/controller/pkg/controller/local_storage_class_watcher_func.go:1099-1116 | Recreating keeps every invariant, also when it stops in the middle |
| ReconcilerReports.PassTellsTruth | images/controller/pkg/controller/local_storage_class_watcher_func.go:226-317 | In every environment, failures and crashes included: the Ready condition is turned true only in a state with a StorageClass of this provisioner that shows no difference to the class as the pass found it, and every StorageClass created is the one that class calls for in every field |
| ReconcilerReports.RunTellsTruth | images/controller/pkg/controller/local_storage_class_watcher.go:101-178 | The same over any run of passes |
| ReconcilerReports.ContentIsFulfilled | images/controller/pkg/controller/local_storage_class_watcher_func.go:226-317 | A pass over a class not being deleted neither fails nor asks to come back only if the StorageClass is there without a difference and the class says Created and Ready for the generation found, or did already and nothing was written |
| ReconcilerReports.FlagsMeanWhatTheySay | images/controller/pkg/controller/local_storage_class_watcher.go:101-178 | A failed pass always asks to come back, and one that comes back without having failed could not read the configuration |
| ReconcilerReports.RefusedRecreationIsReported | images/controller/pkg/controller/local_storage_class_watcher_func.go:296-305 | If anything is refused while the StorageClass is recreated the pass fails, asks to come back and never says that the class is ready |
| ReconcilerReports.RefusedRecreationIsRecorded | images/controller/pkg/controller/local_storage_class_watcher_func.go:296-305 | If only the recreation went wrong, Failed is recorded for the generation |
| ReconcilerReports.TakenNameIsLeftAlone | images/controller/pkg/controller/local_storage_class_watcher_func.go:550-616 | A name that is taken is left alone: nothing is created and the pass comes back without failing |
| ReconcilerTeardown.ContentTeardownIsComplete | images/controller/pkg/controller/local_storage_class_watcher_func.go:163-224 | A pass over a class being deleted neither fails nor asks to come back only if no StorageClass of this provisioner is left and the controller holds no class |
| ReconcilerPersistence.AddFinalizerPersists | images/controller/pkg/controller/local_storage_class_watcher_func.go:861-884 | Conflicts, from stale reads or from others' edits, do not keep the finalizer off the class if they end when the last attempt starts |
| ReconcilerPersistence.ReleaseClassPersists | images/controller/pkg/controller/local_storage_class_watcher_func.go:1164-1210 | Nor do they keep it on when the class is to be let go |
| ReconcilerPersistence.ReleaseScPersists | images/controller/pkg/controller/local_storage_class_watcher_func.go:1164-1210 | Nor on the StorageClass when that is to be deleted |
| ReconcilerPersistence.OtherFailuresEndTheLoops | images/controller/pkg/controller/local_storage_class_watcher_func.go:1164-1210 | Any other failure ends each of the loops at once |
| ReconcilerProgress.TeardownCompletes | images/controller/pkg/controller/local_storage_class_watcher_func.go:142-224 | Once undisturbed, one pass over a class being deleted removes the managed StorageClass and lets the class go, from whatever point earlier passes reached |
| ReconcilerProgress.TeardownCompletesAfterAnyRun | images/controller/pkg/controller/local_storage_class_watcher_func.go:163-195 | The same after any run from the initial state |
| ReconcilerProgress.SelfStabilises | images/controller/pkg/controller/local_storage_class_watcher_func.go:226-317 | Over a valid class one undisturbed pass reaches a StorageClass with the right LVMVolumeGroups, pools, labels and cleanup, without difference and Ready for the current generation, exactly if there was none or its parameters parse and hide no missing LVMVolumeGroup behind a repeated one; a StorageClass it puts there is right in every field and keeps others' annotations |
| ReconcilerProgress.RepetitionNeverHeals | images/controller/pkg/controller/local_storage_class_watcher_func.go:415-445 | A hidden missing LVMVolumeGroup stays hidden: every pass succeeds and leaves the StorageClass as it is |
| ReconcilerProgress.NoDifferenceNoRepair | images/controller/pkg/controller/local_storage_class_watcher_func.go:276-316 | Where no difference is seen a pass changes nothing about the StorageClass, not even the fields it does not compare, and reports it ready |
| ReconcilerProgress.DifferenceIsRepaired | images/controller/pkg/controller/local_storage_class_watcher_func.go:296-316 | Where one is seen, or there is no StorageClass, the one stored afterwards has every field the class calls for, also those not compared, and the annotations others had put there |
| ReconcilerProgress.SettledIsStable | images/controller/pkg/controller/local_storage_class_watcher_func.go:319-398 | From there a pass writes nothing |
| ReconcilerProgress.StaleReadyIsRenewed | images/controller/pkg/controller/local_storage_class_watcher_func.go:319-398 | Where the Ready condition is missing, false or about an earlier generation, a pass that finds no difference still writes it for this one |
| ReconcilerProgress.SettlesAfterAnyRun | images/controller/pkg/controller/local_storage_class_watcher_func.go:518-596 | After any run with any crash, one undisturbed pass settles a valid class and the next writes nothing |
| ReconcilerProgress.InvalidIsReported | images/controller/pkg/controller/local_storage_class_watcher_func.go:537-548 | An invalid class gets no StorageClass; the failure is reported for the generation looked at |
| ReconcilerProgress.UnparsableNeverHeals | images/controller/pkg/controller/local_storage_class_watcher_func.go:343-405 | Unreadable parameters fail every pass and stay |
| ClassController.Reconciler.EnsureFinalizer | images/controller/pkg/controller/local_storage_class_watcher_func.go:861-884 | The retry loop computes the specified state, copy and result |
| ClassController.Reconciler.RemoveControllerFinalizers | images/controller/pkg/controller/local_storage_class_watcher_func.go:1164-1210 | The same for removing every spelling from the LocalStorageClass |
| ClassController.Reconciler.RemoveControllerFinalizersFromSc | images/controller/pkg/controller/local_storage_class_watcher_func.go:1164-1210 | The same for the StorageClass |
| ClassController.DropControllers | images/controller/pkg/controller/local_storage_class_watcher_func.go:1184-1196 | Keeps exactly the others in order, and says whether anything was dropped |
| ReconcilerSafety.KeptInOrder | images/controller/pkg/controller/local_storage_class_watcher_func.go:1184-1196 | What is kept of two lists one after the other is what is kept of each, in order |
| ClassController.Reconciler.UpdateLocalStorageClassPhase | images/controller/pkg/controller/local_storage_class_watcher_func.go:730-841 | Finalizer first, then phase and Ready condition of the reconciled generation |
| ClassController.Reconciler.DeleteStorageClass | images/controller/pkg/controller/local_storage_class_watcher_func.go:1118-1134 | Refuses a foreign StorageClass, else releases and deletes |
| ClassController.Reconciler.RecreateStorageClass | images/controller/pkg/controller/local_storage_class_watcher_func.go:1099-1116 | Deletes, then creates, stopping at the first failure |
| ClassController.Reconciler.CreateStorageClassIfNotExists | images/controller/pkg/controller/local_storage_class_watcher_func.go:598-616 | Writes nothing if the list has the name, else creates |
| ClassController.Reconciler.AddFinalizerIfNotExistsForSc | images/controller/pkg/controller/local_storage_class_watcher_func.go:630-641 | Writes only if the finalizer is missing |
| ClassController.Reconciler.ReconcileCreate | images/controller/pkg/controller/local_storage_class_watcher_func.go:518-596 | The create pass, call by call, with its requeue and error |
| ClassController.Reconciler.ReconcileUpdate | images/controller/pkg/controller/local_storage_class_watcher_func.go:226-317 | The update pass likewise |
| ClassController.Reconciler.ReconcileDelete | images/controller/pkg/controller/local_storage_class_watcher_func.go:142-224 | The delete pass likewise, the Deleting condition last |
| ClassController.Reconciler.RunEventReconcile | images/controller/pkg/controller/local_storage_class_watcher.go:326-379 | Lists, resolves, identifies and dispatches |
| ClassController.Reconciler.Reconcile | images/controller/pkg/controller/local_storage_class_watcher.go:101-178 | The whole pass from its opening reads |
| NodeLabels.OnePassSettles | images/controller/pkg/controller/local_csi_node_watcher.go:111-239 | From any labels in which no LVMVolumeGroup of both a selected and a dropped labelled node is named or a candidate, one pass over all nodes in any order reaches a state where another, in any other order, writes nothing |
| NodeLabels.SettlesExactlyIfUncontested | images/controller/pkg/controller/local_csi_node_watcher.go:111-239 | After any two or more passes the next is idle exactly if no LVMVolumeGroup named by a class is on both a selected and an unselected node with the node label; otherwise it writes |
| NodeLabels.UncontestedBecomesUndisputed | images/controller/pkg/controller/local_csi_node_watcher.go:290-379 | One pass clears the candidate label from what is on both sides and named by nobody |
| NodeLabels.VisitFixes | images/controller/pkg/controller/local_csi_node_watcher.go:150-239 | A node's turn leaves nothing to do for that node, and a selected node's turn leaves no unjustified candidate class; the node label comes off exactly if the selector dropped the node and nothing on it is named by a class or a candidate, and the eviction label with it; nobody else's label changes |
| NodeLabels.VisitKeepsFixed | images/controller/pkg/controller/local_csi_node_watcher.go:290-422 | One node's turn does not undo another's |
| NodeLabels.FixedIsIdle | images/controller/pkg/controller/local_csi_node_watcher.go:150-239 | A node with nothing to do causes no update |
| NodeLabels.ContestedIsNeverIdle | images/controller/pkg/controller/local_csi_node_watcher.go:290-422 | No state leaves alone both nodes of an LVMVolumeGroup that a class names, one of them selected, the other not but still carrying the node label |
| NodeLabels.PassesKeep | images/controller/pkg/controller/local_csi_node_watcher.go:111-239 | Over any passes in any orders a node rid of the node label is rid of the eviction label, unless it carried that alone from the start, and nobody else's label on nodes, LVMVolumeGroups or classes changes |
| NodeLabels.VisitCountsChanges | images/controller/pkg/controller/local_csi_node_watcher.go:150-239 | A node's turn issues one update for each object it changes and none for any other |
| NodeLabels.MatchesExactly | images/controller/pkg/controller/local_csi_node_watcher.go:153-160 | A node is selected exactly if it carries each of the selector's labels with its value |
| NodeWatcher.Watcher.ClearManualEvictionLabelsIfNeeded | images/controller/pkg/controller/local_csi_node_watcher.go:290-379 | Clears the node, its LVMVolumeGroups and the classes that have recovered, one update each |
| NodeWatcher.Watcher.GetManuallyEvictedLvgsAndLscs | images/controller/pkg/controller/local_csi_node_watcher.go:381-422 | Exactly the node's LVMVolumeGroups that are named or already candidates, and the classes naming one |
| NodeWatcher.Watcher.DrainOrRelease | images/controller/pkg/controller/local_csi_node_watcher.go:162-239 | Releases the node if nothing depends on it, else marks it and what does |
| NodeWatcher.Watcher.MarkLvgs | images/controller/pkg/controller/local_csi_node_watcher.go:211-222 | Labels exactly those without the label, one update each |
| NodeWatcher.Watcher.MarkLscs | images/controller/pkg/controller/local_csi_node_watcher.go:224-235 | The same for classes |
| NodeWatcher.Watcher.ReconcileLocalCsiLabels | images/controller/pkg/controller/local_csi_node_watcher.go:150-239 | Visits every node in order |
| NodeWatcher.Watcher.LabelNodesWithLocalCsiIfNeeded | images/controller/pkg/controller/local_csi_node_watcher.go:459-477 | Labels every selected node without the label |
| NodeWatcher.Watcher.ReconcileLocalCsiNodes | images/controller/pkg/controller/local_csi_node_watcher.go:111-148 | Labels the selected nodes, then visits all |
| Sizing.AlignIsLeastMultiple | images/sds-local-volume-csi/pkg/utils/func.go:365-373 | The int64 formula gives the least multiple not below the size exactly if the sum neither overflows nor is negative by a broken extent |
| Sizing.AlignedIsLeastMultiple | images/sds-local-volume-csi/pkg/utils/func.go:365-373 | For a non-negative size without overflow it does, and fits an int64 |
| Sizing.AlignIsIdempotent | images/sds-local-volume-csi/pkg/utils/func.go:365-373 | Aligning twice is aligning once exactly when there is room, and always for an extent dividing 2^63 |
| Sizing.AlignTwiceCanOverflow | images/sds-local-volume-csi/pkg/utils/func.go:365-373 | A size where aligning twice overflows |
| Sizing.AlignIsMonotone | images/sds-local-volume-csi/pkg/utils/func.go:365-373 | A larger size aligns to no less |
| Sizing.OverflowAlignsToNothing | images/sds-local-volume-csi/pkg/utils/func.go:365-373 | An overflowing size aligns to zero or less |
| Sizing.SafeExtentSize | images/sds-local-volume-csi/pkg/utils/func.go:381-386 | The extent used is always positive: the one reported, or 4 MiB where that is not |
| Placement.GetStorageClassLvgsAndParameters | images/sds-local-volume-csi/pkg/utils/func.go:455-495 | The class's LVMVolumeGroups in list order and the pool of each |
| Placement.GetNodeWithMaxFreeSpace | images/sds-local-volume-csi/pkg/utils/func.go:388-412 | The running maximum, with its failures and the panic on a group without a node |
| Placement.GetThinPoolFreeSpace | images/sds-local-volume-csi/pkg/utils/func.go:434-448 | The first pool of the name, or failure |
| Placement.PickIsMaximum | images/sds-local-volume-csi/pkg/utils/func.go:388-412 | What it returns is the maximum over the class and some group's |
| Placement.PickSucceeds | images/sds-local-volume-csi/pkg/utils/func.go:388-412 | It succeeds if pools exist and every group with free space reports a node |
| Placement.FindLvg | images/sds-local-volume-csi/pkg/utils/func.go:546-556 | The first group whose first node is the one asked for |
| Placement.FindLvgByName | images/sds-local-volume-csi/pkg/utils/func.go:558-565 | The first group of the name |
| Placement.FindLvgByActualName | images/sds-local-volume-csi/pkg/utils/func.go:567-575 | The first group of the node and actual name |
| Placement.SelectedHasMostFree | images/sds-local-volume-csi/pkg/utils/func.go:388-412 | With no node first in two groups, the group selected has the free space compared, the most in the class |
| Placement.ValidatedClassIsOneEach | images/controller/pkg/controller/local_storage_class_watcher_func.go:1068-1097 | What the controller's shared-node check establishes is what placement relies on |
| Placement.ValidClassPlacesOnMostFree | images/sds-local-volume-csi/driver/controller.go:270-294 | For a class the controller found valid, Immediate binding compares with the free space of the group it uses |
| Placement.OneEachExactlyIfCompared | images/sds-local-volume-csi/pkg/utils/func.go:388-412 | For every distribution of free space the amount compared is that of the group used, exactly if no node comes first in two groups of the class |
| Placement.SharedNodeMisplaces | images/sds-local-volume-csi/pkg/utils/func.go:546-556 | With a node first in two groups, free space in the later one only is compared with while the earlier one is used |
| Placement.PickIsFirstMax | images/sds-local-volume-csi/pkg/utils/func.go:388-412 | The node picked is that of the first group with the most free space |
| ClassPlacement.SelectionsAreFirst | images/sds-local-volume-csi/pkg/utils/func.go:546-575 | The three selections return exactly the first group by first node, by name, and by node and name on the node |
| ClassPlacement.ClassLvgsInOrder | images/sds-local-volume-csi/pkg/utils/func.go:474-490 | The class's groups keep the order of the list |
| VolumeOutcomes.PickFailsForAReason | images/sds-local-volume-csi/pkg/utils/func.go:388-412 | Picking fails only for a thin pool that is not there and panics only for a group with free space and no node, and so does planning an empty volume |
| ClassPlacement.PoolsAreExact | images/sds-local-volume-csi/pkg/utils/func.go:467-472 | Each name of the class has the pool its last entry gives it |
| ClassPlacement.FreeSpaceIsExact | images/sds-local-volume-csi/pkg/utils/func.go:388-448 | Free space is the group's for thick, the first pool's of the name the class gives for thin, failing if there is none, and nothing for any other type |
| ClassPlacement.ValidEntriesAreWellFormed | images/controller/pkg/controller/local_storage_class_watcher_func.go:905-945 | Every entry of a valid class has exactly one of a name and a selector, and a pool exactly if the class is Thin |
| ClassPlacement.ValidTargetsAreThere | images/controller/pkg/controller/local_storage_class_watcher_func.go:1052-1066 | Each LVMVolumeGroup of a valid class is one placement finds |
| ClassPlacement.ValidClassCanBePicked | images/controller/pkg/controller/local_storage_class_watcher_func.go:1005-1034 | Over a valid class whose groups all report a node, picking one does not fail: the pools it looks up are the ones the controller found there |
| Volumes.WaitForStatusUpdate | images/sds-local-volume-csi/pkg/utils/func.go:303-352 | The polling loop over any finite run of polls |
| Volumes.AwaitedIsEnough | images/sds-local-volume-csi/pkg/utils/func.go:335-345 | A volume is only returned Created, not being deleted and at least as large as the aligned size, as some poll saw it |
| VolumeOutcomes.AwaitsReadiness | images/sds-local-volume-csi/pkg/utils/func.go:303-352 | Waiting returns a volume exactly if some poll shows it Created, not being deleted and large enough, and every poll before could be read and showed no status, or neither deletion nor failure nor readiness |
| Volumes.CreateVolume | images/sds-local-volume-csi/driver/controller.go:101-394 | All branches of source, placement, size, space check, creation and wait, with their codes; what was there already keeps its own group and size while the new choice is reported |
| Volumes.PlannedSize | images/sds-local-volume-csi/driver/controller.go:178-307 | Stores the aligned request, or the source's size for a copy without one; copies are thin and never smaller than their source; the group is one of the class's |
| Volumes.PlannedPlace | images/sds-local-volume-csi/driver/controller.go:178-311 | A copy lands in its source's own volume group and node; an empty volume on the node picked or preferred, and an Immediate thick one fits a group of the class on that node |
| VolumeOutcomes.ProvisionedExactlyIfReady | images/sds-local-volume-csi/driver/controller.go:332-361 | A planned volume is reported exactly if it was created or there already and becomes ready, with the size really there; otherwise it is deleted again |
| VolumeOutcomes.CopyPlannedExactly | images/sds-local-volume-csi/driver/controller.go:164-265 | A copy is planned exactly if it is thin, its source is complete and in one of the class's groups and the size asked for, if any, holds it; out of range is a size that does not, and nothing else |
| VolumeOutcomes.LatePlannedExactly | images/sds-local-volume-csi/driver/controller.go:282-312 | Without Immediate binding an empty volume is planned exactly if the class has a group on the node the scheduler prefers, whatever its space |
| VolumeOutcomes.ImmediatePlannedExactly | images/sds-local-volume-csi/driver/controller.go:266-312 | With Immediate binding, no node in two groups and some space free: always for thin, for thick exactly if the aligned size fits the group with the most |
| VolumeOutcomes.RefusalsExplain | images/sds-local-volume-csi/driver/controller.go:101-320 | Nothing is planned for a malformed request, and every refusal is for a reason of its kind |
| VolumeOutcomes.WellFormedIsPlannedAsItsKind | images/sds-local-volume-csi/driver/controller.go:101-320 | A well-formed request is planned over exactly the listed groups the class names |
| Volumes.CreateReportsEnough | images/sds-local-volume-csi/driver/controller.go:347-361 | The capacity reported covers the least multiple not below the request, and the source, for a new volume and for one that was there already; a new one stores the planned size in the group reported, an existing one keeps its own |
| Volumes.RetryFollowsStored | images/sds-local-volume-csi/driver/controller.go:332-361 | A retry reports the size the existing volume really has, and if that is too small for the new request it fails and has the existing volume deleted |
| Volumes.RetryReportsPlace | images/sds-local-volume-csi/driver/controller.go:332-390 | A retried Immediate create reports the node and group the existing volume is on exactly if that group is now the first with the most free space |
| Volumes.ControllerExpandVolume | images/sds-local-volume-csi/driver/controller.go:496-573 | All branches of expansion, with what spec.size is afterwards |
| Volumes.ExpandReportsEnough | images/sds-local-volume-csi/driver/controller.go:519-573 | The capacity covers the aligned request and the former size; the raw request is what is stored |
| VolumeOutcomes.ExpandedExactlyIfReady | images/sds-local-volume-csi/driver/controller.go:519-573 | An expansion succeeds exactly if the volume is large enough already, or its new size fits - asked of thick volumes only -, is stored and is made; too little room is refused before anything is stored |
| Volumes.OverflowPassesEveryCheck | images/sds-local-volume-csi/driver/controller.go:73-79 | An overflowing request fits any free space and is satisfied by any Created volume |
| ThickLedger.LedgerHolds | images/sds-local-volume-csi/driver/controller.go:270-311 | Over any sequence of thick creates and expansions what a group reports as allocated stays the sum of its volumes and at most its size, and the volumes are whole extents and never shrink |
| ThickLedger.PlannedFits | images/sds-local-volume-csi/driver/controller.go:270-311 | A planned create fits the very group it goes to |
| ThickLedger.ExpandedFits | images/sds-local-volume-csi/driver/controller.go:523-549 | A successful expansion fits what is left of its group |
| DriverRemoval.Driver.RemoveLlvFinalizerIfExist | images/sds-local-volume-csi/pkg/utils/func.go:577-620 | The bounded loop over full updates, re-reading on conflict |
| DriverRemoval.Driver.DeleteFirst | images/sds-local-volume-csi/pkg/utils/func.go:579-586 | Cuts the first occurrence out of the list in place |
| DriverRemoval.DropFirstDropsOne | images/sds-local-volume-csi/pkg/utils/func.go:579-586 | One CSI finalizer less, everybody else's kept in order |
| DriverRemoval.DriverDropsOnlyItsOwn | images/sds-local-volume-csi/pkg/utils/func.go:577-620 | In every interleaving each update that lands takes one CSI finalizer off the version read and nothing else, and at most three land |
| DriverRemoval.DriverPersists | images/sds-local-volume-csi/pkg/utils/func.go:577-620 | A conflict does not end the loop: the finalizer comes off if the disturbance is over at the last re-read |
| DriverRemoval.OtherFailuresEndTheLoop | images/sds-local-volume-csi/pkg/utils/func.go:590-606 | Any other failure, and a conflict past the deadline, ends it with an error after one call |
| DeviceMapper.TwoReplacementsEncode | images/sds-local-volume-csi/pkg/utils/node_store_manager.go:255-264 | The two replacements amount to one encoding character by character |
| DeviceMapper.DecodeInverts | images/sds-local-volume-csi/pkg/utils/node_store_manager.go:255-264 | The name can be read back exactly when no slash is followed by a slash or a hyphen |
| DeviceMapper.MapperPathsDiffer | images/sds-local-volume-csi/pkg/utils/node_store_manager.go:255-264 | Two different devices on such paths never share a mapper path |
| DeviceMapper.VolumePath | images/sds-local-volume-csi/pkg/utils/node_store_manager.go:255-264 | The mapper path of /dev/group/volume is /dev/mapper/ and the two names with doubled hyphens, joined by one; nothing outside /dev has a mapper path |
| DeviceMapper.OtherPathsCollide | images/sds-local-volume-csi/pkg/utils/node_store_manager.go:255-264 | Every other path shares its mapper path with a plain one |
| DeviceMapper.CheckMount | images/sds-local-volume-csi/pkg/utils/node_store_manager.go:266-293 | Accepts exactly if the first mount at the target is the device, by either name, and read-only if asked |
| DeviceMapper.MountedRightExactly | images/sds-local-volume-csi/pkg/utils/node_store_manager.go:266-293 | The first mount at the target decides, and it must be the device under either name, and read-only if asked |
| DeviceMapper.MountCheckTellsDevicesApart | images/sds-local-volume-csi/pkg/utils/node_store_manager.go:266-293 | What is mounted under one device's mapper name is not taken for another device |

## Left out

- Informers, work queues, leader election and the gRPC and HTTP servers; a pass is one call, and passes over different LocalStorageClasses are independent.
- ClassServer: one name at a time, with at most one LocalStorageClass and one StorageClass.
- NodeLabels.OnePassSettles: failing calls and writes by others during a pass; entries that select LVMVolumeGroups by label, which this code does not look at.
- ClassController.Reconciler.UpdateLocalStorageClassPhase: messages, reasons and the copy of the status kept for the phase and ready gauges.
- Volumes.CreateVolume: the volume context, topology segments and mount options of the response; deleting the volume after a failed wait is recorded, its calls are modelled in DriverRemoval only as far as the finalizer goes.
- Volumes.WaitForStatusUpdate: the context deadline is the end of the sequence of polls.
- ScComparison.ConfiguredIsCalledFor: the `type` parameter and allowVolumeExpansion, which are the same for every StorageClass, and the copy of the binding mode among the parameters.
- DriverRemoval.Driver.RemoveLlvFinalizerIfExist: the twin loop for snapshots is the same code and not repeated.
- Collector.GarbageCollector.RunSweep: the per-pass timeout appears as calls that fail or as an expired context; the counters of removals are not modelled.
- Rendering and reading of YAML, of quantities and of label selectors.
- Mounting, formatting, resizing and block devices in the node service, which are calls into the host; hooks, the StorageClass and pod webhooks and the release scripts, which share no state with the protocols above.
