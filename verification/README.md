# Verification of the advanced StatefulSet controller

The advanced StatefulSet runs pods at numbered ordinals and, unlike the builtin one, lets
a user scale in at any ordinal by listing it in the `delete-slots` annotation. This project
models the controller's decisions in Dafny and proves what they guarantee: the arithmetic
that turns replicas and slots into ordinals, one sync of a set, whole runs of syncs beside
pods that fail, terminate and vanish, the revision history, pod identity and storage, and
the upgrade of a builtin set. `dafny verify dfyconfig.toml` checks everything.

| module | what it holds |
|---|---|
| `Slots`, `Names` | delete-slot arithmetic in 32 bits and as a least fixed point; pod and claim names, printed and parsed |
| `Pods`, `Planning` | what a sync sees; what it does, as a plan: its API calls in order and how it ends |
| `Reconcile` | the sync itself: loops over an array of replicas, a status object whose counters change in place, early returns, API calls that may fail; proved to execute the plan |
| `StepSafety`, `Demands`, `Completion`, `Conservation` | what one sync may do, what it has to do, when an update is declared complete, and whether the reported status is true |
| `History`, `Cluster`, `Specs` | resolving and truncating revisions; a whole sync: revisions, pods, status, history; what it makes of the set's spec |
| `Machine`, `Partition`, `Livelock`, `Relapse` | the cluster as a state machine (syncs with failures at any call, pod changes, removals, spec edits) and what holds in every run, or can happen in some |
| `Convergence`, `Unpartitioned`, `Outsider` | rounds of syncs that reach the goal, with a partition and without, and a stray pod that keeps them from it |
| `Identity`, `PodControl` | pods and their volumes repaired in place; claims, creation, and the update loop with its retries |
| `Upgrade`, `Adoption`, `Blockade`, `Handover` | the upgrade as API calls that may stop anywhere, the controller's adoption of what it leaves, when adoption is stuck for good, and all of it in any order |

## How the pieces fit

`Reconcile.UpdateStatefulSet` follows the source statement by statement. Its postcondition
says which calls it makes under every pattern of API failures, as `Planning.Executes` of
`Planning.SyncPlan`, and which status it computes. The plan is a recursive description of
the four phases (`Planning.PhasePlan`) without arrays, counters or failures, cut short where
a pod cannot be built; the properties are proved about it and hold for every failure pattern
because a failing sync makes an initial part of the plan's calls. `Demands` says on the
snapshot, without the recursion, which calls a plan holds and in which order.
`Cluster.UpdateStatefulSet` is specified in the same way for a sync with its revisions and its
status write (`Cluster.Ran`), and `Machine.Step` takes any such sync as a step.

A sync without API failures need not be deterministic: `sort.Sort` may order pods of equal
ordinal either way, so the order of the condemned pods is an input (`CondemnedOrder`), as is
the iteration order of every Go map and the order of every listing.

## What the code needs

Each of these is a hypothesis of the results that use it; where a result is an equivalence,
the hypothesis is the exact condition.

- Slots are non-negative. A slot of -1 adds a replica (`Slots.NegativeSlotAddsReplica`), and the
  number of wanted ordinals is right if and only if no slot is negative (`Slots.WantedExactly`).
- The bound on ordinals fits in an int32. Otherwise the counter wraps around, and the sync
  panics when it makes its slice.
- A partition is not negative. A negative one makes the update loop run off the slice when
  the set is up to date (`StepSafety.NegativePartitionPanics`).
- A RollingUpdate block has a partition. Defaulting fills it in for type RollingUpdate only
  (pkg/apis/apps/v1/defaults.go:28-33), so an OnDelete set can have an empty block, and building
  its first pod reads the partition through a nil pointer (`StepSafety.EmptyBlockPanics`). The
  same happens when a failed pod is to be replaced and when the rolling update starts.
- If a pod is unhealthy, some unhealthy pod has an ordinal below MaxInt32. The scan for the first unhealthy pod starts
  at MaxInt32 with a strict comparison, so it finds none otherwise and the log line that
  follows dereferences nil (`StepSafety.LargestOrdinalPanics`). `StepSafety.CrashExactly` shows
  that a modelled sync crashes in these four cases and no others.
- No pod has the name of the successor of a failed pod that the sync gets to. This is exactly
  what every call needs to find its pod and every creation its name free
  (`Conservation.SyncFitsExactly`); distinct ordinals suffice (`Conservation.DistinctSuffice`). "web-0"
  and "web-00" share an ordinal, and a failed "web-00" makes the sync create the existing "web-0"
  (`Conservation.SameOrdinalCollides`).
- For the progress of updates and for convergence, every pod is one of the set's own, under the name of an
  ordinal (`Conservation.Orderly`). The number in "web-4294967296" does not fit an int32: no sync touches such a pod,
  yet it counts as a current replica, and without a partition the update can delete "web-0" and
  build it at the old revision for ever (`Outsider.IgnoredPodLivelocks`).
- For the counters: no failed pod to replace is terminating while at one of the two revisions,
  and the pod the rolling update gets to is at the current revision (`Conservation.StatusExact`
  states both on the snapshot; `Conservation.TerminatingMiscounted` is an example).
- For the progress of an update without a partition: the sync that deletes a pod stores its
  status, or the stored count of current replicas was low enough before. Otherwise there is a
  run in which the pod comes back at the old revision (`Relapse.ComesBackExactly`).
- For the history limit: the revisions to delete and those to keep share no name, and those to
  keep have no duplicates (`History.TruncationExact`). A revision listed twice can go below the
  limit (`History.DuplicatesOvertruncate`) or fail the deletion, and after an upgrade each
  handed-over revision is listed twice (`Adoption.HandedOverListing`). Nothing else that is proved
  about runs needs lists without duplicates.
- A set's name is a single line, since the pattern that parses pod names stops at a newline.

## Where the code differs from its documentation

- `getParentNameAndOrdinal` is documented to give an empty parent and ordinal -1 for a pod that no
  StatefulSet created. It goes by the name alone, and the name printed for ordinal -1 reads as
  ordinal 1 of another set (`Names.NegativeOrdinalMisparsed`).
- In `newVersionedStatefulSetPod`, `&&` binds tighter than `||`: a set with strategy OnDelete and a
  RollingUpdate block still uses the current revision below that block's partition, and only there
  (`StepSafety.OnDeleteBuilds`, `StepSafety.OnDeletePartitioned`).
- `UpdateStatefulPod` retries with the lister's copy of the pod. If the lister does not find it, the
  retry looks at the pod repaired in memory, finds nothing to change and reports success
  although its update was refused (`PodControl.LostUpdate`; `PodControl.SuccessKept` says when a
  success means what it should).
- `completeRollingUpdate` is documented to clear the update revision and the count of updated
  replicas. It changes the current revision and count only (`Cluster.StoredStatus`).
- The v1alpha1 helper removes unused slots from its caller's set; a later scale-out from that
  set may differ (`Slots.InPlaceScaleOutDiffers`; `Slots.InPlaceScaleOut` says when).
- `Upgrade` is documented to take the selector's labels off the revisions, but it removes only
  `matchLabels` keys. With match expressions alone the builtin set is deleted while revisions
  still match (`Upgrade.ExpressionsDoNotDetach`); `Upgrade.Detaches` is the exact condition.
- `Upgrade` is called idempotent. It crashes on every attempt if its selector reaches a revision
  without labels, whose label map is nil (`Upgrade.Unlabelled`).
- `adoptOrphanRevisions` fails whenever an orphan is listed beside an owned revision, so a partial
  adoption blocks the syncs of the set until a call that fails has adopted the last orphan
  (`Adoption.PartialAdoptionPersists`). For a live set whose selector parses, no calls can bring that
  about if and only if the selector reaches an owned revision and will not reach some orphan
  (`Blockade.SettlesExactly`), as when it rejects the mark of the upgrade (`Handover.HandOverSettles`).

## Model

| member | source | states |
|---|---|---|
| Slots.MaxCount | pkg/apis/apps/v1/helper/helper.go:74-88 | the bound is the least r with r = replicas + the number of slots below r |
| Slots.GetMaxReplicaCountAndDeleteSlots | pkg/apis/apps/v1/helper/helper.go:74-88 | the greedy 32-bit loop over sorted slots returns that least fixed point and exactly the slots below it; if it does not fit, the counter wraps to the least integer and exactly the least slots that drove it there are kept |
| Slots.GetMaxReplicaCountAndDeleteSlotsInPlace | pkg/apis/apps/v1alpha1/helper/helper.go:73-83 | the in-place variant returns the same bound and leaves in the caller's set only the slots below it |
| Slots.GetPodOrdinals | pkg/apis/apps/v1/helper/helper.go:94-103 | the wanted ordinals are the naturals below the bound that are not slots; none on overflow |
| Slots.GetMaxPodOrdinal | pkg/apis/apps/v1/helper/helper.go:105-114 | the greatest wanted ordinal, -1 if there is none or on overflow, and the bound less one for non-negative slots |
| Slots.GetMinPodOrdinal | pkg/apis/apps/v1/helper/helper.go:116-125 | the least wanted ordinal, MaxInt32 if there is none or on overflow |
| Slots.LeastRoomy | pkg/apis/apps/v1/helper/helper.go:74-88 | every bound with room for the replicas besides its slots is at least the computed one |
| Slots.WantedSize | pkg/apis/apps/v1/helper/helper.go:94-103 | the set wants one ordinal per replica and one more per negative slot |
| Slots.WantedExactly | pkg/apis/apps/v1/helper/helper.go:94-103 | it wants exactly `replicas` ordinals if and only if no slot is negative |
| Slots.NegativeSlotAddsReplica | pkg/apis/apps/v1/helper/helper.go:74-103 | one replica with slot -1 gives ordinals 0 and 1 |
| Slots.WantedSmallest | pkg/apis/apps/v1/helper/helper.go:94-103 | the wanted ordinals are the smallest naturals outside the slots |
| Slots.TopIsWanted | pkg/apis/apps/v1/helper/helper.go:105-114 | with non-negative slots the bound less one is itself wanted |
| Slots.ScaleInExact | README.md:87-90 | adding K wanted ordinals to the slots and lowering replicas by the size of K removes exactly K |
| Slots.ScaleOutAbove | pkg/apis/apps/v1/helper/helper.go:74-103 | raising replicas under fixed slots keeps every ordinal and only adds above all of them |
| Slots.KeptSlotsSuffice | pkg/apis/apps/v1/helper/helper.go:74-88 | the returned slots alone give the same bound and ordinals |
| Slots.InPlaceScaleOut | pkg/apis/apps/v1alpha1/helper/helper.go:73-83 | a scale-out from the mutated set agrees with the original one if and only if no dropped slot is below the new bound |
| Slots.InPlaceScaleOutDiffers | pkg/apis/apps/v1alpha1/helper/helper.go:73-83 | slot 1 dropped at one replica gives ordinals 0 and 1 at two replicas instead of 0 and 2 |
| Names.ParsePodName | pkg/controller/statefulset/stateful_set_utils.go:56-90 | what parsing a generated name yields, for every set name and every ordinal, negative ones included |
| Names.ParseRoundTrip | pkg/controller/statefulset/stateful_set_utils.go:56-90 | the name parses back to set and ordinal if and only if the set name is one line and the ordinal is between 0 and MaxInt32 |
| Names.NegativeOrdinalMisparsed | pkg/controller/statefulset/stateful_set_utils.go:56-90 | the name printed for ordinal -1 is another set's pod name and parses as ordinal 1 |
| Names.LeadingZero | pkg/controller/statefulset/stateful_set_utils.go:56-73 | a name with a leading zero in its number has the same ordinal as the generated name |
| Names.PodNameInjective | pkg/controller/statefulset/stateful_set_utils.go:88-90 | pod names are injective over set and ordinal |
| Names.ClaimNameInjective | pkg/controller/statefulset/stateful_set_utils.go:94-97 | claim names are injective over template and ordinal within a set |
| Names.ClaimNamesEqual | pkg/controller/statefulset/stateful_set_utils.go:94-97 | across sets two claim names are equal if and only if the ordinals are and either template and set are the same or one set's name is the other's behind a prefix that ends the other template's name |
| Names.ClaimNamesClashAcrossSets | pkg/controller/statefulset/stateful_set_utils.go:94-97 | template "data-a" of set "b" and template "data" of set "a-b" share every claim name |
| Names.ValueSnoc | pkg/controller/statefulset/stateful_set_utils.go:61-73 | one more digit multiplies the number by ten and adds the digit |
| Names.DigitsSnoc | pkg/controller/statefulset/stateful_set_utils.go:88-90 | the last digit printed is the remainder by ten, after those of the quotient |
| Names.AllTenDigits | pkg/controller/statefulset/stateful_set_utils.go:88-90 | 1234567890 is printed as it is written |
| Pods.ObserveOneMore | pkg/controller/statefulset/stateful_set_control.go:306-323 | how one more listed pod is counted, and that counting starts at zero |
| Planning.LastListedWins | pkg/controller/statefulset/stateful_set_control.go:324-328 | of several pods with one ordinal the last listed one is the replica |
| Planning.CondemnedConcat | pkg/controller/statefulset/stateful_set_control.go:329-332 | the condemned pods are collected in listing order, each as often as it is listed |
| Planning.FirstFoundWins | pkg/controller/statefulset/stateful_set_control.go:301-375 | of several unhealthy pods with the least ordinal below MaxInt32 the first one is found |
| Reconcile.StatusRecord.CompleteRollingUpdate | pkg/controller/statefulset/stateful_set_utils.go:377-384 | the status becomes current = update exactly when all replicas are updated and ready |
| Reconcile.SortByOrdinal | pkg/controller/statefulset/stateful_set_control.go:351 | an ascending permutation |
| Reconcile.Split | pkg/controller/statefulset/stateful_set_control.go:306-334 | the listing fills the replicas, the condemned pods and the counters as the plan's definitions say |
| Reconcile.CreateMissing | pkg/controller/statefulset/stateful_set_control.go:336-349 | a new pod at every wanted ordinal without one, and nothing else changes; it panics exactly if one is to be built and the partition is missing |
| Reconcile.FindFirstUnhealthy | pkg/controller/statefulset/stateful_set_control.go:353-385 | the unhealthy count is positive iff some pod is unhealthy, and the pod found is the plan's |
| Reconcile.ReplaceFailed | pkg/controller/statefulset/stateful_set_control.go:399-421 | a failed replica is deleted, uncounted and replaced by a new pod in place, unless the call fails or the partition is missing |
| Reconcile.CreateReplica | pkg/controller/statefulset/stateful_set_control.go:423-433 | a replica is created and counted, unless the call fails |
| Reconcile.RunReplica | pkg/controller/statefulset/stateful_set_control.go:397-472 | one replica's calls, and whether an ordered sync goes on past it |
| Reconcile.RunReplicas | pkg/controller/statefulset/stateful_set_control.go:394-473 | the replica loop makes the replica phase's calls, keeps the counters, and stops or goes on as planned |
| Reconcile.RunScaleDown | pkg/controller/statefulset/stateful_set_control.go:475-519 | likewise the scale-down loop |
| Reconcile.RunUpdate | pkg/controller/statefulset/stateful_set_control.go:521-558 | likewise the rolling update loop, with its panics on a missing and on a negative partition |
| Reconcile.UpdateStatefulSet | pkg/controller/statefulset/stateful_set_control.go:268-559 | a sync executes the plan up to the first API failure and, if it returns, its status accounts for every call |
| StepSafety.CallsLicensed | pkg/controller/statefulset/stateful_set_control.go:397-558 | every call has its reason: creations at wanted ordinals without a pod or with a failed one, scale-down deletions of condemned pods, update deletions at or above the partition |
| StepSafety.OrderedStepSafety | pkg/controller/statefulset/stateful_set_control.go:391-519 | an ordered sync creates and deletes at one ordinal at most; a creation implies all wanted pods below are healthy; a scale-down deletion is at the highest condemned ordinal with all wanted pods healthy, and an unready victim is the only unhealthy pod |
| StepSafety.RollingStepSafety | pkg/controller/statefulset/stateful_set_control.go:479-558 | at most one update deletion, as the last call, never below the partition, with every wanted pod above it healthy and updated; in an ordered set nothing is condemned and all are healthy |
| StepSafety.OrderedRefinesParallel | pkg/controller/statefulset/stateful_set_control.go:391-558 | on one snapshot and under the same failures, an ordered sync's calls are a prefix of a parallel sync's |
| StepSafety.CrashExactly | pkg/controller/statefulset/stateful_set_control.go:298-558 | a sync without API failures panics if and only if the count wrapped, the scan has its blind spot, a negative partition meets an updated set, or a missing partition is read |
| StepSafety.LargestOrdinalPanics | pkg/controller/statefulset/stateful_set_control.go:351-385 | a set scaled to zero panics while its pod of the largest ordinal is pending |
| StepSafety.NegativePartitionPanics | pkg/controller/statefulset/stateful_set_control.go:526-534 | an empty set with partition -1 panics |
| StepSafety.EmptyBlockPanics | pkg/controller/statefulset/stateful_set_utils.go:263-266 | an OnDelete set with an empty RollingUpdate block panics before its first pod |
| StepSafety.OnDeleteBuilds | pkg/controller/statefulset/stateful_set_utils.go:263-274 | a pod built under OnDelete is at the update revision if and only if there is no partition above its ordinal |
| StepSafety.OnDeletePartitioned | pkg/controller/statefulset/stateful_set_utils.go:263-274 | an OnDelete set with partition 1 builds its first pod at the old revision |
| StepSafety.FailedDeleted | pkg/controller/statefulset/stateful_set_control.go:397-408 | a failed pod is deleted if and only if it is at a wanted ordinal that the replica loop reaches |
| StepSafety.OutdatedDeleted | pkg/controller/statefulset/stateful_set_control.go:521-545 | a pod is deleted for the update if and only if the update is reached and the pod is outdated, live, at or above the partition and below updated pods only |
| Demands.RepairedExactly | pkg/controller/statefulset/stateful_set_control.go:434-471 | a pod is repaired if and only if it is the pod of a wanted ordinal the sync gets to, lives, has not failed, and lacks the set's identity or storage; an ordered sync gets past unhealthy pods to none |
| Demands.CreatedExactly | pkg/controller/statefulset/stateful_set_control.go:336-433 | a pod is created if and only if the sync gets to its wanted ordinal and none is listed there, or a failed one, or one yet to be created |
| Demands.CondemnedExactly | pkg/controller/statefulset/stateful_set_control.go:475-519 | a parallel sync deletes every condemned pod that is not terminating; an ordered one the last of them if all wanted pods are healthy and it is ready or the first that is not |
| Demands.OutdatedExactly | pkg/controller/statefulset/stateful_set_control.go:521-558 | a pod is deleted for the update if and only if its ordinal is at or above the partition, it is outdated and not terminating, all wanted ordinals above are done, and an ordered set is healthy with nothing condemned |
| Demands.CallsInOrder | pkg/controller/statefulset/stateful_set_control.go:394-558 | wanted ordinals upwards, a failed pod's deletion before its successor's creation, then condemned ordinals downwards, then the update |
| Demands.CompletesExactly | pkg/controller/statefulset/stateful_set_utils.go:377-384 | a returning sync completes the update if and only if all listed pods are live, ready and updated and, unless the set is being deleted, are the wanted ones |
| Completion.CompletionSound | pkg/controller/statefulset/stateful_set_utils.go:377-384 | if a sync succeeds and completes the update, the pods are exactly the wanted ones, live, ready and updated, and the sync created and deleted nothing |
| Completion.ReplicasNeverShrink | pkg/controller/statefulset/stateful_set_control.go:397-433 | a successful sync never reports fewer replicas than pods were listed |
| Conservation.ListingCounts | pkg/controller/statefulset/stateful_set_control.go:306-334 | the counters of a complete listing are the cluster's |
| Conservation.SyncFits | pkg/controller/statefulset/stateful_set_control.go:397-558 | without a collision every call of a sync finds the pod as listed or as just created, and every name it creates free |
| Conservation.SyncFitsExactly | pkg/controller/statefulset/stateful_set_control.go:397-558 | all calls of a sync fit if and only if no other pod has the name of a reached failed pod's successor, or the sync panics |
| Conservation.DistinctSuffice | pkg/controller/statefulset/stateful_set_control.go:324-328 | without duplicate ordinals there is no collision |
| Conservation.SyncConserves | pkg/controller/statefulset/stateful_set_control.go:306-558 | the reported status differs from a fresh observation of the cluster exactly by the miscounted calls |
| Conservation.StatusBounds | pkg/controller/statefulset/stateful_set_control.go:306-433 | the reported replicas are the pods left, that is the listed pods and the creations that replace no failed pod, and no more are ready |
| Conservation.StatusExact | pkg/controller/statefulset/stateful_set_control.go:399-545 | the reported status is true if and only if the snapshot has no reached failed pod that is terminating at one of the two revisions, and the pod the update reaches is not at a third one |
| Conservation.CallsExact | pkg/controller/statefulset/stateful_set_control.go:399-545 | the same in terms of the calls made |
| Conservation.StatusRight | pkg/controller/statefulset/stateful_set_control.go:306-558 | without failed and terminating pods and with all pods at the two revisions the status is true |
| Conservation.TerminatingMiscounted | pkg/controller/statefulset/stateful_set_control.go:312-320 | a failed terminating pod that is replaced leaves a reported count of current replicas one too low |
| Conservation.SameOrdinalCollides | pkg/controller/statefulset/stateful_set_control.go:324-328 | with a failed "web-00" listed after "web-0" the sync creates the existing "web-0" |
| Conservation.NamesRead | pkg/controller/statefulset/stateful_set_utils.go:56-90 | the controller's parser meets the hypothesis on names used above |
| History.UpdateRevisionIs | pkg/controller/statefulset/stateful_set_control.go:198-242 | the newest revision if it records the template, else the last that does, renumbered, else a new one with the next number |
| History.EqualConcat | vendor/k8s.io/kubernetes/pkg/controller/history/controller_history.go:137-145 | the equal revisions are collected in listing order, each as often as it is listed |
| History.RecordUpdate | pkg/controller/statefulset/stateful_set_control.go:211-245 | the stored revisions change in the update revision only, reused, renumbered or new; it fails if and only if there is something to write and that call fails |
| History.FindCurrent | pkg/controller/statefulset/stateful_set_control.go:243-255 | the first listed revision the status names, or else the update revision |
| History.GetStatefulSetRevisions | pkg/controller/statefulset/stateful_set_control.go:198-257 | the two revisions of a sync and the store it leaves, under every API failure, and exactly when it succeeds |
| History.TruncateHistory | pkg/controller/statefulset/stateful_set_control.go:159-190 | exactly the oldest non-live revisions beyond the limit are deleted, in order, up to an API failure or to one that comes again; it succeeds if and only if there is neither |
| History.NextNumberIs | pkg/controller/statefulset/stateful_set_utils.go:353-359 | one more than the greatest number, or 1 |
| History.NonLiveConcat | pkg/controller/statefulset/stateful_set_control.go:171-178 | the non-live revisions keep order and multiplicity |
| History.UpdateKeepsTidy | pkg/controller/statefulset/stateful_set_control.go:198-245 | distinct numbers and templates stay distinct, and the update revision has the greatest number |
| History.RevisionReused | pkg/controller/statefulset/stateful_set_control.go:211-245 | a revision is reused if and only if the template is already recorded |
| History.TruncationExact | pkg/controller/statefulset/stateful_set_control.go:159-190 | on every sorted list nothing live is deleted, none kept is older than one deleted, and min(limit, non-live names) non-live names are kept if and only if no more are listed or the cut is clean |
| History.DistinctCutsCleanly | pkg/controller/statefulset/stateful_set_control.go:159-190 | on a list without duplicates every cut is clean |
| History.DuplicatesOvertruncate | pkg/controller/statefulset/stateful_set_control.go:123-190 | a revision listed twice is deleted although the limit allows it |
| Cluster.SyncPods | pkg/controller/statefulset/stateful_set_control.go:268-298 | slots, then the sync of the pods: calls and status of the goal derived from spec and stored status |
| Cluster.WriteStatus | pkg/controller/statefulset/stateful_set_control.go:564-585 | the completed status is stored unless it is not news; it fails if and only if there is news and the write fails |
| Cluster.StoredStatus | pkg/controller/statefulset/stateful_set_utils.go:361-384 | after a successful write the stored counters and revisions are those of the sync, completed if all replicas are updated and ready, and the generation is not older |
| Cluster.UpdateStatefulSet | pkg/controller/statefulset/stateful_set_control.go:78-121 | a whole sync leaves revisions, calls and status as the state machine's sync step demands, and which stage it gets to and whether it succeeds is decided by the API failures alone, call by call |
| Specs.GoalOrdinals | pkg/controller/statefulset/stateful_set_control.go:293-334 | if the bound fits, a sync wants exactly the ordinals that replicas and delete slots ask for, condemns every other natural one, and takes policy, strategy and the rest from the spec |
| Specs.WrappedCountPanics | pkg/controller/statefulset/stateful_set_control.go:293-299 | if it does not fit, a sync panics before any call |
| Specs.SyncWithinSpec | pkg/controller/statefulset/stateful_set_control.go:391-558 | creations are at ordinals asked for, scale-down deletions at others, update deletions at or above the spec's partition, and a set being deleted is left alone |
| Specs.ParallelSyncDoes | pkg/controller/statefulset/stateful_set_control.go:394-519 | a returning sync of a parallel set has created all missing pods, replaced the failed ones, deleted all live pods at ordinals not asked for and repaired the others |
| Specs.SyncTruncates | pkg/controller/statefulset/stateful_set_control.go:159-190 | a sync that truncates to the end leaves at most historyLimit revisions that it and the listed pods do not use, the newest ones |
| Machine.SyncOrigins | pkg/controller/statefulset/stateful_set_control.go:397-558 | every pod after a sync was there before at the same revision or was created by it |
| Machine.StoreAfterSync | pkg/controller/statefulset/stateful_set_control.go:78-190 | a sync records its update revision and deletes neither its two revisions nor a listed pod's |
| Machine.CoherentStep | pkg/controller/statefulset/stateful_set_control.go:78-257 | every step keeps each pod's revision stored |
| Machine.AnchoredStep | pkg/controller/statefulset/stateful_set_control.go:78-257 | every step keeps the stored current revision stored |
| Machine.TidyStep | pkg/controller/statefulset/stateful_set_control.go:198-257 | every step keeps numbers and templates distinct |
| Machine.HistoryNeverStrands | pkg/controller/statefulset/stateful_set_control.go:78-257 | in every run each pod's revision stays stored, and once the status names a stored current revision it always does |
| Machine.BookkeepingHolds | pkg/controller/statefulset/stateful_set_control.go:198-257 | in every run numbers and templates stay distinct, and a finished sync's update revision records the template with the greatest number |
| Partition.NeverCompletes | pkg/controller/statefulset/stateful_set_utils.go:377-384 | with a wanted ordinal below the partition at the old revision no sync completes the update |
| Partition.HeldStep | pkg/controller/statefulset/stateful_set_utils.go:263-274 | every step keeps the pods below the partition at the current revision |
| Partition.PartitionSafety | pkg/controller/statefulset/stateful_set_control.go:527-558 | over every run, failures, deletions and edits that keep partition and template included, the pods below the partition stay at the current revision |
| Livelock.DeletionAdvances | pkg/controller/statefulset/stateful_set_control.go:532-545 | after an update deletion that took effect, whatever its reply, the stored count and all pods of the old revision are at or below the victim's ordinal if and only if the sync's status was stored or the count was low enough before |
| Livelock.AdvancedStep | pkg/controller/statefulset/stateful_set_utils.go:263-274 | every step keeps that, spec edits that keep template and strategy included |
| Livelock.NoLivelock | pkg/controller/statefulset/stateful_set_control.go:532-545 | in every run from there with such edits a live pod at the ordinal is at the update revision, and the count stays at or below it until the update completes |
| Relapse.OldCreated | pkg/controller/statefulset/stateful_set_utils.go:263-274 | a fault-free sync builds a missing pod below the stored count at the old revision |
| Relapse.AdvancedStays | pkg/controller/statefulset/stateful_set_utils.go:263-274 | from an advanced state no run builds a pod at the old revision at that ordinal |
| Relapse.ComesBackExactly | pkg/controller/statefulset/stateful_set_control.go:532-545 | after an update deletion that took effect some run brings the ordinal back at the old revision if and only if the status was not stored and the stored count is above the ordinal |
| Convergence.RoundConverges | pkg/controller/statefulset/stateful_set_control.go:394-558 | a round brings the cluster closer by exactly its creations and deletions, makes some unless the goal is reached, and then none |
| Convergence.GoalReached | pkg/controller/statefulset/stateful_set_control.go:394-558 | the distance is zero if and only if the pods are the wanted ones and, unless the strategy is OnDelete, those at or above the partition are updated |
| Convergence.Convergence | pkg/controller/statefulset/stateful_set_control.go:394-558 | the goal is reached in at most as many rounds as the initial distance and kept, whatever the policy of each round |
| Unpartitioned.UnpartitionedRound | pkg/controller/statefulset/stateful_set_control.go:394-558 | without a RollingUpdate block, for pods at any revisions, a round lowers a cost, which counts a missing pod that may come back old three times, by at least its creations and deletions, keeps the stored count no higher than the pods at the old revision, and changes nothing only at cost zero |
| Unpartitioned.UnpartitionedConvergence | pkg/controller/statefulset/stateful_set_control.go:394-558 | from any settled state, after a first round the goal is reached in at most as many rounds as the cost and kept |
| Unpartitioned.NoCostIsGoal | pkg/controller/statefulset/stateful_set_control.go:394-558 | the cost is zero if and only if the pods are the wanted ones, all updated |
| Unpartitioned.OldFewer | pkg/controller/statefulset/stateful_set_control.go:527-545 | after an update deletion fewer pods are at the old revision than the ordinal of the deleted one |
| Outsider.IgnoredPodLivelocks | pkg/controller/statefulset/stateful_set_control.go:306-334 | with a pod of the old revision whose number is too large, two rounds delete the only replica and build it again at the old revision, which leads back to the start |
| Unpartitioned.StoredNext | pkg/controller/statefulset/stateful_set_control.go:78-121 | in the state machine a stored status leads to the goal of the next round |
| Identity.CheckStorage | pkg/controller/statefulset/stateful_set_utils.go:115-134 | true if and only if every claim template's volume refers to this ordinal's claim |
| Identity.GetPersistentVolumeClaims | pkg/controller/statefulset/stateful_set_utils.go:139-156 | one claim for each template, under the pod's ordinal |
| Identity.UpdateStorage | pkg/controller/statefulset/stateful_set_utils.go:161-183 | for every map order: the claims' volumes, then the other volumes in their order; the storage matches if and only if the pod has an ordinal |
| Identity.LastVolumeWins | pkg/controller/statefulset/stateful_set_utils.go:120-123 | of several volumes with one name the last one is checked |
| Identity.OthersConcat | pkg/controller/statefulset/stateful_set_utils.go:176-181 | the other volumes keep order and multiplicity |
| Identity.ClaimsComeFirst | pkg/controller/statefulset/stateful_set_utils.go:161-183 | the claims' volumes come first |
| Identity.UpdateIdentity | pkg/controller/statefulset/stateful_set_utils.go:194-201 | the identity matches afterwards if and only if the pod had an ordinal and the set's name is one line; the labels change in the pod-name label only |
| Identity.RepairedName | pkg/controller/statefulset/stateful_set_utils.go:105-110 | which generated names belong to the set |
| Identity.NewStatefulSetPod | pkg/controller/statefulset/stateful_set_utils.go:251-257 | a new pod has identity, storage, hostname and subdomain of its set, the labels of its template and the template's volumes behind those of its claims |
| Identity.InitIdentity | pkg/controller/statefulset/stateful_set_utils.go:185-191 | hostname and subdomain follow from the repaired identity |
| Identity.SetPodRevision | pkg/controller/statefulset/stateful_set_utils.go:234-240 | the revision label is set, also on a pod without labels, and all others stay |
| Identity.NewVersionedStatefulSetPod | pkg/controller/statefulset/stateful_set_utils.go:263-274 | the pod built is what the sync's plan calls the new pod, with the labels and volumes of the template that its revision label names; it panics if and only if the block lacks its partition |
| PodControl.ClaimsApart | pkg/controller/statefulset/stateful_set_utils.go:139-156 | different templates have different claims |
| PodControl.EnsureClaim | pkg/controller/statefulset/stateful_pod_control.go:181-196 | when one claim is obtained, and when it is created |
| PodControl.CreatePersistentVolumeClaims | pkg/controller/statefulset/stateful_pod_control.go:179-200 | no error if and only if every claim is obtained; the others are attempted all the same, whatever the map order |
| PodControl.CreateStatefulPod | pkg/controller/statefulset/stateful_pod_control.go:73-87 | the pod is submitted if and only if all its claims were obtained, which are then available; which claims are created |
| PodControl.RepairPod | pkg/controller/statefulset/stateful_pod_control.go:91-117 | one attempt changes nothing if the pod is consistent and otherwise sets identity or storage, whichever is wrong, and nothing else; with right storage no claim is touched, with wrong storage it succeeds if and only if every claim is obtained |
| PodControl.UpdateStatefulPod | pkg/controller/statefulset/stateful_pod_control.go:89-134 | every pod submitted is the given one, then the lister's copy, repaired; there are at most four, each after a conflict; it fails if and only if it meets four conflicts or another error, or cannot obtain the claims of a pod with wrong storage; exactly which claims are created |
| PodControl.FreshClaimsCreated | pkg/controller/statefulset/stateful_pod_control.go:179-200 | without failures and with a cache up to date exactly the missing claims are created and all exist afterwards |
| PodControl.UncachedClaimRefused | pkg/controller/statefulset/stateful_pod_control.go:179-200 | a claim that exists but is not in the cache yet cannot be obtained |
| PodControl.RepairedConforms | pkg/controller/statefulset/stateful_pod_control.go:91-112 | a repaired pod has the set's identity and storage |
| PodControl.SuccessKept | pkg/controller/statefulset/stateful_pod_control.go:114-128 | a success means an accepted update or nothing left to change if and only if nothing was refused or the lister has the pod |
| PodControl.LostUpdate | pkg/controller/statefulset/stateful_pod_control.go:114-128 | for any pod that needs repair, a conflict and a lister without the pod make the call succeed with nothing written |
| PodControl.UnlabelledNeedsRepair | pkg/controller/statefulset/stateful_set_utils.go:105-110 | a pod without labels is one that needs repair |
| Upgrade.RequirementsMean | pkg/apis/apps/v1/helper/upgrade.go:45-48 | what the four kinds of match expressions admit |
| Upgrade.ParsesExactly | pkg/apis/apps/v1/helper/upgrade.go:45-48 | a selector parses if and only if each of its requirements can be met and missed |
| Upgrade.UpgradedRevisions | pkg/apis/apps/v1/helper/upgrade.go:58-116 | what a complete upgrade makes of each revision: match labels off, mark on, other labels kept, and no owner if it was the builtin set |
| Upgrade.UpgradedSets | pkg/apis/apps/v1/helper/upgrade.go:70-116 | the builtin set is gone, the advanced set has its spec and status, its metadata if new, and no other set changes |
| Upgrade.MarkedRevisionMatches | pkg/apis/apps/v1/helper/upgrade.go:45-62 | a marked revision escapes the selector if and only if the selector detaches |
| Upgrade.UnlabelledSelector | pkg/apis/apps/v1/helper/upgrade.go:58-62 | only a selector that asks for no label reaches the revisions whose marking crashes |
| Upgrade.MarkLabels | pkg/apis/apps/v1/helper/upgrade.go:59-62 | the labels lose the selector's keys and gain the mark |
| Upgrade.MarkRevisions | pkg/apis/apps/v1/helper/upgrade.go:58-67 | some of the matching revisions are marked, all of them if the loop completes |
| Upgrade.Upgrade | pkg/apis/apps/v1/helper/upgrade.go:44-116 | wherever it stops, the objects are those of some stage; without API failures it completes if and only if the selector parses and reaches no revision without labels, and crashes if and only if it parses and reaches one |
| Upgrade.AttemptKeepsGoal | pkg/apis/apps/v1/helper/upgrade.go:44-116 | a complete upgrade after a stopped one ends where it would have ended at first |
| Upgrade.CrashSafe | pkg/apis/apps/v1/helper/upgrade.go:32-36 | any number of stopped attempts and a complete one end in the state of one uninterrupted upgrade |
| Upgrade.NeverRemovedEarly | pkg/apis/apps/v1/helper/upgrade.go:38-43 | over any attempts the builtin set is gone only once the new set has spec and status, and no revision matches the selector exactly if it detaches; no revision is deleted |
| Upgrade.ExpressionsDoNotDetach | pkg/apis/apps/v1/helper/upgrade.go:49-62 | with match expressions only, a revision still matches when the builtin set is gone |
| Adoption.ListControllerRevisions | vendor/k8s.io/kubernetes/pkg/controller/history/controller_history.go:219-234 | the matching revisions that are orphans or the set's own, each once |
| Adoption.ListRevisions | pkg/controller/statefulset/stateful_set_control.go:123-139 | what the selector reaches, followed by what bears the mark |
| Adoption.SyncLabels | pkg/controller/statefulset/stateful_set.go:331-341 | the template's labels are written over the revision's unless it has changed since it was read |
| Adoption.SyncAll | pkg/controller/statefulset/stateful_set.go:357-364 | the marked revisions are synced one by one; without API failures all succeed if and only if no stale one comes again |
| Adoption.RepeatsAreListedTwice | pkg/controller/statefulset/stateful_set_control.go:123-139 | the concatenation repeats exactly the revisions in both listings |
| Adoption.AdoptListed | pkg/controller/statefulset/stateful_set_control.go:141-152 | the orphans before the first owned revision are adopted, and an owned one fails the call |
| Adoption.AdoptOrphanRevisions | pkg/controller/statefulset/stateful_set.go:344-375 | without API failures it succeeds if and only if there is no orphan, or nothing but orphans, no stale revision listed twice and the set still there; then every listed revision is synced and owned; a call that stops has synced the labels of the first listed revisions and, if of all, adopted the first of those before any owned one |
| Adoption.AdoptionSettles | pkg/controller/statefulset/stateful_set.go:344-375 | a successful adoption leaves no orphan, lists what it listed, and again does nothing |
| Adoption.SettledRevisions | pkg/controller/statefulset/stateful_set.go:320-375 | what a successful adoption makes of each revision, listed or not |
| Adoption.SuccessorIsLive | pkg/controller/statefulset/stateful_set.go:366-373 | the set an upgrade leaves passes the check for the set's identity |
| Adoption.PartialAdoptionPersists | pkg/controller/statefulset/stateful_set.go:344-375 | once an owned revision is listed beside orphans, calls fail until one of them has adopted the last orphan |
| Blockade.BlockedStays | pkg/controller/statefulset/stateful_set.go:344-375 | once the selector reaches an owned revision and will not reach some orphan, no call succeeds or changes that |
| Blockade.ReplacedAdoptsNothing | pkg/controller/statefulset/stateful_set.go:366-372 | a set that is gone or replaced under its name adopts nothing |
| Blockade.SettlesExactly | pkg/controller/statefulset/stateful_set.go:344-375 | some calls leave no orphan if and only if there is none, or the selector parses, the set is still there and it is not blocked like that |
| Adoption.UpgradeOrphans | pkg/apis/apps/v1/helper/upgrade.go:44-116 | after an upgrade every revision the builtin set reached is an orphan the advanced set lists, and it lists only orphans |
| Adoption.HandedOverMatches | pkg/controller/statefulset/stateful_set.go:331-341 | with the template's labels the selector reaches the revision again if and only if it does not reject the mark |
| Adoption.HandOver | pkg/controller/statefulset/stateful_set.go:320-375 | stopped or not, an upgrade with a detaching selector is followed by a successful adoption after which every old revision is owned, carries the template's labels and is listed, twice unless the selector rejects the mark |
| Adoption.ListingFits | pkg/controller/statefulset/stateful_set_control.go:123-139 | what ListRevisions returns, sorted, is a listing of the set's revisions as the syncs of the state machine take it, duplicates included |
| Adoption.HandedOverListing | pkg/controller/statefulset/stateful_set_control.go:123-139 | after the hand-over this listing holds every old revision, and has duplicates unless the selector rejects the mark |
| Handover.InterleavedHandOver | pkg/apis/apps/v1/helper/upgrade.go:44-116 | whatever attempts, adoption calls and new revisions of the controller come in whatever order, once the builtin set is gone its successor has spec and status and lists every old revision, and a successful adoption then leaves it owning them |
| Handover.HandOverSettles | pkg/controller/statefulset/stateful_set.go:344-375 | after that, with no other orphans, adoption can still be completed if and only if it is complete, or the selector parses, the set is there, and the selector does not both reject the mark and reach an owned revision |
| Handover.ArrivedBeyond | pkg/controller/statefulset/stateful_set.go:331-341 | the selector will never reach a handed-over revision if and only if it rejects the mark |
| Handover.SettledProgresses | pkg/controller/statefulset/stateful_set.go:344-375 | a successful adoption is one of the calls that may come between |

## Left out

- The work queue, informer handlers, leader election, events, logging, configuration and the generated clients.
- Pod claiming and release in stateful_set.go: a sync is given the set's pods.
- Stale caches: a sync lists the pods and the revisions as they are.
- Conversion between API types (hijack.go) and the JSON of the delete-slots annotation.
- Templates are opaque values: getPatch, ApplyRevision and the hash in a revision's name are not modelled, and two revisions are equal if their templates are.
- CreateControllerRevision's search for a free name: the name of a new revision is a free one given from outside, and the collision count does not change.
- The order of revisions with equal numbers, which the source breaks by creation time.
- The retries of the status updater: a status write succeeds or fails as a whole.
- 32-bit overflow of the status counters.
- An API error on a call to the pods stands for a call without effect or with effect in the runs of Machine; in Reconcile only its report matters.
- In Conservation a failed pod that is deleted is gone before its successor is created, as both have the same name; in the runs of Machine a deleted pod may also linger.
- UpdateStatefulPod succeeding is one Update call in a sync; PodControl models its attempts.
- Convergence.Convergence: leaves type RollingUpdate without a block to Unpartitioned.UnpartitionedConvergence. With strategy OnDelete it is about missing and superfluous pods only, as updating is up to the user.
- Machine.HistoryNeverStrands: assumes complete listings of pods and revisions, as stale caches are not modelled.
- Conservation.SyncConserves: is about syncs without a collision, as are StatusBounds, CallsExact and StatusExact; SyncFitsExactly says that the calls of any other sync do not all fit.
- Identity.GetPersistentVolumeClaims: gives the names of the claims, not their namespace and labels.
- Upgrade.Upgrade: does not cover pods, which the deletion orphans as it does revisions.
- Upgrade deletes the builtin set and strips its owner references in one step; the garbage collector does the latter just before the object goes.
- Concurrent writers between two calls of one upgrade attempt or one adoption; Handover interleaves whole calls. Revisions deleted for the history limit between them.
- Label values and selectors are checked only for match expressions that lack their values.
- Claim labels, and sharing of label maps between objects in memory.
- The deletion of claims, which the controller never does, and pod deletion beyond the call itself.
