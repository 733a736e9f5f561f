# A verified model of es-operator

es-operator runs Elasticsearch on Kubernetes. An `ElasticsearchDataSet` (EDS) describes a
StatefulSet of Elasticsearch nodes. One loop of the operator (operator/operator.go) brings the
StatefulSet to the desired size and replaces outdated Pods one at a time; a second loop, the
autoscaler (operator/autoscaler.go), decides from shard counts, CPU samples and disk usage how many
nodes and index replicas there should be. The autoscaler hands its decisions to the first loop
through `spec.replicas` and an annotation on the EDS (operator/elasticsearch.go), and both use a
client for Elasticsearch (operator/es_client.go).

The project models these parts in Dafny and proves what they promise, over every input of a call and
over every run of the two loops with failing calls, restarts and interference between any two calls.

`dafny verify dfyconfig.toml` verifies everything.

## Modules

| module | what it models |
|---|---|
| Base, Sequences, Text | option type, sorting and permutations, `strings.Split`, `strings.Join`, `sort.Strings` |
| Rounding | the shard-to-node arithmetic and its exact integer meaning |
| Autoscaler, DecisionMeaning | settings, validation, `scaleUpOrDown` as methods with loops, and the decision as a function and in numbers alone |
| VisitingOrder, OperationEffect, AutoscalerRuns | map order; what an operation does to a cluster; repeated autoscaling |
| Metrics | `scalingHint`, the stored CPU samples and their pruning, `calculateMedian` |
| Pods | Pod order, update priorities, the slice of a scale-down |
| ControlLoop, Traces | both loops as one transition system: one step per API call, compare-and-set updates, failures |
| RolloutSafety, CycleOrder | what a rolling update leaves ready; what a cycle waits for, its order, and every change of the size |
| ScaleInSafety, DrainingMarks | what a scale-in has drained; which Pods are marked |
| Publishing | what the autoscaler writes, from the decision to the annotation and the recorded times |
| HandoffSafety, HandoffProgress | the annotation: what is sent and removed when, and that every operation is carried out |
| SizeSafety, UnsetReplicas, Cooldown | the bounds of the size over all runs and exactly when they hold; the cool-down between changes |
| RolloutProgress, RolloutTermination, Recovery, CooperativeRuns | the kinds of cycle; every run that cooperates in the end finishes the rollout; such runs exist from every cluster at rest |
| Scenarios | runs that show where conditions are needed |
| Operator | the operator loop as imperative code: what each method did when it returns nil, and why it returns an error |
| AutoscalerLoop | `scaleEDS` as imperative code |
| ExcludeList | the exclude list in the cluster settings as strings, and as the set it stands for |
| Labels | printing and parsing a label map |
| OperatingTable | the table of running loops, their one-shot done tokens, and the lock |

`Operator` and `AutoscalerLoop` are the code in its own form: methods that change the stored objects
call by call. `ControlLoop` states the same steps as relations, so that invariants can be proved step
by step. How the calls of a cycle turn out is a parameter of the cycle, and between any two calls
others may take any steps of their own. A method of `Operator` records the run it is part of; its
contract names the steps it took (`Steps`), the state it leaves when it returns nil, and, when it
returns an error, that the last step is a failure where a call failed or something stood in the way
(`FailedRightly`). `Operate` sums this up for a whole cycle (`Completed`) and `Run` for any number.

## Assumptions

- Ratios are exact real numbers where the code uses float64. The nudge of 0.00001 then equals an
  integer formula for up to 100000 nodes; `RaisedRatioIsNext` and `LoweredRatioIsPrevious` say
  exactly when it does for any count.
- Integers do not overflow 32 bits; settings meet the minima of the custom resource definition;
  every index has at least one primary and its name is unique.
- An update succeeds only on the resource version it was read at; annotating and deleting a Pod go
  by name. The StatefulSet is neither resized nor deleted by others.
- The status of the StatefulSet counts the Pods that are ready now. The Pod cache shows every mark the
  operator has made and, of a marked Pod that has a node, that it has one; otherwise it may be as stale
  as it likes. Nobody else marks Pods, and a marked Pod that has a node keeps it.
- One operator instance runs. A drain that returned nil counts as drained.
- Times are readings of one monotone clock in seconds.

## Where the code does less than it seems to

Each of these is a theorem with the exact condition or a concrete run.

- `ensureBoundsNodeReplicas` returns 1 for a request below 1 even when minReplicas is larger
  (`EnsureBoundsRange`). With valid settings no such request is made (`NodeTargetInRange`).
- Within the shard limit and with an index below the minimum and another above the maximum, the
  direction of the correcting operation depends on the order in which Go visits the map; in every
  other case it does not (`DirectionDependsOnOrder`).
- Without spec.replicas the desired count follows the reported size, so every Pod of a rolling
  update adds a node for good (`UnsetSpecRatchets`), and the size passes every bound, maxReplicas
  included. It stays in range if and only if spec.replicas is set (`SizeIsBoundedExactly`), as it is
  from the first operation of the autoscaler on.
- The Pod to update is marked by name. If it was recreated and has no node yet, the next cycle does
  not consider it and marks a second Pod (`TwoMarksAfterStrayMark`). A step makes a second mark if
  and only if it marks an unmarked Pod while one that was marked and had no node when this one was
  selected is still there (`SecondMarkExactly`), and a run keeps at most one Pod marked if and only if
  it takes no such step (`AtMostOneDraining`).
- When the desired count rises or is unset while Pods are drained for a scale-in, the draining loop
  gives up with nil and its caller still sets the smaller size (`AbortedDrainStillShrinks`). Every Pod
  of the slice is drained or Pending by then if and only if no reading of the settings on the way
  found them so changed with an undrained Pod still to do (`ShrinkFollowsDraining`).
- After a scale-in that carried out an operation, the final hook works on an older copy of the EDS.
  It sends the same operation again, and its removal of the annotation then fails; that cycle ends
  with an error (`HookRuns`), which does not hold up the rest (`OperationIsCarriedOut`).
- Pruned samples can give a hint that is neither NONE nor that of the full history, UP for DOWN, if and
  only if (`HintsMisleadExactly`) the window for DOWN is longer than that for UP and than one sample,
  and some usage meets both conditions: one strictly between the boundaries or, when UP needs no
  samples, one below the boundary of DOWN.
- After a deletion, or an update that takes ownership away, the entry of the operating table stays
  although its loop's only token is spent. The next event for that EDS blocks for ever and keeps
  the lock (`NextEventReturns`).
- A label map survives printing and parsing exactly when it is not empty and holds no separator
  (`RoundTrip`); the empty map comes back as one label with an empty key.
- Excluding a Pod whose IP is still empty returns nil and excludes nothing (`IpsOfOne`,
  `ExcludeInserts`).

## Model

| member | source | states |
|---|---|---|
| Rounding.RatioComparisons | operator/autoscaler.go:306-309 | the ratio comparisons are the cross-multiplied integer comparisons |
| Rounding.RaisedRatioIsNext | operator/autoscaler.go:434-436 | exactly when rounding up the nudged ratio gives the next whole ratio; always for up to 100000 nodes |
| Rounding.LoweredRatioIsPrevious | operator/autoscaler.go:443-448 | exactly when rounding down the nudged ratio gives the previous whole ratio; always for up to 100000 nodes |
| Rounding.NudgeTooCoarse | operator/autoscaler.go:443-448 | with 100001 nodes and 100002 shards the divisor of the scale-out formula is zero |
| Rounding.SameRatioMeaning | operator/autoscaler.go:428-432 | the least node count that keeps the ratio, which counts as at least one |
| Rounding.IncreasedNodesMeaning | operator/autoscaler.go:443-449 | the least node count above the current one that lowers the shards on the fullest node; no division by zero |
| Rounding.DecreasedNodesMeaning | operator/autoscaler.go:434-441 | at least one and, from two nodes on, fewer than now; the least count with at most one shard per node more than the whole ratio, capped at one node less |
| Rounding.KeepRatioUp | operator/autoscaler.go:350-353 | adding a replica everywhere never asks for fewer nodes, and the new nodes hold all shards at the ratio limit |
| Rounding.KeepRatioDown | operator/autoscaler.go:389-390 | removing replicas never asks for more nodes, at least one is left, and they hold all shards |
| Autoscaler.EnsureBoundsRange | operator/autoscaler.go:248-272 | the clamp meets the range if and only if the request is positive or minReplicas is one; then it is the nearest value of the range |
| Autoscaler.ScaleUpOrDown | operator/autoscaler.go:274-422 | the loops over the index map and the ten exits compute the decision function |
| Autoscaler.ScaleUpLoop | operator/autoscaler.go:329-376 | the UP branch: every index raised or none, the node target, the refusal at the maximum |
| Autoscaler.ScaleDownLoop | operator/autoscaler.go:377-410 | the DOWN branch: indices above the minimum lowered, else nodes removed unless the shard limit forbids it |
| Autoscaler.CalculateScalingOperation | operator/autoscaler.go:200-238 | the decision, withdrawn when nothing is known yet or a safety check objects |
| Autoscaler.GetMaxDiskUsage | operator/autoscaler.go:240-246 | the loop computes the largest usage |
| Autoscaler.MaxDisk | operator/autoscaler.go:240-246 | an upper bound of all usages that is one of them, or zero |
| DecisionMeaning.DecisionIsRight | operator/autoscaler.go:274-422 | every decision in numbers alone: over the limit the least allowed count that holds all shards, or the largest; out of range exactly the corrections; under UP a replica more each and the least count that keeps the ratio, or the least count that lowers the fullest node; under DOWN a replica less where there is one and the count that keeps the ratio, or at least one node less unless the limit forbids it; else the nearest allowed count |
| DecisionMeaning.WithdrawnExactly | operator/autoscaler.go:200-238 | the decision is withdrawn if and only if the count is unset, there is no index, it asks for too few nodes for the minimum copies, or it scales in with a disk above a positive watermark |
| DecisionMeaning.OverLimitRoundIsLeast | operator/autoscaler.go:308-316 | a round over the shard limit leaves the least allowed node count that holds all shards, or the largest |
| Publishing.AcceptedExactly | operator/elasticsearch.go:1069-1126 | settings are accepted if and only if scaling is off or the ranges are not empty and leave room for one node more than index replicas at either end |
| VisitingOrder.OrderIndependence | operator/autoscaler.go:274-422 | any two visiting orders give the same nodes, the same index changes up to order and, above the shard limit or without indices on both sides of the range, the same direction |
| VisitingOrder.DirectionDependsOnOrder | operator/autoscaler.go:281-304 | some other visiting order gives another direction if and only if the shards are within the limit and indices lie on both sides of the range |
| VisitingOrder.CorrectionDirectionMeaning | operator/autoscaler.go:285-303 | a direction is set exactly when there is something to correct, and by an index on that side |
| OperationEffect.PerIndexChanges | operator/es_client.go:521-531 | sending a change list sets each index to what was decided for it and leaves the others |
| OperationEffect.CorrectedApplied | operator/autoscaler.go:285-303 | the corrections move every index to the nearest value of its range |
| OperationEffect.RaisedTotal | operator/autoscaler.go:332-343 | raising every index adds the sum of the primaries to the shards |
| OperationEffect.LoweredTotal | operator/autoscaler.go:378-388 | applying the lowered replicas leaves exactly the shards the decision counted with |
| AutoscalerRuns.NodeTargetInRange | operator/autoscaler.go:248-272 | every node count in an operation is in the configured range, except an unchanged one that goes with added replicas |
| AutoscalerRuns.CopiesCheckNeverFires | operator/autoscaler.go:212-222 | with valid settings of the two safety checks only the one on disk usage can act |
| AutoscalerRuns.LimitTarget | operator/autoscaler.go:308-316 | above the shard limit the target holds all shards or is maxReplicas, and is not below the present count |
| AutoscalerRuns.UpStep | operator/autoscaler.go:329-376 | one step under UP stays in bounds and within the limit or at maxReplicas, lowers nothing, and an operation uses up slack |
| AutoscalerRuns.DownStep | operator/autoscaler.go:377-410 | one step under DOWN stays in bounds and within the limit, raises nothing, and an operation removes a node |
| AutoscalerRuns.StepUnderNone | operator/autoscaler.go:412-421 | without a hint an in-bounds cluster within the limit stays as it is |
| AutoscalerRuns.RunStaysInBounds | operator/autoscaler.go:274-422 | under any hints nodes and index replicas stay in range, and after each round the shards fit or nodes are at the maximum |
| AutoscalerRuns.UpRunSettles | operator/autoscaler.go:329-376 | repeating UP never lowers nodes or replicas and reaches a fixed point within the initial slack |
| AutoscalerRuns.DownRunSettles | operator/autoscaler.go:377-410 | repeating DOWN never triggers the shard-limit scale-out, and changes at most as often as there are nodes to remove |
| AutoscalerRuns.CorrectionRoundRepairs | operator/autoscaler.go:318-326 | one correcting round brings every index into range, unless the disk check vetoes it, and changes no node count |
| Metrics.RequiredSamplesMeaning | operator/autoscaler.go:91-92 | the number of samples that cover the threshold; zero only for threshold zero |
| Metrics.ScalingHint | operator/autoscaler.go:78-130 | the two loops with early exit compute: DOWN, else UP, when the last samples and the cool-down allow it |
| Metrics.HintComesExactly | operator/autoscaler.go:78-130 | DOWN if and only if the samples reach back over its threshold, those within it are below its boundary and more than its cool-down has passed since its stamp, if any; UP if and only if the same holds above its boundary and DOWN is not due |
| Publishing.HintOfDecision | operator/autoscaler.go:78-130 | in every run each decision has the hint that is due at its time by the stamps of the listed copy |
| Metrics.PrunedHintIsFullHint | operator/autoscaler.go:88-129 | for usages of at least zero and settings that separate the hints, a hint computed from a non-empty suffix of the samples is the hint of all samples, if it is not NONE |
| Metrics.HintsMisleadExactly | operator/metrics_collector.go:78-125 | if the settings separate the hints, no life of a metric set stores samples whose hint is not NONE and not that of the whole history; if not, a collector that writes at most once per interval does |
| Metrics.UnseparatedHintsDiffer | operator/metrics_collector.go:100-117 | such a life for every other setting: after a pause the stored samples say UP where the whole history says DOWN |
| Metrics.UsualSettingsSeparateHints | pkg/apis/zalando.org/v1/types.go:196-208 | a positive UP threshold and a DOWN boundary not above the UP boundary meet the condition |
| Metrics.CoveringWindowDecidesAlike | operator/autoscaler.go:88-129 | while the windows are covered the two hints are equal outright |
| Metrics.RecentIsSuffix | operator/metrics_collector.go:106-115 | pruning a chronological list drops exactly the old samples and leaves a suffix |
| Metrics.MetricSet.StoreMedian | operator/metrics_collector.go:78-125 | the stored list is the pruned one with the new sample, and always what the writes so far leave; a refused write changes nothing |
| Metrics.StoredIsSuffix | operator/metrics_collector.go:106-117 | what the writes leave is never empty, the end of the full history, and all that is gone is older than the last cutoff |
| Metrics.StoredHintIsHistoryHint | operator/metrics_collector.go:106-117 | over the life of a metric set a hint other than NONE is the hint of the full history, for settings that separate the hints; and the two are equal while the samples needed are not older than the last cutoff |
| Metrics.SteadyHintIsHistoryHint | operator/metrics_collector.go:106-117 | while a sample is stored at least once per interval the stored ones cover both windows as far as there are samples, and give the hint of the whole history, NONE included |
| Metrics.CalculateMedian | operator/metrics_collector.go:127-131 | sorts in place and returns the lower median by rank |
| Metrics.MedianRank | operator/metrics_collector.go:128-130 | at most (n-1)/2 values are smaller and more than (n-1)/2 are not greater |
| Pods.SortStatefulSetPods | operator/operator.go:568-594 | fails exactly when a name has no ordinal; else the Pods sorted by ordinal |
| Pods.OrdinalAtLeastPosition | operator/operator.go:496-509 | the Pod at position i has an ordinal of at least i, so no drained Pod is one Kubernetes keeps |
| Pods.FullOrdinalsAtPosition | operator/operator.go:496-509 | with ordinals 0 to m-1 the drained slice is exactly the Pods that go |
| Pods.PrioritizePodsForUpdate | operator/operator.go:774-861 | fails exactly when a name has no ordinal; else the Pods that need an update, by priority and ordinal |
| Pods.DrainingOutranks | operator/operator.go:726-731 | no unmarked Pod is ever put before a marked one |
| Pods.UpdateOrder | operator/operator.go:774-861 | the Pods with a node and a reason, each as often as listed, ordered by mark, unschedulable node, node off the selector, old revision and then ordinal; the one to update is the first |
| Pods.ChosenPod | operator/operator.go:598-621 | a Pod is chosen exactly when one needs an update; it has the highest priority, and is a marked one if any marked Pod has a node |
| Pods.PrioritiesIgnoreListOrder | operator/operator.go:835-841 | with distinct ordinals the result does not depend on the order of the list |
| Pods.DrainedOrPending | operator/operator.go:509-541 | what the slice holds and was not drained is Pending, and nothing else was drained |
| RolloutSafety.RollingUpdateKeepsDesiredReady | operator/operator.go:348-397 | in every run a Pod is deleted only with the StatefulSet above the desired count, and the desired number stays ready but for Pods lost otherwise |
| RolloutSafety.StsCopyStep | operator/operator.go:155-164 | every step keeps the loop's copy of the StatefulSet at the stored size |
| CycleOrder.DesiredMeaning | operator/elasticsearch.go:828-852 | spec.replicas if set; else none unless scaling is on with a positive minimum, and then the larger of that and the reported size |
| CycleOrder.WaitsForAllReady | operator/operator.go:697-718 | in every run marking, draining for a scale-in and going on after a resize happen with exactly as many Pods ready as replicas |
| CycleOrder.WaitEndsExactly | operator/operator.go:697-718 | a wait can end if and only if that is so |
| CycleOrder.DeletedWasDrained | operator/operator.go:362-397 | in every run a deleted Pod was selected, waited for with all Pods ready, marked and drained before, in this order |
| CycleOrder.SizeChangesRightly | operator/operator.go:187-195 | in every run, for any settings and edits: created with the desired count and at least one, one more for an update at the desired count, straight up to the count a rescale read, or down by one if that is lower |
| CycleOrder.SizedAsRead | operator/operator.go:544-553 | in every run the loop sets the size only of a StatefulSet nobody has written since it read it in this cycle |
| CycleOrder.HookActsExactly | operator/elasticsearch.go:635-668 | a hook passes if and only if its copy has no operation with a direction; else it can send the next index, or remove the annotation after the last if its copy is the stored one |
| ScaleInSafety.ShrinkFollowsDraining | operator/operator.go:439-448 | in every run, when a rescale sets the size every Pod of its slice is drained or Pending if and only if no reading of the settings found them changed with an undrained Pod still to do; the whole slice was dealt with if and only if no reading found them changed |
| ScaleInSafety.WholeSliceExactly | operator/operator.go:509-521 | in every run the size is set with the whole slice dealt with if and only if every reading found a desired count that is set and not above the one the rescale started from |
| ScaleInSafety.GoesOnExactly | operator/operator.go:515-521 | with Pods to do, the draining can go on if and only if the count read now is set and not higher, and can give up if and only if not |
| ScaleInSafety.AfterChange | operator/operator.go:515-521 | once the settings were found changed nothing more is drained and the slice stays as it is |
| ScaleInSafety.SliceStep | operator/operator.go:503-542 | every step keeps the drained and the skipped Pods the two kinds among the first Pods of the slice, and the rest still to do |
| ScaleInSafety.SliceIsWhatGoes | operator/operator.go:487-501 | in every run no Pod of the slice is one Kubernetes keeps, if ordinals are distinct; with ordinals 0 to m-1 the slice is exactly the Pods that go |
| DrainingMarks.SecondMarkExactly | operator/operator.go:372-376 | in every run a mark makes a second one if and only if it is put on an unmarked Pod while a Pod that was marked and without a node at this cycle's selection is still there |
| DrainingMarks.AtMostOneDraining | operator/operator.go:372-397 | every run keeps at most one Pod marked up to a point if and only if no mark before it is such a one |
| DrainingMarks.MarksStep | operator/operator.go:646-657 | only a Mark step adds a mark, and it adds just the Pod of the selected name, or none if the cache showed it marked |
| DrainingMarks.UnmarkedSelection | operator/operator.go:598-621 | when a Pod is selected that the cache shows unmarked, every marked Pod is without a node |
| HandoffSafety.HandoffIsSafe | operator/elasticsearch.go:927-936 | in every run: none is written while one is pending; removal only of the stored one after all its indices; nothing older is sent after something newer; a decrement waits for all operations known |
| HandoffSafety.HandoffStep | operator/elasticsearch.go:635-668 | every step keeps the hand-off invariant |
| HandoffSafety.RemovedIsDone | operator/elasticsearch.go:654-668 | an annotation whose removal is accepted is the one that was carried out |
| HandoffSafety.PublishNeedsNothingPending | operator/elasticsearch.go:1014-1023 | compare-and-set makes the check for a pending operation hold when the next is written |
| HandoffSafety.CopiesStep | operator/elasticsearch.go:670-689 | every copy of the EDS equals the stored object while their versions agree |
| HandoffProgress.OperationIsCarriedOut | operator/elasticsearch.go:635-668 | in every run with finitely many writes to the EDS by others and finitely many failing calls, but for removals that cannot succeed, in which the loop keeps stepping, a pending operation is later no longer pending, and by then all its indices were accepted, or a deleted one cut the sending short |
| HandoffProgress.PendingStep | operator/elasticsearch.go:635-689 | while an operation is pending no step lengthens the way to the removal of its annotation, and every step of the loop shortens it |
| SizeSafety.SizeIsBounded | operator/operator.go:414-449 | in every run the size stays in minReplicas to maxReplicas + 1; it rises straight to desired, surges by one, falls by one, and never passes desired |
| SizeSafety.IndicesFollowNodes | operator/operator.go:313-345 | in every run index replicas are sent only while the StatefulSet has the nodes their operation asks for |
| SizeSafety.DecisionInRange | operator/elasticsearch.go:979-1006 | from a spec in range the autoscaler decides on a count in range |
| SizeSafety.SizeChanges | operator/operator.go:348-355 | the list of ways a single step may change the size |
| Cooldown.CooldownIsRespected | operator/elasticsearch.go:991-1006 | in every run a change recorded under the UP hint comes more than the cool-down after every node increase before, whatever caused that one, and under DOWN after every decrease |
| Cooldown.ChangeWaits | operator/autoscaler.go:78-130 | the same for the times stored at any earlier point, those from before the run included |
| Cooldown.RecordStamps | operator/elasticsearch.go:991-1003 | a recorded change is stamped, and under a hint only after the cool-down |
| Publishing.StampsChangeExactly | operator/elasticsearch.go:990-1003 | in every run the time of the last scale-up changes, to the present, if and only if a larger count is recorded, and that of the last scale-down if and only if a smaller one is |
| Publishing.PublishedIsDecided | operator/elasticsearch.go:979-1025 | in every run an operation that is published has a direction and is the right decision from a listed copy without a pending one; spec.replicas becomes its count, or the desired one |
| RolloutTermination.EveryCooperativeRunFinishes | operator/operator.go:300-411 | every run from rest in which the cluster cooperates and the loop keeps stepping, operations pending or not, gets to the desired count with no outdated Pod, and stays there |
| Recovery.EventualCooperationFinishes | operator/operator.go:108-153 | the same for every run in which the cluster cooperates from some point on, wherever the loop is then and whatever failed before |
| RolloutTermination.CoopStep | operator/operator.go:300-485 | every step of the loop lowers (outdated Pods, distance to desired, way to go, Pods and indices left) lexicographically until the first two are zero; no other step raises it |
| RolloutTermination.CoopDrain | operator/operator.go:503-542 | the draining loop comes to its end and does not give up while the spec is left alone |
| CooperativeRuns.CooperativeRunsExist | operator/operator.go:108-128 | from every cluster at rest with spec.replicas set, whatever is pending, there is an endless cooperative run in which the loop keeps stepping and nobody else writes the EDS |
| CooperativeRuns.LoopIsNeverStuck | operator/operator.go:130-153 | in every state of such a run in which the cluster has caught up some step of the loop is possible |
| RolloutProgress.RolloutFinishes | operator/operator.go:300-411 | from every settled cluster some run of whole cycles gets to the desired count with no outdated Pod and nothing pending |
| RolloutProgress.HookRuns | operator/elasticsearch.go:635-668 | a hook can send its whole operation; the annotation goes if the hook's copy of the EDS is current, otherwise the cycle ends |
| RolloutProgress.IdleCycle | operator/operator.go:335-345 | with nothing to do but a pending operation one cycle carries it out |
| RolloutProgress.ChosenInStep | operator/operator.go:598-621 | with the cache in step a Pod is selected exactly when one is outdated |
| RolloutProgress.GrowCycle | operator/operator.go:312-320 | below the desired count one cycle goes straight up to it |
| RolloutProgress.UpdateCycle | operator/operator.go:348-410 | one cycle replaces exactly one outdated Pod, one replica above the desired count |
| RolloutProgress.UnsetSpecRatchets | operator/elasticsearch.go:838-851 | without spec.replicas the size grows by the number of outdated Pods and stays there |
| UnsetReplicas.SizeIsBoundedExactly | operator/elasticsearch.go:838-851 | from a start with size and counts in range, the size stays within maxReplicas + 1 in every run if and only if spec.replicas is set; unset, within no bound at all |
| UnsetReplicas.UnsetSpecUnbounded | operator/operator.go:348-355 | for every bound a run from a settled cluster without spec.replicas settles above it |
| RolloutProgress.ShrinkCycle | operator/operator.go:414-449 | with nothing to update one cycle removes exactly one replica, carrying out a pending operation first |
| Scenarios.TwoMarksAfterStrayMark | operator/operator.go:368-376 | a run from a settled cluster to two marked Pods |
| Scenarios.AbortedDrainStillShrinks | operator/operator.go:515-521 | a run in which the last replica goes though nothing was drained |
| Operator.World.Run | operator/operator.go:108-128 | cycles follow each other whether they fail or not; each begins where the last ended and has the outcome Operate promises |
| Operator.World.Operate | operator/operator.go:130-153 | a cycle that returns nil read the EDS, reconciled, reported and then did what operatePods does; one that returns an error ends with a failure at a point where a call failed or something stood in the way |
| Operator.World.ReadAndReport | operator/operator.go:130-151 | nil: the steps before operatePods, in their order, with the StatefulSet at its old size or newly created |
| Operator.World.ReconcileStatefulset | operator/operator.go:155-277 | nil: the StatefulSet is there at its old size, or is new with the desired count, at least one |
| Operator.World.CreateStatefulSet | operator/operator.go:187-195 | succeeds if and only if at least one replica is wanted, and then has that many |
| Operator.World.UpdateStatus | operator/elasticsearch.go:605-633 | nil: if size or generation were not reported yet, they now are, on the version of the loop's copy, with the recorded times of that copy |
| Operator.World.OperatePods | operator/operator.go:300-411 | nil: if the copy of the EDS read first asks for more than there is, or no Pod is selected, the size was set to the rescale target of the copy read then; else the selected Pod was surged for if at the desired count, marked, drained and deleted |
| Operator.World.GetForPods | operator/operator.go:300-320 | goes to the scale-up if and only if the copy of the EDS read now asks for more than the StatefulSet has |
| Operator.World.GetPodToUpdate | operator/operator.go:598-621 | nil: the selected Pod is the first of the prioritized ones among those the cache shows; the surge is next exactly at the desired count |
| Operator.World.UpdatePod | operator/operator.go:348-397 | nil: its steps are surge if asked, stable, mark, drain, delete, in this order; the Pod is gone and the size is one more if and only if it surged |
| Operator.World.AnnotatePod | operator/operator.go:646-657 | nil: the Pod of the selected name was marked once the StatefulSet was stable, unless the cached one carried the mark |
| Operator.World.DrainAndDelete | operator/operator.go:378-397 | nil: the Pod was drained, then deleted, and is not there |
| Operator.World.RescaleStatefulSet | operator/operator.go:414-449 | nil: the size is the rescale target of the copy read, stable if it was set; the slice is drained but for Pending Pods unless the draining gave up |
| Operator.World.GetDesiredReplicas | operator/operator.go:451-485 | from the EDS read now: nothing to do, up to the desired count, to zero from zero, or first the pre-scale-down hook |
| Operator.World.ListStatefulSetPods | operator/operator.go:487-501 | nil: the slice is what the listed Pods, sorted by ordinal, hold from the target on |
| Operator.World.DrainPodsForScaleDown | operator/operator.go:503-542 | nil: exactly the Pods of the slice that are not Pending are drained, in order; or it gave up, and then the last reading found the desired count risen or unset |
| Operator.World.ReadSettings | operator/operator.go:509-521 | gives up if and only if the desired count read now is higher than the one read before, or unset |
| Operator.World.DrainOrSkip | operator/operator.go:522-541 | nil: the next Pod is skipped if Pending and otherwise drained |
| Operator.World.UpdateStatefulSetReplicas | operator/operator.go:544-564 | nil: the size is the target and the StatefulSet was stable at the end |
| Operator.World.WaitForStableStatefulSet | operator/operator.go:697-718 | nil: as many ready Pods as replicas at that moment |
| Operator.World.OnStableReplicasHook | operator/elasticsearch.go:591-601 | nil: the operation in the cycle's older copy of the EDS was carried out, and the cycle is over |
| Operator.World.ApplyScalingOperation | operator/elasticsearch.go:635-652 | nil: all indices of the operation in the hook's own copy were accepted, or a deleted one cut the sending short, and the annotation is gone |
| Operator.World.UpdateIndexSettings | operator/es_client.go:510-546 | exactly the indices up to the first failure are updated; a missing index ends it with nil, a cluster that is not green with an error; an empty list asks nothing |
| Operator.World.RemoveScalingOperationAnnotation | operator/elasticsearch.go:654-668 | nil: the annotation is gone and the stored EDS was the hook's copy |
| AutoscalerLoop.World.ScaleEDS | operator/elasticsearch.go:918-977 | an operation is written if and only if the EDS listed in this round has valid settings and none pending, the calls succeed, and the one decided from it at the time of the decision has a direction; it is that one; an error has a call that failed or a version that is gone |
| AutoscalerLoop.World.UpdateScalingOperation | operator/elasticsearch.go:979-1025 | decides from the listed copy, stamps a changed count, writes a directed operation; which of the two updates failed, and on which version |
| AutoscalerLoop.World.DecidesScaling | operator/elasticsearch.go:979-985 | the operation is the one calculated for the copy of the EDS that was listed |
| AutoscalerLoop.World.RecordsScaling | operator/elasticsearch.go:990-1006 | a changed node count is stamped in the status, on the version that was listed; it fails only if the call does or that version is gone |
| AutoscalerLoop.World.PublishesScaling | operator/elasticsearch.go:1008-1025 | annotation and replicas are written in one update if the operation has a direction; it fails only if the call does or the version is gone |
| AutoscalerLoop.FallbackIsDead | operator/elasticsearch.go:941-970 | with valid settings there is always a count to start from, at least one when spec.replicas is unset, so the fallback is never used |
| AutoscalerLoop.DecidesExactly | operator/elasticsearch.go:918-977 | a round goes on to decide if and only if scaling is on with settings that fit, no directed operation is pending in the copy and the count is from 0 to 100000 |
| ExcludeList.DeduplicateIPs | operator/es_client.go:95-111 | keeps the first occurrence of each part |
| ExcludeList.DedupKeepsSet | operator/es_client.go:95-111 | the deduplicated string stands for the same IPs |
| ExcludeList.DedupKeepsOrder | operator/es_client.go:101-110 | the parts stay in the order in which they come first |
| ExcludeList.MergeIsUnion | operator/es_client.go:131-136 | the merged string stands for the union |
| ExcludeList.ESSettings.MergeNonEmptyTransientSettings | operator/es_client.go:113-129 | the four settings after merging |
| ExcludeList.MergeKeepsExcluded | operator/es_client.go:113-129 | merging loses and invents no IP and leaves the transient list null, for all strings |
| ExcludeList.MergedList | operator/es_client.go:119-128 | the string written: a transient list alone as it is, else its parts before the persistent ones, each once |
| ExcludeList.MergeKeepsRebalance | operator/es_client.go:113-117 | the rebalance value in force stays, and is the persistent one after merging |
| ExcludeList.EsCluster.ExcludePodIP | operator/es_client.go:277-311 | what is written for each outcome of the calls; nothing if the IP is already there |
| ExcludeList.ExcludeInserts | operator/es_client.go:289-307 | excluding inserts the IP, removes none, and returns nil only with the IP in the list |
| ExcludeList.ExcludeSucceeds | operator/es_client.go:277-311 | excluding returns nil if and only if the settings were read and the IP was there or its write was acknowledged |
| ExcludeList.WrittenSorted | operator/es_client.go:205-217 | the lists written are the old parts and the new IP, or the parts that are nodes, in sorted order |
| ExcludeList.EsCluster.SetRebalance | operator/es_client.go:332-349 | writes the merged settings with the new value |
| ExcludeList.SetRebalanceSets | operator/es_client.go:332-349 | the value in force is the new one unless the settings were not read or the write refused |
| ExcludeList.EsCluster.Cleanup | operator/es_client.go:189-233 | the two writes of a cleanup for each outcome of the calls |
| ExcludeList.LiveIps | operator/es_client.go:205-215 | the nested loop yields the sorted parts that are nodes |
| ExcludeList.CleanupIntersects | operator/es_client.go:203-226 | cleaning up intersects with the IPs of the nodes, completely when it returns nil |
| ExcludeList.CleanupRebalances | operator/es_client.go:228-232 | a cleanup changes the rebalance value to "all" only, and has done so when it returns nil |
| ExcludeList.CleanupSucceeds | operator/es_client.go:189-233 | a cleanup returns nil if and only if nodes and settings were read and each write that was needed got its reply |
| ExcludeList.DrainThenCleanup | operator/es_client.go:159-233 | after a drain and any further exclusions the IP is excluded and rebalancing off; a cleanup that gets through switches it on and keeps the IP exactly if a node has it |
| ExcludeList.SecondCleanupWritesNothing | operator/es_client.go:217-232 | after a cleanup that returned nil a second one with the same nodes writes nothing, for all strings |
| ExcludeList.IpsOfOne | operator/es_client.go:281-305 | an IP stands for itself if and only if it is not empty and has no comma |
| ExcludeList.RunRefinesSet | operator/es_client.go:189-349 | every run of calls, with lost replies, refines insert and intersect on a set |
| ExcludeList.LiveIpsStayExcluded | operator/es_client.go:189-311 | no run re-admits an IP that every cleanup found among the nodes, and none excludes an IP nobody asked for |
| Text.JoinOfSplit | operator/es_client.go:102-110 | joining undoes splitting |
| Text.SplitOfJoin | label_selector.go:17-22 | splitting undoes joining for at least one part without the separator |
| Text.SortStringsUnique | operator/es_client.go:304-306 | the result of sort.Strings is determined by the strings |
| Text.LexMeaning | operator/es_client.go:304-306 | the order of sort.Strings: prefixes first, else by the first character that differs |
| Labels.Labels.String | label_selector.go:11-18 | the printed string for any visiting order |
| Labels.Labels.Set | label_selector.go:21-38 | the entries before the first malformed one are set, and whether there was one is returned |
| Labels.EntryMeaning | label_selector.go:25-34 | an entry is malformed if and only if it has two '=' or more; without one it is a key with an empty value, with one the key before and the value after it |
| Labels.SetMeaning | label_selector.go:21-38 | each entry before the first malformed one is set unless a later one has its key, every other label stays, and an error comes if and only if one is malformed |
| Labels.SetAddsWhatStringPrints | label_selector.go:11-38 | on any map, setting what a clean non-empty map prints adds exactly its labels |
| Labels.RoundTrip | label_selector.go:11-38 | on the empty map the labels come back if and only if there is one and all are free of separators |
| OperatingTable.OneLoopPerResource | operator/elasticsearch.go:697-757 | for every sequence of events at most one loop per EDS is started and not over |
| OperatingTable.NextEventReturns | operator/elasticsearch.go:701-716 | with the lock free the next handler can return if and only if no loop was ever started for its EDS or the latest event for it started one |
| OperatingTable.FairHandlerReturns | operator/elasticsearch.go:701-716 | if loops that can act keep acting, every handler that can return does |
| OperatingTable.StuckForEver | operator/elasticsearch.go:701-707 | a handler that waits for a spent token never returns, and no later event is handled |
| OperatingTable.ElasticsearchOperator.OperateEDS | operator/elasticsearch.go:691-760 | the table and loops after a handler that returns, and when it does |

## Left out

- HTTP, JSON and the retries of resty: a call succeeds or fails. A drain that ran out of retries
  returns nil and counts as drained.
- Kubernetes informers, listers, events, generated clients and deep copies.
- PodDisruptionBudget, Service and Pod template construction and label injection: field copying.
- main.go, endpoints, logging, descriptions and priority names.
- hack, cmd/e2e, manifests and shell scripts.
- `getManagedIndices`, `getManagedNodes` and `getCPUUsagePercent`: filters and a running maximum that
  would only add easy members; the indices, nodes and samples they yield are inputs.
- float64 rounding and 32-bit overflow.
- A nil annotation map of the EDS, on which writing the annotation panics: a restart like any other.
- Several operator instances, and several Elasticsearch clients that read and write the cluster
  settings at the same time.
- Scheduling: that the loop keeps taking steps, and that a running loop notices the end of its token,
  are hypotheses of the theorems that need them. So is that calls stop failing at some point.
- AutoscalerLoop.World.ScaleEDS: does nothing for node counts above 100000, where the code's rounding
  is no longer exact, or below zero.
- Operator.World.Run: leaves out the timer and the cancelled context, which OperatingTable models.
- Cooldown.CooldownIsRespected: says nothing about changes forced by the shard limit or the replica
  bounds without that hint, which the code does not hold back.
- HandoffProgress.OperationIsCarriedOut: with others writing the EDS for ever nothing is promised,
  because every such write can make the removal fail once more.
- HandoffSafety.HandoffIsSafe: counts an operation as sent when a deleted index cut its sending
  short, as the code does.
