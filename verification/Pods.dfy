/**
  operator/operator.go: the order in which Pods are updated and the Pods a scale-down drains.
*/
module Pods {
  import opened Base
  import opened Sequences

  /**
    The fields of a Pod the operator reads. The ordinal is the number after the generated
    name prefix, None when that text is not a number; an unassigned node is "".
  */
  datatype Pod = Pod(
    ordinal: Option<int>, uid: nat, draining: bool, node: string, revision: Option<string>,
    pending: bool, ready: bool)

  function Number(pod: Pod): int {
    if pod.ordinal.Some? then pod.ordinal.value else 0
  }

  // ----- sortStatefulSetPods -----

  function ByOrdinal(): (Pod, Pod) -> bool {
    (a: Pod, b: Pod) => Number(a) <= Number(b)
  }

  ghost predicate AllNumbered(pods: seq<Pod>) {
    forall i :: 0 <= i < |pods| ==> pods[i].ordinal.Some?
  }

  datatype OrdinalPod = OrdinalPod(number: int, pod: Pod)

  method SortStatefulSetPods(pods: seq<Pod>) returns (r: Option<seq<Pod>>)
    ensures r.Some? <==> AllNumbered(pods)
    ensures r.Some? ==> IsSortOf(r.value, pods, ByOrdinal())
  {
    var numbers: seq<OrdinalPod> := [];
    for i := 0 to |pods|
      invariant forall k :: 0 <= k < i ==> pods[k].ordinal.Some?
      invariant numbers == Numbered(pods[..i])
    {
      if pods[i].ordinal.None? {
        return None;
      }
      assert Numbered(pods[..i + 1]) == Numbered(pods[..i]) + [OrdinalPod(Number(pods[i]), pods[i])];
      numbers := numbers + [OrdinalPod(pods[i].ordinal.value, pods[i])];
    }
    assert pods[..|pods|] == pods;
    var sorted := Sort(numbers, ByNumber());
    var result := CollectPods(sorted);
    SortedPods(sorted, pods);
    return Some(result);
  }

  method CollectPods(sorted: seq<OrdinalPod>) returns (result: seq<Pod>)
    ensures result == PodsOf(sorted)
  {
    result := [];
    for i := 0 to |sorted|
      invariant result == PodsOf(sorted[..i])
    {
      result := result + [sorted[i].pod];
    }
    assert sorted[..|sorted|] == sorted;
  }

  function ByNumber(): (OrdinalPod, OrdinalPod) -> bool {
    (a: OrdinalPod, b: OrdinalPod) => a.number <= b.number
  }

  function Numbered(pods: seq<Pod>): seq<OrdinalPod> {
    seq(|pods|, i requires 0 <= i < |pods| => OrdinalPod(Number(pods[i]), pods[i]))
  }

  lemma SortedPods(sorted: seq<OrdinalPod>, pods: seq<Pod>)
    requires IsSortOf(sorted, Numbered(pods), ByNumber())
    ensures IsSortOf(PodsOf(sorted), pods, ByOrdinal())
  {
    PermutationMembers(sorted, Numbered(pods));
    PodsOfPermutation(sorted, Numbered(pods));
    assert PodsOf(Numbered(pods)) == pods;
    forall i | 0 <= i < |sorted| ensures sorted[i].number == Number(sorted[i].pod) {
      assert sorted[i] in Numbered(pods);
    }
  }

  function PodsOf(numbers: seq<OrdinalPod>): seq<Pod> {
    seq(|numbers|, i requires 0 <= i < |numbers| => numbers[i].pod)
  }

  lemma {:induction false} PodsOfIsFlatMap(a: seq<OrdinalPod>)
    ensures PodsOf(a) == FlatMap(a, (x: OrdinalPod) => [x.pod])
  {
    if a != [] {
      PodsOfIsFlatMap(a[..|a| - 1]);
      assert PodsOf(a) == PodsOf(a[..|a| - 1]) + [a[|a| - 1].pod];
    }
  }

  lemma PodsOfPermutation(a: seq<OrdinalPod>, b: seq<OrdinalPod>)
    requires multiset(a) == multiset(b)
    ensures multiset(PodsOf(a)) == multiset(PodsOf(b))
  {
    PodsOfIsFlatMap(a);
    PodsOfIsFlatMap(b);
    FlatMapPermutation(a, b, (x: OrdinalPod) => [x.pod]);
  }

  /** No two Pods share an ordinal and none is negative, as in any StatefulSet. */
  ghost predicate ProperOrdinals(pods: seq<Pod>) {
    && (forall i :: 0 <= i < |pods| ==> pods[i].ordinal.Some? && pods[i].ordinal.value >= 0)
    && (forall i, j :: 0 <= i < j < |pods| ==> pods[i].ordinal != pods[j].ordinal)
  }

  /**
    Sorted, the Pod at position i has an ordinal of at least i. So a Pod the scale-down
    drains, at position target or later, is one Kubernetes removes when replicas drop to target.
  */
  lemma {:induction false} OrdinalAtLeastPosition(pods: seq<Pod>, i: nat)
    requires ProperOrdinals(pods) && SortedBy(pods, ByOrdinal()) && i < |pods|
    ensures Number(pods[i]) >= i
  {
    if i > 0 {
      OrdinalAtLeastPosition(pods, i - 1);
      assert ByOrdinal()(pods[i - 1], pods[i]);
    }
  }

  /** With ordinals exactly 0..m-1 the drained slice is precisely the Pods Kubernetes removes. */
  lemma {:induction false} FullOrdinalsAtPosition(pods: seq<Pod>, i: nat)
    requires ProperOrdinals(pods) && SortedBy(pods, ByOrdinal()) && i < |pods|
    requires forall k :: 0 <= k < |pods| ==> Number(pods[k]) < |pods|
    ensures Number(pods[i]) == i
    decreases |pods| - i
  {
    OrdinalAtLeastPosition(pods, i);
    if i + 1 < |pods| {
      FullOrdinalsAtPosition(pods, i + 1);
      assert ByOrdinal()(pods[i], pods[i + 1]);
      assert pods[i].ordinal != pods[i + 1].ordinal;
    }
  }

  // ----- prioritizePodsForUpdate -----

  const POD_DRAINING := 16
  const UNSCHEDULABLE_NODE := 8
  const NODE_SELECTOR := 4
  const POD_OLD_REVISION := 2
  const STS_REPLICA_DIFF := 1

  /** What the priorities depend on besides the Pod. */
  datatype Context = Context(
    updateRevision: string, priorityNodes: set<string>, unschedulableNodes: set<string>,
    desired: Option<int>, replicas: int)

  function Priority(x: Context, pod: Pod): int {
    (if pod.draining then POD_DRAINING else 0)
    + (if pod.node in x.unschedulableNodes then UNSCHEDULABLE_NODE else 0)
    + (if pod.node !in x.priorityNodes then NODE_SELECTOR else 0)
    + (if pod.revision.Some? && x.updateRevision != pod.revision.value then POD_OLD_REVISION else 0)
    + (if x.desired.Some? && x.desired.value != x.replicas then STS_REPLICA_DIFF else 0)
  }

  /** A Pod that has to move: marked, badly placed or out of date. Replica counts play no part. */
  predicate NeedsUpdate(x: Context, pod: Pod) {
    && pod.node != ""
    && (pod.draining || pod.node in x.unschedulableNodes || pod.node !in x.priorityNodes
        || (pod.revision.Some? && x.updateRevision != pod.revision.value))
  }

  /** Higher priority first, then lower ordinal. */
  function Before(x: Context): (Pod, Pod) -> bool {
    (a: Pod, b: Pod) =>
      if Priority(x, a) == Priority(x, b) then Number(a) <= Number(b) else Priority(x, a) > Priority(x, b)
  }

  function Select(pods: seq<Pod>, p: Pod -> bool): seq<Pod> {
    FlatMap(pods, pod => if p(pod) then [pod] else [])
  }

  ghost predicate Prioritized(x: Context, pods: seq<Pod>, r: seq<Pod>) {
    IsSortOf(r, Select(pods, pod => NeedsUpdate(x, pod)), Before(x))
  }

  lemma BeforeIsTotal(x: Context)
    ensures TotalPreorder(Before(x))
  {
  }

  predicate IsScheduled(pod: Pod) {
    pod.node != ""
  }

  method PrioritizePodsForUpdate(x: Context, pods: seq<Pod>) returns (r: Option<seq<Pod>>)
    ensures r.Some? <==> AllNumbered(pods)
    ensures r.Some? ==> Prioritized(x, pods, r.value)
  {
    var scheduled: seq<Pod> := [];
    for i := 0 to |pods|
      invariant forall k :: 0 <= k < i ==> pods[k].ordinal.Some?
      invariant scheduled == Select(pods[..i], IsScheduled)
    {
      if pods[i].ordinal.None? {
        return None;
      }
      assert pods[..i + 1] == pods[..i] + [pods[i]];
      SelectAppend(pods[..i], pods[i], IsScheduled);
      if pods[i].node == "" {
        continue;
      }
      scheduled := scheduled + [pods[i]];
    }
    assert pods[..|pods|] == pods;
    BeforeIsTotal(x);
    var sorted := Sort(scheduled, Before(x));
    var urgent := UrgentPods(x, sorted);
    UrgentOfScheduled(x, pods, sorted);
    return Some(urgent);
  }

  method UrgentPods(x: Context, sorted: seq<Pod>) returns (result: seq<Pod>)
    ensures result == Select(sorted, pod => Priority(x, pod) > 1)
  {
    ghost var q := (pod: Pod) => Priority(x, pod) > 1;
    result := [];
    for i := 0 to |sorted|
      invariant result == Select(sorted[..i], q)
    {
      assert sorted[..i + 1] == sorted[..i] + [sorted[i]];
      SelectAppend(sorted[..i], sorted[i], q);
      if Priority(x, sorted[i]) > 1 {
        result := result + [sorted[i]];
      }
    }
    assert sorted[..|sorted|] == sorted;
  }

  lemma UrgentOfScheduled(x: Context, pods: seq<Pod>, sorted: seq<Pod>)
    requires IsSortOf(sorted, Select(pods, IsScheduled), Before(x))
    ensures Prioritized(x, pods, Select(sorted, pod => Priority(x, pod) > 1))
  {
    var q := (pod: Pod) => Priority(x, pod) > 1;
    SelectSorted(x, sorted, q);
    SelectPermutation(sorted, Select(pods, IsScheduled), q);
    SelectTwice(pods, IsScheduled, q, pod => NeedsUpdate(x, pod));
    hide FlatMap;
  }

  lemma SelectAppend(a: seq<Pod>, pod: Pod, p: Pod -> bool)
    ensures Select(a + [pod], p) == Select(a, p) + if p(pod) then [pod] else []
  {
    assert (a + [pod])[..|a|] == a;
  }

  lemma SelectPermutation(a: seq<Pod>, b: seq<Pod>, p: Pod -> bool)
    requires multiset(a) == multiset(b)
    ensures multiset(Select(a, p)) == multiset(Select(b, p))
  {
    FlatMapPermutation(a, b, pod => if p(pod) then [pod] else []);
  }

  lemma {:induction false} SelectMembers(a: seq<Pod>, p: Pod -> bool, pod: Pod)
    ensures pod in Select(a, p) <==> pod in a && p(pod)
  {
    if a != [] {
      SelectMembers(a[..|a| - 1], p, pod);
      assert a == a[..|a| - 1] + [a[|a| - 1]];
    }
  }

  lemma {:induction false} SelectSorted(x: Context, a: seq<Pod>, p: Pod -> bool)
    requires SortedBy(a, Before(x))
    ensures SortedBy(Select(a, p), Before(x))
  {
    if a != [] {
      var front := a[..|a| - 1];
      SelectSorted(x, front, p);
      var s := Select(front, p);
      forall i | 0 <= i < |s| ensures Before(x)(s[i], a[|a| - 1]) {
        SelectMembers(front, p, s[i]);
        var k :| 0 <= k < |front| && front[k] == s[i];
        assert Before(x)(a[k], a[|a| - 1]);
      }
    }
  }

  lemma {:induction false} SelectTwice(a: seq<Pod>, p: Pod -> bool, q: Pod -> bool, both: Pod -> bool)
    requires forall pod :: both(pod) <==> p(pod) && q(pod)
    ensures Select(Select(a, p), q) == Select(a, both)
  {
    if a != [] {
      var front, last := a[..|a| - 1], a[|a| - 1];
      SelectTwice(front, p, q, both);
      FlatMapConcat(Select(front, p), if p(last) then [last] else [], pod => if q(pod) then [pod] else []);
    }
  }

  /** getPodToUpdate: the first of the prioritized Pods, if there is one. */
  function PodToUpdate(prioritized: seq<Pod>): Option<Pod> {
    if prioritized == [] then None else Some(prioritized[0])
  }

  lemma PrioritizedMembers(x: Context, pods: seq<Pod>, r: seq<Pod>, pod: Pod)
    requires Prioritized(x, pods, r)
    ensures pod in r <==> pod in pods && NeedsUpdate(x, pod)
  {
    PermutationMembers(r, Select(pods, pod => NeedsUpdate(x, pod)));
    SelectMembers(pods, pod => NeedsUpdate(x, pod), pod);
  }

  /** 16 > 8 + 4 + 2 + 1. */
  lemma DrainingOutranks(x: Context, marked: Pod, unmarked: Pod)
    requires marked.draining && !unmarked.draining
    ensures !Before(x)(unmarked, marked)
  {
    assert Priority(x, marked) >= POD_DRAINING;
    assert Priority(x, unmarked) < POD_DRAINING;
  }

  /**
    What getPodToUpdate selects: a Pod is chosen exactly when one needs an update, the
    choice is a Pod of highest priority, and no unmarked Pod is ever preferred to one
    already marked draining.
  */
  lemma ChosenPod(x: Context, pods: seq<Pod>, r: seq<Pod>)
    requires Prioritized(x, pods, r)
    ensures PodToUpdate(r).None? <==> forall pod :: pod in pods ==> !NeedsUpdate(x, pod)
    ensures PodToUpdate(r).Some? ==>
              var chosen := PodToUpdate(r).value;
              && chosen in pods && NeedsUpdate(x, chosen)
              && (forall pod :: pod in pods && NeedsUpdate(x, pod) ==> Before(x)(chosen, pod))
              && ((exists pod :: pod in pods && pod.draining && pod.node != "") ==> chosen.draining)
  {
    hide Priority, Before;
    forall pod ensures pod in r <==> pod in pods && NeedsUpdate(x, pod) {
      PrioritizedMembers(x, pods, r, pod);
    }
    if r == [] {
      forall pod | pod in pods ensures !NeedsUpdate(x, pod) {
        assert pod !in r;
      }
    } else {
      assert r[0] in r;
      forall pod | pod in pods && NeedsUpdate(x, pod) ensures Before(x)(r[0], pod) {
        BeforeIsTotal(x);
        SortedHead(r, pod, Before(x));
      }
      forall pod | pod in pods && pod.draining && pod.node != "" ensures r[0].draining {
        if !r[0].draining {
          DrainingOutranks(x, pod, r[0]);
        }
      }
    }
  }

  /** With distinct ordinals the selection does not depend on the order Pods are listed in. */
  lemma PrioritiesIgnoreListOrder(x: Context, a: seq<Pod>, b: seq<Pod>, ra: seq<Pod>, rb: seq<Pod>)
    requires ProperOrdinals(a) && multiset(a) == multiset(b)
    requires Prioritized(x, a, ra) && Prioritized(x, b, rb)
    ensures ra == rb
  {
    var p := (pod: Pod) => NeedsUpdate(x, pod);
    SelectPermutation(a, b, p);
    PermutationMembers(ra, Select(a, p));
    forall i, j | 0 <= i < |ra| && 0 <= j < |ra| && Before(x)(ra[i], ra[j]) && Before(x)(ra[j], ra[i])
      ensures ra[i] == ra[j]
    {
      SelectMembers(a, p, ra[i]);
      SelectMembers(a, p, ra[j]);
    }
    SortUnique(ra, rb, Before(x));
  }

  // ----- the order of updates, in facts about Pods -----

  predicate OnUnschedulable(x: Context, pod: Pod) {
    pod.node in x.unschedulableNodes
  }

  predicate OffPriorityNodes(x: Context, pod: Pod) {
    pod.node !in x.priorityNodes
  }

  predicate OldRevision(x: Context, pod: Pod) {
    pod.revision.Some? && pod.revision.value != x.updateRevision
  }

  /**
    Marked Pods first, then those on unschedulable nodes, off the priority nodes, of an old revision;
    then by ordinal.
  */
  predicate GoesFirst(x: Context, a: Pod, b: Pod) {
    if a.draining != b.draining then a.draining
    else if OnUnschedulable(x, a) != OnUnschedulable(x, b) then OnUnschedulable(x, a)
    else if OffPriorityNodes(x, a) != OffPriorityNodes(x, b) then OffPriorityNodes(x, a)
    else if OldRevision(x, a) != OldRevision(x, b) then OldRevision(x, a)
    else Number(a) <= Number(b)
  }

  /** A Pod with a node and one of the four reasons. */
  predicate HasReason(x: Context, pod: Pod) {
    pod.node != "" && (pod.draining || OnUnschedulable(x, pod) || OffPriorityNodes(x, pod) || OldRevision(x, pod))
  }

  /** The weights 16, 8, 4 and 2 make the order lexicographic, and 1 is the same for all. */
  lemma WeightsAreLexicographic(x: Context, a: Pod, b: Pod)
    ensures Before(x)(a, b) <==> GoesFirst(x, a, b)
    ensures NeedsUpdate(x, a) <==> HasReason(x, a)
  {
  }

  lemma {:induction false} SelectMultiplicity(a: seq<Pod>, p: Pod -> bool, pod: Pod)
    ensures multiset(Select(a, p))[pod] == if p(pod) then multiset(a)[pod] else 0
  {
    if a != [] {
      var front, last := a[..|a| - 1], a[|a| - 1];
      SelectMultiplicity(front, p, pod);
      assert a == front + [last];
      assert Select(a, p) == Select(front, p) + if p(last) then [last] else [];
    }
  }

  /**
    Main result. The prioritized Pods are those with a reason, each as often as it is listed, in
    that order; the one to update is the first of them.
  */
  lemma UpdateOrder(x: Context, pods: seq<Pod>, r: seq<Pod>)
    requires Prioritized(x, pods, r)
    ensures forall pod :: multiset(r)[pod] == if HasReason(x, pod) then multiset(pods)[pod] else 0
    ensures forall i, j :: 0 <= i < j < |r| ==> GoesFirst(x, r[i], r[j])
    ensures PodToUpdate(r).None? <==> forall pod :: pod in pods ==> !HasReason(x, pod)
    ensures PodToUpdate(r).Some? ==>
              var chosen := PodToUpdate(r).value;
              && chosen in pods && HasReason(x, chosen)
              && forall pod :: pod in pods && HasReason(x, pod) ==> GoesFirst(x, chosen, pod)
  {
    ChosenPod(x, pods, r);
    forall a, b ensures (Before(x)(a, b) <==> GoesFirst(x, a, b)) && (NeedsUpdate(x, a) <==> HasReason(x, a)) {
      WeightsAreLexicographic(x, a, b);
    }
    hide Priority, Before, GoesFirst, HasReason, NeedsUpdate, PodToUpdate, FlatMap;
    forall pod ensures multiset(r)[pod] == if HasReason(x, pod) then multiset(pods)[pod] else 0 {
      SelectMultiplicity(pods, pod => NeedsUpdate(x, pod), pod);
    }
    forall i, j | 0 <= i < j < |r| ensures GoesFirst(x, r[i], r[j]) {
      assert Before(x)(r[i], r[j]);
    }
  }

  // ----- the Pods of a scale-down -----

  predicate NotPending(pod: Pod) {
    !pod.pending
  }

  /** A loop that drained what is not Pending from position target on left no Pod of that slice undrained. */
  lemma DrainedOrPending(pods: seq<Pod>, target: nat, drained: seq<Pod>)
    requires target <= |pods| && drained == Select(pods[target..], NotPending)
    ensures forall i :: target <= i < |pods| ==> pods[i].pending || pods[i] in drained
    ensures forall pod :: pod in drained ==> !pod.pending && pod in pods[target..]
  {
    forall pod ensures pod in drained <==> pod in pods[target..] && !pod.pending {
      SelectMembers(pods[target..], NotPending, pod);
    }
    forall i | target <= i < |pods| ensures pods[i] in pods[target..] {
      assert pods[i] == pods[target..][i - target];
    }
  }
}
