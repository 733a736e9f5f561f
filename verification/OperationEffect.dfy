/**
  The cluster an operation produces: node count and the replicas each index is set to,
  found by name in the change list the operator sends.
*/
module OperationEffect {
  import opened Base
  import opened Sequences
  import opened Autoscaler
  import VisitingOrder

  // ----- a cluster and the effect of an operation on it -----

  datatype Cluster = Cluster(nodes: int, indices: seq<Index>)

  /** The replicas a change list sets for an index; a later entry overrides an earlier one. */
  function RequestedReplicas(changes: seq<Index>, name: string): Option<int> {
    if changes == [] then None
    else if changes[|changes| - 1].name == name then Some(changes[|changes| - 1].replicas)
    else RequestedReplicas(changes[..|changes| - 1], name)
  }

  function Updated(index: Index, changes: seq<Index>): Index {
    match RequestedReplicas(changes, index.name)
    case None => index
    case Some(r) => index.(replicas := r)
  }

  function WithReplicas(indices: seq<Index>, changes: seq<Index>): seq<Index> {
    seq(|indices|, i requires 0 <= i < |indices| => Updated(indices[i], changes))
  }

  /** Only an operation with a direction is persisted and carried out. */
  function Apply(cluster: Cluster, op: Operation): Cluster {
    if op.direction == NONE then cluster
    else
      Cluster(if op.nodeReplicas.Some? then op.nodeReplicas.value else cluster.nodes,
              WithReplicas(cluster.indices, op.indexReplicas))
  }

  ghost predicate DistinctNames(s: seq<Index>) {
    forall i, j :: 0 <= i < j < |s| ==> s[i].name != s[j].name
  }

  lemma {:induction false} RequestedTaken(changes: seq<Index>, index: Index)
    requires index in changes
    requires forall x :: x in changes && x.name == index.name ==> x == index
    ensures RequestedReplicas(changes, index.name) == Some(index.replicas)
  {
    var last := changes[|changes| - 1];
    if last.name != index.name {
      RequestedTaken(changes[..|changes| - 1], index);
    } else {
      assert last in changes;
    }
  }

  lemma {:induction false} RequestedMissing(changes: seq<Index>, name: string)
    requires forall x :: x in changes ==> x.name != name
    ensures RequestedReplicas(changes, name) == None
  {
    if changes != [] {
      assert changes[|changes| - 1] in changes;
      RequestedMissing(changes[..|changes| - 1], name);
    }
  }

  lemma SameNameSameIndex(indices: seq<Index>, order: seq<Index>, x: Index, y: Index)
    requires DistinctNames(indices) && multiset(indices) == multiset(order)
    requires x in order && y in order && x.name == y.name
    ensures x == y && x in indices
  {
    PermutationMembers(indices, order);
  }

  /** Applying what f yields for each index changes exactly the indices f names, as f says. */
  lemma PerIndexChanges(indices: seq<Index>, order: seq<Index>, f: Index -> seq<Index>, i: int)
    requires DistinctNames(indices) && multiset(indices) == multiset(order) && 0 <= i < |indices|
    requires forall x, y :: y in f(x) ==> y.name == x.name
    requires forall x :: |f(x)| <= 1
    ensures Updated(indices[i], FlatMap(order, f))
         == if f(indices[i]) == [] then indices[i] else indices[i].(replicas := f(indices[i])[0].replicas)
  {
    var x, changes := indices[i], FlatMap(order, f);
    PermutationMembers(indices, order);
    forall y | y in changes && y.name == x.name ensures y in f(x) {
      FlatMapOrigin(order, f, y);
      var z :| z in order && y in f(z);
      SameNameSameIndex(indices, order, z, x);
    }
    if f(x) == [] {
      RequestedMissing(changes, x.name);
    } else {
      FlatMapContains(order, f, x, f(x)[0]);
      RequestedTaken(changes, f(x)[0]);
    }
  }

  // ----- the effect of each change list -----

  function LoweredIndex(c: Settings, index: Index): Index {
    if Lower(c, index) == [] then index else Lower(c, index)[0]
  }

  function ShardsGained(c: Settings, index: Index): int {
    if Lower(c, index) == [] then 0 else -index.primaries
  }

  lemma NoChanges(indices: seq<Index>)
    ensures WithReplicas(indices, []) == indices
  {
  }

  lemma RaisedApplied(indices: seq<Index>, order: seq<Index>)
    requires DistinctNames(indices) && multiset(indices) == multiset(order)
    ensures WithReplicas(indices, Raised(order)) == Raised(indices)
  {
    var f := (index: Index) => [Raise(index)];
    VisitingOrder.RaisedIsFlatMap(order);
    forall i | 0 <= i < |indices| ensures Updated(indices[i], Raised(order)) == Raise(indices[i]) {
      PerIndexChanges(indices, order, f, i);
    }
  }

  lemma LoweredApplied(c: Settings, indices: seq<Index>, order: seq<Index>, i: int)
    requires DistinctNames(indices) && multiset(indices) == multiset(order) && 0 <= i < |indices|
    ensures WithReplicas(indices, Lowered(c, order))[i] == LoweredIndex(c, indices[i])
  {
    var f := (index: Index) => Lower(c, index);
    PerIndexChanges(indices, order, f, i);
  }

  lemma CorrectedApplied(c: Settings, indices: seq<Index>, order: seq<Index>, i: int)
    requires Valid(c) && DistinctNames(indices) && multiset(indices) == multiset(order) && 0 <= i < |indices|
    ensures var index := WithReplicas(indices, Corrections(c, order))[i];
            && c.minIndexReplicas <= index.replicas <= c.maxIndexReplicas
            && index == indices[i].(replicas := Max(c.minIndexReplicas, Min(indices[i].replicas, c.maxIndexReplicas)))
  {
    var f := (index: Index) => Correction(c, index);
    PerIndexChanges(indices, order, f, i);
  }

  lemma {:induction false} SumPointwise(a: seq<Index>, b: seq<Index>, f: Index -> int, g: Index -> int)
    requires |a| == |b| && forall i :: 0 <= i < |a| ==> f(b[i]) == f(a[i]) + g(a[i])
    ensures Sum(b, f) == Sum(a, f) + Sum(a, g)
  {
    if a != [] {
      SumPointwise(a[..|a| - 1], b[..|b| - 1], f, g);
    }
  }

  lemma RaisedTotal(indices: seq<Index>)
    ensures TotalShards(Raised(indices)) == TotalShards(indices) + TotalPrimaries(indices)
  {
    forall i | 0 <= i < |indices| ensures Shards(Raised(indices)[i]) == Shards(indices[i]) + Primaries(indices[i]) {
      var x := indices[i];
      assert x.primaries * (x.replicas + 2) == x.primaries * (x.replicas + 1) + x.primaries;
    }
    SumPointwise(indices, Raised(indices), Shards, Primaries);
  }

  lemma {:induction false} LostTotal(c: Settings, indices: seq<Index>)
    ensures TotalPrimaries(Lowered(c, indices)) == -Sum(indices, x => ShardsGained(c, x))
  {
    if indices != [] {
      var front, last := indices[..|indices| - 1], indices[|indices| - 1];
      LostTotal(c, front);
      SumConcat(Lowered(c, front), Lower(c, last), Primaries);
      assert Sum(Lower(c, last), Primaries) == -ShardsGained(c, last);
    }
  }

  lemma LoweredTotal(c: Settings, indices: seq<Index>, order: seq<Index>)
    requires DistinctNames(indices) && multiset(indices) == multiset(order)
    ensures TotalShards(WithReplicas(indices, Lowered(c, order)))
         == TotalShards(indices) - TotalPrimaries(Lowered(c, order))
  {
    var after := WithReplicas(indices, Lowered(c, order));
    var gained := (x: Index) => ShardsGained(c, x);
    forall i | 0 <= i < |indices| ensures Shards(after[i]) == Shards(indices[i]) + gained(indices[i]) {
      LoweredApplied(c, indices, order, i);
      var x := indices[i];
      assert x.primaries * x.replicas == x.primaries * (x.replicas + 1) - x.primaries;
    }
    SumPointwise(indices, after, Shards, gained);
    LostTotal(c, indices);
    VisitingOrder.LoweredPermutation(c, indices, order);
  }
}
