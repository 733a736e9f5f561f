/**
  Go visits a map in no fixed order. The scaling decision does not depend on it, except
  for the direction in one mixed case.
*/
module VisitingOrder {
  import opened Base
  import opened Rounding
  import opened Sequences
  import opened Autoscaler

  lemma {:induction false} RaisedPermutation(a: seq<Index>, b: seq<Index>)
    requires multiset(a) == multiset(b)
    ensures multiset(Raised(a)) == multiset(Raised(b))
  {
    RaisedIsFlatMap(a);
    RaisedIsFlatMap(b);
    FlatMapPermutation(a, b, index => [Raise(index)]);
  }

  lemma {:induction false} RaisedIsFlatMap(a: seq<Index>)
    ensures Raised(a) == FlatMap(a, index => [Raise(index)])
  {
    if a != [] {
      RaisedIsFlatMap(a[..|a| - 1]);
      assert Raised(a) == Raised(a[..|a| - 1]) + [Raise(a[|a| - 1])];
    }
  }

  lemma {:induction false} CorrectionDirectionMeaning(c: Settings, s: seq<Index>)
    requires Valid(c)
    ensures CorrectionDirection(c, s) == DOWN ==> exists i :: 0 <= i < |s| && s[i].replicas > c.maxIndexReplicas
    ensures CorrectionDirection(c, s) == UP ==> exists i :: 0 <= i < |s| && s[i].replicas < c.minIndexReplicas
    ensures CorrectionDirection(c, s) == NONE <==> Corrections(c, s) == []
  {
    if s != [] {
      CorrectionDirectionMeaning(c, s[..|s| - 1]);
    }
  }

  ghost predicate SomeBelow(c: Settings, s: seq<Index>) {
    exists i :: 0 <= i < |s| && s[i].replicas < c.minIndexReplicas
  }

  ghost predicate SomeAbove(c: Settings, s: seq<Index>) {
    exists i :: 0 <= i < |s| && s[i].replicas > c.maxIndexReplicas
  }

  lemma MemberPredicates(c: Settings, a: seq<Index>, b: seq<Index>)
    requires multiset(a) == multiset(b)
    ensures SomeAtMax(c, a) == SomeAtMax(c, b)
    ensures SomeBelow(c, a) == SomeBelow(c, b) && SomeAbove(c, a) == SomeAbove(c, b)
  {
    PermutationMembers(a, b);
    assert forall i :: 0 <= i < |a| ==> a[i] in b;
    assert forall i :: 0 <= i < |b| ==> b[i] in a;
  }

  /** Within the shard limit there are indices on both sides of the range. */
  ghost predicate OrderMatters(c: Settings, s: seq<Index>, nodes: int) {
    !RatioExceeds(TotalShards(s), nodes, c.maxShardsPerNode) && SomeBelow(c, s) && SomeAbove(c, s)
  }

  ghost predicate SameUpToOrder(a: Operation, b: Operation) {
    a.nodeReplicas == b.nodeReplicas && multiset(a.indexReplicas) == multiset(b.indexReplicas)
  }

  lemma CorrectionsPermutation(c: Settings, a: seq<Index>, b: seq<Index>)
    requires multiset(a) == multiset(b)
    ensures multiset(Corrections(c, a)) == multiset(Corrections(c, b))
    ensures Corrections(c, a) == [] <==> Corrections(c, b) == []
  {
    FlatMapPermutation(a, b, index => Correction(c, index));
    PermutationMembers(Corrections(c, a), Corrections(c, b));
  }

  lemma LoweredPermutation(c: Settings, a: seq<Index>, b: seq<Index>)
    requires multiset(a) == multiset(b)
    ensures multiset(Lowered(c, a)) == multiset(Lowered(c, b))
    ensures TotalPrimaries(Lowered(c, a)) == TotalPrimaries(Lowered(c, b))
  {
    FlatMapPermutation(a, b, index => Lower(c, index));
    SumPermutation(Lowered(c, a), Lowered(c, b), Primaries);
  }

  ghost predicate SameOperation(a: Operation, b: Operation) {
    SameUpToOrder(a, b) && a.direction == b.direction
  }

  lemma ScaleUpOrder(c: Settings, s1: seq<Index>, s2: seq<Index>, nodes: int, shards: int)
    requires 0 < nodes <= NUDGE_LIMIT && multiset(s1) == multiset(s2)
    ensures SameOperation(ScaleUp(c, s1, nodes, shards), ScaleUp(c, s2, nodes, shards))
  {
    SumPermutation(s1, s2, Primaries);
    RaisedPermutation(s1, s2);
    MemberPredicates(c, s1, s2);
  }

  lemma ScaleDownOrder(c: Settings, s1: seq<Index>, s2: seq<Index>, nodes: int, shards: int)
    requires 0 < nodes <= NUDGE_LIMIT && shards >= 0 && multiset(s1) == multiset(s2)
    ensures SameOperation(ScaleDown(c, s1, nodes, shards), ScaleDown(c, s2, nodes, shards))
  {
    hide DownTarget, DownTargetWithReplicas, RatioExceeds, DirectionOf, Sum, FlatMap;
    LoweredPermutation(c, s1, s2);
  }

  lemma CorrectionOrder(c: Settings, a: seq<Index>, b: seq<Index>)
    requires Valid(c) && multiset(a) == multiset(b) && !(SomeBelow(c, a) && SomeAbove(c, a))
    ensures CorrectionDirection(c, a) == CorrectionDirection(c, b)
  {
    MemberPredicates(c, a, b);
    CorrectionsPermutation(c, a, b);
    CorrectionDirectionMeaning(c, a);
    CorrectionDirectionMeaning(c, b);
  }

  /**
    Every visiting order of the index map gives the same node count and the same index
    changes, and the same direction unless, within the shard limit, one index is below the
    minimum while another is above the maximum.
  */
  lemma OrderIndependence(c: Settings, f1: seq<Index>, s1: seq<Index>, f2: seq<Index>, s2: seq<Index>,
                          hint: Direction, nodes: int)
    requires Decidable(c, f1, s1, nodes) && Decidable(c, f2, s2, nodes) && multiset(f1) == multiset(f2)
    ensures SameUpToOrder(Decide(c, f1, s1, hint, nodes), Decide(c, f2, s2, hint, nodes))
    ensures !OrderMatters(c, f1, nodes) ==>
              Decide(c, f1, s1, hint, nodes).direction == Decide(c, f2, s2, hint, nodes).direction
  {
    hide ScaleUp, ScaleDown, EnsureBounds, RatioExceeds, Ceil, ShardToNodeRatio, Sum, FlatMap;
    var shards := TotalShards(f1);
    SumPermutation(f1, f2, Shards);
    CorrectionsPermutation(c, f1, f2);
    TotalShardsPositive(f1);
    if RatioExceeds(shards, nodes, c.maxShardsPerNode) {
    } else if Corrections(c, f1) != [] {
      if !(SomeBelow(c, f1) && SomeAbove(c, f1)) {
        CorrectionOrder(c, f1, f2);
      }
    } else {
      RatioNeedsNodes(shards, nodes, c.maxShardsPerNode);
      ScaleUpOrder(c, s1, s2, nodes, shards);
      ScaleDownOrder(c, s1, s2, nodes, shards);
    }
  }

  lemma RatioNeedsNodes(shards: int, nodes: int, bound: int)
    requires shards > 0 && nodes >= 0 && !RatioExceeds(shards, nodes, bound)
    ensures nodes > 0 && shards <= bound * nodes
  {
    if nodes > 0 {
      RatioComparisons(shards, nodes, bound);
    }
  }

  lemma OrderIsManaged(indices: seq<Index>, order: seq<Index>)
    requires Managed(indices) && multiset(indices) == multiset(order)
    ensures Managed(order)
  {
    PermutationMembers(indices, order);
    DistinctPermutation(indices, order);
    forall i | 0 <= i < |order| ensures order[i].primaries >= 1 && order[i].replicas >= 0 {
      assert order[i] in indices;
    }
    forall i, j | 0 <= i < j < |order| ensures order[i].name != order[j].name {
      assert order[i] in indices && order[j] in indices;
      var k :| 0 <= k < |indices| && indices[k] == order[i];
      var l :| 0 <= l < |indices| && indices[l] == order[j];
      assert order[i] != order[j];
    }
  }

  /** Another pair of visiting orders of the same map. */
  ghost predicate OtherOrder(c: Settings, f: seq<Index>, f2: seq<Index>, s2: seq<Index>, nodes: int) {
    Decidable(c, f2, s2, nodes) && multiset(f2) == multiset(f)
  }

  /** The indices with the one at position i visited last. */
  function WithLast(f: seq<Index>, i: nat): seq<Index>
    requires i < |f|
  {
    f[..i] + f[i + 1..] + [f[i]]
  }

  lemma LastSetsDirection(c: Settings, f: seq<Index>, s: seq<Index>, hint: Direction, nodes: int, i: nat)
    requires Decidable(c, f, s, nodes) && OrderMatters(c, f, nodes) && i < |f|
    requires f[i].replicas < c.minIndexReplicas || f[i].replicas > c.maxIndexReplicas
    ensures OtherOrder(c, f, WithLast(f, i), WithLast(f, i), nodes)
    ensures Decide(c, WithLast(f, i), WithLast(f, i), hint, nodes).direction
         == if f[i].replicas > c.maxIndexReplicas then DOWN else UP
  {
    var f2 := WithLast(f, i);
    WithoutElement(f, i);
    assert multiset(f2) == multiset(f[..i] + f[i + 1..]) + multiset{f[i]};
    OrderIsManaged(f, f2);
    SumPermutation(f, f2, Shards);
    assert f2[|f2| - 1] == f[i];
    CorrectionDirectionMeaning(c, f2);
    hide WithLast, Managed, Corrections, Sum, RatioExceeds, ScaleUp, ScaleDown;
  }

  /**
    The direction of the operation depends on the order in which the map is visited exactly
    when, within the shard limit, there are indices on both sides of the range.
  */
  lemma DirectionDependsOnOrder(c: Settings, f: seq<Index>, s: seq<Index>, hint: Direction, nodes: int)
    requires Decidable(c, f, s, nodes)
    ensures (exists f2, s2 :: OtherOrder(c, f, f2, s2, nodes)
               && Decide(c, f2, s2, hint, nodes).direction != Decide(c, f, s, hint, nodes).direction)
       <==> OrderMatters(c, f, nodes)
  {
    assert c.minIndexReplicas <= c.maxIndexReplicas;
    hide Decide, Decidable, RatioExceeds;
    if OrderMatters(c, f, nodes) {
      var low :| 0 <= low < |f| && f[low].replicas < c.minIndexReplicas;
      var high :| 0 <= high < |f| && f[high].replicas > c.maxIndexReplicas;
      LastSetsDirection(c, f, s, hint, nodes, low);
      LastSetsDirection(c, f, s, hint, nodes, high);
      hide WithLast, OtherOrder;
      var last := if Decide(c, f, s, hint, nodes).direction == UP then WithLast(f, high) else WithLast(f, low);
      assert Decide(c, last, last, hint, nodes).direction != Decide(c, f, s, hint, nodes).direction;
    } else {
      forall f2, s2 | OtherOrder(c, f, f2, s2, nodes)
        ensures Decide(c, f2, s2, hint, nodes).direction == Decide(c, f, s, hint, nodes).direction
      {
        OrderIndependence(c, f, s, f2, s2, hint, nodes);
      }
    }
  }
}
