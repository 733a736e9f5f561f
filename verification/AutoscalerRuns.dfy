/**
  What repeated autoscaling does to a cluster: node and replica bounds, the shard limit,
  and that one hint repeated reaches a fixed point.
*/
module AutoscalerRuns {
  import opened Base
  import opened Rounding
  import opened Sequences
  import opened Autoscaler
  import opened OperationEffect

  /** Valid settings within the node counts for which the rounding nudge is exact. */
  predicate Operable(c: Settings) {
    Valid(c) && c.maxReplicas <= NUDGE_LIMIT
  }

  // ----- every request handed to the clamp is positive -----

  lemma SameRatioPositive(nodes: int, shards: int, newShards: int)
    requires nodes > 0 && newShards > 0
    ensures NodesWithSameRatio(nodes, shards, newShards) >= 1
  {
    SameRatioMeaning(nodes, shards, newShards);
    if shards > nodes {
      assert newShards * nodes > 0;
      CeilDivLeast(newShards * nodes, shards, 0);
    }
  }

  lemma IncreasedPositive(nodes: int, shards: int)
    requires 0 < nodes <= NUDGE_LIMIT && shards > 0
    ensures ShardToNodeRatio(shards, nodes) <= 1.0 || LoweredRatio(nodes, shards) != 0
    ensures IncreasedNodes(nodes, shards) >= 1
    ensures shards > nodes ==> IncreasedNodes(nodes, shards) > nodes
  {
    IncreasedNodesDefined(nodes, shards);
    RatioComparisons(shards, nodes, 1);
    if shards > nodes {
      IncreasedNodesMeaning(nodes, shards);
    }
  }

  /** The node count that fits the shards under the limit, clamped. */
  lemma LimitTarget(c: Settings, nodes: int, shards: int)
    requires Valid(c) && shards > 0 && nodes >= 0 && shards > c.maxShardsPerNode * nodes
    ensures var m := EnsureBounds(c, Ceil(ShardToNodeRatio(shards, c.maxShardsPerNode)));
            && c.minReplicas <= m <= c.maxReplicas
            && (nodes <= c.maxReplicas ==> m >= nodes)
            && (shards <= c.maxShardsPerNode * m || m == c.maxReplicas)
  {
    CeilQuotient(shards, c.maxShardsPerNode);
    var need := CeilDiv(shards, c.maxShardsPerNode);
    var m := EnsureBounds(c, need);
    CeilDivLeast(shards, c.maxShardsPerNode, 0);
    CeilDivLeast(shards, c.maxShardsPerNode, nodes);
    CeilDivLeast(shards, c.maxShardsPerNode, m);
    assert m * c.maxShardsPerNode == c.maxShardsPerNode * m;
    assert nodes * c.maxShardsPerNode == c.maxShardsPerNode * nodes;
    EnsureBoundsRange(c, need);
  }

  /** Lowering leaves at least one copy of every primary. */
  lemma LoweredLeavesShards(c: Settings, indices: seq<Index>, order: seq<Index>)
    requires Valid(c) && Managed(indices) && multiset(indices) == multiset(order)
    ensures 0 <= TotalPrimaries(Lowered(c, order)) < TotalShards(indices)
    ensures TotalPrimaries(Lowered(c, order)) == 0 <==> Lowered(c, order) == []
  {
    var after := WithReplicas(indices, Lowered(c, order));
    LoweredTotal(c, indices, order);
    forall i | 0 <= i < |after| ensures after[i].primaries >= 1 && after[i].replicas >= 0 {
      LoweredApplied(c, indices, order, i);
    }
    TotalShardsPositive(after);
    PrimariesOfLowered(c, indices, order);
  }

  lemma PrimariesOfLowered(c: Settings, indices: seq<Index>, order: seq<Index>)
    requires Managed(indices) && multiset(indices) == multiset(order) && Valid(c)
    ensures TotalPrimaries(Lowered(c, order)) >= |Lowered(c, order)|
  {
    var lowered := Lowered(c, order);
    PermutationMembers(indices, order);
    forall i | 0 <= i < |lowered| ensures lowered[i].primaries >= 1 && lowered[i].replicas >= 0 {
      FlatMapOrigin(order, index => Lower(c, index), lowered[i]);
    }
    TotalShardsPositive(lowered);
  }

  /**
    The clamp never sees a request below one, so every node count an operation asks for
    is in the configured range. The one count that skips the clamp is the unchanged one
    that accompanies added replicas.
  */
  lemma NodeTargetInRange(c: Settings, first: seq<Index>, second: seq<Index>, hint: Direction, nodes: int)
    requires Decidable(c, first, second, nodes)
    ensures var op := Decide(c, first, second, hint, nodes);
            op.nodeReplicas.Some? ==>
              || c.minReplicas <= op.nodeReplicas.value <= c.maxReplicas
              || (op.nodeReplicas.value == nodes && op.direction == UP && op.indexReplicas == Raised(second))
  {
    var shards := TotalShards(first);
    TotalShardsPositive(first);
    if RatioExceeds(shards, nodes, c.maxShardsPerNode) {
      if nodes > 0 {
        RatioComparisons(shards, nodes, c.maxShardsPerNode);
      }
      LimitTarget(c, nodes, shards);
      hide EnsureBounds, RatioExceeds, ShardToNodeRatio, Sum, Ceil, ScaleUp, ScaleDown;
    } else {
      VisitingOrder.RatioNeedsNodes(shards, nodes, c.maxShardsPerNode);
      HintTargetInRange(c, first, second, nodes);
      EnsureBoundsRange(c, nodes);
      hide EnsureBounds, RatioExceeds, ShardToNodeRatio, Sum, FlatMap, Ceil, Raised, ScaleUp, ScaleDown,
           CorrectionDirection;
    }
  }

  lemma HintTargetInRange(c: Settings, first: seq<Index>, second: seq<Index>, nodes: int)
    requires Decidable(c, first, second, nodes) && nodes > 0
    ensures TotalShards(first) > 0
    ensures var op := ScaleUp(c, second, nodes, TotalShards(first));
            op.nodeReplicas.Some? ==>
              || c.minReplicas <= op.nodeReplicas.value <= c.maxReplicas
              || (op.nodeReplicas.value == nodes && op.direction == UP && op.indexReplicas == Raised(second))
    ensures var op := ScaleDown(c, second, nodes, TotalShards(first));
            op.nodeReplicas.Some? ==> c.minReplicas <= op.nodeReplicas.value <= c.maxReplicas
  {
    var shards := TotalShards(first);
    TotalShardsPositive(first);
    LoweredLeavesShards(c, first, second);
    TargetsInRange(c, nodes, shards, shards + TotalPrimaries(second), shards - TotalPrimaries(Lowered(c, second)));
    hide UpTargetWithReplicas, UpTarget, DownTargetWithReplicas, DownTarget, RatioExceeds, ShardToNodeRatio,
         Sum, FlatMap, Raised, DirectionOf;
  }

  lemma TargetsInRange(c: Settings, nodes: int, shards: int, more: int, less: int)
    requires Valid(c) && 0 < nodes <= NUDGE_LIMIT && shards > 0 && less > 0
    ensures more > 0 && UpTargetWithReplicas(c, nodes, shards, more) != nodes ==>
              c.minReplicas <= UpTargetWithReplicas(c, nodes, shards, more) <= c.maxReplicas
    ensures c.minReplicas <= UpTarget(c, nodes, shards) <= c.maxReplicas
    ensures c.minReplicas <= DownTargetWithReplicas(c, nodes, shards, less) <= c.maxReplicas
    ensures c.minReplicas <= DownTarget(c, nodes, shards) <= c.maxReplicas
  {
    if more > 0 {
      SameRatioPositive(nodes, shards, more);
    }
    SameRatioPositive(nodes, shards, less);
    IncreasedPositive(nodes, shards);
    DecreasedNodesForm(nodes, shards);
    hide NodesWithSameRatio, IncreasedNodes, ShardToNodeRatio;
  }

  // ----- one autoscaling step from an in-bounds cluster -----

  ghost predicate InBounds(c: Settings, cluster: Cluster) {
    && Managed(cluster.indices)
    && c.minReplicas <= cluster.nodes <= c.maxReplicas
    && forall i :: 0 <= i < |cluster.indices| ==>
         c.minIndexReplicas <= cluster.indices[i].replicas <= c.maxIndexReplicas
  }

  ghost predicate WithinLimit(c: Settings, cluster: Cluster) {
    TotalShards(cluster.indices) <= c.maxShardsPerNode * cluster.nodes
  }

  /** What scaling up can still add: nodes up to the maximum and replicas of every index. */
  function Slack(c: Settings, cluster: Cluster): int {
    c.maxReplicas - cluster.nodes + Sum(cluster.indices, (x: Index) => c.maxIndexReplicas - x.replicas)
  }

  lemma NothingToCorrect(c: Settings, cluster: Cluster, order: seq<Index>)
    requires InBounds(c, cluster) && multiset(cluster.indices) == multiset(order)
    ensures Corrections(c, order) == []
  {
    PermutationMembers(cluster.indices, order);
    if Corrections(c, order) != [] {
      FlatMapOrigin(order, index => Correction(c, index), Corrections(c, order)[0]);
    }
  }

  /** Over the shard limit every hint leads to the same scale-out. */
  lemma OverLimitStep(c: Settings, cluster: Cluster, first: seq<Index>, second: seq<Index>, hint: Direction)
    requires Operable(c) && InBounds(c, cluster) && !WithinLimit(c, cluster)
    requires multiset(first) == multiset(cluster.indices) == multiset(second)
    ensures Decidable(c, first, second, cluster.nodes)
    ensures var op := Decide(c, first, second, hint, cluster.nodes);
            && op.nodeReplicas.Some?
            && op == ToNodes(cluster.nodes, op.nodeReplicas.value, [])
            && cluster.nodes <= op.nodeReplicas.value <= c.maxReplicas
            && (TotalShards(cluster.indices) <= c.maxShardsPerNode * op.nodeReplicas.value
                || op.nodeReplicas.value == c.maxReplicas)
  {
    VisitingOrder.OrderIsManaged(cluster.indices, first);
    SumPermutation(cluster.indices, first, Shards);
    TotalShardsPositive(first);
    RatioComparisons(TotalShards(first), cluster.nodes, c.maxShardsPerNode);
    LimitTarget(c, cluster.nodes, TotalShards(first));
  }

  /** Within the limit an in-bounds cluster is decided by the hint alone. */
  lemma WithinLimitStep(c: Settings, cluster: Cluster, first: seq<Index>, second: seq<Index>, hint: Direction)
    requires Operable(c) && InBounds(c, cluster) && WithinLimit(c, cluster)
    requires multiset(first) == multiset(cluster.indices) == multiset(second)
    ensures Decidable(c, first, second, cluster.nodes)
    ensures 0 < cluster.nodes <= NUDGE_LIMIT && TotalShards(cluster.indices) > 0
    ensures Decide(c, first, second, hint, cluster.nodes)
         == match hint
            case UP => ScaleUp(c, second, cluster.nodes, TotalShards(cluster.indices))
            case DOWN => ScaleDown(c, second, cluster.nodes, TotalShards(cluster.indices))
            case NONE => NOOP
  {
    VisitingOrder.OrderIsManaged(cluster.indices, first);
    SumPermutation(cluster.indices, first, Shards);
    TotalShardsPositive(first);
    RatioComparisons(TotalShards(first), cluster.nodes, c.maxShardsPerNode);
    NothingToCorrect(c, cluster, first);
    EnsureBoundsRange(c, cluster.nodes);
    hide ScaleUp, ScaleDown, Sum, FlatMap, ShardToNodeRatio;
  }

  lemma UpTargets(c: Settings, nodes: int, shards: int, added: int)
    requires Operable(c) && c.minReplicas <= nodes <= c.maxReplicas && added > 0
    requires 0 < shards <= c.maxShardsPerNode * nodes
    ensures shards > nodes ==>
              nodes <= UpTarget(c, nodes, shards) <= c.maxReplicas
              && shards <= c.maxShardsPerNode * UpTarget(c, nodes, shards)
    ensures shards <= c.minShardsPerNode * nodes ==>
              var m := UpTargetWithReplicas(c, nodes, shards, shards + added);
              nodes <= m <= c.maxReplicas
              && (shards + added <= c.maxShardsPerNode * m || m == c.maxReplicas)
  {
    if shards > nodes {
      IncreasedPositive(nodes, shards);
      EnsureBoundsRange(c, IncreasedNodes(nodes, shards));
      Monotone(nodes, UpTarget(c, nodes, shards), c.maxShardsPerNode);
    }
    if shards <= c.minShardsPerNode * nodes {
      UpWithReplicas(c, nodes, shards, added);
    }
  }

  lemma UpWithReplicas(c: Settings, nodes: int, shards: int, added: int)
    requires Operable(c) && c.minReplicas <= nodes <= c.maxReplicas && added > 0
    requires 0 < shards <= c.minShardsPerNode * nodes
    ensures var m := UpTargetWithReplicas(c, nodes, shards, shards + added);
            nodes <= m <= c.maxReplicas
            && (shards + added <= c.maxShardsPerNode * m || m == c.maxReplicas)
  {
    var t := shards + added;
    var m := UpTargetWithReplicas(c, nodes, shards, t);
    RatioComparisons(t, nodes, c.minShardsPerNode);
    if t >= c.minShardsPerNode * nodes {
      KeepRatioUp(nodes, shards, added, c.minShardsPerNode);
      EnsureBoundsRange(c, NodesWithSameRatio(nodes, shards, t));
      hide NodesWithSameRatio, ShardToNodeRatio;
      AtLeastBound(c.minShardsPerNode, c.maxShardsPerNode, m);
    } else {
      hide NodesWithSameRatio, ShardToNodeRatio;
      AtLeastBound(c.minShardsPerNode, c.maxShardsPerNode, nodes);
    }
  }

  lemma AtLeastBound(a: int, b: int, k: int)
    requires a <= b && k >= 0
    ensures a * k <= b * k
  {
  }

  lemma DownTargets(c: Settings, nodes: int, shards: int, left: int)
    requires Operable(c) && c.minReplicas <= nodes <= c.maxReplicas
    requires 0 < left <= shards <= c.maxShardsPerNode * nodes
    ensures c.minReplicas <= DownTarget(c, nodes, shards) <= nodes
    ensures left < shards ==>
              var m := DownTargetWithReplicas(c, nodes, shards, left);
              c.minReplicas <= m <= nodes && left <= c.maxShardsPerNode * m
  {
    DecreasedNodesForm(nodes, shards);
    if left < shards {
      KeepRatioDown(nodes, shards, left, c.maxShardsPerNode);
      var wanted := NodesWithSameRatio(nodes, shards, left);
      EnsureBoundsRange(c, wanted);
      hide NodesWithSameRatio, DecreasedNodes;
      Monotone(wanted, DownTargetWithReplicas(c, nodes, shards, left), c.maxShardsPerNode);
    }
  }

  /** Names and primaries stay, no replica count leaves its range. */
  ghost predicate SameIndices(before: Cluster, after: Cluster) {
    && |after.indices| == |before.indices|
    && forall i :: 0 <= i < |after.indices| ==>
         after.indices[i] == before.indices[i].(replicas := after.indices[i].replicas)
  }

  ghost predicate LimitOrMax(c: Settings, cluster: Cluster) {
    WithinLimit(c, cluster) || cluster.nodes == c.maxReplicas
  }

  /** What one step under the UP hint promises. */
  ghost predicate Grown(c: Settings, before: Cluster, op: Operation, after: Cluster) {
    && InBounds(c, after) && LimitOrMax(c, after)
    && op.direction != DOWN
    && SameIndices(before, after) && after.nodes >= before.nodes
    && (forall i :: 0 <= i < |after.indices| ==> after.indices[i].replicas >= before.indices[i].replicas)
    && (op.direction != NONE ==> Slack(c, after) < Slack(c, before))
  }

  /** What one step under the DOWN hint promises. */
  ghost predicate Shrunk(c: Settings, before: Cluster, op: Operation, after: Cluster) {
    && InBounds(c, after) && WithinLimit(c, after)
    && op.direction != UP
    && SameIndices(before, after) && after.nodes <= before.nodes
    && (forall i :: 0 <= i < |after.indices| ==> after.indices[i].replicas <= before.indices[i].replicas)
    && (op.direction != NONE ==> after.nodes < before.nodes)
  }

  lemma NodesOnly(c: Settings, cluster: Cluster, m: int)
    ensures Apply(cluster, ToNodes(cluster.nodes, m, [])) == cluster.(nodes := m)
    ensures Slack(c, cluster.(nodes := m)) == Slack(c, cluster) + cluster.nodes - m
  {
    NoChanges(cluster.indices);
  }

  lemma RaisedSlack(c: Settings, cluster: Cluster)
    ensures Slack(c, cluster.(indices := Raised(cluster.indices))) == Slack(c, cluster) - |cluster.indices|
  {
    var room := (x: Index) => c.maxIndexReplicas - x.replicas;
    var less := (x: Index) => -1;
    SumPointwise(cluster.indices, Raised(cluster.indices), room, less);
    SumConstant(cluster.indices, -1);
  }

  lemma {:induction false} SumConstant(s: seq<Index>, k: int)
    ensures Sum(s, (x: Index) => k) == k * |s|
  {
    if s != [] {
      SumConstant(s[..|s| - 1], k);
    }
  }

  lemma RaisedInBounds(c: Settings, cluster: Cluster, order: seq<Index>, m: int)
    requires InBounds(c, cluster) && multiset(order) == multiset(cluster.indices)
    requires !SomeAtMax(c, order) && cluster.nodes <= m <= c.maxReplicas
    ensures InBounds(c, Cluster(m, Raised(cluster.indices)))
  {
    PermutationMembers(cluster.indices, order);
    forall i | 0 <= i < |cluster.indices| ensures cluster.indices[i].replicas < c.maxIndexReplicas {
      assert cluster.indices[i] in order;
    }
  }

  lemma LoweredInBounds(c: Settings, cluster: Cluster, order: seq<Index>)
    requires InBounds(c, cluster) && multiset(order) == multiset(cluster.indices) && Valid(c)
    ensures var after := WithReplicas(cluster.indices, Lowered(c, order));
            && InBounds(c, Cluster(cluster.nodes, after)) && SameIndices(cluster, Cluster(cluster.nodes, after))
            && forall i :: 0 <= i < |after| ==> after[i].replicas <= cluster.indices[i].replicas
  {
    forall i | 0 <= i < |cluster.indices|
      ensures WithReplicas(cluster.indices, Lowered(c, order))[i] == LoweredIndex(c, cluster.indices[i])
    {
      LoweredApplied(c, cluster.indices, order, i);
    }
  }

  lemma UpByReplicas(c: Settings, cluster: Cluster, order: seq<Index>, m: int)
    requires Valid(c) && InBounds(c, cluster) && multiset(order) == multiset(cluster.indices)
    requires !SomeAtMax(c, order) && cluster.nodes <= m <= c.maxReplicas
    requires TotalShards(cluster.indices) + TotalPrimaries(order) <= c.maxShardsPerNode * m || m == c.maxReplicas
    ensures var op := Operation(UP, Some(m), Raised(order));
            Grown(c, cluster, op, Apply(cluster, op))
  {
    var raised := Raised(cluster.indices);
    SumPermutation(cluster.indices, order, Primaries);
    RaisedApplied(cluster.indices, order);
    RaisedTotal(cluster.indices);
    RaisedInBounds(c, cluster, order, m);
    RaisedSlack(c, cluster);
    NodesOnly(c, Cluster(cluster.nodes, raised), m);
    hide Sum;
    assert Apply(cluster, Operation(UP, Some(m), Raised(order))) == Cluster(m, raised);
  }

  lemma UpByNodes(c: Settings, cluster: Cluster, m: int)
    requires Valid(c) && InBounds(c, cluster) && cluster.nodes <= m <= c.maxReplicas
    requires TotalShards(cluster.indices) <= c.maxShardsPerNode * m || m == c.maxReplicas
    ensures var op := ToNodes(cluster.nodes, m, []);
            Grown(c, cluster, op, Apply(cluster, op))
  {
    NodesOnly(c, cluster, m);
    hide Sum;
  }

  lemma DownByReplicas(c: Settings, cluster: Cluster, order: seq<Index>, m: int)
    requires Valid(c) && InBounds(c, cluster) && WithinLimit(c, cluster)
    requires multiset(order) == multiset(cluster.indices) && c.minReplicas <= m <= cluster.nodes
    requires TotalShards(cluster.indices) - TotalPrimaries(Lowered(c, order)) <= c.maxShardsPerNode * m
    ensures var op := ToNodes(cluster.nodes, m, Lowered(c, order));
            Shrunk(c, cluster, op, Apply(cluster, op))
  {
    LoweredTotal(c, cluster.indices, order);
    LoweredInBounds(c, cluster, order);
    hide Sum, FlatMap;
  }

  lemma DownByNodes(c: Settings, cluster: Cluster, m: int)
    requires Valid(c) && InBounds(c, cluster) && c.minReplicas <= m <= cluster.nodes
    requires TotalShards(cluster.indices) <= c.maxShardsPerNode * m
    ensures var op := ToNodes(cluster.nodes, m, []);
            Shrunk(c, cluster, op, Apply(cluster, op))
  {
    NodesOnly(c, cluster, m);
    hide Sum;
  }

  lemma NoStep(c: Settings, cluster: Cluster)
    requires Valid(c) && InBounds(c, cluster) && WithinLimit(c, cluster)
    ensures Grown(c, cluster, NOOP, Apply(cluster, NOOP)) && Shrunk(c, cluster, NOOP, Apply(cluster, NOOP))
  {
  }

  lemma UpStep(c: Settings, cluster: Cluster, first: seq<Index>, second: seq<Index>)
    requires Operable(c) && InBounds(c, cluster) && WithinLimit(c, cluster)
    requires multiset(first) == multiset(cluster.indices) == multiset(second)
    ensures Decidable(c, first, second, cluster.nodes)
    ensures var op := Decide(c, first, second, UP, cluster.nodes);
            Grown(c, cluster, op, Apply(cluster, op))
  {
    WithinLimitStep(c, cluster, first, second, UP);
    var nodes, shards := cluster.nodes, TotalShards(cluster.indices);
    TotalShardsPositive(cluster.indices);
    SumPermutation(cluster.indices, second, Primaries);
    UpTargets(c, nodes, shards, TotalPrimaries(second));
    RatioComparisons(shards, nodes, c.minShardsPerNode);
    AtLeastBound(1, c.minShardsPerNode, nodes);
    hide UpTarget, UpTargetWithReplicas, Sum, Decide, ShardToNodeRatio, Grown, InBounds, Apply, Decidable, Valid;
    if shards <= c.minShardsPerNode * nodes {
      if SomeAtMax(c, second) {
        NoStep(c, cluster);
      } else {
        UpByReplicas(c, cluster, second, UpTargetWithReplicas(c, nodes, shards, shards + TotalPrimaries(second)));
      }
    } else {
      UpByNodes(c, cluster, UpTarget(c, nodes, shards));
    }
  }

  lemma DownStep(c: Settings, cluster: Cluster, first: seq<Index>, second: seq<Index>)
    requires Operable(c) && InBounds(c, cluster) && WithinLimit(c, cluster)
    requires multiset(first) == multiset(cluster.indices) == multiset(second)
    ensures Decidable(c, first, second, cluster.nodes)
    ensures var op := Decide(c, first, second, DOWN, cluster.nodes);
            Shrunk(c, cluster, op, Apply(cluster, op))
  {
    WithinLimitStep(c, cluster, first, second, DOWN);
    var nodes, shards := cluster.nodes, TotalShards(cluster.indices);
    var left := shards - TotalPrimaries(Lowered(c, second));
    LoweredLeavesShards(c, cluster.indices, second);
    DownTargets(c, nodes, shards, left);
    var m := DownTarget(c, nodes, shards);
    RatioComparisons(shards, m, c.maxShardsPerNode);
    hide DownTarget, DownTargetWithReplicas, Sum, Decide, FlatMap, ShardToNodeRatio, Shrunk;
    if left != shards {
      DownByReplicas(c, cluster, second, DownTargetWithReplicas(c, nodes, shards, left));
    } else if RatioExceeds(shards, m, c.maxShardsPerNode) {
      NoStep(c, cluster);
    } else {
      DownByNodes(c, cluster, m);
    }
  }

  // ----- runs -----

  /** What one autoscaling round observes: two visiting orders, a hint and the disk usages. */
  datatype Observation = Observation(first: seq<Index>, second: seq<Index>, hint: Direction, diskUsages: seq<real>)

  ghost predicate Step(c: Settings, before: Cluster, o: Observation, after: Cluster) {
    && Decidable(c, o.first, o.second, before.nodes)
    && multiset(o.first) == multiset(before.indices)
    && after == Apply(before, CalculateOperation(c, o.first, o.second, o.hint, Some(before.nodes), o.diskUsages))
  }

  ghost predicate Run(c: Settings, run: seq<Cluster>, rounds: seq<Observation>) {
    && |run| == |rounds| + 1
    && forall i :: 0 <= i < |rounds| ==> Step(c, run[i], rounds[i], run[i + 1])
  }

  predicate DiskVeto(c: Settings, op: Operation, diskUsages: seq<real>) {
    op.direction == DOWN && c.diskWatermark > 0 && MaxDisk(diskUsages) > c.diskWatermark as real
  }

  /** With valid settings and enough nodes, of the two safety checks only the disk one can act. */
  lemma CopiesCheckNeverFires(c: Settings, first: seq<Index>, second: seq<Index>, hint: Direction, nodes: int,
                              diskUsages: seq<real>)
    requires Decidable(c, first, second, nodes) && nodes >= c.minReplicas
    ensures var op := Decide(c, first, second, hint, nodes);
            CalculateOperation(c, first, second, hint, Some(nodes), diskUsages)
            == if DiskVeto(c, op, diskUsages) then NOOP else op
  {
    NodeTargetInRange(c, first, second, hint, nodes);
    hide Decide;
  }

  lemma StepUnderUp(c: Settings, before: Cluster, o: Observation, after: Cluster)
    requires Operable(c) && InBounds(c, before) && Step(c, before, o, after)
    requires o.hint == UP || !WithinLimit(c, before)
    ensures var op := Decide(c, o.first, o.second, o.hint, before.nodes);
            after == Apply(before, op) && Grown(c, before, op, after)
  {
    CopiesCheckNeverFires(c, o.first, o.second, o.hint, before.nodes, o.diskUsages);
    if WithinLimit(c, before) {
      UpStep(c, before, o.first, o.second);
    } else {
      OverLimitStep(c, before, o.first, o.second, o.hint);
      UpByNodes(c, before, Decide(c, o.first, o.second, o.hint, before.nodes).nodeReplicas.value);
    }
    hide Decide, InBounds, WithinLimit, Slack;
  }

  lemma StepUnderDown(c: Settings, before: Cluster, o: Observation, after: Cluster)
    requires Operable(c) && InBounds(c, before) && WithinLimit(c, before) && Step(c, before, o, after)
    requires o.hint == DOWN
    ensures var op := CalculateOperation(c, o.first, o.second, DOWN, Some(before.nodes), o.diskUsages);
            Shrunk(c, before, op, after)
  {
    CopiesCheckNeverFires(c, o.first, o.second, DOWN, before.nodes, o.diskUsages);
    DownStep(c, before, o.first, o.second);
    NoStep(c, before);
    hide Decide, InBounds, WithinLimit, Shrunk;
  }

  lemma StepUnderNone(c: Settings, before: Cluster, o: Observation, after: Cluster)
    requires Operable(c) && InBounds(c, before) && WithinLimit(c, before) && Step(c, before, o, after)
    requires o.hint == NONE
    ensures after == before
  {
    CopiesCheckNeverFires(c, o.first, o.second, NONE, before.nodes, o.diskUsages);
    WithinLimitStep(c, before, o.first, o.second, NONE);
  }

  /**
    Under any hints, from an in-bounds cluster: nodes and every index stay in their ranges,
    and after each round the shards fit under the limit or no more nodes are allowed.
  */
  lemma {:induction false} RunStaysInBounds(c: Settings, run: seq<Cluster>, rounds: seq<Observation>, i: nat)
    requires Operable(c) && Run(c, run, rounds) && InBounds(c, run[0]) && i < |run|
    ensures InBounds(c, run[i])
    ensures i > 0 ==> LimitOrMax(c, run[i])
  {
    if i > 0 {
      RunStaysInBounds(c, run, rounds, i - 1);
      var before, o := run[i - 1], rounds[i - 1];
      assert Step(c, before, o, run[i]);
      if o.hint == UP || !WithinLimit(c, before) {
        StepUnderUp(c, before, o, run[i]);
      } else if o.hint == DOWN {
        StepUnderDown(c, before, o, run[i]);
      } else {
        StepUnderNone(c, before, o, run[i]);
      }
    }
  }

  /** A round that left the cluster alone under UP is followed only by such rounds. */
  lemma UpStallRepeats(c: Settings, cluster: Cluster, o1: Observation, o2: Observation, after: Cluster)
    requires Operable(c) && InBounds(c, cluster) && o1.hint == UP == o2.hint
    requires Step(c, cluster, o1, cluster) && Step(c, cluster, o2, after)
    ensures after == cluster
  {
    StepUnderUp(c, cluster, o1, cluster);
    StepUnderUp(c, cluster, o2, after);
    PermutationMembers(cluster.indices, o1.first);
    assert !VisitingOrder.SomeBelow(c, o1.first) by {
      assert forall i :: 0 <= i < |o1.first| ==> o1.first[i] in cluster.indices;
    }
    VisitingOrder.OrderIndependence(c, o1.first, o1.second, o2.first, o2.second, UP, cluster.nodes);
    hide Decide, InBounds, WithinLimit;
  }

  ghost predicate AllHints(rounds: seq<Observation>, hint: Direction) {
    forall i :: 0 <= i < |rounds| ==> rounds[i].hint == hint
  }

  lemma SlackNonNegative(c: Settings, cluster: Cluster)
    requires InBounds(c, cluster)
    ensures Slack(c, cluster) >= 0
  {
    SumNonNegative(cluster.indices, (x: Index) => c.maxIndexReplicas - x.replicas);
  }

  lemma {:induction false} SumNonNegative(s: seq<Index>, f: Index -> int)
    requires forall x :: x in s ==> f(x) >= 0
    ensures Sum(s, f) >= 0
  {
    if s != [] {
      SumNonNegative(s[..|s| - 1], f);
    }
  }

  /** Each round uses up slack until one changes nothing. */
  lemma {:induction false} UpRunUsesSlack(c: Settings, run: seq<Cluster>, rounds: seq<Observation>, i: nat)
    requires Operable(c) && Run(c, run, rounds) && InBounds(c, run[0]) && AllHints(rounds, UP) && i < |run|
    ensures InBounds(c, run[i])
    ensures Slack(c, run[i]) + i <= Slack(c, run[0]) || (i > 0 && run[i] == run[i - 1])
  {
    if i > 0 {
      UpRunUsesSlack(c, run, rounds, i - 1);
      var before, o := run[i - 1], rounds[i - 1];
      assert Step(c, before, o, run[i]);
      StepUnderUp(c, before, o, run[i]);
      if i > 1 && before == run[i - 2] {
        assert Step(c, run[i - 2], rounds[i - 2], before);
        UpStallRepeats(c, before, rounds[i - 2], o, run[i]);
      }
    }
  }

  ghost predicate NotBelow(before: Cluster, after: Cluster) {
    && before.nodes <= after.nodes && SameIndices(before, after)
    && forall k :: 0 <= k < |before.indices| ==> before.indices[k].replicas <= after.indices[k].replicas
  }

  lemma UpRound(c: Settings, run: seq<Cluster>, rounds: seq<Observation>, j: nat)
    requires Operable(c) && Run(c, run, rounds) && InBounds(c, run[0]) && AllHints(rounds, UP)
    requires 0 < j < |run|
    ensures NotBelow(run[j - 1], run[j])
    ensures Slack(c, run[0]) < j ==> run[j] == run[j - 1]
  {
    UpRunUsesSlack(c, run, rounds, j - 1);
    UpRunUsesSlack(c, run, rounds, j);
    SlackNonNegative(c, run[j]);
    assert Step(c, run[j - 1], rounds[j - 1], run[j]);
    StepUnderUp(c, run[j - 1], rounds[j - 1], run[j]);
    hide Decide, InBounds, LimitOrMax, Slack;
  }

  /**
    Repeating UP never removes a node or a replica and reaches a fixed point within Slack
    rounds: from then on every round leaves the cluster as it is.
  */
  lemma {:induction false} UpRunSettles(c: Settings, run: seq<Cluster>, rounds: seq<Observation>, i: nat, j: nat)
    requires Operable(c) && Run(c, run, rounds) && InBounds(c, run[0]) && AllHints(rounds, UP)
    requires i <= j < |run|
    ensures NotBelow(run[i], run[j])
    ensures Slack(c, run[0]) <= i ==> run[i] == run[j]
    decreases j
  {
    if i < j {
      UpRunSettles(c, run, rounds, i, j - 1);
      UpRound(c, run, rounds, j);
      NotBelowTransitive(run[i], run[j - 1], run[j]);
      hide Run, InBounds, Slack, NotBelow;
    } else {
      hide Run, InBounds, Slack;
    }
  }

  lemma NotBelowTransitive(a: Cluster, b: Cluster, d: Cluster)
    requires NotBelow(b, d)
    ensures NotBelow(a, b) ==> NotBelow(a, d)
  {
  }

  /** How many rounds of a run changed the cluster. */
  function Changes(run: seq<Cluster>): nat {
    if |run| < 2 then 0
    else Changes(run[..|run| - 1]) + if run[|run| - 1] != run[|run| - 2] then 1 else 0
  }

  lemma DownRound(c: Settings, before: Cluster, o: Observation, after: Cluster)
    requires Operable(c) && InBounds(c, before) && WithinLimit(c, before) && Step(c, before, o, after)
    requires o.hint == DOWN
    ensures InBounds(c, after) && WithinLimit(c, after)
    ensures after == before || c.minReplicas <= after.nodes < before.nodes
  {
    StepUnderDown(c, before, o, after);
    hide CalculateOperation, WithinLimit;
  }

  lemma RunPrefix(c: Settings, run: seq<Cluster>, rounds: seq<Observation>)
    requires Run(c, run, rounds) && rounds != []
    ensures Run(c, run[..|rounds|], rounds[..|rounds| - 1])
    ensures Step(c, run[|rounds| - 1], rounds[|rounds| - 1], run[|rounds|])
  {
    var n := |rounds| - 1;
    forall i | 0 <= i < n ensures Step(c, run[..n + 1][i], rounds[..n][i], run[..n + 1][i + 1]) {
      assert Step(c, run[i], rounds[i], run[i + 1]);
    }
    hide Step;
  }

  /**
    Repeating DOWN from a cluster within the shard limit stays within it, so the scale-out
    that limit forces is never triggered: nodes never rise, every change removes a node,
    and there are at most as many changes as nodes above the minimum.
  */
  lemma {:induction false} DownRunSettles(c: Settings, run: seq<Cluster>, rounds: seq<Observation>)
    requires Operable(c) && Run(c, run, rounds) && AllHints(rounds, DOWN)
    requires InBounds(c, run[0]) && WithinLimit(c, run[0])
    ensures forall i :: 0 <= i < |run| ==> InBounds(c, run[i]) && WithinLimit(c, run[i])
    ensures forall i :: 0 < i < |run| ==> run[i] == run[i - 1] || run[i].nodes < run[i - 1].nodes
    ensures Changes(run) <= run[0].nodes - run[|run| - 1].nodes
    ensures run[|run| - 1].nodes >= c.minReplicas
  {
    hide WithinLimit;
    if rounds != [] {
      var n := |rounds|;
      RunPrefix(c, run, rounds);
      DownRunSettles(c, run[..n], rounds[..n - 1]);
      DownRound(c, run[n - 1], rounds[n - 1], run[n]);
      hide Run, InBounds;
      assert run == run[..n] + [run[n]];
    }
  }

  /** A correction round moves every index into its range, whatever state it starts from. */
  lemma CorrectionRoundRepairs(c: Settings, cluster: Cluster, o: Observation, after: Cluster)
    requires Step(c, cluster, o, after) && Managed(cluster.indices)
    requires !RatioExceeds(TotalShards(cluster.indices), cluster.nodes, c.maxShardsPerNode)
    requires Corrections(c, cluster.indices) != []
    ensures if DiskVeto(c, Decide(c, o.first, o.second, o.hint, cluster.nodes), o.diskUsages) then after == cluster
            else
              && after.nodes == cluster.nodes && SameIndices(cluster, after)
              && forall i :: 0 <= i < |after.indices| ==>
                   c.minIndexReplicas <= after.indices[i].replicas <= c.maxIndexReplicas
  {
    SumPermutation(cluster.indices, o.first, Shards);
    VisitingOrder.CorrectionsPermutation(c, cluster.indices, o.first);
    VisitingOrder.CorrectionDirectionMeaning(c, o.first);
    forall i | 0 <= i < |cluster.indices|
      ensures var index := WithReplicas(cluster.indices, Corrections(c, o.first))[i];
              && c.minIndexReplicas <= index.replicas <= c.maxIndexReplicas
              && index == cluster.indices[i].(replicas := index.replicas)
    {
      CorrectedApplied(c, cluster.indices, o.first, i);
    }
    hide Sum, FlatMap, RatioExceeds, MaxDisk;
  }
}
