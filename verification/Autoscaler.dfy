/**
  operator/autoscaler.go: how a scaling operation is computed from the settings, the
  managed indices, the scaling hint and the desired node count.

  Go visits a map in an unspecified order and scaleUpOrDown ranges over the index map
  twice, so the decision takes two visiting orders of the same indices.
*/
module Autoscaler {
  import opened Base
  import opened Rounding
  import opened Sequences

  /** spec.scaling of the ElasticsearchDataSet; durations in seconds. */
  datatype Settings = Settings(
    enabled: bool,
    minReplicas: int, maxReplicas: int,
    minIndexReplicas: int, maxIndexReplicas: int,
    minShardsPerNode: int, maxShardsPerNode: int,
    scaleUpCPUBoundary: int, scaleUpThreshold: int, scaleUpCooldown: int,
    scaleDownCPUBoundary: int, scaleDownThreshold: int, scaleDownCooldown: int,
    diskWatermark: int)

  datatype Index = Index(name: string, primaries: int, replicas: int)

  datatype Operation = Operation(direction: Direction, nodeReplicas: Option<int>, indexReplicas: seq<Index>)

  const NOOP: Operation := Operation(NONE, None, [])

  // ----- settings -----

  datatype SettingsError =
    | MinReplicasBelowOne
    | ReplicasInverted
    | IndexReplicasInverted
    | ShardsPerNodeInverted
    | MinReplicasBelowMinCopies
    | MaxReplicasBelowMaxCopies

  function Validate(scaling: Option<Settings>): Option<SettingsError> {
    if scaling.None? || !scaling.value.enabled then None
    else
      var c := scaling.value;
      if c.minReplicas < 1 then Some(MinReplicasBelowOne)
      else if c.minReplicas > c.maxReplicas then Some(ReplicasInverted)
      else if c.minIndexReplicas > c.maxIndexReplicas then Some(IndexReplicasInverted)
      else if c.minShardsPerNode > c.maxShardsPerNode then Some(ShardsPerNodeInverted)
      else if c.minReplicas < c.minIndexReplicas + 1 then Some(MinReplicasBelowMinCopies)
      else if c.maxReplicas < c.maxIndexReplicas + 1 then Some(MaxReplicasBelowMaxCopies)
      else None
  }

  /** The minima the custom resource definition puts on the fields used here. */
  predicate CrdMinima(c: Settings) {
    && c.minReplicas >= 0 && c.maxReplicas >= 0
    && c.minIndexReplicas >= 0 && c.maxIndexReplicas >= 0
    && c.minShardsPerNode >= 1 && c.maxShardsPerNode >= 1
    && c.scaleUpCPUBoundary >= 0 && c.scaleUpThreshold >= 0 && c.scaleUpCooldown >= 0
    && c.scaleDownCPUBoundary >= 0 && c.scaleDownThreshold >= 0 && c.scaleDownCooldown >= 0
  }

  /** Settings the autoscaler acts on: enabled, admitted by the API server and by Validate. */
  predicate Valid(c: Settings) {
    c.enabled && CrdMinima(c) && Validate(Some(c)) == None
  }

  function EnsureBounds(c: Settings, nodes: int): int {
    if nodes < 1 then 1
    else if c.maxReplicas > 0 && c.maxReplicas < nodes then c.maxReplicas
    else
      var floor := if c.minReplicas < 1 then 1 else c.minReplicas;
      if floor > nodes then floor else nodes
  }

  /**
    The clamp meets the configured range exactly when its request is positive or the
    range starts at one: a request below one becomes 1 whatever minReplicas says.
  */
  lemma EnsureBoundsRange(c: Settings, nodes: int)
    requires Valid(c)
    ensures c.minReplicas <= EnsureBounds(c, nodes) <= c.maxReplicas <==> nodes >= 1 || c.minReplicas == 1
    ensures nodes >= 1 ==> EnsureBounds(c, nodes) == Max(c.minReplicas, Min(nodes, c.maxReplicas))
  {
  }

  function DirectionOf(oldNodes: int, newNodes: int): Direction {
    if newNodes > oldNodes then UP else if newNodes < oldNodes then DOWN else NONE
  }

  // ----- what the loops over the index map accumulate -----

  /** The indices of a map keyed by index name, as Elasticsearch reports them. */
  ghost predicate Managed(indices: seq<Index>) {
    && indices != []
    && (forall i, j :: 0 <= i < j < |indices| ==> indices[i].name != indices[j].name)
    && (forall i :: 0 <= i < |indices| ==> indices[i].primaries >= 1 && indices[i].replicas >= 0)
  }

  function Shards(index: Index): int {
    index.primaries * (index.replicas + 1)
  }

  function TotalShards(indices: seq<Index>): int {
    Sum(indices, Shards)
  }

  function Primaries(index: Index): int {
    index.primaries
  }

  function TotalPrimaries(indices: seq<Index>): int {
    Sum(indices, Primaries)
  }

  function Correction(c: Settings, index: Index): seq<Index> {
    (if index.replicas < c.minIndexReplicas then [index.(replicas := c.minIndexReplicas)] else [])
    + (if index.replicas > c.maxIndexReplicas then [index.(replicas := c.maxIndexReplicas)] else [])
  }

  function Corrections(c: Settings, indices: seq<Index>): seq<Index> {
    FlatMap(indices, index => Correction(c, index))
  }

  function CorrectionDirection(c: Settings, indices: seq<Index>): Direction {
    if indices == [] then NONE
    else
      var last := indices[|indices| - 1];
      if last.replicas > c.maxIndexReplicas then DOWN
      else if last.replicas < c.minIndexReplicas then UP
      else CorrectionDirection(c, indices[..|indices| - 1])
  }

  function Raise(index: Index): Index {
    index.(replicas := index.replicas + 1)
  }

  function Raised(indices: seq<Index>): seq<Index> {
    seq(|indices|, i requires 0 <= i < |indices| => Raise(indices[i]))
  }

  predicate SomeAtMax(c: Settings, indices: seq<Index>) {
    exists i :: 0 <= i < |indices| && indices[i].replicas >= c.maxIndexReplicas
  }

  /** What a scale-in sends for one index: one replica less, if it may lose one. */
  function Lower(c: Settings, index: Index): seq<Index> {
    if index.replicas > c.minIndexReplicas then [index.(replicas := index.replicas - 1)] else []
  }

  function Lowered(c: Settings, indices: seq<Index>): seq<Index> {
    FlatMap(indices, index => Lower(c, index))
  }

  // ----- the decision -----

  /** shardToNodeRatio(shards, nodes) > bound, where Go's division by zero nodes is +Inf or NaN. */
  predicate RatioExceeds(shards: int, nodes: int, bound: int) {
    if nodes == 0 then shards > 0 else ShardToNodeRatio(shards, nodes) > bound as real
  }

  ghost predicate Decidable(c: Settings, first: seq<Index>, second: seq<Index>, nodes: int) {
    Valid(c) && Managed(first) && multiset(first) == multiset(second) && 0 <= nodes <= NUDGE_LIMIT
  }

  function ToNodes(oldNodes: int, newNodes: int, indexReplicas: seq<Index>): Operation {
    Operation(DirectionOf(oldNodes, newNodes), Some(newNodes), indexReplicas)
  }

  /** The node count of a scale-up that also adds a replica to every index. */
  function UpTargetWithReplicas(c: Settings, nodes: int, shards: int, newShards: int): int
    requires nodes > 0
  {
    if ShardToNodeRatio(newShards, nodes) >= c.minShardsPerNode as real then
      EnsureBounds(c, NodesWithSameRatio(nodes, shards, newShards))
    else nodes
  }

  function UpTarget(c: Settings, nodes: int, shards: int): int
    requires 0 < nodes <= NUDGE_LIMIT
  {
    IncreasedNodesDefined(nodes, shards);
    EnsureBounds(c, IncreasedNodes(nodes, shards))
  }

  function ScaleUp(c: Settings, second: seq<Index>, nodes: int, shards: int): Operation
    requires 0 < nodes <= NUDGE_LIMIT
  {
    var newShards := shards + TotalPrimaries(second);
    var addReplicas := ShardToNodeRatio(shards, nodes) <= c.minShardsPerNode as real;
    if addReplicas && SomeAtMax(c, second) then NOOP
    else if addReplicas && newShards > shards then
      Operation(UP, Some(UpTargetWithReplicas(c, nodes, shards, newShards)), Raised(second))
    else
      ToNodes(nodes, UpTarget(c, nodes, shards), [])
  }

  lemma IncreasedNodesDefined(nodes: int, shards: int)
    requires 0 < nodes <= NUDGE_LIMIT
    ensures ShardToNodeRatio(shards, nodes) <= 1.0 || LoweredRatio(nodes, shards) != 0
  {
    RatioComparisons(shards, nodes, 1);
    if shards > nodes {
      IncreasedNodesMeaning(nodes, shards);
    }
  }

  function DownTargetWithReplicas(c: Settings, nodes: int, shards: int, newShards: int): int
    requires nodes > 0
  {
    EnsureBounds(c, NodesWithSameRatio(nodes, shards, newShards))
  }

  function DownTarget(c: Settings, nodes: int, shards: int): int
    requires 0 < nodes <= NUDGE_LIMIT && shards >= 0
  {
    DecreasedNodesForm(nodes, shards);
    EnsureBounds(c, DecreasedNodes(nodes, shards))
  }

  function ScaleDown(c: Settings, second: seq<Index>, nodes: int, shards: int): Operation
    requires 0 < nodes <= NUDGE_LIMIT && shards >= 0
  {
    var lowered := Lowered(c, second);
    var newShards := shards - TotalPrimaries(lowered);
    if newShards != shards then
      ToNodes(nodes, DownTargetWithReplicas(c, nodes, shards, newShards), lowered)
    else
      var newNodes := DownTarget(c, nodes, shards);
      if RatioExceeds(newShards, newNodes, c.maxShardsPerNode) then NOOP
      else ToNodes(nodes, newNodes, [])
  }

  function Decide(c: Settings, first: seq<Index>, second: seq<Index>, hint: Direction, nodes: int): Operation
    requires Decidable(c, first, second, nodes)
  {
    var shards := TotalShards(first);
    TotalShardsPositive(first);
    if RatioExceeds(shards, nodes, c.maxShardsPerNode) then
      ToNodes(nodes, EnsureBounds(c, Ceil(ShardToNodeRatio(shards, c.maxShardsPerNode))), [])
    else if Corrections(c, first) != [] then
      Operation(CorrectionDirection(c, first), None, Corrections(c, first))
    else
      match hint
      case UP => ScaleUp(c, second, nodes, shards)
      case DOWN => ScaleDown(c, second, nodes, shards)
      case NONE =>
        var bounded := EnsureBounds(c, nodes);
        if bounded != nodes then ToNodes(nodes, bounded, []) else NOOP
  }

  lemma {:induction false} TotalShardsPositive(indices: seq<Index>)
    requires forall i :: 0 <= i < |indices| ==> indices[i].primaries >= 1 && indices[i].replicas >= 0
    ensures TotalShards(indices) >= TotalPrimaries(indices) >= |indices|
  {
    if indices != [] {
      var last := indices[|indices| - 1];
      TotalShardsPositive(indices[..|indices| - 1]);
      assert last.primaries * (last.replicas + 1) >= last.primaries;
    }
  }

  /** operator/autoscaler.go scaleUpOrDown, loop for loop. */
  method ScaleUpOrDown(c: Settings, first: seq<Index>, second: seq<Index>, hint: Direction, nodes: int)
    returns (op: Operation)
    requires Decidable(c, first, second, nodes)
    ensures op == Decide(c, first, second, hint, nodes)
  {
    var newIndices: seq<Index> := [];
    var indexDirection := NONE;
    var shards := 0;
    for i := 0 to |first|
      invariant shards == TotalShards(first[..i])
      invariant newIndices == Corrections(c, first[..i])
      invariant indexDirection == CorrectionDirection(c, first[..i])
    {
      assert first[..i + 1][..i] == first[..i];
      shards := shards + first[i].primaries * (first[i].replicas + 1);
      if first[i].replicas < c.minIndexReplicas {
        indexDirection := UP;
        newIndices := newIndices + [first[i].(replicas := c.minIndexReplicas)];
      }
      if first[i].replicas > c.maxIndexReplicas {
        indexDirection := DOWN;
        newIndices := newIndices + [first[i].(replicas := c.maxIndexReplicas)];
      }
    }
    assert first[..|first|] == first;
    TotalShardsPositive(first);

    if RatioExceeds(shards, nodes, c.maxShardsPerNode) {
      var newNodes := EnsureBounds(c, Ceil(ShardToNodeRatio(shards, c.maxShardsPerNode)));
      return Operation(DirectionOf(nodes, newNodes), Some(newNodes), []);
    }
    if |newIndices| > 0 {
      return Operation(indexDirection, None, newIndices);
    }
    if hint == UP {
      op := ScaleUpLoop(c, second, nodes, shards);
    } else if hint == DOWN {
      op := ScaleDownLoop(c, second, nodes, shards);
    } else {
      var bounded := EnsureBounds(c, nodes);
      if bounded != nodes {
        return Operation(DirectionOf(nodes, bounded), Some(bounded), []);
      }
      return NOOP;
    }
  }

  method ScaleUpLoop(c: Settings, second: seq<Index>, nodes: int, shards: int) returns (op: Operation)
    requires 0 < nodes <= NUDGE_LIMIT
    ensures op == ScaleUp(c, second, nodes, shards)
  {
    if ShardToNodeRatio(shards, nodes) <= c.minShardsPerNode as real {
      var newShards := shards;
      var raised: seq<Index> := [];
      for i := 0 to |second|
        invariant newShards == shards + TotalPrimaries(second[..i])
        invariant raised == Raised(second[..i])
        invariant !SomeAtMax(c, second[..i])
      {
        if second[i].replicas >= c.maxIndexReplicas {
          assert SomeAtMax(c, second);
          return NOOP;
        }
        assert second[..i + 1][..i] == second[..i];
        newShards := newShards + second[i].primaries;
        raised := raised + [Raise(second[i])];
      }
      assert second[..|second|] == second;
      if newShards > shards {
        var newNodes := nodes;
        if ShardToNodeRatio(newShards, nodes) >= c.minShardsPerNode as real {
          newNodes := EnsureBounds(c, NodesWithSameRatio(nodes, shards, newShards));
        }
        return Operation(UP, Some(newNodes), raised);
      }
    }
    IncreasedNodesDefined(nodes, shards);
    var newNodes := EnsureBounds(c, IncreasedNodes(nodes, shards));
    op := Operation(DirectionOf(nodes, newNodes), Some(newNodes), []);
  }

  method ScaleDownLoop(c: Settings, second: seq<Index>, nodes: int, shards: int) returns (op: Operation)
    requires 0 < nodes <= NUDGE_LIMIT && shards >= 0
    ensures op == ScaleDown(c, second, nodes, shards)
  {
    var newShards := shards;
    var lowered: seq<Index> := [];
    for i := 0 to |second|
      invariant lowered == Lowered(c, second[..i])
      invariant newShards == shards - TotalPrimaries(lowered)
    {
      assert second[..i + 1][..i] == second[..i];
      if second[i].replicas > c.minIndexReplicas {
        newShards := newShards - second[i].primaries;
        ghost var before := lowered;
        lowered := lowered + [second[i].(replicas := second[i].replicas - 1)];
        assert lowered[..|lowered| - 1] == before;
      }
    }
    assert second[..|second|] == second;
    if newShards != shards {
      var newNodes := EnsureBounds(c, NodesWithSameRatio(nodes, shards, newShards));
      return Operation(DirectionOf(nodes, newNodes), Some(newNodes), lowered);
    }
    DecreasedNodesForm(nodes, shards);
    var newNodes := EnsureBounds(c, DecreasedNodes(nodes, shards));
    if RatioExceeds(newShards, newNodes, c.maxShardsPerNode) {
      return NOOP;
    }
    op := Operation(DirectionOf(nodes, newNodes), Some(newNodes), []);
  }

  // ----- calculateScalingOperation -----

  function MaxDisk(usages: seq<real>): (m: real)
    ensures m >= 0.0 && (forall i :: 0 <= i < |usages| ==> usages[i] <= m)
    ensures m == 0.0 || m in usages
  {
    if usages == [] then 0.0
    else
      var rest, last := MaxDisk(usages[..|usages| - 1]), usages[|usages| - 1];
      if rest < last then last else rest
  }

  function CalculateOperation(c: Settings, first: seq<Index>, second: seq<Index>, hint: Direction,
                              nodes: Option<int>, diskUsages: seq<real>): Operation
    requires nodes.Some? && first != [] ==> Decidable(c, first, second, nodes.value)
  {
    if nodes.None? || first == [] then NOOP
    else
      var op := Decide(c, first, second, hint, nodes.value);
      if op.nodeReplicas.Some? && op.nodeReplicas.value < c.minIndexReplicas + 1 then NOOP
      else if op.direction == DOWN && c.diskWatermark > 0 && MaxDisk(diskUsages) > c.diskWatermark as real then NOOP
      else op
  }

  method GetMaxDiskUsage(usages: seq<real>) returns (maxDisk: real)
    ensures maxDisk == MaxDisk(usages)
  {
    maxDisk := 0.0;
    for i := 0 to |usages|
      invariant maxDisk == MaxDisk(usages[..i])
    {
      assert usages[..i + 1][..i] == usages[..i];
      maxDisk := if maxDisk < usages[i] then usages[i] else maxDisk;
    }
    assert usages[..|usages|] == usages;
  }

  /** The decision with its two safety checks. */
  method CalculateScalingOperation(c: Settings, first: seq<Index>, second: seq<Index>, hint: Direction,
                                   nodes: Option<int>, diskUsages: seq<real>) returns (op: Operation)
    requires nodes.Some? && first != [] ==> Decidable(c, first, second, nodes.value)
    ensures op == CalculateOperation(c, first, second, hint, nodes, diskUsages)
  {
    if nodes.None? || |first| == 0 {
      return NOOP;
    }
    op := ScaleUpOrDown(c, first, second, hint, nodes.value);
    if op.nodeReplicas.Some? && op.nodeReplicas.value < c.minIndexReplicas + 1 {
      return NOOP;
    }
    var maxDisk := GetMaxDiskUsage(diskUsages);
    if op.direction == DOWN && c.diskWatermark > 0 && maxDisk > c.diskWatermark as real {
      return NOOP;
    }
  }
}
