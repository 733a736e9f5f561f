/**
  What a scaling decision is, in numbers of nodes, shards and replicas alone: exit by exit, and
  for any visiting order of the indices.
*/
module DecisionMeaning {
  import opened Base
  import opened Rounding
  import opened Sequences
  import opened Autoscaler
  import opened OperationEffect
  import AutoscalerRuns

  // ----- the numbers a decision depends on -----

  /** All copies of all shards. */
  function CopiesOf(indices: seq<Index>): int {
    if indices == [] then 0
    else
      var last := indices[|indices| - 1];
      CopiesOf(indices[..|indices| - 1]) + last.primaries * (last.replicas + 1)
  }

  /** The copies one replica more of every index adds. */
  function OneMoreEach(indices: seq<Index>): int {
    if indices == [] then 0 else OneMoreEach(indices[..|indices| - 1]) + indices[|indices| - 1].primaries
  }

  /** The copies one replica less of every index above the minimum takes. */
  function OneLessEach(c: Settings, indices: seq<Index>): int {
    if indices == [] then 0
    else
      var last := indices[|indices| - 1];
      OneLessEach(c, indices[..|indices| - 1]) + if last.replicas > c.minIndexReplicas then last.primaries else 0
  }

  lemma {:induction false} CopiesAreShards(indices: seq<Index>)
    ensures TotalShards(indices) == CopiesOf(indices) && TotalPrimaries(indices) == OneMoreEach(indices)
  {
    if indices != [] {
      CopiesAreShards(indices[..|indices| - 1]);
    }
  }

  lemma {:induction false} LessIsLowered(c: Settings, indices: seq<Index>)
    ensures TotalPrimaries(Lowered(c, indices)) == OneLessEach(c, indices)
  {
    if indices != [] {
      var front, last := indices[..|indices| - 1], indices[|indices| - 1];
      LessIsLowered(c, front);
      SumConcat(Lowered(c, front), Lower(c, last), Primaries);
      assert Sum(Lower(c, last), Primaries) == if last.replicas > c.minIndexReplicas then last.primaries else 0;
    }
  }

  // ----- node counts -----

  predicate Allowed(c: Settings, m: int) {
    c.minReplicas <= m <= c.maxReplicas
  }

  /** The allowed node count closest to the wanted one. */
  ghost predicate Nearest(c: Settings, wanted: int, m: int) {
    && Allowed(c, m)
    && (wanted < m ==> m == c.minReplicas) && (wanted > m ==> m == c.maxReplicas)
  }

  lemma ClampIsNearest(c: Settings, wanted: int)
    requires Valid(c) && wanted >= 1
    ensures Nearest(c, wanted, EnsureBounds(c, wanted))
  {
    EnsureBoundsRange(c, wanted);
  }

  /** The least allowed count of nodes that hold the shards, or the largest if none does. */
  ghost predicate LeastThatHolds(c: Settings, shards: int, m: int) {
    && Allowed(c, m)
    && (shards <= c.maxShardsPerNode * m || m == c.maxReplicas)
    && forall k :: c.minReplicas <= k < m ==> shards > c.maxShardsPerNode * k
  }

  /** The least count at which the shards per node do not rise, where a node counts as holding one. */
  ghost predicate KeepsRatio(nodes: int, shards: int, newShards: int, w: int) {
    if shards <= nodes then w == newShards
    else newShards * nodes <= w * shards && (w - 1) * shards < newShards * nodes
  }

  /** The least larger count that lowers the shards on the fullest node. */
  ghost predicate LowersFullest(nodes: int, shards: int, w: int) {
    && 0 < nodes < w && CeilDiv(shards, w) < CeilDiv(shards, nodes)
    && forall k :: 0 < k < w ==> CeilDiv(shards, k) >= CeilDiv(shards, nodes)
  }

  /** The least count with at most one shard per node more than the whole ratio, and at least one node less. */
  ghost predicate OneShardMore(nodes: int, shards: int, w: int) {
    && 1 <= w <= nodes && (nodes >= 2 ==> w < nodes)
    && (w == nodes - 1 || w == nodes == 1 || CeilDiv(shards, w) <= shards / nodes + 1)
    && forall k :: 0 < k < w ==> CeilDiv(shards, k) > shards / nodes + 1
  }

  predicate GoesTo(nodes: int, op: Operation, m: int) {
    && op.nodeReplicas == Some(m)
    && (op.direction == UP <==> m > nodes) && (op.direction == DOWN <==> m < nodes)
  }

  predicate NothingToDo(op: Operation) {
    op.direction == NONE && op.nodeReplicas.None? && op.indexReplicas == []
  }

  // ----- index changes -----

  predicate TooFew(c: Settings, x: Index) {
    x.replicas < c.minIndexReplicas
  }

  predicate TooMany(c: Settings, x: Index) {
    x.replicas > c.maxIndexReplicas
  }

  /** Exactly the indices out of range are set to the limit they are past. */
  ghost predicate Corrects(c: Settings, indices: seq<Index>, changes: seq<Index>) {
    forall y :: y in changes <==>
      exists x :: x in indices && ((TooFew(c, x) && y == x.(replicas := c.minIndexReplicas))
                                   || (TooMany(c, x) && y == x.(replicas := c.maxIndexReplicas)))
  }

  /** Exactly the indices above the minimum lose a replica. */
  ghost predicate TakesOne(c: Settings, indices: seq<Index>, changes: seq<Index>) {
    forall y :: y in changes <==>
      exists x :: x in indices && x.replicas > c.minIndexReplicas && y == x.(replicas := x.replicas - 1)
  }

  /** Every index gets a replica more. */
  ghost predicate AddsOne(indices: seq<Index>, changes: seq<Index>) {
    && |changes| == |indices|
    && forall i :: 0 <= i < |indices| ==> changes[i] == indices[i].(replicas := indices[i].replicas + 1)
  }

  lemma CorrectionsCorrect(c: Settings, indices: seq<Index>)
    ensures Corrects(c, indices, Corrections(c, indices))
  {
    var f := (index: Index) => Correction(c, index);
    forall y ensures y in Corrections(c, indices) <==> exists x :: x in indices && y in f(x) {
      OriginIff(indices, f, y);
    }
    assert forall x, y :: y in f(x) <==> (TooFew(c, x) && y == x.(replicas := c.minIndexReplicas))
                                         || (TooMany(c, x) && y == x.(replicas := c.maxIndexReplicas));
    hide Corrections, Correction;
  }

  lemma LoweredTakesOne(c: Settings, indices: seq<Index>)
    ensures TakesOne(c, indices, Lowered(c, indices))
  {
    var f := (index: Index) => Lower(c, index);
    forall y ensures y in Lowered(c, indices) <==> exists x :: x in indices && y in f(x) {
      OriginIff(indices, f, y);
    }
    assert forall x, y :: y in f(x) <==> x.replicas > c.minIndexReplicas && y == x.(replicas := x.replicas - 1);
    hide Lowered, Lower;
  }

  lemma OriginIff(s: seq<Index>, f: Index -> seq<Index>, y: Index)
    ensures y in FlatMap(s, f) <==> exists x :: x in s && y in f(x)
  {
    if y in FlatMap(s, f) {
      FlatMapOrigin(s, f, y);
    } else {
      forall x | x in s ensures y !in f(x) {
        if y in f(x) {
          FlatMapContains(s, f, x, y);
        }
      }
    }
  }

  // ----- the exits -----

  ghost predicate SomeOutside(c: Settings, indices: seq<Index>) {
    exists x :: x in indices && (TooFew(c, x) || TooMany(c, x))
  }

  /** The correction goes in a direction in which some index has to go. */
  ghost predicate RightCorrection(c: Settings, indices: seq<Index>, op: Operation) {
    && op.nodeReplicas.None? && Corrects(c, indices, op.indexReplicas)
    && (op.direction == UP ==> exists x :: x in indices && TooFew(c, x))
    && (op.direction == DOWN ==> exists x :: x in indices && TooMany(c, x))
    && op.direction != NONE
  }

  ghost predicate RightUp(c: Settings, indices: seq<Index>, order: seq<Index>, nodes: int, op: Operation) {
    var shards := CopiesOf(indices);
    if shards <= c.minShardsPerNode * nodes then
      if exists x :: x in indices && x.replicas >= c.maxIndexReplicas then NothingToDo(op)
      else
        var more := shards + OneMoreEach(indices);
        && op.direction == UP && AddsOne(order, op.indexReplicas) && op.nodeReplicas.Some?
        && if more < c.minShardsPerNode * nodes then op.nodeReplicas.value == nodes
           else exists w :: KeepsRatio(nodes, shards, more, w) && Nearest(c, w, op.nodeReplicas.value)
    else
      && op.indexReplicas == []
      && exists w, m :: LowersFullest(nodes, shards, w) && Nearest(c, w, m) && GoesTo(nodes, op, m)
  }

  ghost predicate RightDown(c: Settings, indices: seq<Index>, nodes: int, op: Operation) {
    var shards := CopiesOf(indices);
    if exists x :: x in indices && x.replicas > c.minIndexReplicas then
      && TakesOne(c, indices, op.indexReplicas)
      && exists w, m :: KeepsRatio(nodes, shards, shards - OneLessEach(c, indices), w) && Nearest(c, w, m)
                        && GoesTo(nodes, op, m)
    else
      exists w, m :: OneShardMore(nodes, shards, w) && Nearest(c, w, m)
                     && if shards > c.maxShardsPerNode * m then NothingToDo(op)
                        else GoesTo(nodes, op, m) && op.indexReplicas == []
  }

  /** The decision in each case; order is the one in which index changes are listed. */
  ghost predicate RightDecision(c: Settings, indices: seq<Index>, order: seq<Index>, hint: Direction, nodes: int,
                                op: Operation) {
    var shards := CopiesOf(indices);
    if shards > c.maxShardsPerNode * nodes then
      op.indexReplicas == [] && exists m :: LeastThatHolds(c, shards, m) && GoesTo(nodes, op, m)
    else if SomeOutside(c, indices) then RightCorrection(c, indices, op)
    else
      match hint
      case UP => RightUp(c, indices, order, nodes, op)
      case DOWN => RightDown(c, indices, nodes, op)
      case NONE => if Allowed(c, nodes) then NothingToDo(op)
                   else op.indexReplicas == [] && exists m :: Nearest(c, nodes, m) && GoesTo(nodes, op, m)
  }

  lemma LimitIsLeast(c: Settings, shards: int, nodes: int)
    requires Valid(c) && shards > 0 && nodes >= 0 && shards > c.maxShardsPerNode * nodes
    ensures LeastThatHolds(c, shards, EnsureBounds(c, Ceil(ShardToNodeRatio(shards, c.maxShardsPerNode))))
  {
    AutoscalerRuns.LimitTarget(c, nodes, shards);
    CeilQuotient(shards, c.maxShardsPerNode);
    var need := CeilDiv(shards, c.maxShardsPerNode);
    CeilDivLeast(shards, c.maxShardsPerNode, 0);
    EnsureBoundsRange(c, need);
    var m := EnsureBounds(c, need);
    hide EnsureBounds, CeilDiv, Ceil, ShardToNodeRatio;
    forall k | c.minReplicas <= k < m ensures shards > c.maxShardsPerNode * k {
      assert k < need;
      CeilDivLeast(shards, c.maxShardsPerNode, k);
    }
  }

  lemma SameRatioKeeps(nodes: int, shards: int, newShards: int)
    requires nodes > 0 && shards > 0
    ensures KeepsRatio(nodes, shards, newShards, NodesWithSameRatio(nodes, shards, newShards))
  {
    SameRatioMeaning(nodes, shards, newShards);
    hide NodesWithSameRatio;
  }

  lemma OverLimitIsRight(c: Settings, first: seq<Index>, second: seq<Index>, hint: Direction, nodes: int)
    requires Decidable(c, first, second, nodes) && CopiesOf(first) > c.maxShardsPerNode * nodes
    ensures RightDecision(c, first, second, hint, nodes, Decide(c, first, second, hint, nodes))
  {
    var shards := TotalShards(first);
    CopiesAreShards(first);
    TotalShardsPositive(first);
    if nodes > 0 {
      RatioComparisons(shards, nodes, c.maxShardsPerNode);
    }
    LimitIsLeast(c, shards, nodes);
    var m := EnsureBounds(c, Ceil(ShardToNodeRatio(shards, c.maxShardsPerNode)));
    assert Decide(c, first, second, hint, nodes) == ToNodes(nodes, m, []);
    assert GoesTo(nodes, ToNodes(nodes, m, []), m);
    hide Decide, LeastThatHolds, CopiesOf, EnsureBounds, RightUp, RightDown;
  }

  lemma CorrectionIsRight(c: Settings, first: seq<Index>)
    requires Valid(c)
    ensures Corrections(c, first) != [] <==> SomeOutside(c, first)
    ensures Corrections(c, first) != [] ==>
              RightCorrection(c, first, Operation(CorrectionDirection(c, first), None, Corrections(c, first)))
  {
    CorrectionsCorrect(c, first);
    VisitingOrder.CorrectionDirectionMeaning(c, first);
    var changes := Corrections(c, first);
    hide Corrections, CorrectionDirection;
    if changes != [] {
      assert changes[0] in changes;
    }
    if SomeOutside(c, first) {
      var x :| x in first && (TooFew(c, x) || TooMany(c, x));
      assert x.(replicas := if TooFew(c, x) then c.minIndexReplicas else c.maxIndexReplicas) in changes;
    }
  }

  /** Something every member of a permutation has or has not. */
  lemma SameMembers(a: seq<Index>, b: seq<Index>)
    requires multiset(a) == multiset(b)
    ensures forall x :: x in a <==> x in b
  {
    PermutationMembers(a, b);
  }

  lemma UpIsRight(c: Settings, first: seq<Index>, second: seq<Index>, nodes: int)
    requires Decidable(c, first, second, nodes) && nodes > 0
    ensures RightUp(c, first, second, nodes, ScaleUp(c, second, nodes, TotalShards(first)))
  {
    var shards, added := TotalShards(first), TotalPrimaries(second);
    CopiesAreShards(first);
    TotalShardsPositive(first);
    SumPermutation(first, second, Primaries);
    SameMembers(first, second);
    RatioComparisons(shards, nodes, c.minShardsPerNode);
    var op := ScaleUp(c, second, nodes, shards);
    if shards <= c.minShardsPerNode * nodes {
      if !(exists x :: x in first && x.replicas >= c.maxIndexReplicas) {
        forall i | 0 <= i < |second| ensures second[i].replicas < c.maxIndexReplicas {
          assert second[i] in first;
        }
        TargetWithReplicasIsRight(c, nodes, shards, shards + added);
        hide UpTargetWithReplicas, UpTarget, CopiesOf, OneMoreEach, Sum, KeepsRatio, Nearest;
      } else {
        var x :| x in first && x.replicas >= c.maxIndexReplicas;
        assert x in second;
        hide UpTargetWithReplicas, UpTarget, CopiesOf, OneMoreEach, Sum;
      }
    } else {
      AutoscalerRuns.AtLeastBound(1, c.minShardsPerNode, nodes);
      TargetIsRight(c, nodes, shards);
      assert GoesTo(nodes, op, UpTarget(c, nodes, shards));
      hide UpTargetWithReplicas, UpTarget, CopiesOf, OneMoreEach, Sum, LowersFullest, Nearest, ScaleUp;
    }
  }

  lemma TargetWithReplicasIsRight(c: Settings, nodes: int, shards: int, more: int)
    requires Valid(c) && nodes > 0 && shards > 0 && more > 0
    ensures var m := UpTargetWithReplicas(c, nodes, shards, more);
            if more < c.minShardsPerNode * nodes then m == nodes
            else exists w :: KeepsRatio(nodes, shards, more, w) && Nearest(c, w, m)
  {
    RatioComparisons(more, nodes, c.minShardsPerNode);
    SameRatioKeeps(nodes, shards, more);
    AutoscalerRuns.SameRatioPositive(nodes, shards, more);
    ClampIsNearest(c, NodesWithSameRatio(nodes, shards, more));
    hide NodesWithSameRatio, KeepsRatio, Nearest, ShardToNodeRatio, EnsureBounds;
  }

  lemma TargetIsRight(c: Settings, nodes: int, shards: int)
    requires Valid(c) && 0 < nodes < shards && nodes <= NUDGE_LIMIT
    ensures exists w :: LowersFullest(nodes, shards, w) && Nearest(c, w, UpTarget(c, nodes, shards))
  {
    IncreasedNodesMeaning(nodes, shards);
    var w := IncreasedNodes(nodes, shards);
    ClampIsNearest(c, w);
    assert LowersFullest(nodes, shards, w);
    hide IncreasedNodes, LowersFullest, Nearest, EnsureBounds, CeilDiv;
  }

  lemma DownIsRight(c: Settings, first: seq<Index>, second: seq<Index>, nodes: int)
    requires Decidable(c, first, second, nodes) && nodes > 0 && TotalShards(first) >= 0
    ensures RightDown(c, first, nodes, ScaleDown(c, second, nodes, TotalShards(first)))
  {
    var lowered := Lowered(c, second);
    CopiesAreShards(first);
    TotalShardsPositive(first);
    WhatIsTaken(c, first, second);
    AutoscalerRuns.LoweredLeavesShards(c, first, second);
    SomeIsTaken(c, first, lowered);
    hide Sum, Lowered, CopiesOf, OneLessEach, TakesOne, Managed;
    DownOpIsRight(c, second, nodes, TotalShards(first));
  }

  lemma WhatIsTaken(c: Settings, first: seq<Index>, second: seq<Index>)
    requires multiset(first) == multiset(second)
    ensures TakesOne(c, first, Lowered(c, second)) && TotalPrimaries(Lowered(c, second)) == OneLessEach(c, first)
  {
    LessIsLowered(c, first);
    VisitingOrder.LoweredPermutation(c, first, second);
    SumPermutation(Lowered(c, first), Lowered(c, second), Primaries);
    LoweredTakesOne(c, second);
    SameMembers(first, second);
    hide Sum, Lowered, OneLessEach;
  }

  lemma DownOpIsRight(c: Settings, second: seq<Index>, nodes: int, shards: int)
    requires Valid(c) && 0 < nodes <= NUDGE_LIMIT && shards > TotalPrimaries(Lowered(c, second)) >= 0
    requires TotalPrimaries(Lowered(c, second)) == 0 <==> Lowered(c, second) == []
    ensures var op, left := ScaleDown(c, second, nodes, shards), shards - TotalPrimaries(Lowered(c, second));
            if Lowered(c, second) != [] then
              && op.indexReplicas == Lowered(c, second)
              && exists w, m :: KeepsRatio(nodes, shards, left, w) && Nearest(c, w, m) && GoesTo(nodes, op, m)
            else
              exists w, m :: OneShardMore(nodes, shards, w) && Nearest(c, w, m)
                             && if shards > c.maxShardsPerNode * m then NothingToDo(op)
                                else GoesTo(nodes, op, m) && op.indexReplicas == []
  {
    var left := shards - TotalPrimaries(Lowered(c, second));
    if Lowered(c, second) != [] {
      LessTargetIsRight(c, nodes, shards, left);
      assert GoesTo(nodes, ScaleDown(c, second, nodes, shards), DownTargetWithReplicas(c, nodes, shards, left));
      hide DownTargetWithReplicas, DownTarget, KeepsRatio, Nearest, Lowered, Sum, Valid;
    } else {
      FewerTargetIsRight(c, nodes, shards);
      RatioComparisonsAt(c, shards, DownTarget(c, nodes, shards));
      hide DownTargetWithReplicas, DownTarget, OneShardMore, Nearest, RatioExceeds, Lowered, Sum, Valid;
    }
  }

  lemma SomeIsTaken(c: Settings, indices: seq<Index>, changes: seq<Index>)
    requires TakesOne(c, indices, changes)
    ensures changes != [] <==> exists x :: x in indices && x.replicas > c.minIndexReplicas
  {
    if changes != [] {
      assert changes[0] in changes;
    }
    if x :| x in indices && x.replicas > c.minIndexReplicas {
      assert x.(replicas := x.replicas - 1) in changes;
    }
  }

  lemma RatioComparisonsAt(c: Settings, shards: int, m: int)
    requires Nearest(c, m, m) && Valid(c)
    ensures RatioExceeds(shards, m, c.maxShardsPerNode) <==> shards > c.maxShardsPerNode * m
  {
    RatioComparisons(shards, m, c.maxShardsPerNode);
  }

  lemma LessTargetIsRight(c: Settings, nodes: int, shards: int, left: int)
    requires Valid(c) && nodes > 0 && shards > 0 && left > 0
    ensures exists w ::
              KeepsRatio(nodes, shards, left, w) && Nearest(c, w, DownTargetWithReplicas(c, nodes, shards, left))
  {
    SameRatioKeeps(nodes, shards, left);
    AutoscalerRuns.SameRatioPositive(nodes, shards, left);
    ClampIsNearest(c, NodesWithSameRatio(nodes, shards, left));
    hide NodesWithSameRatio, KeepsRatio, Nearest, EnsureBounds;
  }

  lemma FewerTargetIsRight(c: Settings, nodes: int, shards: int)
    requires Valid(c) && 0 < nodes <= NUDGE_LIMIT && shards >= 0
    ensures exists w :: OneShardMore(nodes, shards, w) && Nearest(c, w, DownTarget(c, nodes, shards))
    ensures Nearest(c, DownTarget(c, nodes, shards), DownTarget(c, nodes, shards))
  {
    DecreasedNodesMeaning(nodes, shards);
    var w := DecreasedNodes(nodes, shards);
    ClampIsNearest(c, w);
    assert OneShardMore(nodes, shards, w);
    hide DecreasedNodes, OneShardMore, EnsureBounds, CeilDiv;
  }

  lemma WithinLimitIsRight(c: Settings, first: seq<Index>, second: seq<Index>, hint: Direction, nodes: int)
    requires Decidable(c, first, second, nodes) && nodes > 0 && TotalShards(first) > 0
    ensures var op := match hint
                      case UP => ScaleUp(c, second, nodes, TotalShards(first))
                      case DOWN => ScaleDown(c, second, nodes, TotalShards(first))
                      case NONE => if EnsureBounds(c, nodes) != nodes then ToNodes(nodes, EnsureBounds(c, nodes), [])
                                   else NOOP;
            match hint
            case UP => RightUp(c, first, second, nodes, op)
            case DOWN => RightDown(c, first, nodes, op)
            case NONE => if Allowed(c, nodes) then NothingToDo(op)
                         else op.indexReplicas == [] && exists m :: Nearest(c, nodes, m) && GoesTo(nodes, op, m)
  {
    hide ScaleUp, ScaleDown, RightUp, RightDown, Nearest, EnsureBounds, Decidable, Sum;
    match hint
    case UP => UpIsRight(c, first, second, nodes);
    case DOWN => DownIsRight(c, first, second, nodes);
    case NONE =>
      ValidPart(c, first, second, nodes);
      StayIsRight(c, nodes);
      assert GoesTo(nodes, ToNodes(nodes, EnsureBounds(c, nodes), []), EnsureBounds(c, nodes));
  }

  lemma ValidPart(c: Settings, first: seq<Index>, second: seq<Index>, nodes: int)
    requires Decidable(c, first, second, nodes)
    ensures Valid(c)
  {
  }

  /**
    Main result. For all settings, indices, visiting orders, hints and node counts the decision is
    the one described in numbers above.
  */
  lemma DecisionIsRight(c: Settings, first: seq<Index>, second: seq<Index>, hint: Direction, nodes: int)
    requires Decidable(c, first, second, nodes)
    ensures RightDecision(c, first, second, hint, nodes, Decide(c, first, second, hint, nodes))
  {
    CopiesAreShards(first);
    TotalShardsPositive(first);
    if CopiesOf(first) > c.maxShardsPerNode * nodes {
      OverLimitIsRight(c, first, second, hint, nodes);
    } else {
      HasNodes(c, TotalShards(first), nodes);
      CorrectionIsRight(c, first);
      WithinLimitIsRight(c, first, second, hint, nodes);
      hide Corrections, CorrectionDirection, ScaleUp, ScaleDown, RightUp, RightDown, RightCorrection, SomeOutside,
           CopiesOf, Sum, RatioExceeds, Nearest, EnsureBounds, ToNodes, Managed, Valid, Allowed, NothingToDo, GoesTo;
    }
  }

  lemma HasNodes(c: Settings, shards: int, nodes: int)
    requires shards > 0 && nodes >= 0 && shards <= c.maxShardsPerNode * nodes
    ensures nodes > 0 && !RatioExceeds(shards, nodes, c.maxShardsPerNode)
  {
    if nodes > 0 {
      RatioComparisons(shards, nodes, c.maxShardsPerNode);
    }
  }

  lemma StayIsRight(c: Settings, nodes: int)
    requires Valid(c) && nodes > 0
    ensures Nearest(c, nodes, EnsureBounds(c, nodes)) && (EnsureBounds(c, nodes) == nodes <==> Allowed(c, nodes))
  {
    ClampIsNearest(c, nodes);
  }

  // ----- the safety checks, and a whole round -----

  /** A scale-in with the watermark set and some node above it. */
  ghost predicate DiskTooFull(c: Settings, op: Operation, disk: seq<real>) {
    op.direction == DOWN && c.diskWatermark > 0 && exists i :: 0 <= i < |disk| && disk[i] > c.diskWatermark as real
  }

  /** The decision is withdrawn exactly when too few nodes would hold the copies, or a disk is too full. */
  lemma WithdrawnExactly(c: Settings, first: seq<Index>, second: seq<Index>, hint: Direction, nodes: Option<int>,
                         disk: seq<real>)
    requires nodes.Some? && first != [] ==> Decidable(c, first, second, nodes.value)
    ensures var op := CalculateOperation(c, first, second, hint, nodes, disk);
            if nodes.None? || first == [] then NothingToDo(op)
            else
              var decided := Decide(c, first, second, hint, nodes.value);
              if (decided.nodeReplicas.Some? && decided.nodeReplicas.value <= c.minIndexReplicas)
                 || DiskTooFull(c, decided, disk)
              then NothingToDo(op)
              else op == decided && RightDecision(c, first, second, hint, nodes.value, op)
  {
    if nodes.Some? && first != [] {
      DecisionIsRight(c, first, second, hint, nodes.value);
      FullestDisk(c, disk);
      hide Decide, RightDecision, MaxDisk, Decidable;
    }
  }

  lemma FullestDisk(c: Settings, disk: seq<real>)
    ensures c.diskWatermark > 0 ==>
              (MaxDisk(disk) > c.diskWatermark as real
               <==> exists i :: 0 <= i < |disk| && disk[i] > c.diskWatermark as real)
  {
  }

  /** Main result. A round over the shard limit leaves the least allowed node count that holds all shards. */
  lemma OverLimitRoundIsLeast(c: Settings, before: Cluster, o: AutoscalerRuns.Observation, after: Cluster)
    requires AutoscalerRuns.Operable(c) && AutoscalerRuns.InBounds(c, before)
    requires AutoscalerRuns.Step(c, before, o, after)
    requires CopiesOf(before.indices) > c.maxShardsPerNode * before.nodes
    ensures LeastThatHolds(c, CopiesOf(before.indices), after.nodes) && after.indices == before.indices
  {
    CopiesAreShards(before.indices);
    CopiesAreShards(o.first);
    SumPermutation(before.indices, o.first, Shards);
    AutoscalerRuns.StepUnderUp(c, before, o, after);
    DecisionIsRight(c, o.first, o.second, o.hint, before.nodes);
    var op := Decide(c, o.first, o.second, o.hint, before.nodes);
    AutoscalerRuns.NodesOnly(c, before, op.nodeReplicas.value);
    hide Decide, CopiesOf, Sum, LeastThatHolds, RightUp, RightDown, RightCorrection, SomeOutside;
  }
}
