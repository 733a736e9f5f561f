/**
  The shard-to-node arithmetic of operator/autoscaler.go, over exact reals where
  the source uses float64, and the integer meaning of each formula.
*/
module Rounding {
  import opened Base

  /** The nudge added to or taken from a ratio before it is rounded. */
  const EPSILON: real := 0.00001

  /** Up to this many nodes a nudge never steps over a multiple of 1/nodes. */
  const NUDGE_LIMIT: int := 100000

  // ----- the source's formulas -----

  function Ceil(x: real): int {
    -((-x).Floor)
  }

  function ShardToNodeRatio(shards: int, nodes: int): real
    requires nodes != 0
  {
    shards as real / nodes as real
  }

  function NodesWithSameRatio(nodes: int, shards: int, newShards: int): int
    requires nodes != 0
  {
    var ratio := ShardToNodeRatio(shards, nodes);
    Ceil(newShards as real / (if ratio < 1.0 then 1.0 else ratio))
  }

  /** The divisor CalculateIncreasedNodes rounds down to; zero would divide by zero. */
  function LoweredRatio(nodes: int, shards: int): int
    requires nodes != 0
  {
    (ShardToNodeRatio(shards, nodes) - EPSILON).Floor
  }

  function RaisedRatio(nodes: int, shards: int): int
    requires nodes != 0
  {
    Ceil(ShardToNodeRatio(shards, nodes) + EPSILON)
  }

  function IncreasedNodes(nodes: int, shards: int): int
    requires nodes != 0
    requires ShardToNodeRatio(shards, nodes) <= 1.0 || LoweredRatio(nodes, shards) != 0
  {
    if ShardToNodeRatio(shards, nodes) <= 1.0 then shards
    else Ceil(shards as real / LoweredRatio(nodes, shards) as real)
  }

  function DecreasedNodes(nodes: int, shards: int): int
    requires nodes != 0
    requires RaisedRatio(nodes, shards) != 0
  {
    var candidate := Min(nodes - 1, Ceil(shards as real / RaisedRatio(nodes, shards) as real));
    if candidate <= 1 then 1 else candidate
  }

  // ----- integer reference forms -----

  /** The least k with k * b >= a. */
  function CeilDiv(a: int, b: int): (k: int)
    requires b > 0
    ensures (k - 1) * b < a <= k * b
  {
    var q := (a + b - 1) / b;
    assert q * b <= a + b - 1 < q * b + b;
    q
  }

  /** CeilDiv(a, b) <= k says exactly that k groups of b cover a. */
  lemma CeilDivLeast(a: int, b: int, k: int)
    requires b > 0
    ensures CeilDiv(a, b) <= k <==> a <= k * b
  {
    var c := CeilDiv(a, b);
    if c <= k {
      assert c * b <= k * b;
    } else {
      assert k * b <= (c - 1) * b;
    }
  }

  /** k nodes can host the shards with at most q on each, read either way round. */
  lemma CoverSymmetric(shards: int, q: int, k: int)
    requires q > 0 && k > 0
    ensures CeilDiv(shards, k) <= q <==> CeilDiv(shards, q) <= k
  {
    CeilDivLeast(shards, k, q);
    CeilDivLeast(shards, q, k);
    assert k * q == q * k;
  }

  lemma QuotientBound(a: int, b: int, k: int)
    requires b > 0
    ensures k as real <= a as real / b as real <==> k * b <= a
    ensures k as real < a as real / b as real <==> k * b < a
  {
    var q := a as real / b as real;
    assert q * b as real == a as real;
    assert (k * b) as real == k as real * b as real;
  }

  lemma CeilQuotient(a: int, b: int)
    requires b > 0
    ensures Ceil(a as real / b as real) == CeilDiv(a, b)
  {
    var c := CeilDiv(a, b);
    QuotientBound(a, b, c - 1);
    QuotientBound(a, b, c);
  }

  /** A nudged ratio is again a quotient of integers. */
  lemma NudgedRatio(nodes: int, shards: int)
    requires nodes > 0
    ensures NUDGE_LIMIT * nodes > 0
    ensures ShardToNodeRatio(shards, nodes) + EPSILON
         == (NUDGE_LIMIT * shards + nodes) as real / (NUDGE_LIMIT * nodes) as real
    ensures ShardToNodeRatio(shards, nodes) - EPSILON
         == (NUDGE_LIMIT * shards - nodes) as real / (NUDGE_LIMIT * nodes) as real
  {
    var n, s := nodes as real, shards as real;
    assert (NUDGE_LIMIT * nodes) as real == 100000.0 * n;
    assert s / n == 100000.0 * s / (100000.0 * n);
    assert EPSILON == n / (100000.0 * n);
  }

  /** When exactly rounding the raised ratio up gives the next whole ratio. */
  lemma RaisedRatioIsNext(nodes: int, shards: int)
    requires nodes > 0
    ensures RaisedRatio(nodes, shards) == shards / nodes + 1
       <==> nodes <= NUDGE_LIMIT * (nodes - shards % nodes)
    ensures nodes <= NUDGE_LIMIT ==> RaisedRatio(nodes, shards) == shards / nodes + 1
    ensures RaisedRatio(nodes, shards) >= shards / nodes + 1
  {
    var a, b, q := NUDGE_LIMIT * shards + nodes, NUDGE_LIMIT * nodes, shards / nodes;
    NudgedRatio(nodes, shards);
    CeilQuotient(a, b);
    CeilDivLeast(a, b, q);
    CeilDivLeast(a, b, q + 1);
    assert shards == q * nodes + shards % nodes;
    assert q * b == NUDGE_LIMIT * (q * nodes);
    assert (q + 1) * b == NUDGE_LIMIT * (q * nodes) + b;
  }

  /** When exactly rounding the lowered ratio down gives the previous whole ratio. */
  lemma LoweredRatioIsPrevious(nodes: int, shards: int)
    requires nodes > 0
    ensures LoweredRatio(nodes, shards) == CeilDiv(shards, nodes) - 1
       <==> nodes <= NUDGE_LIMIT * (shards - (CeilDiv(shards, nodes) - 1) * nodes)
    ensures nodes <= NUDGE_LIMIT ==> LoweredRatio(nodes, shards) == CeilDiv(shards, nodes) - 1
  {
    var a, b, c := NUDGE_LIMIT * shards - nodes, NUDGE_LIMIT * nodes, CeilDiv(shards, nodes);
    NudgedRatio(nodes, shards);
    QuotientBound(a, b, c - 1);
    QuotientBound(a, b, c);
    assert (c - 1) * b == NUDGE_LIMIT * ((c - 1) * nodes);
    assert c * b == NUDGE_LIMIT * (c * nodes);
  }

  /** The ratio comparisons of the source, cross-multiplied. */
  lemma RatioComparisons(shards: int, nodes: int, bound: int)
    requires nodes > 0
    ensures ShardToNodeRatio(shards, nodes) > bound as real <==> shards > bound * nodes
    ensures ShardToNodeRatio(shards, nodes) <= bound as real <==> shards <= bound * nodes
    ensures ShardToNodeRatio(shards, nodes) >= bound as real <==> shards >= bound * nodes
  {
    QuotientBound(shards, nodes, bound);
  }

  /**
    Nodes that keep the current ratio, never below one shard per node: the least
    count m whose share newShards / m is at most max(shards / nodes, 1).
  */
  lemma SameRatioMeaning(nodes: int, shards: int, newShards: int)
    requires nodes > 0
    ensures shards <= nodes ==> NodesWithSameRatio(nodes, shards, newShards) == newShards
    ensures shards > nodes ==>
              NodesWithSameRatio(nodes, shards, newShards) == CeilDiv(newShards * nodes, shards)
  {
    RatioComparisons(shards, nodes, 1);
    if shards > nodes {
      var n, s, t := nodes as real, shards as real, newShards as real;
      assert t / (s / n) == t * n / s;
      assert (newShards * nodes) as real == t * n;
      CeilQuotient(newShards * nodes, shards);
    } else {
      assert newShards as real / 1.0 == newShards as real;
    }
  }

  /** Rounding the ratio below the current one never divides by zero. */
  lemma IncreasedNodesForm(nodes: int, shards: int)
    requires 0 < nodes < shards && nodes <= NUDGE_LIMIT
    ensures ShardToNodeRatio(shards, nodes) > 1.0
    ensures LoweredRatio(nodes, shards) == CeilDiv(shards, nodes) - 1 >= 1
    ensures IncreasedNodes(nodes, shards) == CeilDiv(shards, CeilDiv(shards, nodes) - 1)
  {
    RatioComparisons(shards, nodes, 1);
    LoweredRatioIsPrevious(nodes, shards);
    CeilDivLeast(shards, nodes, 1);
    CeilQuotient(shards, CeilDiv(shards, nodes) - 1);
  }

  /** The least node count that lowers the number of shards on the fullest node. */
  lemma IncreasedNodesMeaning(nodes: int, shards: int)
    requires 0 < nodes < shards && nodes <= NUDGE_LIMIT
    ensures ShardToNodeRatio(shards, nodes) > 1.0 && LoweredRatio(nodes, shards) >= 1
    ensures var m := IncreasedNodes(nodes, shards);
            && nodes < m <= shards
            && CeilDiv(shards, m) < CeilDiv(shards, nodes)
            && forall k :: 0 < k < m ==> CeilDiv(shards, k) >= CeilDiv(shards, nodes)
  {
    IncreasedNodesForm(nodes, shards);
    hide IncreasedNodes, LoweredRatio, ShardToNodeRatio, CeilDiv;
    var q := CeilDiv(shards, nodes) - 1;
    var m := CeilDiv(shards, q);
    CoverSymmetric(shards, q, nodes);
    OneEach(shards, q);
    CoverSymmetric(shards, q, m);
    forall k | 0 < k < m ensures CeilDiv(shards, k) >= CeilDiv(shards, nodes) {
      CoverSymmetric(shards, q, k);
    }
  }

  lemma OneEach(shards: int, q: int)
    requires shards > 0 && q > 0
    ensures 0 < CeilDiv(shards, q) <= shards
  {
    CeilDivLeast(shards, q, shards);
    CeilDivLeast(shards, q, 0);
  }

  lemma DecreasedNodesForm(nodes: int, shards: int)
    requires nodes > 0 && shards >= 0 && nodes <= NUDGE_LIMIT
    ensures RaisedRatio(nodes, shards) == shards / nodes + 1 > 0
    ensures DecreasedNodes(nodes, shards)
         == Max(1, Min(nodes - 1, CeilDiv(shards, shards / nodes + 1)))
  {
    RaisedRatioIsNext(nodes, shards);
    CeilQuotient(shards, shards / nodes + 1);
  }

  /**
    Scaling in by at least one node: the least count at which no node needs more than
    one shard above the current whole ratio, capped at nodes - 1 and floored at one.
  */
  lemma DecreasedNodesMeaning(nodes: int, shards: int)
    requires nodes > 0 && shards >= 0 && nodes <= NUDGE_LIMIT
    ensures RaisedRatio(nodes, shards) == shards / nodes + 1
    ensures var m := DecreasedNodes(nodes, shards);
            && 1 <= m <= nodes
            && (nodes >= 2 ==> m < nodes)
            && (forall k :: 0 < k < m ==> CeilDiv(shards, k) > shards / nodes + 1)
            && (m == nodes - 1 || CeilDiv(shards, m) <= shards / nodes + 1)
  {
    DecreasedNodesForm(nodes, shards);
    hide DecreasedNodes, RaisedRatio, CeilDiv;
    var q, m := shards / nodes + 1, DecreasedNodes(nodes, shards);
    CoverSymmetric(shards, q, m);
    forall k | 0 < k < m ensures CeilDiv(shards, k) > q {
      CoverSymmetric(shards, q, k);
    }
  }

  /** Past the limit the nudge is too coarse: the scale-out formula would divide by zero. */
  lemma NudgeTooCoarse()
    ensures LoweredRatio(NUDGE_LIMIT + 1, NUDGE_LIMIT + 2) == 0
    ensures ShardToNodeRatio(NUDGE_LIMIT + 2, NUDGE_LIMIT + 1) > 1.0
  {
    var n, s := NUDGE_LIMIT + 1, NUDGE_LIMIT + 2;
    NudgedRatio(n, s);
    QuotientBound(NUDGE_LIMIT * s - n, NUDGE_LIMIT * n, 0);
    QuotientBound(NUDGE_LIMIT * s - n, NUDGE_LIMIT * n, 1);
    RatioComparisons(s, n, 1);
  }

  // ----- targets that keep the ratio -----

  lemma Monotone(a: int, b: int, k: int)
    requires a <= b && k >= 0
    ensures k * a <= k * b
  {
  }

  lemma Cancel(a: int, b: int, k: int)
    requires k > 0 && a * k <= b * k
    ensures a <= b
  {
  }

  /** If m nodes at the current ratio cover t shards, they cover them at any larger bound. */
  lemma CoveredAtBound(t: int, nodes: int, shards: int, m: int, bound: int)
    requires nodes > 0 && m >= 0 && t * nodes <= m * shards && shards <= bound * nodes
    ensures t <= bound * m
  {
    Monotone(shards, bound * nodes, m);
    assert m * (bound * nodes) == (bound * m) * nodes;
    Cancel(t, bound * m, nodes);
  }

  lemma RatioUpAboveOne(nodes: int, shards: int, t: int, bound: int)
    requires 0 < nodes < shards < t && shards <= bound * nodes
    ensures nodes <= CeilDiv(t * nodes, shards) && t <= bound * CeilDiv(t * nodes, shards)
  {
    var m := CeilDiv(t * nodes, shards);
    hide CeilDiv;
    Monotone(shards, t, nodes);
    Cancel(nodes, m, shards);
    CoveredAtBound(t, nodes, shards, m, bound);
  }

  lemma RatioUpBelowOne(nodes: int, t: int, bound: int)
    requires 0 < nodes && bound >= 1 && t >= bound * nodes
    ensures nodes <= t <= bound * t
  {
    Monotone(1, bound, nodes);
    Monotone(1, bound, t);
  }

  /** Raising every index keeps the ratio: the target is not below nodes and holds all shards. */
  lemma KeepRatioUp(nodes: int, shards: int, added: int, minRatio: int)
    requires 0 < nodes && 0 < shards <= minRatio * nodes && added > 0 && minRatio >= 1
    requires shards + added >= minRatio * nodes
    ensures var m := NodesWithSameRatio(nodes, shards, shards + added);
            m >= nodes && shards + added <= minRatio * m
  {
    SameRatioMeaning(nodes, shards, shards + added);
    hide NodesWithSameRatio, CeilDiv;
    if shards <= nodes {
      RatioUpBelowOne(nodes, shards + added, minRatio);
    } else {
      RatioUpAboveOne(nodes, shards, shards + added, minRatio);
    }
  }

  /** Lowering indices keeps the ratio: the target is not above nodes and holds all shards. */
  lemma KeepRatioDown(nodes: int, shards: int, left: int, maxRatio: int)
    requires 0 < nodes && 0 < left < shards <= maxRatio * nodes && maxRatio >= 1
    ensures var m := NodesWithSameRatio(nodes, shards, left);
            1 <= m <= nodes && left <= maxRatio * m
  {
    SameRatioMeaning(nodes, shards, left);
    hide NodesWithSameRatio;
    if shards <= nodes {
      assert maxRatio * left >= left;
    } else {
      var m := CeilDiv(left * nodes, shards);
      Monotone(left, shards, nodes);
      CeilDivLeast(left * nodes, shards, nodes);
      CeilDivLeast(left * nodes, shards, 0);
      assert left * nodes > 0;
      hide CeilDiv;
      CoveredAtBound(left, nodes, shards, m, maxRatio);
    }
  }
}
