/** When the rebalancer acts and on which nodes: the trigger thresholds and the cost
    filter, and what they mean for nodes within their capacity. */
module RebalancerRules {
  import opened NodeModel
  import opened Ledger
  import opened Protocol
  import opened Safety
  import opened Sorting

  const OVERLOAD := 0.75
  const UNDERUSED := 0.25
  const MAX_SPREAD := 0.35
  const COMFORTABLE := 0.65
  const HOTSPOT_BENEFIT := 0.3
  const MIGRATION_COST := 0.2 + 0.2 + 0.2

  /** The nodes the rebalancer measures at all. */
  predicate Measured(s: NodeState) {
    s.ready && s.cpuAlloc > 0 && s.memAlloc > 0
  }

  function CpuShare(s: NodeState): real {
    if s.cpuAlloc == 0 then 0.0 else s.cpuUsed as real / s.cpuAlloc as real
  }

  function MemShare(s: NodeState): real {
    if s.memAlloc == 0 then 0.0 else s.memUsed as real / s.memAlloc as real
  }

  predicate IsOverloaded(s: NodeState) {
    Measured(s) && (CpuShare(s) > OVERLOAD || MemShare(s) > OVERLOAD)
  }

  predicate IsFree(s: NodeState) {
    Measured(s) && CpuShare(s) < UNDERUSED && MemShare(s) < UNDERUSED
  }

  /** The running maximum and minimum of the scan, which start at 0 and at 1. */
  function Highest(share: NodeState -> real, states: seq<NodeState>): real {
    if states == [] then 0.0
    else
      var last, rest := states[|states| - 1], Highest(share, states[..|states| - 1]);
      if Measured(last) && share(last) > rest then share(last) else rest
  }

  function Lowest(share: NodeState -> real, states: seq<NodeState>): real {
    if states == [] then 1.0
    else
      var last, rest := states[|states| - 1], Lowest(share, states[..|states| - 1]);
      if Measured(last) && share(last) < rest then share(last) else rest
  }

  predicate Imbalanced(states: seq<NodeState>) {
    || Highest(CpuShare, states) - Lowest(CpuShare, states) > MAX_SPREAD
    || Highest(MemShare, states) - Lowest(MemShare, states) > MAX_SPREAD
  }

  predicate Triggered(states: seq<NodeState>, hotspot: bool) {
    Imbalanced(states) || Filter(IsFree, states) != [] || hotspot
  }

  function Positive(x: real): real {
    if 0.0 > x then 0.0 else x
  }

  predicate BenefitExceedsCost(s: NodeState, hotspot: bool) {
    Positive(CpuShare(s) - COMFORTABLE) + Positive(MemShare(s) - COMFORTABLE) + (if hotspot then HOTSPOT_BENEFIT else 0.0)
    > MIGRATION_COST
  }

  // ----- what the thresholds mean -----

  lemma ShareInUnit(used: int, alloc: int)
    requires 0 <= used <= alloc && 0 < alloc
    ensures 0.0 <= used as real / alloc as real <= 1.0
  {
    var q := used as real / alloc as real;
    assert q * alloc as real == used as real;
  }

  lemma SharesInUnit(s: NodeState)
    requires WithinCapacity(s) && Measured(s)
    ensures 0.0 <= CpuShare(s) <= 1.0 && 0.0 <= MemShare(s) <= 1.0
  {
    ShareInUnit(s.cpuUsed, s.cpuAlloc);
    ShareInUnit(s.memUsed, s.memAlloc);
  }

  lemma ShareAbove(used: int, alloc: int, num: int, den: int)
    requires 0 < alloc && 0 < den
    ensures used as real / alloc as real > num as real / den as real <==> den * used > num * alloc
    ensures used as real / alloc as real < num as real / den as real <==> den * used < num * alloc
  {
    var u, a, n, d := used as real, alloc as real, num as real, den as real;
    CrossMultiply(u, a, n, d);
    assert d * u == (den * used) as real && n * a == (num * alloc) as real;
  }

  lemma CrossMultiply(u: real, a: real, n: real, d: real)
    requires 0.0 < a && 0.0 < d
    ensures u / a > n / d <==> d * u > n * a
    ensures u / a < n / d <==> d * u < n * a
  {
    var p, q := u / a, n / d;
    assert p * a == u && q * d == n;
    var ad := a * d;
    assert d * u == p * ad && n * a == q * ad;
    Times(p, q, ad);
    Times(q, p, ad);
  }

  lemma Times(x: real, y: real, factor: real)
    requires 0.0 < factor
    ensures x < y ==> x * factor < y * factor
  {
  }

  /** Overloaded: ready, with both amounts allocatable positive, and more than three quarters
      of either used. */
  lemma OverloadedExactly(s: NodeState)
    ensures IsOverloaded(s) <==>
              s.ready && 0 < s.cpuAlloc && 0 < s.memAlloc && (4 * s.cpuUsed > 3 * s.cpuAlloc || 4 * s.memUsed > 3 * s.memAlloc)
  {
    if Measured(s) {
      ShareAbove(s.cpuUsed, s.cpuAlloc, 3, 4);
      ShareAbove(s.memUsed, s.memAlloc, 3, 4);
    }
  }

  /** Free: less than a quarter of both used. */
  lemma FreeExactly(s: NodeState)
    ensures IsFree(s) <==>
              s.ready && 0 < s.cpuAlloc && 0 < s.memAlloc && 4 * s.cpuUsed < s.cpuAlloc && 4 * s.memUsed < s.memAlloc
  {
    if Measured(s) {
      ShareAbove(s.cpuUsed, s.cpuAlloc, 1, 4);
      ShareAbove(s.memUsed, s.memAlloc, 1, 4);
    }
  }

  /** A cycle is triggered by a hotspot, by a free node, or by an imbalance; in shares: two
      measured nodes more than 35 points apart on one resource, or one above 135% of it, or
      one below -35%. */
  lemma TriggeredExactly(states: seq<NodeState>, hotspot: bool)
    ensures Triggered(states, hotspot) <==>
              || hotspot
              || (exists s :: s in states && IsFree(s))
              || (exists s, t :: s in states && t in states && Measured(s) && Measured(t)
                                 && (CpuShare(s) - CpuShare(t) > 0.35 || MemShare(s) - MemShare(t) > 0.35))
              || (exists s :: s in states && Measured(s)
                              && (CpuShare(s) > 1.35 || MemShare(s) > 1.35 || CpuShare(s) < -0.35 || MemShare(s) < -0.35))
  {
    SpreadExactly(CpuShare, states);
    SpreadExactly(MemShare, states);
    FilterMembers(IsFree, states);
    if Filter(IsFree, states) != [] {
      assert Filter(IsFree, states)[0] in Filter(IsFree, states);
    }
  }

  /** No node is on both lists, whatever its record says. */
  lemma OverloadedNotFree(s: NodeState)
    ensures !(IsOverloaded(s) && IsFree(s))
  {
  }

  /** Without a hotspot, the cost filter lets a pod be moved off a node within capacity
      exactly when its two shares together exceed 190%: both are then above 90%. */
  lemma MovesOnlyOffFullNodes(s: NodeState)
    requires WithinCapacity(s) && Measured(s)
    ensures BenefitExceedsCost(s, false) <==> CpuShare(s) + MemShare(s) > 1.9
    ensures BenefitExceedsCost(s, false) ==> CpuShare(s) > 0.9 && MemShare(s) > 0.9
  {
    SharesInUnit(s);
  }

  /** The scan's spread is that of two measured nodes. */
  ghost predicate Differ(share: NodeState -> real, states: seq<NodeState>) {
    exists s, t :: s in states && t in states && Measured(s) && Measured(t) && share(s) - share(t) > MAX_SPREAD
  }

  /** The running extremes are those of the measured nodes, but never below 0 and above 1. */
  lemma {:induction false} ExtremesAre(share: NodeState -> real, states: seq<NodeState>)
    ensures forall s :: s in states && Measured(s) ==> Lowest(share, states) <= share(s) <= Highest(share, states)
    ensures 0.0 <= Highest(share, states) && Lowest(share, states) <= 1.0
    ensures Highest(share, states) == 0.0 || exists s :: s in states && Measured(s) && share(s) == Highest(share, states)
    ensures Lowest(share, states) == 1.0 || exists s :: s in states && Measured(s) && share(s) == Lowest(share, states)
  {
    if states != [] {
      var rest, last := states[..|states| - 1], states[|states| - 1];
      assert states == rest + [last];
      ExtremesAre(share, rest);
    }
  }

  /** Exactly when the scan finds a spread: two measured nodes more than 35 points apart, or
      a single one more than 35 points above 1 or below 0, where the scan starts. */
  lemma SpreadExactly(share: NodeState -> real, states: seq<NodeState>)
    ensures Highest(share, states) - Lowest(share, states) > MAX_SPREAD
       <==> || Differ(share, states)
            || (exists s :: s in states && Measured(s) && share(s) > 1.0 + MAX_SPREAD)
            || (exists s :: s in states && Measured(s) && share(s) < -MAX_SPREAD)
  {
    ExtremesAre(share, states);
  }

  /** Some measured node uses more than 135% of one resource. */
  ghost predicate Overcommitted(states: seq<NodeState>) {
    exists s :: s in states && Measured(s) && (CpuShare(s) > 1.0 + MAX_SPREAD || MemShare(s) > 1.0 + MAX_SPREAD)
  }

  ghost predicate NoneNegative(states: seq<NodeState>) {
    forall s :: s in states ==> 0 <= s.cpuUsed && 0 <= s.memUsed
  }

  lemma ShareNonNegative(used: int, alloc: int)
    requires 0 <= used && 0 < alloc
    ensures 0.0 <= used as real / alloc as real
  {
  }

  /** An imbalance is two measured nodes whose shares of one resource differ by more than
      35 points, or one node that is overcommitted by more than that. */
  lemma ImbalanceExactly(states: seq<NodeState>)
    requires NoneNegative(states)
    ensures Imbalanced(states) <==> Differ(CpuShare, states) || Differ(MemShare, states) || Overcommitted(states)
  {
    SpreadExactly(CpuShare, states);
    SpreadExactly(MemShare, states);
    forall s | s in states && Measured(s) ensures 0.0 <= CpuShare(s) && 0.0 <= MemShare(s) {
      ShareNonNegative(s.cpuUsed, s.cpuAlloc);
      ShareNonNegative(s.memUsed, s.memAlloc);
    }
  }

  /** So an imbalance is a pair of nodes for every listing without such a node, in
      particular for every listing within capacity. */
  lemma {:induction false} ImbalanceIsAPair(states: seq<NodeState>)
    requires NoneNegative(states) && !Overcommitted(states)
    ensures Imbalanced(states) <==> Differ(CpuShare, states) || Differ(MemShare, states)
  {
    ImbalanceExactly(states);
  }

  lemma WithinCapacityIsFine(states: seq<NodeState>)
    requires forall s :: s in states ==> WithinCapacity(s)
    ensures NoneNegative(states) && !Overcommitted(states)
  {
    forall s | s in states && Measured(s) ensures CpuShare(s) <= 1.0 && MemShare(s) <= 1.0 {
      SharesInUnit(s);
    }
  }

  /** And it is not one for some listing with such a node: alone in the listing, it counts
      as an imbalance all by itself. */
  lemma {:induction false} OvercommitIsNoPair(s: NodeState)
    requires Measured(s) && (CpuShare(s) > 1.0 + MAX_SPREAD || MemShare(s) > 1.0 + MAX_SPREAD)
    requires 0 <= s.cpuUsed && 0 <= s.memUsed
    ensures Imbalanced([s]) && !Differ(CpuShare, [s]) && !Differ(MemShare, [s])
  {
    assert s in [s];
    ImbalanceExactly([s]);
  }

  /** With the reservation protocol's own guarantee: in any run whose syncs never shrink a
      node below its use, a stored record that passes the cost filter without a hotspot
      is above 90% on both resources. */
  lemma {:induction false} StoredNodeMovedOnlyWhenFull(s0: Sys, steps: seq<Step>, n: NodeName)
    requires Init(s0) && AllWithinCapacity(s0) && AllAccommodate(s0, steps)
    requires var s := Run(s0, steps); n in s.nodes && Measured(s.nodes[n]) && BenefitExceedsCost(s.nodes[n], false)
    ensures var node := Run(s0, steps).nodes[n]; CpuShare(node) > 0.9 && MemShare(node) > 0.9
  {
    CapacitySafety(s0, steps);
    MovesOnlyOffFullNodes(Run(s0, steps).nodes[n]);
  }
}
