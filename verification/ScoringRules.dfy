/** How the facts about one feasible node become its score, and what that formula
    guarantees for every cluster, every metric and every cycle state. */
module ScoringRules {
  import opened Sorting
  import opened Percentiles
  import opened Reals

  const TARGET_UTILIZATION := 0.65
  const UTILIZATION_BAND := 0.35
  const LOCALITY_WEIGHT := 0.4
  const SPREAD_WEIGHT := 0.2
  const UTIL_BASE_WEIGHT := 0.3
  const UTIL_CRITICALITY_SLOPE := 0.2
  const RISK_BASE_WEIGHT := 0.1
  const RISK_CRITICALITY_SLOPE := 0.2
  const CONCENTRATION_WEIGHT := 0.25
  const NODE_DENSITY_WEIGHT := 0.15
  const MIN_SCORE_FLOOR := 15.0

  /** What the scorer measures on one feasible node. */
  datatype NodeFacts = NodeFacts(
    locality: real,
    projectedCpu: real,
    projectedMem: real,
    replicas: nat,
    services: nat,
    selections: nat,
    mass: real)

  /** What the feasible nodes have in common when they are compared. */
  datatype Field = Field(
    localityBand: (real, real),
    massBand: (real, real),
    maxServices: nat,
    maxSelections: nat,
    criticality: real)

  function AtLeastZero(x: real): real {
    if x > 0.0 then x else 0.0
  }

  function Utilization(projected: real): real {
    AtLeastZero(1.0 - Abs(projected - TARGET_UTILIZATION) / UTILIZATION_BAND)
  }

  function UtilScore(f: NodeFacts): real {
    (Utilization(f.projectedCpu) + Utilization(f.projectedMem)) / 2.0
  }

  function SpreadScore(replicas: nat): real {
    if replicas == 0 then 1.0 else if replicas == 1 then 0.6 else 0.2
  }

  /** One minus a share of a maximum: the density and the concentration score. */
  function Scarcity(count: nat, most: nat): real {
    1.0 - count as real / (most + 1) as real
  }

  function DensityScore(services: nat, maxServices: nat): real {
    if maxServices > 0 then Scarcity(services, maxServices) else 1.0
  }

  function ConcentrationScore(selections: nat, maxSelections: nat): real {
    if maxSelections > 0 then Scarcity(selections, maxSelections) else 1.0
  }

  function UtilWeight(criticality: real): real {
    UTIL_BASE_WEIGHT - UTIL_CRITICALITY_SLOPE * criticality
  }

  function RiskWeight(criticality: real): real {
    RISK_BASE_WEIGHT + RISK_CRITICALITY_SLOPE * criticality
  }

  function LocalityNorm(f: NodeFacts, c: Field): real {
    Norm(f.locality, c.localityBand.0, c.localityBand.1)
  }

  function MassNorm(f: NodeFacts, c: Field): real {
    Norm(f.mass, c.massBand.0, c.massBand.1)
  }

  /** What utilisation adds to the score. */
  function Gain(criticality: real, util: real): real {
    UtilWeight(criticality) * util
  }

  /** What the critical mass on a node takes from it. */
  function Risk(criticality: real, mass: real): real {
    RiskWeight(criticality) * (mass * criticality)
  }

  /** The weighted sum of the six component scores. */
  function Combine(locality: real, util: real, spread: real, density: real, concentration: real,
                   mass: real, criticality: real): real {
    LOCALITY_WEIGHT * locality
    + Gain(criticality, util)
    + SPREAD_WEIGHT * spread
    + NODE_DENSITY_WEIGHT * density
    + CONCENTRATION_WEIGHT * concentration
    - Risk(criticality, mass)
  }

  function RawScore(f: NodeFacts, c: Field): real {
    Combine(LocalityNorm(f, c), UtilScore(f), SpreadScore(f.replicas),
            DensityScore(f.services, c.maxServices), ConcentrationScore(f.selections, c.maxSelections),
            MassNorm(f, c), c.criticality)
  }

  function TheoreticalMax(criticality: real): real {
    LOCALITY_WEIGHT + UtilWeight(criticality) + SPREAD_WEIGHT + NODE_DENSITY_WEIGHT + CONCENTRATION_WEIGHT
  }

  /** Rounds half away from zero. */
  function Round(x: real): int {
    if x >= 0.0 then (x + 0.5).Floor else -((0.5 - x).Floor)
  }

  function Scaled(raw: real, criticality: real): int {
    var max := if TheoreticalMax(criticality) <= 0.0 then 1.0 else TheoreticalMax(criticality);
    var pct := raw / max;
    var low := if pct < 0.0 then 0.0 else pct;
    var clamped := if low > 1.0 then 1.0 else low;
    Round(MIN_SCORE_FLOOR + (100.0 - MIN_SCORE_FLOOR) * clamped)
  }

  function Score(f: NodeFacts, c: Field): int {
    Scaled(RawScore(f, c), c.criticality)
  }

  // ----- bounds -----

  ghost predicate InField(f: NodeFacts, c: Field) {
    && f.services <= c.maxServices && f.selections <= c.maxSelections
    && 0.0 <= c.criticality <= 1.0
    && c.localityBand.0 <= c.localityBand.1 && c.massBand.0 <= c.massBand.1
  }

  lemma UtilInUnit(f: NodeFacts)
    ensures 0.0 <= UtilScore(f) <= 1.0
  {
    UtilizationInUnit(f.projectedCpu);
    UtilizationInUnit(f.projectedMem);
  }

  lemma UtilizationInUnit(p: real)
    ensures 0.0 <= Utilization(p) <= 1.0
  {
    assert Abs(p - TARGET_UTILIZATION) / UTILIZATION_BAND >= 0.0;
  }

  lemma ScarcityInUnit(count: nat, most: nat)
    requires count <= most
    ensures 0.0 < Scarcity(count, most) <= 1.0
  {
    var q := count as real / (most + 1) as real;
    assert q * (most + 1) as real == count as real;
    assert 0.0 <= q < 1.0;
  }

  lemma ScarcityMonotone(a: nat, b: nat, most: nat)
    requires a <= b
    ensures Scarcity(a, most) >= Scarcity(b, most)
  {
    Divided(a as real, b as real, (most + 1) as real);
  }

  lemma Weighted(w: real, x: real)
    requires 0.0 <= w && 0.0 <= x <= 1.0
    ensures 0.0 <= w * x <= w
  {
    assert 0.0 <= w * (1.0 - x);
  }

  lemma WeightedMonotone(w: real, x: real, y: real)
    requires 0.0 <= w && x <= y
    ensures w * x <= w * y
  {
    assert 0.0 <= w * (y - x);
  }

  lemma NonNegative(w: real, x: real)
    requires 0.0 <= w && 0.0 <= x
    ensures 0.0 <= w * x
  {
  }

  lemma MaxInRange(criticality: real)
    requires 0.0 <= criticality <= 1.0
    ensures 1.1 <= TheoreticalMax(criticality) <= 1.3
    ensures 0.1 <= UtilWeight(criticality) <= 0.3
    ensures 0.1 <= RiskWeight(criticality) <= 0.3
  {
  }

  lemma CombineAtMostMax(locality: real, util: real, spread: real, density: real, concentration: real,
                         mass: real, criticality: real)
    requires locality <= 1.0 && 0.0 <= util <= 1.0 && spread <= 1.0 && density <= 1.0 && concentration <= 1.0
    requires 0.0 <= mass <= 1.0 && 0.0 <= criticality <= 1.0
    ensures Combine(locality, util, spread, density, concentration, mass, criticality) <= TheoreticalMax(criticality)
  {
    MaxInRange(criticality);
    GainAtMost(criticality, util);
    RiskNonNegative(criticality, mass);
  }

  lemma GainAtMost(criticality: real, util: real)
    requires 0.0 <= criticality <= 1.0 && 0.0 <= util <= 1.0
    ensures Gain(criticality, util) <= UtilWeight(criticality)
  {
    var weight := UtilWeight(criticality);
    Weighted(weight, util);
  }

  lemma GainMonotone(criticality: real, u: real, u': real)
    requires 0.0 <= criticality <= 1.0 && u <= u'
    ensures Gain(criticality, u) <= Gain(criticality, u')
  {
    var weight := UtilWeight(criticality);
    WeightedMonotone(weight, u, u');
  }

  lemma RiskNonNegative(criticality: real, mass: real)
    requires 0.0 <= mass && 0.0 <= criticality
    ensures 0.0 <= Risk(criticality, mass)
  {
    var weight, exposure := RiskWeight(criticality), mass * criticality;
    NonNegative(mass, criticality);
    NonNegative(weight, exposure);
  }

  lemma WeighedProductMonotone(w: real, c: real, m: real, m': real)
    requires 0.0 <= w && 0.0 <= c && m <= m'
    ensures w * (m * c) <= w * (m' * c)
  {
    var d := m' - m;
    NonNegative(d, c);
    var e := d * c;
    NonNegative(w, e);
    var before, after := m * c, m' * c;
    assert after == before + e;
    assert w * after == w * before + w * e;
  }

  lemma RiskMonotone(criticality: real, m: real, m': real)
    requires 0.0 <= criticality && m <= m'
    ensures Risk(criticality, m) <= Risk(criticality, m')
  {
    WeighedProductMonotone(RiskWeight(criticality), criticality, m, m');
  }

  lemma CombineMonotone(l: real, u: real, s: real, d: real, n: real, m: real,
                        l': real, u': real, s': real, d': real, n': real, m': real, criticality: real)
    requires l <= l' && u <= u' && s <= s' && d <= d' && n <= n' && m' <= m
    requires 0.0 <= criticality <= 1.0
    ensures Combine(l, u, s, d, n, m, criticality) <= Combine(l', u', s', d', n', m', criticality)
  {
    GainMonotone(criticality, u, u');
    RiskMonotone(criticality, m', m);
  }

  /** The upper clamp and the guard against a non-positive maximum never act: no raw
      score exceeds the theoretical maximum, and the density and concentration scores
      are positive. */
  lemma RawAtMostMax(f: NodeFacts, c: Field)
    requires InField(f, c)
    ensures RawScore(f, c) <= TheoreticalMax(c.criticality)
    ensures 1.1 <= TheoreticalMax(c.criticality) <= 1.3
    ensures 0.0 < DensityScore(f.services, c.maxServices) <= 1.0
    ensures 0.0 < ConcentrationScore(f.selections, c.maxSelections) <= 1.0
  {
    MaxInRange(c.criticality);
    ScarcityInUnit(f.services, c.maxServices);
    ScarcityInUnit(f.selections, c.maxSelections);
    UtilInUnit(f);
    NormInUnit(f.locality, c.localityBand.0, c.localityBand.1);
    NormInUnit(f.mass, c.massBand.0, c.massBand.1);
    CombineAtMostMax(LocalityNorm(f, c), UtilScore(f), SpreadScore(f.replicas),
                     DensityScore(f.services, c.maxServices), ConcentrationScore(f.selections, c.maxSelections),
                     MassNorm(f, c), c.criticality);
  }

  lemma ScaledInRange(raw: real, criticality: real)
    ensures 15 <= Scaled(raw, criticality) <= 100
  {
  }

  lemma ScaledMonotone(a: real, b: real, criticality: real)
    requires a <= b
    ensures Scaled(a, criticality) <= Scaled(b, criticality)
  {
    var max := if TheoreticalMax(criticality) <= 0.0 then 1.0 else TheoreticalMax(criticality);
    Divided(a, b, max);
  }

  /** Each feasible node scores between 15 and 100; 15 whenever its raw score is not
      positive, and 100 exactly from 169/170 of the theoretical maximum on. */
  lemma ScoreBounds(f: NodeFacts, c: Field)
    requires InField(f, c)
    ensures 15 <= Score(f, c) <= 100
    ensures RawScore(f, c) <= 0.0 ==> Score(f, c) == 15
    ensures Score(f, c) == 100 <==> 169.0 * TheoreticalMax(c.criticality) <= 170.0 * RawScore(f, c)
  {
    RawAtMostMax(f, c);
    var raw, max := RawScore(f, c), TheoreticalMax(c.criticality);
    ScaledInRange(raw, c.criticality);
    var pct := raw / max;
    assert pct * max == raw;
    if raw <= 0.0 {
      assert pct <= 0.0;
    }
    Divided(raw, max, max);
    assert Score(f, c) == 100 <==> pct >= 169.0 / 170.0;
    TopShare(raw, max);
  }

  lemma TopShare(raw: real, max: real)
    requires 0.0 < max
    ensures raw / max >= 169.0 / 170.0 <==> 169.0 * max <= 170.0 * raw
  {
    var pct := raw / max;
    assert pct * max == raw;
    if pct >= 169.0 / 170.0 {
      assert (pct - 169.0 / 170.0) * max >= 0.0;
    } else {
      assert (169.0 / 170.0 - pct) * max > 0.0;
    }
  }

  /** Far from its peers, off target, crowded and holding all the critical mass. */
  lemma LonelyIsNegative(f: NodeFacts, c: Field)
    requires f.projectedCpu == 0.3 && f.projectedMem == 0.3 && f.replicas == 2 && f.services == 1 && f.selections == 3
    requires c.maxServices == 1 && c.maxSelections == 3 && c.criticality == 1.0
    requires LocalityNorm(f, c) == 0.0 && MassNorm(f, c) == 1.0
    ensures RawScore(f, c) < 0.0
  {
    assert Utilization(0.3) == 0.0;
    assert RawScore(f, c) == 0.2 * 0.2 + 0.15 * 0.5 + 0.25 * 0.25 - 0.3;
  }

  // ----- the formula, component by component -----

  /** A share that rises evenly from nothing at 30% to all at 65%, and falls evenly to
      nothing at 100%. */
  ghost function Tent(share: real): real {
    if share <= 0.3 || share >= 1.0 then 0.0
    else if share <= 0.65 then (share - 0.3) / 0.35
    else (1.0 - share) / 0.35
  }

  lemma UtilizationIsTent(share: real)
    ensures Utilization(share) == Tent(share)
  {
    assert Abs(share - 0.65) / 0.35 == (if share > 0.65 then share - 0.65 else 0.65 - share) / 0.35;
    if share > 0.65 {
      assert (share - 0.65) / 0.35 == 1.0 - (1.0 - share) / 0.35;
    } else {
      assert (0.65 - share) / 0.35 == 1.0 - (share - 0.3) / 0.35;
    }
  }

  /** The raw score: how near the peers are, how well both resources are used, how few
      replicas and services the node has and how seldom it was picked, less the risk of
      crowding critical services, with the weights that criticality shifts from use to risk. */
  lemma RawScoreExactly(f: NodeFacts, c: Field, near: real, use: real, spread: real, services: real, picks: real, mass: real, k: real)
    requires InField(f, c) && k == c.criticality
    requires near == Norm(f.locality, c.localityBand.0, c.localityBand.1)
    requires use == (Tent(f.projectedCpu) + Tent(f.projectedMem)) / 2.0
    requires spread == if f.replicas > 1 then 0.2 else if f.replicas == 1 then 0.6 else 1.0
    requires services == (c.maxServices + 1 - f.services) as real / (c.maxServices + 1) as real
    requires picks == (c.maxSelections + 1 - f.selections) as real / (c.maxSelections + 1) as real
    requires mass == Norm(f.mass, c.massBand.0, c.massBand.1)
    ensures RawScore(f, c)
         == 0.4 * near + (0.3 - 0.2 * k) * use + 0.2 * spread + 0.15 * services + 0.25 * picks - (0.1 + 0.2 * k) * (mass * k)
  {
    UseIsTent(f);
    DensityExactly(f.services, c.maxServices);
    DensityExactly(f.selections, c.maxSelections);
    CombineExactly(near, use, spread, services, picks, mass, k);
  }

  lemma UseIsTent(f: NodeFacts)
    ensures UtilScore(f) == (Tent(f.projectedCpu) + Tent(f.projectedMem)) / 2.0
  {
    UtilizationIsTent(f.projectedCpu);
    UtilizationIsTent(f.projectedMem);
  }

  lemma DensityExactly(count: nat, most: nat)
    requires count <= most
    ensures DensityScore(count, most) == ConcentrationScore(count, most) == (most + 1 - count) as real / (most + 1) as real
  {
    ScarcityExactly(count, most);
  }

  lemma CombineExactly(near: real, use: real, spread: real, services: real, picks: real, mass: real, k: real)
    ensures Combine(near, use, spread, services, picks, mass, k)
         == 0.4 * near + (0.3 - 0.2 * k) * use + 0.2 * spread + 0.15 * services + 0.25 * picks - (0.1 + 0.2 * k) * (mass * k)
  {
  }

  lemma ScarcityExactly(count: nat, most: nat)
    requires count <= most
    ensures Scarcity(count, most) == (most + 1 - count) as real / (most + 1) as real
    ensures most == 0 ==> (most + 1 - count) as real / (most + 1) as real == 1.0
  {
    var n := (most + 1) as real;
    assert n / n == 1.0;
    assert (most + 1 - count) as real == n - count as real;
    assert (n - count as real) / n == n / n - count as real / n;
  }

  /** Rounding goes to the nearest whole number, and away from zero when two are as near. */
  lemma RoundExactly(x: real)
    ensures var r := Round(x) as real;
            if x >= 0.0 then x - 0.5 < r <= x + 0.5 else x - 0.5 <= r < x + 0.5
  {
  }

  /** The score: from 15 points up, the raw score's share of its theoretical maximum, rounded. */
  lemma ScoreExactly(f: NodeFacts, c: Field)
    requires InField(f, c)
    ensures var raw, max := RawScore(f, c), 1.3 - 0.2 * c.criticality;
            var points := 15.0 + 85.0 * (if raw > 0.0 then raw / max else 0.0);
            points - 0.5 < Score(f, c) as real <= points + 0.5
  {
    RawAtMostMax(f, c);
    var raw, max := RawScore(f, c), TheoreticalMax(c.criticality);
    assert max == 1.3 - 0.2 * c.criticality;
    var pct := raw / max;
    assert pct * max == raw;
    Divided(raw, max, max);
    if raw > 0.0 {
      Divided(0.0, raw, max);
    } else {
      Divided(raw, 0.0, max);
    }
    RoundExactly(15.0 + 85.0 * (if raw > 0.0 then pct else 0.0));
  }

  // ----- dominance -----

  /** Node f is no worse than node g in any respect. */
  predicate NoWorse(f: NodeFacts, g: NodeFacts) {
    && f.locality >= g.locality
    && UtilScore(f) >= UtilScore(g)
    && SpreadScore(f.replicas) >= SpreadScore(g.replicas)
    && f.services <= g.services
    && f.selections <= g.selections
    && f.mass <= g.mass
  }

  lemma Dominance(f: NodeFacts, g: NodeFacts, c: Field)
    requires InField(f, c) && InField(g, c) && NoWorse(f, g)
    ensures RawScore(f, c) >= RawScore(g, c)
    ensures Score(f, c) >= Score(g, c)
  {
    NormMonotone(g.locality, f.locality, c.localityBand.0, c.localityBand.1);
    NormMonotone(f.mass, g.mass, c.massBand.0, c.massBand.1);
    ScarcityMonotone(f.services, g.services, c.maxServices);
    ScarcityMonotone(f.selections, g.selections, c.maxSelections);
    CombineMonotone(LocalityNorm(g, c), UtilScore(g), SpreadScore(g.replicas),
                    DensityScore(g.services, c.maxServices), ConcentrationScore(g.selections, c.maxSelections), MassNorm(g, c),
                    LocalityNorm(f, c), UtilScore(f), SpreadScore(f.replicas),
                    DensityScore(f.services, c.maxServices), ConcentrationScore(f.selections, c.maxSelections), MassNorm(f, c),
                    c.criticality);
    ScaledMonotone(RawScore(g, c), RawScore(f, c), c.criticality);
  }

  /** Projected utilisation closer to the 65% target scores at least as high. */
  lemma CloserToTargetIsBetter(p: real, q: real)
    requires Abs(p - 0.65) <= Abs(q - 0.65)
    ensures Utilization(p) >= Utilization(q)
  {
    Divided(Abs(p - TARGET_UTILIZATION), Abs(q - TARGET_UTILIZATION), UTILIZATION_BAND);
  }
}
