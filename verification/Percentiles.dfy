/** Percentile bands, normalisation against a band, and the median: the numeric base
    of the scorer, over exact numbers. */
module Percentiles {
  import opened Sorting

  const NEUTRAL := 0.5

  predicate RealLe(x: real, y: real) {
    x <= y
  }

  predicate IntLe(x: int, y: int) {
    x <= y
  }

  /** Linear interpolation between the elements around a position. */
  function At(sorted: seq<real>, pos: real): real
    requires 0.0 <= pos && sorted != [] && pos <= (|sorted| - 1) as real
  {
    var low := pos.Floor;
    var high := if low as real == pos then low else low + 1;
    if low == high then sorted[low]
    else sorted[low] + (pos - low as real) * (sorted[high] - sorted[low])
  }

  /** Where quantile q falls among the indices 0 to n. */
  function Position(q: real, n: nat): (pos: real)
    requires 0.0 <= q <= 1.0
    ensures 0.0 <= pos <= n as real
  {
    q * n as real
  }

  function Percentile(sorted: seq<real>, q: real): real {
    if sorted == [] then 0.0
    else if q <= 0.0 then sorted[0]
    else if q >= 1.0 then sorted[|sorted| - 1]
    else At(sorted, Position(q, |sorted| - 1))
  }

  function PercentileBand(vals: seq<real>, low: real, high: real): (real, real) {
    if vals == [] then (0.0, 1.0)
    else
      var sorted := Sort(vals, RealLe);
      (Percentile(sorted, low), Percentile(sorted, high))
  }

  /** The band every normalisation in the scorer uses. */
  function Band(vals: seq<real>): (real, real) {
    PercentileBand(vals, 0.05, 0.95)
  }

  function Norm(x: real, p05: real, p95: real): real {
    if p95 == p05 then NEUTRAL
    else
      var v := (x - p05) / (p95 - p05);
      if v < 0.0 then 0.0 else if v > 1.0 then 1.0 else v
  }

  /** Go's integer division truncates towards zero. */
  function Halved(x: int): int {
    if x >= 0 then x / 2 else -((-x) / 2)
  }

  function Median(vals: seq<int>): int {
    if vals == [] then 0
    else
      var sorted := Sort(vals, IntLe);
      assert |sorted| == |vals| by { SortSorts(vals, IntLe); }
      var mid := |sorted| / 2;
      if |sorted| % 2 == 1 then sorted[mid] else Halved(sorted[mid - 1] + sorted[mid])
  }

  // ----- interpolation -----

  lemma ProductNonNegative(x: real, y: real)
    requires 0.0 <= x && 0.0 <= y
    ensures 0.0 <= x * y
  {
  }

  lemma WholeShare(n: real)
    requires 0.0 < n
    ensures n / n == 1.0 && 0.0 / n == 0.0
  {
  }

  lemma Between(a: real, b: real, t: real)
    requires a <= b && 0.0 <= t <= 1.0
    ensures a <= a + t * (b - a) <= b
  {
    var d, rest := b - a, 1.0 - t;
    ProductNonNegative(t, d);
    ProductNonNegative(rest, d);
    assert d == t * d + rest * d;
  }

  /** Interpolation never leaves the two elements around its position. */
  lemma AtBetween(sorted: seq<real>, pos: real)
    requires Sorted(sorted, RealLe) && 0.0 <= pos && sorted != [] && pos <= (|sorted| - 1) as real
    ensures sorted[pos.Floor] <= At(sorted, pos)
    ensures pos.Floor + 1 < |sorted| ==> At(sorted, pos) <= sorted[pos.Floor + 1]
    ensures pos.Floor as real == pos ==> At(sorted, pos) == sorted[pos.Floor]
  {
    var low := pos.Floor;
    if low + 1 < |sorted| {
      assert RealLe(sorted[low], sorted[low + 1]);
      Between(sorted[low], sorted[low + 1], pos - low as real);
    }
  }

  lemma BetweenMonotone(a: real, b: real, t: real, u: real)
    requires a <= b && t <= u
    ensures a + t * (b - a) <= a + u * (b - a)
  {
    var step, d := u - t, b - a;
    ProductNonNegative(step, d);
    assert u * d == t * d + step * d;
  }

  lemma AtMonotone(sorted: seq<real>, p: real, q: real)
    requires Sorted(sorted, RealLe) && sorted != [] && 0.0 <= p <= q <= (|sorted| - 1) as real
    ensures At(sorted, p) <= At(sorted, q)
  {
    AtBetween(sorted, p);
    AtBetween(sorted, q);
    var i, j := p.Floor, q.Floor;
    if p == i as real {
      assert i == j || RealLe(sorted[i], sorted[j]);
    } else if i == j {
      assert RealLe(sorted[i], sorted[i + 1]);
      BetweenMonotone(sorted[i], sorted[i + 1], p - i as real, q - i as real);
    } else {
      assert i + 1 == j || RealLe(sorted[i + 1], sorted[j]);
    }
  }

  /** A percentile of a sorted list lies between its least and greatest element. */
  lemma {:induction false} PercentileBetween(sorted: seq<real>, q: real)
    requires Sorted(sorted, RealLe) && sorted != []
    ensures sorted[0] <= Percentile(sorted, q) <= sorted[|sorted| - 1]
  {
    var n := |sorted| - 1;
    assert n == 0 || RealLe(sorted[0], sorted[n]);
    if 0.0 < q < 1.0 {
      AtMonotone(sorted, 0.0, Position(q, n));
      AtMonotone(sorted, Position(q, n), n as real);
    }
  }

  lemma PositionMonotone(q: real, r: real, n: nat)
    requires 0.0 <= q <= r <= 1.0
    ensures Position(q, n) <= Position(r, n)
  {
    var step, size := r - q, n as real;
    ProductNonNegative(step, size);
    assert r * size == q * size + step * size;
  }

  /** A higher quantile is never smaller. */
  lemma PercentileMonotone(sorted: seq<real>, q: real, r: real)
    requires Sorted(sorted, RealLe) && sorted != [] && q <= r
    ensures Percentile(sorted, q) <= Percentile(sorted, r)
  {
    if q <= 0.0 || r >= 1.0 {
      PercentileBetween(sorted, q);
      PercentileBetween(sorted, r);
    } else {
      PositionMonotone(q, r, |sorted| - 1);
      AtMonotone(sorted, Position(q, |sorted| - 1), Position(r, |sorted| - 1));
    }
  }

  lemma PositionOnGrid(k: nat, n: nat)
    requires 0 < k < n
    ensures 0.0 < k as real / n as real < 1.0
    ensures Position(k as real / n as real, n) == k as real
  {
    var q := k as real / n as real;
    assert q * n as real == k as real;
    assert 0.0 < q < 1.0;
  }

  /** At the grid points k / (n - 1) the percentile is the element itself. */
  lemma PercentileOnGrid(sorted: seq<real>, k: nat)
    requires Sorted(sorted, RealLe) && k < |sorted| && 1 < |sorted|
    ensures Percentile(sorted, k as real / (|sorted| - 1) as real) == sorted[k]
  {
    var n := |sorted| - 1;
    if 0 < k < n {
      PositionOnGrid(k, n);
      AtBetween(sorted, k as real);
    } else {
      WholeShare(n as real);
    }
  }

  // ----- bands and normalisation -----

  /** A band is ordered; without values it is the unit interval. */
  lemma BandOrdered(vals: seq<real>)
    ensures Band(vals).0 <= Band(vals).1
    ensures vals == [] ==> Band(vals) == (0.0, 1.0)
  {
    if vals != [] {
      SortSorts(vals, RealLe);
      PercentileMonotone(Sort(vals, RealLe), 0.05, 0.95);
    }
  }

  /** A band depends on the values, not on their order. */
  lemma BandPermutes(a: seq<real>, b: seq<real>)
    requires multiset(a) == multiset(b)
    ensures Band(a) == Band(b)
  {
    SortCanonical(a, b, RealLe);
    assert a == [] <==> |multiset(a)| == 0;
    assert b == [] <==> |multiset(b)| == 0;
  }

  lemma NormInUnit(x: real, p05: real, p95: real)
    ensures 0.0 <= Norm(x, p05, p95) <= 1.0
  {
  }

  /** What normalising means: nothing up to the band, all from its end on, and the share of
      the way in between; in the middle when the band is a single value. */
  lemma NormExactly(x: real, p05: real, p95: real)
    requires p05 <= p95
    ensures Norm(x, p05, p95)
         == if p05 == p95 then 0.5 else if x <= p05 then 0.0 else if x >= p95 then 1.0 else (x - p05) / (p95 - p05)
  {
    if p05 < p95 {
      WholeShare(p95 - p05);
      if x <= p05 {
        Divided(x - p05, 0.0, p95 - p05);
      } else if x >= p95 {
        Divided(p95 - p05, x - p05, p95 - p05);
      } else {
        Divided(0.0, x - p05, p95 - p05);
        Divided(x - p05, p95 - p05, p95 - p05);
      }
    }
  }

  lemma NormMonotone(x: real, y: real, p05: real, p95: real)
    requires x <= y && p05 <= p95
    ensures Norm(x, p05, p95) <= Norm(y, p05, p95)
  {
    if p05 != p95 {
      Divided(x - p05, y - p05, p95 - p05);
    }
  }

  lemma Divided(a: real, b: real, d: real)
    requires a <= b && 0.0 < d
    ensures a / d <= b / d
  {
    assert b / d - a / d == (b - a) / d;
  }

  /** The median depends on the samples, not on the order they were met in. */
  lemma MedianPermutes(a: seq<int>, b: seq<int>)
    requires multiset(a) == multiset(b)
    ensures Median(a) == Median(b)
  {
    SortCanonical(a, b, IntLe);
    assert a == [] <==> |multiset(a)| == 0;
    assert b == [] <==> |multiset(b)| == 0;
  }

  function Below(m: int): int -> bool {
    (x: int) => x < m
  }

  function Above(m: int): int -> bool {
    (x: int) => x > m
  }

  /** Half of a number, rounded towards zero. */
  lemma HalvedExactly(x: int)
    ensures 2 * Halved(x) == if x % 2 == 0 then x else if x > 0 then x - 1 else x + 1
  {
  }

  /** What lies on either side of an element of a sorted list, or between two neighbours. */
  lemma SortedSplits(sorted: seq<int>, i: nat, j: nat, m: int)
    requires Sorted(sorted, IntLe) && i <= j < |sorted| && sorted[i] <= m <= sorted[j] && j <= i + 1
    ensures |Filter(Below(m), sorted)| <= j && |Filter(Above(m), sorted)| <= |sorted| - i - 1
  {
    forall k | j <= k < |sorted| ensures !Below(m)(sorted[k]) {
      assert k == j || IntLe(sorted[j], sorted[k]);
    }
    forall k | 0 <= k < i + 1 ensures !Above(m)(sorted[k]) {
      assert k == i || IntLe(sorted[k], sorted[i]);
    }
    FilterCounts(Below(m), sorted, j);
    FilterCounts(Above(m), sorted, i + 1);
  }

  lemma CountsPermute<T>(p: T -> bool, a: seq<T>, b: seq<T>)
    requires multiset(a) == multiset(b)
    ensures |Filter(p, a)| == |Filter(p, b)|
  {
    FilterPermutes(p, a, b);
    assert |multiset(Filter(p, a))| == |multiset(Filter(p, b))|;
  }

  /** At most half of the values lie below m, and at most half above. */
  ghost predicate Splits(m: int, vals: seq<int>) {
    2 * |Filter(Below(m), vals)| <= |vals| && 2 * |Filter(Above(m), vals)| <= |vals|
  }

  /** The median splits the samples. It is a sample when their number is odd; when it is even
      it is half the sum, rounded towards zero, of the two in the middle, one of which has
      fewer than half of them below it and the other fewer than half above. */
  lemma {:induction false} MedianSplits(vals: seq<int>)
    ensures var m := Median(vals);
            && Splits(m, vals)
            && (if vals == [] then m == 0
                else if |vals| % 2 == 1 then m in vals
                else exists a, b :: a in vals && b in vals && m == Halved(a + b) && InTheMiddle(a, b, vals))
  {
    var sorted := Sort(vals, IntLe);
    SortSorts(vals, IntLe);
    SameMembers(sorted, vals);
    var m, mid := Median(vals), |sorted| / 2;
    CountsPermute(Below(m), sorted, vals);
    CountsPermute(Above(m), sorted, vals);
    if vals == [] {
      assert m == 0;
    } else if |sorted| % 2 == 1 {
      assert sorted[mid] in sorted;
      SortedSplits(sorted, mid, mid, m);
    } else {
      assert sorted[mid - 1] in sorted && sorted[mid] in sorted && IntLe(sorted[mid - 1], sorted[mid]);
      HalvedExactly(sorted[mid - 1] + sorted[mid]);
      SortedSplits(sorted, mid - 1, mid, m);
      MiddlePair(vals, sorted, mid);
    }
  }

  ghost predicate InTheMiddle(a: int, b: int, vals: seq<int>) {
    && a <= b && 2 * |Filter(Below(a), vals)| < |vals| && 2 * |Filter(Above(a), vals)| <= |vals|
    && 2 * |Filter(Below(b), vals)| <= |vals| && 2 * |Filter(Above(b), vals)| < |vals|
  }

  lemma MiddlePair(vals: seq<int>, sorted: seq<int>, mid: nat)
    requires Sorted(sorted, IntLe) && multiset(sorted) == multiset(vals) && |sorted| == |vals| == 2 * mid && mid > 0
    ensures InTheMiddle(sorted[mid - 1], sorted[mid], vals)
  {
    var a, b := sorted[mid - 1], sorted[mid];
    assert IntLe(a, b);
    SortedSplits(sorted, mid - 1, mid - 1, a);
    SortedSplits(sorted, mid, mid, b);
    CountsPermute(Below(a), sorted, vals);
    CountsPermute(Above(a), sorted, vals);
    CountsPermute(Below(b), sorted, vals);
    CountsPermute(Above(b), sorted, vals);
  }
}
