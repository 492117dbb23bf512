/** The spread monitor: a bounded window of samples and interpolated percentiles over it. */
module SpreadMonitor {
  import opened Common

  datatype Snapshot = Snapshot(
    p50: real, p90: real, p95: real, p99: real,
    current: real, isOutlier: bool, isBlock: bool, n: nat)

  // ---------------------------------------------------------------- sorting

  ghost predicate Sorted(s: seq<real>) { forall i, j | 0 <= i <= j < |s| :: s[i] <= s[j] }

  function Insert(s: seq<real>, x: real): (r: seq<real>)
    ensures r != []
  {
    if s == [] || x <= s[0] then [x] + s else [s[0]] + Insert(s[1..], x)
  }

  function Sort(s: seq<real>): seq<real> {
    if s == [] then [] else Insert(Sort(s[1..]), s[0])
  }

  lemma {:induction false} InsertSorts(s: seq<real>, x: real)
    requires Sorted(s)
    ensures Sorted(Insert(s, x)) && multiset(Insert(s, x)) == multiset(s) + multiset{x}
    ensures Insert(s, x)[0] == if s != [] then Min(s[0], x) else x
  {
    if s != [] && x > s[0] {
      InsertSorts(s[1..], x);
      assert s == [s[0]] + s[1..];
      var rest := Insert(s[1..], x);
      assert rest[0] >= s[0] by { if s[1..] != [] { assert s[0] <= s[1]; } }
      SortedCons(s[0], rest);
    } else {
      if s != [] { SortedCons(x, s); }
    }
  }

  lemma SortedCons(x: real, s: seq<real>)
    requires Sorted(s) && (s != [] ==> x <= s[0])
    ensures Sorted([x] + s)
  {
    forall i, j | 0 <= i <= j < |s| + 1
      ensures ([x] + s)[i] <= ([x] + s)[j]
    {
      if 0 == i < j { assert s[0] <= s[j - 1]; }
    }
  }

  lemma {:induction false} SortSorts(s: seq<real>)
    ensures Sorted(Sort(s)) && multiset(Sort(s)) == multiset(s) && |Sort(s)| == |s|
  {
    if s != [] {
      SortSorts(s[1..]);
      InsertSorts(Sort(s[1..]), s[0]);
      assert s == [s[0]] + s[1..];
    }
    assert |multiset(Sort(s))| == |Sort(s)| && |multiset(s)| == |s|;
  }

  // ---------------------------------------------------------------- percentiles

  function Interpolate(a: real, b: real, f: real): real { a + (b - a) * f }

  function Rank(p: real, n: nat): real { p * (n - 1) as real }

  /** The sorted sample at a rank, interpolated between its neighbours. */
  function AtRank(s: seq<real>, rank: real): real
    requires s != [] && 0.0 <= rank <= (|s| - 1) as real
  {
    var lo := rank.Floor;
    var hi := if lo + 1 <= |s| - 1 then lo + 1 else |s| - 1;
    Interpolate(s[lo], s[hi], rank - lo as real)
  }

  /** Linear interpolation at rank p * (n - 1) of the sorted samples; one sample is every percentile. */
  function Quantile(samples: seq<real>, p: real): real
    requires samples != [] && 0.0 <= p <= 1.0
  {
    RankInside(|samples|, p);
    if |samples| == 1 then samples[0] else AtRank(samples, Rank(p, |samples|))
  }

  lemma NonNegativeProduct(x: real, y: real)
    requires x >= 0.0 && y >= 0.0
    ensures x * y >= 0.0
  {
  }

  lemma Distributes(x: real, y: real, z: real)
    ensures x * (y - z) == x * y - x * z
  {
  }

  lemma RankInside(n: nat, p: real)
    requires n > 0 && 0.0 <= p <= 1.0
    ensures 0.0 <= Rank(p, n) <= (n - 1) as real
  {
    var m := (n - 1) as real;
    NonNegativeProduct(m, p);
    NonNegativeProduct(m, 1.0 - p);
    Distributes(m, 1.0, p);
  }

  lemma RanksOrdered(n: nat, p: real, q: real)
    requires n > 0 && p <= q
    ensures Rank(p, n) <= Rank(q, n)
  {
    var m := (n - 1) as real;
    NonNegativeProduct(m, q - p);
    Distributes(m, q, p);
  }

  /** Interpolating between two values stays between them and never decreases with the fraction. */
  lemma Interpolates(a: real, b: real, f: real, g: real)
    requires a <= b && 0.0 <= f <= g <= 1.0
    ensures a <= Interpolate(a, b, f) <= Interpolate(a, b, g) <= b
  {
    var d := b - a;
    NonNegativeProduct(d, f);
    NonNegativeProduct(d, g - f);
    NonNegativeProduct(d, 1.0 - g);
    Distributes(d, g, f);
    Distributes(d, 1.0, g);
  }

  lemma InterpolateStart(a: real, b: real)
    ensures Interpolate(a, b, 0.0) == a
  {
  }

  lemma RankBetween(s: seq<real>, rank: real)
    requires Sorted(s) && s != [] && 0.0 <= rank <= (|s| - 1) as real
    ensures var lo := rank.Floor; s[lo] <= AtRank(s, rank) <= s[if lo + 1 <= |s| - 1 then lo + 1 else |s| - 1]
  {
    hide Interpolate;
    var lo := rank.Floor;
    Interpolates(s[lo], s[if lo + 1 <= |s| - 1 then lo + 1 else |s| - 1], rank - lo as real, rank - lo as real);
  }

  lemma RankMonotone(s: seq<real>, r: real, t: real)
    requires Sorted(s) && s != [] && 0.0 <= r <= t <= (|s| - 1) as real
    ensures AtRank(s, r) <= AtRank(s, t)
  {
    hide Interpolate;
    var lo := r.Floor;
    if lo == t.Floor {
      Interpolates(s[lo], s[if lo + 1 <= |s| - 1 then lo + 1 else |s| - 1], r - lo as real, t - lo as real);
    } else {
      RankBetween(s, r);
      RankBetween(s, t);
      assert lo + 1 <= t.Floor;
    }
  }

  lemma WholeRank(s: seq<real>, k: nat)
    requires k < |s|
    ensures AtRank(s, k as real) == s[k]
  {
    hide Interpolate;
    assert (k as real).Floor == k;
    InterpolateStart(s[k], s[if k + 1 <= |s| - 1 then k + 1 else |s| - 1]);
  }

  lemma QuantileAtRank(s: seq<real>, p: real)
    requires s != [] && 0.0 <= p <= 1.0
    ensures 0.0 <= Rank(p, |s|) <= (|s| - 1) as real
    ensures Quantile(s, p) == AtRank(s, Rank(p, |s|))
  {
    RankInside(|s|, p);
    if |s| == 1 {
      assert Rank(p, 1) == 0.0;
      WholeRank(s, 0);
    }
  }

  /** A percentile lies between the smallest and the largest sample, and at a whole rank it is the
      sample of that rank. */
  lemma QuantileBounds(s: seq<real>, p: real)
    requires Sorted(s) && s != [] && 0.0 <= p <= 1.0
    ensures s[0] <= Quantile(s, p) <= s[|s| - 1]
    ensures forall k | 0 <= k < |s| && Rank(p, |s|) == k as real :: Quantile(s, p) == s[k]
  {
    hide Quantile, AtRank, Rank;
    QuantileAtRank(s, p);
    RankBetween(s, Rank(p, |s|));
    forall k | 0 <= k < |s| && Rank(p, |s|) == k as real
      ensures AtRank(s, Rank(p, |s|)) == s[k]
    {
      WholeRank(s, k);
    }
  }

  /** Percentiles never decrease with the percentage. */
  lemma QuantileMonotone(s: seq<real>, p: real, q: real)
    requires Sorted(s) && s != [] && 0.0 <= p <= q <= 1.0
    ensures Quantile(s, p) <= Quantile(s, q)
  {
    hide Quantile, AtRank, Rank;
    QuantileAtRank(s, p);
    QuantileAtRank(s, q);
    RanksOrdered(|s|, p, q);
    RankMonotone(s, Rank(p, |s|), Rank(q, |s|));
  }

  /** `q` divides the gap between the samples around rank p * (n - 1) the way the rank divides the
      step between them. */
  ghost predicate Divides(s: seq<real>, p: real, q: real, k: nat)
    requires k + 1 < |s|
  {
    var rank := p * (|s| - 1) as real;
    k as real <= rank <= k as real + 1.0 ==>
      (s[k + 1] - q) * (rank - k as real) == (q - s[k]) * (k as real + 1.0 - rank)
  }

  ghost predicate IsPercentile(s: seq<real>, p: real, q: real) {
    && s != [] && (|s| == 1 ==> q == s[0])
    && forall k: nat | k + 1 < |s| :: Divides(s, p, q, k)
  }

  lemma Crosses(a: real, b: real, f: real)
    ensures var q := Interpolate(a, b, f); (b - q) * f == (q - a) * (1.0 - f)
  {
    var d := b - a;
    var q := Interpolate(a, b, f);
    assert q - a == d * f;
    Distributes(d, 1.0, f);
    assert b - q == d * (1.0 - f);
    Rearranges(d, f, 1.0 - f);
  }

  lemma Rearranges(x: real, y: real, z: real)
    ensures x * z * y == x * y * z
  {
  }

  lemma QuantileDivides(s: seq<real>, p: real, k: nat)
    requires s != [] && 0.0 <= p <= 1.0 && k + 1 < |s|
    ensures Divides(s, p, Quantile(s, p), k)
  {
    hide Interpolate;
    QuantileAtRank(s, p);
    var rank := Rank(p, |s|);
    if k as real <= rank < k as real + 1.0 {
      assert rank.Floor == k;
      Crosses(s[k], s[k + 1], rank - k as real);
    } else if rank == k as real + 1.0 {
      WholeRank(s, k + 1);
    }
  }

  /** The interpolated percentile is the one that divides its gap, and there is only one. */
  lemma QuantileIsPercentile(s: seq<real>, p: real)
    requires s != [] && 0.0 <= p <= 1.0
    ensures IsPercentile(s, p, Quantile(s, p))
  {
    forall k: nat | k + 1 < |s|
      ensures Divides(s, p, Quantile(s, p), k)
    {
      QuantileDivides(s, p, k);
    }
  }

  lemma PercentileUnique(s: seq<real>, p: real, q: real, r: real)
    requires 0.0 <= p <= 1.0 && IsPercentile(s, p, q) && IsPercentile(s, p, r)
    ensures q == r
  {
    if |s| > 1 {
      RankInside(|s|, p);
      var rank := Rank(p, |s|);
      var k: nat := if rank.Floor == |s| - 1 then |s| - 2 else rank.Floor;
      assert Divides(s, p, q, k) && Divides(s, p, r, k);
      OneDivision(s[k], s[k + 1], rank - k as real, q);
      OneDivision(s[k], s[k + 1], rank - k as real, r);
    }
  }

  /** Dividing a gap in a given ratio names one point. */
  lemma OneDivision(a: real, b: real, f: real, q: real)
    requires (b - q) * f == (q - a) * (1.0 - f)
    ensures q == a + (b - a) * f
  {
    assert (b - q) * f == b * f - q * f;
    assert (q - a) * (1.0 - f) == q - a - (q * f - a * f);
    assert (b - a) * f == b * f - a * f;
  }

  // ---------------------------------------------------------------- the monitor

  /** The last `limit` samples. */
  function LastOf(samples: seq<real>, limit: nat): (r: seq<real>)
    ensures |r| == if |samples| <= limit then |samples| else limit
    ensures forall i | 0 <= i < |r| :: r[i] == samples[|samples| - |r| + i]
  {
    if |samples| <= limit then samples else samples[|samples| - limit..]
  }

  lemma LastOfMore(samples: seq<real>, x: real, limit: nat)
    ensures var w := LastOf(samples, limit) + [x];
            LastOf(samples + [x], limit) == if |w| > limit then w[1..] else w
  {
  }

  class Monitor {
    const limit: nat
    const warnPercentile: real
    const blockPercentile: real
    const warnPoints: Option<real>
    const blockPoints: Option<real>

    var window: seq<real>
    var last: real

    /** Every sample since the last reset. */
    ghost var seen: seq<real>

    ghost predicate Valid()
      reads this
    {
      && 0.0 <= warnPercentile <= 1.0 && 0.0 <= blockPercentile <= 1.0
      && window == LastOf(seen, limit)
      && (forall i | 0 <= i < |seen| :: seen[i] >= 0.0)
      && (seen != [] ==> last == seen[|seen| - 1])
    }

    constructor (limit: nat, warnPercentile: real, blockPercentile: real, warnPoints: Option<real>,
                 blockPoints: Option<real>)
      requires 0.0 <= warnPercentile <= 1.0 && 0.0 <= blockPercentile <= 1.0
      ensures Valid() && seen == [] && last == 0.0
      ensures this.limit == limit && this.warnPercentile == warnPercentile && this.blockPercentile == blockPercentile
      ensures this.warnPoints == warnPoints && this.blockPoints == blockPoints
    {
      this.limit, this.warnPercentile, this.blockPercentile := limit, warnPercentile, blockPercentile;
      this.warnPoints, this.blockPoints := warnPoints, blockPoints;
      window, last, seen := [], 0.0, [];
    }

    /** Record a sample, clamped at zero; the window drops its oldest when full. */
    method Update(points: real)
      requires Valid()
      modifies this
      ensures Valid() && seen == old(seen) + [Max(0.0, points)]
    {
      hide LastOf;
      LastOfMore(seen, Max(0.0, points), limit);
      var clamped := if 0.0 >= points then 0.0 else points;
      last := clamped;
      window := window + [clamped];
      if |window| > limit { window := window[1..]; }
      seen := seen + [clamped];
    }

    method Reset()
      requires Valid()
      modifies this
      ensures Valid() && seen == [] && last == 0.0
    {
      window, last, seen := [], 0.0, [];
    }

    function Samples(): seq<real>
      reads this
    {
      Sort(window)
    }

    method GetSnapshot() returns (s: Snapshot)
      requires Valid()
      ensures window == [] ==> s == Snapshot(0.0, 0.0, 0.0, 0.0, last, false, false, 0)
      ensures window != [] ==>
                && |Samples()| == |window|
                && s.n == |window| && s.current == last
                && s.p50 == Quantile(Samples(), 0.5) && s.p90 == Quantile(Samples(), 0.9)
                && s.p95 == Quantile(Samples(), 0.95) && s.p99 == Quantile(Samples(), 0.99)
                && s.isOutlier ==
                   (last >= if warnPoints.Some? then warnPoints.value else Quantile(Samples(), warnPercentile))
                && s.isBlock ==
                   (last >= if blockPoints.Some? then blockPoints.value else Quantile(Samples(), blockPercentile))
      ensures window != [] ==>
                && IsPercentile(Samples(), 0.5, s.p50) && IsPercentile(Samples(), 0.9, s.p90)
                && IsPercentile(Samples(), 0.95, s.p95) && IsPercentile(Samples(), 0.99, s.p99)
      ensures Sorted(Samples()) && multiset(Samples()) == multiset(window)
      ensures 0.0 <= s.p50 <= s.p90 <= s.p95 <= s.p99
      ensures window != [] && warnPoints.None? && blockPoints.None? && warnPercentile <= blockPercentile ==>
                (s.isBlock ==> s.isOutlier)
    {
      hide Quantile, Sort, IsPercentile;
      SortSorts(window);
      if window == [] { return Snapshot(0.0, 0.0, 0.0, 0.0, last, false, false, 0); }
      var samples := Sort(window);
      assert samples[0] in multiset(window);
      assert samples[0] in window;
      QuantileBounds(samples, 0.5);
      QuantileIsPercentile(samples, 0.5);
      QuantileIsPercentile(samples, 0.9);
      QuantileIsPercentile(samples, 0.95);
      QuantileIsPercentile(samples, 0.99);
      QuantileMonotone(samples, 0.5, 0.9);
      QuantileMonotone(samples, 0.9, 0.95);
      QuantileMonotone(samples, 0.95, 0.99);
      if warnPercentile <= blockPercentile { QuantileMonotone(samples, warnPercentile, blockPercentile); }
      var warn := if warnPoints.Some? then warnPoints.value else Quantile(samples, warnPercentile);
      var block := if blockPoints.Some? then blockPoints.value else Quantile(samples, blockPercentile);
      s := Snapshot(Quantile(samples, 0.5), Quantile(samples, 0.9), Quantile(samples, 0.95), Quantile(samples, 0.99),
                    last, last >= warn, last >= block, |samples|);
    }
  }
}
