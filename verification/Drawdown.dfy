/** The one-pass duration of the largest drawdown of an equity curve. */
module Drawdown {
  /** `i` is the earliest index that attains the maximum of eq[..j]. */
  ghost predicate IsPeak(eq: seq<real>, j: nat, i: nat) {
    && i <= j < |eq|
    && (forall a | 0 <= a <= j :: eq[a] <= eq[i])
    && (forall a | 0 <= a < i :: eq[a] < eq[i])
  }

  /** No fall between two entries, the later at or before `n`, exceeds `d`. */
  ghost predicate Bounds(eq: seq<real>, n: int, d: real) {
    forall a, b | 0 <= a <= b < n && b < |eq| :: eq[a] - eq[b] <= d
  }

  /** The largest fall `d` over all pairs, first reached at `j`, from the earliest peak `i` before it. */
  ghost predicate IsLargest(eq: seq<real>, i: nat, j: nat) {
    && IsPeak(eq, j, i)
    && Bounds(eq, |eq|, eq[i] - eq[j])
    && (forall a, b | 0 <= a <= b < j :: eq[a] - eq[b] < eq[i] - eq[j])
  }

  /** A trough of the largest fall does not come before the first one, nor its peak before the first peak. */
  lemma NotEarlier(eq: seq<real>, i: nat, j: nat, k: nat, l: nat)
    requires IsLargest(eq, i, j) && IsLargest(eq, k, l)
    ensures j <= l && (j == l ==> i <= k)
  {
    assert eq[i] - eq[j] <= eq[k] - eq[l];
  }

  /** The largest drawdown determines its peak and its trough. */
  lemma LargestUnique(eq: seq<real>, i: nat, j: nat, k: nat, l: nat)
    requires IsLargest(eq, i, j) && IsLargest(eq, k, l)
    ensures i == k && j == l
  {
    NotEarlier(eq, i, j, k, l);
    NotEarlier(eq, k, l, i, j);
  }

  /** What the pass knows after `n` entries: the running peak, and the largest fall so far. */
  ghost predicate Pass(eq: seq<real>, n: nat, peak: nat, i: nat, j: nat) {
    && 0 < n <= |eq| && IsPeak(eq, n - 1, peak)
    && j < n && IsPeak(eq, j, i)
    && Bounds(eq, n, eq[i] - eq[j])
    && (forall a, b | 0 <= a <= b < j :: eq[a] - eq[b] < eq[i] - eq[j])
  }

  lemma PassStarts(eq: seq<real>)
    requires eq != []
    ensures Pass(eq, 1, 0, 0, 0)
  {
  }

  lemma PassStep(eq: seq<real>, n: nat, peak: nat, i: nat, j: nat)
    requires Pass(eq, n, peak, i, j) && n < |eq|
    ensures var peak' := if eq[n] > eq[peak] then n else peak;
            if eq[peak'] - eq[n] > eq[i] - eq[j] then Pass(eq, n + 1, peak', peak', n) else Pass(eq, n + 1, peak', i, j)
  {
    var peak' := if eq[n] > eq[peak] then n else peak;
    PeakStep(eq, n, peak);
    FallsTo(eq, n, peak');
  }

  lemma PeakStep(eq: seq<real>, n: nat, peak: nat)
    requires 0 < n < |eq| && IsPeak(eq, n - 1, peak)
    ensures IsPeak(eq, n, if eq[n] > eq[peak] then n else peak)
  {
  }

  lemma FallsTo(eq: seq<real>, n: nat, peak: nat)
    requires n < |eq| && IsPeak(eq, n, peak)
    ensures forall a | 0 <= a <= n :: eq[a] - eq[n] <= eq[peak] - eq[n]
  {
  }

  /** Every nonempty curve has a largest drawdown, and the pass finds it. */
  method MaxDrawdownDurationBars(eq: seq<real>) returns (duration: nat, ghost i: nat, ghost j: nat)
    ensures eq == [] ==> duration == 0
    ensures eq != [] ==> IsLargest(eq, i, j) && duration == j - i
  {
    hide Pass;
    i, j := 0, 0;
    if eq != [] { PassStarts(eq); }
    if |eq| < 2 {
      if eq != [] { PassDone(eq, 0, 0, 0); }
      return 0, i, j;
    }
    var peakEq, peakIdx, bestDd, bestDuration := eq[0], 0, 0.0, 0;
    for n := 0 to |eq|
      invariant peakIdx <= n && peakIdx < |eq| && peakEq == eq[peakIdx]
      invariant i <= j < |eq| && bestDd == eq[i] - eq[j] && bestDuration == j - i
      invariant if n == 0 then peakIdx == i == j == 0 else Pass(eq, n, peakIdx, i, j)
    {
      if n > 0 { PassStep(eq, n, peakIdx, i, j); }
      if eq[n] > peakEq {
        peakEq := eq[n];
        peakIdx := n;
      }
      var dd := peakEq - eq[n];
      if dd > bestDd {
        bestDd := dd;
        bestDuration := n - peakIdx;
        i, j := peakIdx, n;
      }
    }
    PassDone(eq, peakIdx, i, j);
    return bestDuration, i, j;
  }

  lemma PassDone(eq: seq<real>, peak: nat, i: nat, j: nat)
    requires Pass(eq, |eq|, peak, i, j)
    ensures IsLargest(eq, i, j)
  {
  }
}
