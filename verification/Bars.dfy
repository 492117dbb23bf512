/** OHLC aggregation as a specification: fixed-width buckets, the bar built from each
    maximal run of equal buckets, and aggregation from one timeframe to the next. */
module Bars {
  import opened Common

  datatype Timeframe = M1 | M5 | M15 | M30 | H1 | H4 | D1 | W1 {
    function Minutes(): (m: int)
      ensures m > 0
    {
      match this
      case M1 => 1 case M5 => 5 case M15 => 15 case M30 => 30
      case H1 => 60 case H4 => 240 case D1 => 1440 case W1 => 10080
    }
  }

  const TIMEFRAMES: seq<Timeframe> := [M1, M5, M15, M30, H1, H4, D1, W1]

  /** Microseconds in a minute; all times are microseconds since the epoch. */
  const MINUTE := 60_000_000

  datatype Bar = Bar(
    symbol: string, timeframe: Timeframe, time: int,
    open: real, high: real, low: real, close: real,
    tickVolume: nat, realVolume: Option<nat>)

  /** Floor of `ts` to the start of its bucket. */
  function BucketStart(ts: int, minutes: int): int
    requires minutes > 0
  {
    var epochMin := ts / MINUTE;
    (epochMin - epochMin % minutes) * MINUTE
  }

  // ---------------------------------------------------------------- one bucket

  function AddReal(a: Option<nat>, b: Option<nat>): Option<nat> {
    if b.None? then a else if a.None? then b else Some(a.value + b.value)
  }

  /** The bar that one source bar starts. */
  function Start(b: Bar, tf: Timeframe): Bar {
    b.(timeframe := tf, time := BucketStart(b.time, tf.Minutes()))
  }

  /** The in-progress bar `acc` after one more source bar. */
  function Merge(acc: Bar, b: Bar): Bar {
    acc.(high := Max(acc.high, b.high), low := Min(acc.low, b.low), close := b.close,
         tickVolume := acc.tickVolume + b.tickVolume, realVolume := AddReal(acc.realVolume, b.realVolume))
  }

  function Absorb(acc: seq<Bar>, b: Bar, tf: Timeframe): seq<Bar> {
    var n := |acc| - 1;
    if acc != [] && acc[n].time == BucketStart(b.time, tf.Minutes())
    then acc[..n] + [Merge(acc[n], b)]
    else acc + [Start(b, tf)]
  }

  /** All bars of timeframe `tf` that a stream builds, the last one possibly still open. */
  function BarsOf(h: seq<Bar>, tf: Timeframe): seq<Bar> {
    if h == [] then [] else Absorb(BarsOf(h[..|h| - 1], tf), h[|h| - 1], tf)
  }

  lemma BarsOfAppend(h: seq<Bar>, b: Bar, tf: Timeframe)
    ensures BarsOf(h + [b], tf) == Absorb(BarsOf(h, tf), b, tf)
  {
    assert (h + [b])[..|h|] == h;
  }

  // ---------------------------------------------------------------- maximal runs

  function Flatten(groups: seq<seq<Bar>>): seq<Bar> {
    if groups == [] then [] else Flatten(groups[..|groups| - 1]) + groups[|groups| - 1]
  }

  /** A nonempty run of bars that fall in one bucket. */
  ghost predicate IsRun(g: seq<Bar>, minutes: int)
    requires minutes > 0
  {
    g != [] && forall b | b in g :: BucketStart(b.time, minutes) == BucketStart(g[0].time, minutes)
  }

  /** `groups` cuts `h` into maximal runs: neighbours fall in different buckets. */
  ghost predicate IsGrouping(h: seq<Bar>, groups: seq<seq<Bar>>, minutes: int)
    requires minutes > 0
  {
    && Flatten(groups) == h
    && (forall i | 0 <= i < |groups| :: IsRun(groups[i], minutes))
    && (forall i, j | 0 <= i < |groups| && j == i + 1 < |groups| ::
          BucketStart(groups[i][0].time, minutes) != BucketStart(groups[j][0].time, minutes))
  }

  function TickSum(g: seq<Bar>): nat {
    if g == [] then 0 else TickSum(g[..|g| - 1]) + g[|g| - 1].tickVolume
  }

  function RealSum(g: seq<Bar>): nat {
    if g == [] then 0
    else RealSum(g[..|g| - 1]) + if g[|g| - 1].realVolume.Some? then g[|g| - 1].realVolume.value else 0
  }

  /** First open, extreme high and low, last close, summed volumes; real volume only if some
      member has it. */
  ghost predicate IsAggregate(bar: Bar, g: seq<Bar>, tf: Timeframe) {
    && g != []
    && bar.symbol == g[0].symbol && bar.timeframe == tf && bar.time == BucketStart(g[0].time, tf.Minutes())
    && bar.open == g[0].open && bar.close == g[|g| - 1].close
    && (forall b | b in g :: b.high <= bar.high && bar.low <= b.low)
    && (exists b :: b in g && b.high == bar.high)
    && (exists b :: b in g && b.low == bar.low)
    && bar.tickVolume == TickSum(g)
    && (bar.realVolume.Some? <==> exists b :: b in g && b.realVolume.Some?)
    && (bar.realVolume.Some? ==> bar.realVolume.value == RealSum(g))
  }

  lemma StartAggregates(b: Bar, tf: Timeframe)
    ensures IsAggregate(Start(b, tf), [b], tf)
  {
    assert [b][..0] == [];
    assert b in [b];
  }

  lemma MergeAggregates(acc: Bar, g: seq<Bar>, b: Bar, tf: Timeframe)
    requires IsAggregate(acc, g, tf)
    ensures IsAggregate(Merge(acc, b), g + [b], tf)
  {
    assert (g + [b])[..|g|] == g;
    var hi :| hi in g && hi.high == acc.high;
    var lo :| lo in g && lo.low == acc.low;
    assert hi in g + [b] && lo in g + [b] && b in g + [b];
    MergeReal(acc, g, b, tf);
  }

  lemma MergeReal(acc: Bar, g: seq<Bar>, b: Bar, tf: Timeframe)
    requires IsAggregate(acc, g, tf)
    ensures var r := Merge(acc, b).realVolume;
            && (r.Some? <==> exists x :: x in g + [b] && x.realVolume.Some?)
            && (r.Some? ==> r.value == RealSum(g + [b]))
  {
    hide BucketStart;
    assert (g + [b])[..|g|] == g && b in g + [b];
    if acc.realVolume.Some? {
      var r :| r in g && r.realVolume.Some?;
      assert r in g + [b];
    } else {
      NoReal(g);
    }
  }

  lemma {:induction false} NoReal(g: seq<Bar>)
    requires forall b | b in g :: b.realVolume.None?
    ensures RealSum(g) == 0
  {
    if g != [] { NoReal(g[..|g| - 1]); }
  }

  function RunsAbsorb(groups: seq<seq<Bar>>, b: Bar, minutes: int): seq<seq<Bar>>
    requires minutes > 0
  {
    var n := |groups| - 1;
    if groups != [] && groups[n] != [] && BucketStart(groups[n][0].time, minutes) == BucketStart(b.time, minutes)
    then groups[..n] + [groups[n] + [b]]
    else groups + [[b]]
  }

  function Runs(h: seq<Bar>, minutes: int): seq<seq<Bar>>
    requires minutes > 0
  {
    if h == [] then [] else RunsAbsorb(Runs(h[..|h| - 1], minutes), h[|h| - 1], minutes)
  }

  lemma GroupingStarts(h: seq<Bar>, groups: seq<seq<Bar>>, b: Bar, minutes: int)
    requires minutes > 0 && IsGrouping(h, groups, minutes)
    requires groups == [] || BucketStart(groups[|groups| - 1][0].time, minutes) != BucketStart(b.time, minutes)
    ensures IsGrouping(h + [b], groups + [[b]], minutes)
  {
    hide BucketStart;
    assert (groups + [[b]])[..|groups|] == groups;
  }

  lemma GroupingExtends(h: seq<Bar>, groups: seq<seq<Bar>>, b: Bar, minutes: int)
    requires minutes > 0 && IsGrouping(h, groups, minutes) && groups != []
    requires BucketStart(groups[|groups| - 1][0].time, minutes) == BucketStart(b.time, minutes)
    ensures IsGrouping(h + [b], groups[..|groups| - 1] + [groups[|groups| - 1] + [b]], minutes)
  {
    hide BucketStart;
    var n := |groups| - 1;
    var now := groups[..n] + [groups[n] + [b]];
    assert now[..n] == groups[..n];
    assert IsRun(groups[n], minutes);
    assert (groups[n] + [b])[0] == groups[n][0];
    assert IsRun(now[n], minutes);
  }

  lemma {:induction false} RunsGroup(h: seq<Bar>, minutes: int)
    requires minutes > 0
    ensures IsGrouping(h, Runs(h, minutes), minutes)
  {
    if h != [] {
      hide BucketStart;
      var b := h[|h| - 1];
      var before: seq<seq<Bar>> := Runs(h[..|h| - 1], minutes);
      RunsGroup(h[..|h| - 1], minutes);
      assert h == h[..|h| - 1] + [b];
      if before != [] && BucketStart(before[|before| - 1][0].time, minutes) == BucketStart(b.time, minutes) {
        GroupingExtends(h[..|h| - 1], before, b, minutes);
      } else {
        GroupingStarts(h[..|h| - 1], before, b, minutes);
      }
    }
  }

  lemma {:induction false} FlattenLength(groups: seq<seq<Bar>>)
    requires forall i | 0 <= i < |groups| :: groups[i] != []
    ensures |Flatten(groups)| >= |groups|
  {
    if groups != [] { FlattenLength(groups[..|groups| - 1]); }
  }

  /** The last group is the longest suffix of `h` in one bucket; the others group what precedes it. */
  lemma LastGroup(h: seq<Bar>, groups: seq<seq<Bar>>, minutes: int)
    requires minutes > 0 && IsGrouping(h, groups, minutes) && h != []
    ensures groups != []
    ensures var n := |groups| - 1; var k := |h| - |groups[n]|;
            && 0 <= k < |h| && groups[n] == h[k..] && IsGrouping(h[..k], groups[..n], minutes)
            && (forall i | k <= i < |h| :: BucketStart(h[i].time, minutes) == BucketStart(h[|h| - 1].time, minutes))
            && (k > 0 ==> BucketStart(h[k - 1].time, minutes) != BucketStart(h[|h| - 1].time, minutes))
  {
    hide BucketStart;
    assert groups != [];
    var n := |groups| - 1;
    var g, before := groups[n], Flatten(groups[..n]);
    assert IsRun(g, minutes) && h == before + g && h[..|before|] == before;
    if n > 0 {
      assert IsRun(groups[n - 1], minutes);
      assert groups[..n][..n - 1] == groups[..n - 1];
      assert h[|before| - 1] in groups[n - 1];
    }
    forall i | |before| <= i < |h|
      ensures BucketStart(h[i].time, minutes) == BucketStart(g[0].time, minutes)
    {
      assert h[i] in g;
    }
  }

  lemma LastNotShorter(h: seq<Bar>, a: seq<seq<Bar>>, b: seq<seq<Bar>>, minutes: int)
    requires minutes > 0 && IsGrouping(h, a, minutes) && IsGrouping(h, b, minutes) && h != []
    ensures a != [] && b != [] && |a[|a| - 1]| >= |b[|b| - 1]|
  {
    hide BucketStart, IsGrouping;
    LastGroup(h, a, minutes);
    LastGroup(h, b, minutes);
  }

  /** A stream has exactly one cut into maximal runs. */
  lemma {:induction false} GroupingUnique(h: seq<Bar>, a: seq<seq<Bar>>, b: seq<seq<Bar>>, minutes: int)
    requires minutes > 0 && IsGrouping(h, a, minutes) && IsGrouping(h, b, minutes)
    ensures a == b
    decreases |h|
  {
    hide BucketStart;
    if h == [] {
      FlattenLength(a);
      FlattenLength(b);
    } else {
      LastGroup(h, a, minutes);
      LastGroup(h, b, minutes);
      LastNotShorter(h, a, b, minutes);
      LastNotShorter(h, b, a, minutes);
      GroupingUnique(h[..|h| - |a[|a| - 1]|], a[..|a| - 1], b[..|b| - 1], minutes);
      assert a == a[..|a| - 1] + [a[|a| - 1]];
      assert b == b[..|b| - 1] + [b[|b| - 1]];
    }
  }

  ghost predicate Aggregated(bars: seq<Bar>, groups: seq<seq<Bar>>, tf: Timeframe) {
    |bars| == |groups| && forall i | 0 <= i < |bars| :: IsAggregate(bars[i], groups[i], tf)
  }

  lemma AggregatedAbsorb(bars: seq<Bar>, groups: seq<seq<Bar>>, b: Bar, tf: Timeframe)
    requires Aggregated(bars, groups, tf)
    ensures Aggregated(Absorb(bars, b, tf), RunsAbsorb(groups, b, tf.Minutes()), tf)
  {
    hide BucketStart, IsAggregate;
    StartAggregates(b, tf);
    if bars != [] {
      var n := |bars| - 1;
      AggregateFacts(bars[n], groups[n], tf);
      MergeAggregates(bars[n], groups[n], b, tf);
    }
  }

  lemma AggregateFacts(bar: Bar, g: seq<Bar>, tf: Timeframe)
    requires IsAggregate(bar, g, tf)
    ensures g != [] && bar.time == BucketStart(g[0].time, tf.Minutes())
  {
  }

  /** Each bar is the aggregate of one maximal run, in order, and none is missing. */
  lemma {:induction false} BarsAggregateRuns(h: seq<Bar>, tf: Timeframe)
    ensures IsGrouping(h, Runs(h, tf.Minutes()), tf.Minutes())
    ensures Aggregated(BarsOf(h, tf), Runs(h, tf.Minutes()), tf)
  {
    RunsGroup(h, tf.Minutes());
    if h != [] {
      hide Absorb, RunsAbsorb, Aggregated, IsGrouping;
      var n := |h| - 1;
      BarsAggregateRuns(h[..n], tf);
      AggregatedAbsorb(BarsOf(h[..n], tf), Runs(h[..n], tf.Minutes()), h[n], tf);
    } else {
      assert BarsOf(h, tf) == [] && Runs(h, tf.Minutes()) == [];
    }
  }

  /** Whichever way the stream is cut into maximal runs, the bars are the aggregates of those runs. */
  lemma BarsMeetGrouping(h: seq<Bar>, tf: Timeframe, groups: seq<seq<Bar>>)
    requires IsGrouping(h, groups, tf.Minutes())
    ensures Aggregated(BarsOf(h, tf), groups, tf)
  {
    BarsAggregateRuns(h, tf);
    GroupingUnique(h, groups, Runs(h, tf.Minutes()), tf.Minutes());
  }

  lemma AbsorbTicks(acc: seq<Bar>, b: Bar, tf: Timeframe)
    ensures TickSum(Absorb(acc, b, tf)) == TickSum(acc) + b.tickVolume
  {
    hide BucketStart;
    var k := |acc| - 1;
    if acc != [] && acc[k].time == BucketStart(b.time, tf.Minutes()) {
      assert (acc[..k] + [Merge(acc[k], b)])[..k] == acc[..k];
    } else {
      assert (acc + [Start(b, tf)])[..|acc|] == acc;
    }
  }

  /** No tick is lost: tick volume is the same at every timeframe. */
  lemma {:induction false} TicksConserved(h: seq<Bar>, tf: Timeframe)
    ensures TickSum(BarsOf(h, tf)) == TickSum(h)
  {
    hide Absorb;
    if h != [] {
      var n := |h| - 1;
      TicksConserved(h[..n], tf);
      AbsorbTicks(BarsOf(h[..n], tf), h[n], tf);
    }
  }

  // ---------------------------------------------------------------- the tower of timeframes

  ghost predicate Divides(a: int, b: int)
    requires a > 0
  {
    b % a == 0
  }

  lemma ModBounds(x: int, m: int)
    requires m > 0
    ensures 0 <= x % m < m && x == (x / m) * m + x % m
  {
  }

  lemma MulCompare(x: int, y: int, m: int)
    requires m > 0
    ensures x * m < y * m <==> x < y
    ensures x * m <= y * m <==> x <= y
  {
  }

  /** The quotient is determined by its bounds. */
  lemma DivIs(x: int, m: int, q: int)
    requires m > 0 && q * m <= x < (q + 1) * m
    ensures x / m == q && x - x % m == q * m
  {
    ModBounds(x, m);
    MulCompare(x / m, q + 1, m);
    MulCompare(q, x / m + 1, m);
  }

  /** Flooring to multiples of `a` first does not move the floor to multiples of `k * a`. */
  lemma FloorNest(e: int, a: int, k: int)
    requires a > 0 && k > 0
    ensures k * a > 0
    ensures (e - e % a) - (e - e % a) % (k * a) == e - e % (k * a)
  {
    var b := k * a;
    MulCompare(0, k, a);
    var q, p := e / b, e / a;
    ModBounds(e, a);
    ModBounds(e, b);
    MulAssociates(q, k, a);
    MulCompare(q * k, p + 1, a);
    MulCompare(q * k, p, a);
    DivIs(p * a, b, q);
  }

  lemma MulAssociates(x: int, y: int, z: int)
    ensures x * (y * z) == (x * y) * z
  {
  }

  lemma BucketNests(t: int, a: int, b: int)
    requires a > 0 && b > 0 && Divides(a, b)
    ensures BucketStart(BucketStart(t, a), b) == BucketStart(t, b)
  {
    ModBounds(b, a);
    var k := b / a;
    assert k * a == b;
    MulCompare(0, k, a);
    var e := t / MINUTE;
    FloorNest(e, a, k);
    assert ((e - e % a) * MINUTE) / MINUTE == e - e % a;
  }

  /** A bucket starts at a whole multiple of its width and holds the instant. */
  lemma BucketHolds(t: int, minutes: int)
    requires minutes > 0
    ensures minutes * 60_000_000 > 0
    ensures BucketStart(t, minutes) <= t < BucketStart(t, minutes) + minutes * 60_000_000
    ensures BucketStart(t, minutes) == t / MINUTE / minutes * (minutes * 60_000_000)
  {
    var e := t / MINUTE;
    ModBounds(t, MINUTE);
    ModBounds(e, minutes);
    MulAssociates(e / minutes, minutes, MINUTE);
  }

  lemma MergeAssociates(x: Bar, y: Bar, z: Bar)
    ensures Merge(Merge(x, y), z) == Merge(x, Merge(y, z))
  {
  }

  /** Absorbing a bar that was itself extended is absorbing its two parts. */
  lemma AbsorbMerged(acc: seq<Bar>, y: Bar, x: Bar, tf: Timeframe)
    requires BucketStart(x.time, tf.Minutes()) == BucketStart(y.time, tf.Minutes())
    ensures Absorb(acc, Merge(y, x), tf) == Absorb(Absorb(acc, y, tf), x, tf)
  {
    hide BucketStart;
    var n := |acc| - 1;
    if acc != [] && acc[n].time == BucketStart(y.time, tf.Minutes()) {
      MergeAssociates(acc[n], y, x);
      assert Absorb(acc, y, tf)[..n] == acc[..n];
    } else {
      assert Absorb(acc, y, tf)[..|acc|] == acc;
    }
  }

  /** Building `b` bars from `a` bars is building them from the source, for any stream. */
  lemma {:induction false} Tower(h: seq<Bar>, a: Timeframe, b: Timeframe)
    requires Divides(a.Minutes(), b.Minutes())
    ensures BarsOf(BarsOf(h, a), b) == BarsOf(h, b)
  {
    if h != [] {
      var h0, x := h[..|h| - 1], h[|h| - 1];
      Tower(h0, a, b);
      AbsorbTower(BarsOf(h0, a), x, a, b);
    }
  }

  lemma AbsorbStarted(acc: seq<Bar>, x: Bar, a: Timeframe, b: Timeframe)
    requires BucketStart(BucketStart(x.time, a.Minutes()), b.Minutes()) == BucketStart(x.time, b.Minutes())
    ensures Absorb(acc, Start(x, a), b) == Absorb(acc, x, b)
  {
    hide BucketStart;
  }

  /** One source bar does to the `b` bars directly what it does through the `a` bars. */
  lemma AbsorbTower(acc: seq<Bar>, x: Bar, a: Timeframe, b: Timeframe)
    requires Divides(a.Minutes(), b.Minutes())
    ensures BarsOf(Absorb(acc, x, a), b) == Absorb(BarsOf(acc, b), x, b)
  {
    hide BucketStart, BarsOf, Merge, Start;
    BucketNests(x.time, a.Minutes(), b.Minutes());
    var n := |acc| - 1;
    if acc != [] && acc[n].time == BucketStart(x.time, a.Minutes()) {
      assert acc == acc[..n] + [acc[n]];
      ExtendedTower(acc[..n], acc[n], x, b);
    } else {
      BarsOfAppend(acc, Start(x, a), b);
      AbsorbStarted(BarsOf(acc, b), x, a, b);
    }
  }

  lemma ExtendedTower(acc: seq<Bar>, y: Bar, x: Bar, b: Timeframe)
    requires BucketStart(x.time, b.Minutes()) == BucketStart(y.time, b.Minutes())
    ensures BarsOf(acc + [Merge(y, x)], b) == Absorb(BarsOf(acc + [y], b), x, b)
  {
    hide BucketStart, BarsOf, Merge, Absorb;
    BarsOfAppend(acc, Merge(y, x), b);
    BarsOfAppend(acc, y, b);
    AbsorbMerged(BarsOf(acc, b), y, x, b);
  }

  /** Every timeframe of the table divides each later one, so the tower holds between any two. */
  lemma TimeframesNest(i: nat, j: nat)
    requires i <= j < |TIMEFRAMES|
    ensures Divides(TIMEFRAMES[i].Minutes(), TIMEFRAMES[j].Minutes())
  {
  }
}
