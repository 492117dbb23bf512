/** The minute bars a tick stream leaves, stated in quotes: a bar's prices are halves of bid plus ask. */
module TickBars {
  import opened Common
  import opened Bars
  import opened OhlcBuilder

  /** Twice the price a tick stands for. */
  function Quote(t: Tick): real { t.bid + t.ask }

  predicate SameMinute(s: Tick, t: Tick) { s.time / 60_000_000 == t.time / 60_000_000 }

  function Joined(gs: seq<seq<Tick>>): seq<Tick> {
    if gs == [] then [] else Joined(gs[..|gs| - 1]) + gs[|gs| - 1]
  }

  /** Ticks of one minute, at least one. */
  ghost predicate OneMinute(g: seq<Tick>) {
    g != [] && forall k | 0 <= k < |g| :: SameMinute(g[k], g[0])
  }

  /** `gs` cuts the stream wherever the minute changes, and nowhere else. */
  ghost predicate IsMinutes(ticks: seq<Tick>, gs: seq<seq<Tick>>) {
    && Joined(gs) == ticks
    && (forall i | 0 <= i < |gs| :: OneMinute(gs[i]))
    && (forall i, j | 0 <= i && j == i + 1 < |gs| :: !SameMinute(gs[i][0], gs[j][0]))
  }

  /** Opened by the minute's first tick, closed by its last, spanning its quotes and no more; each
      tick counts one plus its volume. */
  ghost predicate MinuteBar(bar: Bar, g: seq<Tick>) {
    && g != [] && bar.symbol == g[0].symbol && bar.timeframe == M1
    && bar.time == g[0].time / 60_000_000 * 60_000_000
    && 2.0 * bar.open == Quote(g[0]) && 2.0 * bar.close == Quote(g[|g| - 1])
    && (forall k | 0 <= k < |g| :: 2.0 * bar.low <= Quote(g[k]) <= 2.0 * bar.high)
    && (exists k :: 0 <= k < |g| && Quote(g[k]) == 2.0 * bar.high)
    && (exists k :: 0 <= k < |g| && Quote(g[k]) == 2.0 * bar.low)
    && bar.tickVolume == |g| + TotalVolume(g) && bar.realVolume.None?
  }

  function PointGroups(gs: seq<seq<Tick>>): seq<seq<Bar>> {
    seq(|gs|, i requires 0 <= i < |gs| => Points(gs[i]))
  }

  lemma {:induction false} JoinedPoints(gs: seq<seq<Tick>>)
    ensures Flatten(PointGroups(gs)) == Points(Joined(gs))
  {
    if gs != [] {
      var n := |gs| - 1;
      JoinedPoints(gs[..n]);
      assert PointGroups(gs)[..n] == PointGroups(gs[..n]);
      assert Points(Joined(gs[..n]) + gs[n]) == Points(Joined(gs[..n])) + Points(gs[n]);
    }
  }

  lemma MinuteBucket(t: int)
    ensures BucketStart(t, 1) == t / 60_000_000 * 60_000_000
  {
  }

  lemma SameBucket(s: Tick, t: Tick)
    ensures BucketStart(Point(s).time, 1) == BucketStart(Point(t).time, 1) <==> SameMinute(s, t)
  {
    MinuteBucket(s.time);
    MinuteBucket(t.time);
  }

  lemma OneMinuteIsRun(g: seq<Tick>)
    requires OneMinute(g)
    ensures IsRun(Points(g), 1)
  {
    hide BucketStart, Point, SameMinute;
    forall b | b in Points(g)
      ensures BucketStart(b.time, 1) == BucketStart(Points(g)[0].time, 1)
    {
      var k :| 0 <= k < |g| && Points(g)[k] == b;
      SameBucket(g[k], g[0]);
    }
  }

  lemma MinutesGroup(ticks: seq<Tick>, gs: seq<seq<Tick>>)
    requires IsMinutes(ticks, gs)
    ensures IsGrouping(Points(ticks), PointGroups(gs), 1)
  {
    hide BucketStart, Point, SameMinute, IsRun, OneMinute;
    JoinedPoints(gs);
    forall i | 0 <= i < |gs|
      ensures IsRun(PointGroups(gs)[i], 1)
    {
      OneMinuteIsRun(gs[i]);
    }
    forall i, j | 0 <= i && j == i + 1 < |gs|
      ensures PointGroups(gs)[i] != [] && PointGroups(gs)[j] != []
      ensures BucketStart(PointGroups(gs)[i][0].time, 1) != BucketStart(PointGroups(gs)[j][0].time, 1)
    {
      NotEmpty(gs[i]);
      NotEmpty(gs[j]);
      SameBucket(gs[i][0], gs[j][0]);
    }
  }

  lemma NotEmpty(g: seq<Tick>)
    requires OneMinute(g)
    ensures g != []
  {
  }

  lemma AggregateIsMinute(bar: Bar, g: seq<Tick>)
    requires IsAggregate(bar, Points(g), M1)
    ensures MinuteBar(bar, g)
  {
    hide BucketStart;
    var ps := Points(g);
    MinuteBucket(g[0].time);
    PointVolume(g);
    NoRealPoints(g);
    forall k | 0 <= k < |g|
      ensures 2.0 * bar.low <= Quote(g[k]) <= 2.0 * bar.high
    {
      assert ps[k] in ps;
    }
    var hi :| hi in ps && hi.high == bar.high;
    var h :| 0 <= h < |g| && ps[h] == hi;
    var lo :| lo in ps && lo.low == bar.low;
    var l :| 0 <= l < |g| && ps[l] == lo;
    assert Quote(g[h]) == 2.0 * bar.high && Quote(g[l]) == 2.0 * bar.low;
  }

  lemma NoRealPoints(g: seq<Tick>)
    ensures forall b | b in Points(g) :: b.realVolume.None?
  {
  }

  /** Whichever ticks a builder was fed, the minutes it holds, finished and open, are the minute bars
      of the stream, in order and none missing. */
  lemma TicksMakeMinutes(b: OHLCBuilder, gs: seq<seq<Tick>>)
    requires b.Valid() && IsMinutes(b.ticks, gs)
    ensures var bars := Held(b.cascaded, b.tickOpen);
            |bars| == |gs| && forall i | 0 <= i < |gs| :: MinuteBar(bars[i], gs[i])
  {
    hide BarsOf, IsAggregate, IsGrouping, IsMinutes, MinuteBar;
    var bars := BarsOf(Points(b.ticks), M1);
    MinutesGroup(b.ticks, gs);
    BarsMeetGrouping(Points(b.ticks), M1, PointGroups(gs));
    forall i | 0 <= i < |gs|
      ensures MinuteBar(bars[i], gs[i])
    {
      assert IsAggregate(bars[i], PointGroups(gs)[i], M1);
      AggregateIsMinute(bars[i], gs[i]);
    }
  }

  /** Every stream can be cut so. */
  lemma {:induction false} MinutesExist(ticks: seq<Tick>) returns (gs: seq<seq<Tick>>)
    ensures IsMinutes(ticks, gs)
  {
    if ticks == [] {
      gs := [];
    } else {
      var n := |ticks| - 1;
      var t := ticks[n];
      var before := MinutesExist(ticks[..n]);
      assert ticks == ticks[..n] + [t];
      hide SameMinute;
      if before != [] && SameMinute(t, before[|before| - 1][0]) {
        MinuteGoesOn(ticks[..n], before, t);
        gs := before[..|before| - 1] + [before[|before| - 1] + [t]];
      } else {
        SameMinuteWithItself(t);
        assert (before + [[t]])[..|before|] == before;
        gs := before + [[t]];
        if before != [] { SameMinuteSymmetric(t, before[|before| - 1][0]); }
      }
    }
  }

  lemma SameMinuteWithItself(t: Tick)
    ensures SameMinute(t, t)
  {
  }

  lemma SameMinuteSymmetric(s: Tick, t: Tick)
    ensures SameMinute(s, t) <==> SameMinute(t, s)
  {
  }

  lemma MinuteGoesOn(ticks: seq<Tick>, gs: seq<seq<Tick>>, t: Tick)
    requires IsMinutes(ticks, gs) && gs != [] && gs[|gs| - 1] != [] && SameMinute(t, gs[|gs| - 1][0])
    ensures IsMinutes(ticks + [t], gs[..|gs| - 1] + [gs[|gs| - 1] + [t]])
  {
    hide SameMinute;
    var n := |gs| - 1;
    var now := gs[..n] + [gs[n] + [t]];
    assert now[..n] == gs[..n];
    assert OneMinute(gs[n]);
    assert (gs[n] + [t])[0] == gs[n][0];
    assert OneMinute(now[n]);
  }

  function Swapped(ticks: seq<Tick>): seq<Tick> {
    seq(|ticks|, i requires 0 <= i < |ticks| => ticks[i].(bid := ticks[i].ask, ask := ticks[i].bid))
  }

  /** Bid and ask count alike: swapping them changes no bar at any timeframe. */
  lemma SwappingQuotes(ticks: seq<Tick>, tf: Timeframe)
    ensures BarsOf(Points(Swapped(ticks)), tf) == BarsOf(Points(ticks), tf)
  {
    forall i | 0 <= i < |ticks|
      ensures Point(Swapped(ticks)[i]) == Point(ticks[i])
    {
      assert Mid(Swapped(ticks)[i]) == Mid(ticks[i]);
    }
    assert Points(Swapped(ticks)) == Points(ticks);
  }
}
