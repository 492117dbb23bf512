/** The incremental multi-timeframe builder: M1 bars in, bars of every timeframe out, with a
    tick buffer that cascades finished minutes. */
module OhlcBuilder {
  import opened Common
  import opened Bars

  datatype Tick = Tick(symbol: string, time: int, bid: real, ask: real, volume: nat)

  datatype OpenBar = OpenBar(
    symbol: string, timeframe: Timeframe, time: int,
    open: real, high: real, low: real, close: real,
    tickVolume: nat, realVolume: nat, hasRealVolume: bool)

  datatype BuilderError = WrongSymbol | UnsupportedSource

  function Finalize(ob: OpenBar): Bar {
    Bar(ob.symbol, ob.timeframe, ob.time, ob.open, ob.high, ob.low, ob.close, ob.tickVolume,
        if ob.hasRealVolume then Some(ob.realVolume) else None)
  }

  function Mid(t: Tick): real { (t.bid + t.ask) / 2.0 }

  /** A tick as a one-price bar. */
  function Point(t: Tick): Bar {
    Bar(t.symbol, M1, t.time, Mid(t), Mid(t), Mid(t), Mid(t), 1 + t.volume, None)
  }

  function Points(ticks: seq<Tick>): seq<Bar> {
    seq(|ticks|, i requires 0 <= i < |ticks| => Point(ticks[i]))
  }

  function TotalVolume(ticks: seq<Tick>): nat {
    if ticks == [] then 0 else TotalVolume(ticks[..|ticks| - 1]) + ticks[|ticks| - 1].volume
  }

  lemma {:induction false} PointVolume(ticks: seq<Tick>)
    ensures TickSum(Points(ticks)) == |ticks| + TotalVolume(ticks)
  {
    if ticks != [] {
      PointVolume(ticks[..|ticks| - 1]);
      assert Points(ticks)[..|ticks| - 1] == Points(ticks[..|ticks| - 1]);
    }
  }

  /** What the builder holds for a stream: every bar but the last is closed, the last is open. */
  ghost predicate Holds(bars: seq<Bar>, closed: seq<Bar>, open: Option<OpenBar>) {
    && bars == closed + (if open.Some? then [Finalize(open.value)] else [])
    && (open.None? ==> closed == [])
    && (open.Some? && !open.value.hasRealVolume ==> open.value.realVolume == 0)
  }

  /** Bars of timeframe `tf` that `b` closes when it follows `h`. */
  function Rolled(h: seq<Bar>, b: Bar, tf: Timeframe): seq<Bar> {
    var bars := BarsOf(h, tf);
    if bars != [] && bars[|bars| - 1].time != BucketStart(b.time, tf.Minutes()) then [bars[|bars| - 1]] else []
  }

  /** The closings of the first `n` timeframes, shortest first; the source itself is not reported. */
  function RolledAll(h: seq<Bar>, b: Bar, n: nat): seq<Bar>
    requires n <= |TIMEFRAMES|
  {
    if n == 0 then []
    else RolledAll(h, b, n - 1) + if TIMEFRAMES[n - 1] == M1 then [] else Rolled(h, b, TIMEFRAMES[n - 1])
  }

  lemma RolledAllStep(h: seq<Bar>, b: Bar, n: nat)
    requires n < |TIMEFRAMES|
    ensures RolledAll(h, b, 0) == []
    ensures RolledAll(h, b, n + 1) ==
            RolledAll(h, b, n) + if TIMEFRAMES[n] == M1 then [] else Rolled(h, b, TIMEFRAMES[n])
  {
  }

  /** Shorter timeframes first, all of them below `m` minutes. */
  ghost predicate Ascends(out: seq<Bar>, m: int) {
    && (forall i | 0 <= i < |out| :: out[i].timeframe.Minutes() < m)
    && (forall i, j | 0 <= i < j < |out| :: out[i].timeframe.Minutes() < out[j].timeframe.Minutes())
  }

  lemma AscendsMore(out: seq<Bar>, more: seq<Bar>, m: int, n: int)
    requires Ascends(out, m) && |more| <= 1 && m < n && forall i | 0 <= i < |more| :: more[i].timeframe.Minutes() == m
    ensures Ascends(out + more, n)
  {
  }

  /** The reported closings come one at most for each timeframe above the source, shortest first. */
  lemma {:induction false} ClosingsInOrder(h: seq<Bar>, b: Bar, n: nat)
    requires n <= |TIMEFRAMES|
    ensures Ascends(RolledAll(h, b, n), if n < |TIMEFRAMES| then TIMEFRAMES[n].Minutes() else 10081)
  {
    RolledAllStep(h, b, 0);
    if n > 0 {
      hide Rolled, RolledAll, Ascends;
      ClosingsInOrder(h, b, n - 1);
      RolledAllStep(h, b, n - 1);
      RolledAtMostOne(h, b, TIMEFRAMES[n - 1]);
      var more := if TIMEFRAMES[n - 1] == M1 then [] else Rolled(h, b, TIMEFRAMES[n - 1]);
      AscendsMore(RolledAll(h, b, n - 1), more, TIMEFRAMES[n - 1].Minutes(),
                  if n < |TIMEFRAMES| then TIMEFRAMES[n].Minutes() else 10081);
    }
  }

  lemma RolledAtMostOne(h: seq<Bar>, b: Bar, tf: Timeframe)
    ensures |Rolled(h, b, tf)| <= 1 && forall i | 0 <= i < |Rolled(h, b, tf)| :: Rolled(h, b, tf)[i].timeframe == tf
  {
    BarsKeepTimeframe(h, tf);
  }

  lemma {:induction false} BarsKeepTimeframe(h: seq<Bar>, tf: Timeframe)
    ensures forall i | 0 <= i < |BarsOf(h, tf)| :: BarsOf(h, tf)[i].timeframe == tf
  {
    hide BucketStart;
    if h != [] { BarsKeepTimeframe(h[..|h| - 1], tf); }
  }

  lemma TimeframesDistinct(i: nat, j: nat)
    requires i < |TIMEFRAMES| && j < |TIMEFRAMES| && i != j
    ensures TIMEFRAMES[i] != TIMEFRAMES[j]
  {
  }

  function ClosedOf(closed: map<Timeframe, seq<Bar>>, tf: Timeframe): seq<Bar> {
    if tf in closed then closed[tf] else []
  }

  function OpenOf(open: map<Timeframe, OpenBar>, tf: Timeframe): Option<OpenBar> {
    if tf in open then Some(open[tf]) else None
  }

  /** One timeframe is what the source stream `h` builds; M1 is the stream itself. */
  ghost predicate Built(h: seq<Bar>, tf: Timeframe, closed: map<Timeframe, seq<Bar>>, open: map<Timeframe, OpenBar>) {
    if tf == M1 then ClosedOf(closed, M1) == h
    else Holds(BarsOf(h, tf), ClosedOf(closed, tf), OpenOf(open, tf))
  }

  /** Rolling: the bar in progress, if any, is closed and `ob` starts the next bucket. */
  lemma RollHolds(h: seq<Bar>, bar: Bar, tf: Timeframe, closed: seq<Bar>, open: Option<OpenBar>, ob: OpenBar)
    requires Holds(BarsOf(h, tf), closed, open) && Finalize(ob) == Start(bar, tf)
    requires !ob.hasRealVolume ==> ob.realVolume == 0
    requires open.Some? ==> open.value.time != BucketStart(bar.time, tf.Minutes())
    ensures Rolled(h, bar, tf) == if open.Some? then [Finalize(open.value)] else []
    ensures Holds(BarsOf(h + [bar], tf), closed + Rolled(h, bar, tf), Some(ob))
  {
    hide BucketStart, BarsOf;
    BarsOfAppend(h, bar, tf);
  }

  /** Extending: the bar in progress absorbs one more source bar. */
  lemma ExtendHolds(h: seq<Bar>, bar: Bar, tf: Timeframe, closed: seq<Bar>, open: OpenBar, ob: OpenBar)
    requires Holds(BarsOf(h, tf), closed, Some(open)) && Finalize(ob) == Merge(Finalize(open), bar)
    requires !ob.hasRealVolume ==> ob.realVolume == 0
    requires open.time == BucketStart(bar.time, tf.Minutes())
    ensures Rolled(h, bar, tf) == []
    ensures Holds(BarsOf(h + [bar], tf), closed, Some(ob))
  {
    hide BucketStart, BarsOf, Merge;
    BarsOfAppend(h, bar, tf);
    assert BarsOf(h, tf)[..|closed|] == closed;
  }

  lemma HoldsReal(bars: seq<Bar>, closed: seq<Bar>, open: OpenBar)
    requires Holds(bars, closed, Some(open))
    ensures !open.hasRealVolume ==> open.realVolume == 0
  {
  }

  ghost predicate BuiltUpTo(h: seq<Bar>, bar: Bar, n: nat, closed: map<Timeframe, seq<Bar>>,
                            open: map<Timeframe, OpenBar>) {
    forall k: nat | k < |TIMEFRAMES| :: Built(if k < n then h + [bar] else h, TIMEFRAMES[k], closed, open)
  }

  lemma BuiltStarts(h: seq<Bar>, bar: Bar, closed: map<Timeframe, seq<Bar>>, open: map<Timeframe, OpenBar>)
    requires forall tf :: Built(h, tf, closed, open)
    ensures BuiltUpTo(h, bar, 0, closed, open)
  {
  }

  lemma BuiltStep(h: seq<Bar>, bar: Bar, n: nat, closed: map<Timeframe, seq<Bar>>, open: map<Timeframe, OpenBar>,
                  closed': map<Timeframe, seq<Bar>>, open': map<Timeframe, OpenBar>)
    requires n < |TIMEFRAMES| && BuiltUpTo(h, bar, n, closed, open)
    requires Built(h + [bar], TIMEFRAMES[n], closed', open')
    requires forall tf | tf != TIMEFRAMES[n] ::
      ClosedOf(closed', tf) == ClosedOf(closed, tf) && OpenOf(open', tf) == OpenOf(open, tf)
    ensures BuiltUpTo(h, bar, n + 1, closed', open')
  {
    hide ClosedOf, OpenOf, Holds, TIMEFRAMES;
    forall k: nat | k < |TIMEFRAMES|
      ensures Built(if k < n + 1 then h + [bar] else h, TIMEFRAMES[k], closed', open')
    {
      assert Built(if k < n then h + [bar] else h, TIMEFRAMES[k], closed, open);
      if k != n { TimeframesDistinct(k, n); }
    }
  }

  lemma BuiltAll(h: seq<Bar>, bar: Bar, closed: map<Timeframe, seq<Bar>>, open: map<Timeframe, OpenBar>)
    requires BuiltUpTo(h, bar, |TIMEFRAMES|, closed, open)
    ensures forall tf :: Built(h + [bar], tf, closed, open)
  {
    hide Built;
    forall tf
      ensures Built(h + [bar], tf, closed, open)
    {
      var k: nat := match tf case M1 => 0 case M5 => 1 case M15 => 2 case M30 => 3
                             case H1 => 4 case H4 => 5 case D1 => 6 case W1 => 7;
      assert TIMEFRAMES[k] == tf;
    }
  }

  class OHLCBuilder {
    const symbol: string
    const sourceTf: string

    var open: map<Timeframe, OpenBar>
    var closed: map<Timeframe, seq<Bar>>
    var tickOpen: Option<OpenBar>

    /** Source bars ingested, ticks ingested, and the minutes the ticks have finished. */
    ghost var history: seq<Bar>
    ghost var ticks: seq<Tick>
    ghost var cascaded: seq<Bar>

    ghost predicate Valid()
      reads this
    {
      && (forall tf :: Built(history, tf, closed, open))
      && Holds(BarsOf(Points(ticks), M1), cascaded, tickOpen)
      && (tickOpen.Some? ==> tickOpen.value.symbol == symbol)
    }

    constructor (symbol: string, sourceTf: string)
      ensures Valid() && this.symbol == symbol && this.sourceTf == sourceTf
      ensures history == [] && ticks == [] && cascaded == [] && tickOpen == None
    {
      this.symbol, this.sourceTf := symbol, sourceTf;
      open, closed, tickOpen := map[], map[], None;
      history, ticks, cascaded := [], [], [];
    }

    method Reset()
      modifies this
      ensures Valid() && history == [] && ticks == [] && cascaded == [] && tickOpen == None
    {
      open, closed, tickOpen := map[], map[], None;
      history, ticks, cascaded := [], [], [];
    }

    /** Close the bar in progress, if any, and start the bucket of `bar`. */
    method Roll(bar: Bar, tf: Timeframe, bucket: int) returns (out: seq<Bar>)
      requires bar.symbol == symbol && tf != M1 && Built(history, tf, closed, open)
      requires bucket == BucketStart(bar.time, tf.Minutes()) && (tf in open ==> open[tf].time != bucket)
      modifies `open, `closed
      ensures Built(history + [bar], tf, closed, open)
      ensures out == Rolled(history, bar, tf)
      ensures forall other | other != tf ::
                && ClosedOf(closed, other) == ClosedOf(old(closed), other)
                && OpenOf(open, other) == OpenOf(old(open), other)
    {
      hide BucketStart, BarsOf, Rolled, Holds;
      out := [];
      ghost var open0, closed0 := OpenOf(open, tf), ClosedOf(closed, tf);
      if tf in open {
        var closedBar := Finalize(open[tf]);
        closed := closed[tf := ClosedOf(closed, tf) + [closedBar]];
        out := [closedBar];
      }
      var ob := OpenBar(symbol, tf, bucket, bar.open, bar.high, bar.low, bar.close, bar.tickVolume, 0, false);
      if bar.realVolume.Some? { ob := ob.(realVolume := bar.realVolume.value, hasRealVolume := true); }
      open := open[tf := ob];
      RollHolds(history, bar, tf, closed0, open0, ob);
      assert ClosedOf(closed, tf) == closed0 + out;
    }

    /** The bar in progress absorbs `bar`. */
    method Extend(bar: Bar, tf: Timeframe)
      requires tf != M1 && Built(history, tf, closed, open)
      requires tf in open && open[tf].time == BucketStart(bar.time, tf.Minutes())
      modifies `open
      ensures Built(history + [bar], tf, closed, open) && Rolled(history, bar, tf) == []
      ensures forall other | other != tf :: OpenOf(open, other) == OpenOf(old(open), other)
    {
      hide BucketStart, BarsOf, Rolled, Holds;
      var ob := open[tf];
      ob := ob.(high := Max(ob.high, bar.high), low := Min(ob.low, bar.low), close := bar.close,
                tickVolume := ob.tickVolume + bar.tickVolume);
      if bar.realVolume.Some? {
        ob := ob.(realVolume := ob.realVolume + bar.realVolume.value, hasRealVolume := true);
      }
      HoldsReal(BarsOf(history, tf), ClosedOf(closed, tf), open[tf]);
      ExtendHolds(history, bar, tf, ClosedOf(closed, tf), open[tf], ob);
      open := open[tf := ob];
    }

    /** One timeframe takes one source bar: roll, or extend the bar in progress. */
    method Ingest(bar: Bar, tf: Timeframe) returns (out: seq<Bar>)
      requires bar.symbol == symbol && tf != M1
      requires Built(history, tf, closed, open)
      modifies `open, `closed
      ensures Built(history + [bar], tf, closed, open)
      ensures out == Rolled(history, bar, tf)
      ensures forall other | other != tf ::
                && ClosedOf(closed, other) == ClosedOf(old(closed), other)
                && OpenOf(open, other) == OpenOf(old(open), other)
    {
      hide BucketStart, Built, Rolled, ClosedOf, OpenOf;
      var bucket := BucketStart(bar.time, tf.Minutes());
      if tf !in open || open[tf].time != bucket {
        out := Roll(bar, tf, bucket);
      } else {
        Extend(bar, tf);
        out := [];
      }
    }

    /** The `i`-th timeframe of the table; the source timeframe keeps the bar as it is. */
    method IngestInto(bar: Bar, i: nat) returns (out: seq<Bar>)
      requires bar.symbol == symbol && i < |TIMEFRAMES| && BuiltUpTo(history, bar, i, closed, open)
      modifies `open, `closed
      ensures BuiltUpTo(history, bar, i + 1, closed, open)
      ensures out == if TIMEFRAMES[i] == M1 then [] else Rolled(history, bar, TIMEFRAMES[i])
    {
      hide BuiltUpTo, Built, Rolled;
      var tf := TIMEFRAMES[i];
      ghost var closed0, open0 := closed, open;
      BuiltBefore(history, bar, i, closed, open);
      if tf == M1 {
        SourceBuilt(history, bar, closed, open);
        closed := closed[M1 := ClosedOf(closed, M1) + [bar]];
        out := [];
      } else {
        out := Ingest(bar, tf);
      }
      BuiltStep(history, bar, i, closed0, open0, closed, open);
    }

    method OnBar(bar: Bar) returns (r: Result<seq<Bar>, BuilderError>)
      requires Valid()
      modifies `open, `closed, `history
      ensures Valid()
      ensures r == Err(WrongSymbol) <==> bar.symbol != symbol
      ensures r == Err(UnsupportedSource) <==> bar.symbol == symbol && sourceTf != "M1"
      ensures r.Err? ==> history == old(history) && open == old(open) && closed == old(closed)
      ensures r.Ok? ==> history == old(history) + [bar] && r.value == RolledAll(old(history), bar, |TIMEFRAMES|)
    {
      hide BuiltUpTo, Built, Rolled, RolledAll, Holds, BarsOf;
      if bar.symbol != symbol { return Err(WrongSymbol); }
      if sourceTf != "M1" { return Err(UnsupportedSource); }
      BuiltStarts(history, bar, closed, open);
      RolledAllStep(history, bar, 0);
      var out := [];
      for i := 0 to |TIMEFRAMES|
        invariant history == old(history) && out == RolledAll(history, bar, i)
        invariant BuiltUpTo(history, bar, i, closed, open)
      {
        RolledAllStep(history, bar, i);
        var rolled := IngestInto(bar, i);
        out := out + rolled;
      }
      BuiltAll(history, bar, closed, open);
      history := history + [bar];
      return Ok(out);
    }

    /** A tick joins the open minute or, after cascading it, starts the next one.  An error
        raised by the cascade leaves the tick unrecorded. */
    method OnTick(tick: Tick) returns (r: Result<seq<Bar>, BuilderError>)
      requires Valid()
      modifies this
      ensures Valid()
      ensures r == Err(WrongSymbol) <==> tick.symbol != symbol
      ensures r == Err(UnsupportedSource) <==>
                tick.symbol == symbol && sourceTf != "M1" && Rolled(Points(old(ticks)), Point(tick), M1) != []
      ensures r.Err? ==> history == old(history) && ticks == old(ticks) && cascaded == old(cascaded)
                         && open == old(open) && closed == old(closed) && tickOpen == old(tickOpen)
      ensures r.Ok? ==> var done := Rolled(Points(old(ticks)), Point(tick), M1);
                && ticks == old(ticks) + [tick]
                && cascaded == old(cascaded) + done && history == old(history) + done
                && r.value == if done == [] then [] else RolledAll(old(history), done[0], |TIMEFRAMES|)
    {
      hide Built, RolledAll, BarsOf, Rolled, BucketStart, Holds;
      if tick.symbol != symbol { return Err(WrongSymbol); }
      PointsAppend(ticks, tick);
      var mid := (tick.bid + tick.ask) / 2.0;
      var barTime := BucketStart(tick.time, M1.Minutes());
      var out := [];
      if tickOpen.None? || tickOpen.value.time != barTime {
        var ob := OpenBar(symbol, M1, barTime, mid, mid, mid, mid, 1 + tick.volume, 0, false);
        RollHolds(Points(ticks), Point(tick), M1, cascaded, tickOpen, ob);
        if tickOpen.Some? {
          var finished := Finalize(tickOpen.value);
          var closings := OnBar(finished);
          if closings.Err? { return Err(closings.error); }
          out := closings.value;
          cascaded := cascaded + [finished];
        }
        assert cascaded == old(cascaded) + Rolled(Points(ticks), Point(tick), M1);
        tickOpen := Some(ob);
      } else {
        var ob := tickOpen.value;
        ob := ob.(high := Max(ob.high, mid), low := Min(ob.low, mid), close := mid,
                  tickVolume := ob.tickVolume + (1 + tick.volume));
        HoldsReal(BarsOf(Points(ticks), M1), cascaded, tickOpen.value);
        ExtendHolds(Points(ticks), Point(tick), M1, cascaded, tickOpen.value, ob);
        tickOpen := Some(ob);
      }
      ticks := ticks + [tick];
      return Ok(out);
    }
  }

  lemma PointsAppend(ticks: seq<Tick>, tick: Tick)
    ensures Points(ticks + [tick]) == Points(ticks) + [Point(tick)]
  {
  }

  function Held(closed: seq<Bar>, open: Option<OpenBar>): seq<Bar> {
    closed + if open.Some? then [Finalize(open.value)] else []
  }

  /** Whatever was ingested, in whatever order of bars and ticks: each timeframe holds one bar
      per maximal run of equal buckets, with no tick lost. */
  lemma BuilderMeetsGrouping(b: OHLCBuilder, tf: Timeframe, groups: seq<seq<Bar>>)
    requires b.Valid() && tf != M1 && IsGrouping(b.history, groups, tf.Minutes())
    ensures var bars := Held(ClosedOf(b.closed, tf), OpenOf(b.open, tf));
            Aggregated(bars, groups, tf) && TickSum(bars) == TickSum(b.history)
  {
    hide BarsOf, IsGrouping, Aggregated;
    assert Built(b.history, tf, b.closed, b.open);
    BarsMeetGrouping(b.history, tf, groups);
    TicksConserved(b.history, tf);
  }

  /** The bars a builder holds at one timeframe aggregate to the bars it holds at any later one. */
  lemma BuilderTower(b: OHLCBuilder, i: nat, j: nat)
    requires b.Valid() && 0 < i <= j < |TIMEFRAMES|
    ensures var x, y := TIMEFRAMES[i], TIMEFRAMES[j];
            BarsOf(Held(ClosedOf(b.closed, x), OpenOf(b.open, x)), y) == Held(ClosedOf(b.closed, y), OpenOf(b.open, y))
  {
    hide BarsOf;
    TimeframesDistinct(i, 0);
    TimeframesDistinct(j, 0);
    assert Built(b.history, TIMEFRAMES[i], b.closed, b.open) && Built(b.history, TIMEFRAMES[j], b.closed, b.open);
    TimeframesNest(i, j);
    Tower(b.history, TIMEFRAMES[i], TIMEFRAMES[j]);
  }

  /** A builder fed only with ticks: finished minutes are the M1 list, each exactly once and in
      order; higher timeframes are built from them; flushing the open minute would give the
      bars of the raw ticks; every tick is counted. */
  lemma TickStream(b: OHLCBuilder, tf: Timeframe)
    requires b.Valid() && b.history == b.cascaded
    ensures var m1 := ClosedOf(b.closed, M1);
            && Held(m1, b.tickOpen) == BarsOf(Points(b.ticks), M1)
            && BarsOf(Held(m1, b.tickOpen), tf) == BarsOf(Points(b.ticks), tf)
            && (tf != M1 ==> Held(ClosedOf(b.closed, tf), OpenOf(b.open, tf)) == BarsOf(m1, tf))
            && TickSum(Held(m1, b.tickOpen)) == |b.ticks| + TotalVolume(b.ticks)
  {
    hide BarsOf;
    assert Built(b.history, M1, b.closed, b.open) && Built(b.history, tf, b.closed, b.open);
    assert Divides(M1.Minutes(), tf.Minutes());
    Tower(Points(b.ticks), M1, tf);
    TicksConserved(Points(b.ticks), M1);
    PointVolume(b.ticks);
  }

  lemma SourceBuilt(h: seq<Bar>, bar: Bar, closed: map<Timeframe, seq<Bar>>, open: map<Timeframe, OpenBar>)
    requires Built(h, M1, closed, open)
    ensures Built(h + [bar], M1, closed[M1 := ClosedOf(closed, M1) + [bar]], open)
  {
  }

  lemma BuiltBefore(h: seq<Bar>, bar: Bar, n: nat, closed: map<Timeframe, seq<Bar>>, open: map<Timeframe, OpenBar>)
    requires n < |TIMEFRAMES| && BuiltUpTo(h, bar, n, closed, open)
    ensures Built(h, TIMEFRAMES[n], closed, open)
  {
  }
}
