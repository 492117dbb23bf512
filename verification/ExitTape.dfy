/** The exit tape: what one bar's record keeps of the feature bundle, the bundle the
    offline replay rebuilds from it, and the proof that the stop, runner and weekend
    rules cannot tell the two apart. */
module ExitTape {
  import opened Common
  import opened ExitModel

  datatype TapeRecord = TapeRecord(
    time: int, high: real, low: real, close: real, atr: real,
    swingLow: Option<real>, swingHigh: Option<real>,
    lastBos: Option<EventType>, lastChoch: Option<EventType>, offset: real)

  /** Price of the most recent swing of one kind. */
  function LastSwing(swings: seq<Swing>, isLow: bool): Option<real> {
    if swings == [] then None
    else
      var n := |swings| - 1;
      if swings[n].isLow == isLow then Some(swings[n].price) else LastSwing(swings[..n], isLow)
  }

  /** The latest swing of one kind, or none. */
  lemma {:induction false} LastSwingIs(swings: seq<Swing>, isLow: bool)
    ensures LastSwing(swings, isLow).None? <==> forall i | 0 <= i < |swings| :: swings[i].isLow != isLow
    ensures LastSwing(swings, isLow).Some? ==>
              exists i :: 0 <= i < |swings| && swings[i] == Swing(isLow, LastSwing(swings, isLow).value)
                          && forall j | i < j < |swings| :: swings[j].isLow != isLow
  {
    if swings != [] {
      var n := |swings| - 1;
      LastSwingIs(swings[..n], isLow);
      if swings[n].isLow == isLow {
        assert swings[n] == Swing(isLow, LastSwing(swings, isLow).value);
      }
    }
  }

  function AtrSafe(b: Bundle): real { if b.atr.Some? then b.atr.value else 0.0 }

  function BundleSwing(b: Bundle, isLow: bool): Option<real> {
    if b.structure.Some? then LastSwing(b.structure.value.swings, isLow) else None
  }

  function RecordOf(f: Feed): TapeRecord {
    var s := f.bundle.structure;
    TapeRecord(f.bar.time, f.bar.high, f.bar.low, f.bar.close, AtrSafe(f.bundle),
               BundleSwing(f.bundle, true), BundleSwing(f.bundle, false),
               if s.Some? then s.value.lastBos else None,
               if s.Some? then s.value.lastChoch else None,
               f.bundle.offset)
  }

  /** One backward scan for both swings, stopping when both are known. */
  method TapeBarRecord(bar: Bar, bundle: Bundle) returns (r: TapeRecord)
    ensures r == RecordOf(Feed(bar, bundle))
  {
    var low, high: Option<real> := None, None;
    if bundle.structure.Some? {
      var swings := bundle.structure.value.swings;
      var i := |swings|;
      assert swings[..i] == swings;
      while i > 0 && !(low.Some? && high.Some?)
        invariant 0 <= i <= |swings|
        invariant LastSwing(swings, true) == if low.Some? then low else LastSwing(swings[..i], true)
        invariant LastSwing(swings, false) == if high.Some? then high else LastSwing(swings[..i], false)
      {
        i := i - 1;
        assert swings[..i + 1][..i] == swings[..i];
        if low.None? && swings[i].isLow { low := Some(swings[i].price); }
        if high.None? && !swings[i].isLow { high := Some(swings[i].price); }
      }
    }
    var s := bundle.structure;
    r := TapeRecord(bar.time, bar.high, bar.low, bar.close,
                    if bundle.atr.Some? && bundle.atr.value != 0.0 then bundle.atr.value else 0.0,
                    low, high,
                    if s.Some? then s.value.lastBos else None,
                    if s.Some? then s.value.lastChoch else None,
                    bundle.offset);
  }

  /** The bundle the replay rebuilds: at most one swing of each kind, low first. */
  function Rebuild(r: TapeRecord): Bundle {
    var lows := if r.swingLow.Some? then [Swing(true, r.swingLow.value)] else [];
    var highs := if r.swingHigh.Some? then [Swing(false, r.swingHigh.value)] else [];
    Bundle(Some(r.atr), Some(Structure(lows + highs, r.lastBos, r.lastChoch)), r.offset, [])
  }

  function FeedOf(r: TapeRecord): Feed {
    Feed(Bar(r.time, r.high, r.low, r.close), Rebuild(r))
  }

  /** The rules see nothing of a bundle beyond what the tape keeps. */
  ghost predicate Projectable(rules: ExitRules) {
    && (forall side: Side, sl: real, entry: real, f: Feed, peak: real, be: bool ::
          rules.trail(side, sl, entry, f.bundle, peak, be)
          == rules.trail(side, sl, entry, Rebuild(RecordOf(f)), peak, be))
    && (forall side: Side, tp3: real, close: real, f: Feed ::
          rules.closeRunner(side, tp3, close, f.bundle)
          == rules.closeRunner(side, tp3, close, Rebuild(RecordOf(f))))
  }

  // ---------------------------------------------------------------- the managers

  /** Stop-manager knobs; `round` is the rounding to the symbol's digits. */
  datatype StopKnobs = StopKnobs(
    trailBufferAtr: real, chandelierAtr: real, beBonusPoints: real, point: real, round: real -> real)

  function BreakEven(k: StopKnobs, side: Side, entry: real, beArmed: bool): Option<real> {
    if beArmed then Some(entry + side.Sign() * k.beBonusPoints * k.point) else None
  }

  function BehindSwing(k: StopKnobs, side: Side, swing: Option<real>, atr: real): Option<real> {
    if swing.Some? && atr > 0.0 then Some(swing.value - side.Sign() * k.trailBufferAtr * atr) else None
  }

  function Chandelier(k: StopKnobs, side: Side, peak: real, atr: real): Option<real> {
    if atr > 0.0 && k.chandelierAtr > 0.0 then Some(peak - side.Sign() * k.chandelierAtr * atr) else None
  }

  function Tighter(side: Side, sl: real, anchor: Option<real>): real {
    if anchor.Some? then BetterPrice(side, sl, anchor.value) else sl
  }

  /** The tightest of the current stop, the break-even floor, the structure stop and the chandelier. */
  function TightestStop(k: StopKnobs, side: Side, sl: real, entry: real, atr: real, swing: Option<real>,
                        peak: real, beArmed: bool): real
  {
    Tighter(side, Tighter(side, Tighter(side, sl, BreakEven(k, side, entry, beArmed)),
                          BehindSwing(k, side, swing, atr)),
            Chandelier(k, side, peak, atr))
  }

  function Trail(k: StopKnobs, side: Side, sl: real, entry: real, b: Bundle, peak: real, beArmed: bool): Option<real> {
    Some(k.round(TightestStop(k, side, sl, entry, AtrSafe(b), BundleSwing(b, side.Long?), peak, beArmed)))
  }

  /** A runner is closed when the latest structure event runs against it short of its target. */
  function ShouldCloseRunner(side: Side, tp3: real, close: real, b: Bundle): bool {
    b.structure.Some? &&
    var last := if b.structure.value.lastBos.Some? then b.structure.value.lastBos else b.structure.value.lastChoch;
    last.Some? &&
    match side
    case Long => (last.value.BosDown? || last.value.ChochDown?) && close < tp3
    case Short => (last.value.BosUp? || last.value.ChochUp?) && close > tp3
  }

  function ManagerRules(k: StopKnobs, flatten: (int, real) -> bool): ExitRules {
    ExitRules(
      (side, sl, entry, b, peak, be) => Trail(k, side, sl, entry, b, peak, be),
      (side, tp3, close, b) => ShouldCloseRunner(side, tp3, close, b),
      flatten)
  }

  lemma RebuildKeepsSwings(f: Feed, isLow: bool)
    ensures BundleSwing(Rebuild(RecordOf(f)), isLow) == BundleSwing(f.bundle, isLow)
  {
    var r := RecordOf(f);
    var lows := if r.swingLow.Some? then [Swing(true, r.swingLow.value)] else [];
    var swings := Rebuild(r).structure.value.swings;
    assert LastSwing(lows, isLow) == if isLow then r.swingLow else None;
    if r.swingHigh.Some? {
      assert swings[..|swings| - 1] == lows;
    } else {
      assert swings == lows;
    }
  }

  lemma TrailOnTape(k: StopKnobs, side: Side, sl: real, entry: real, f: Feed, peak: real, be: bool)
    ensures Trail(k, side, sl, entry, f.bundle, peak, be) == Trail(k, side, sl, entry, Rebuild(RecordOf(f)), peak, be)
  {
    RebuildKeepsSwings(f, side.Long?);
    assert AtrSafe(Rebuild(RecordOf(f))) == AtrSafe(f.bundle);
  }

  lemma RunnerOnTape(side: Side, tp3: real, close: real, f: Feed)
    ensures ShouldCloseRunner(side, tp3, close, f.bundle) == ShouldCloseRunner(side, tp3, close, Rebuild(RecordOf(f)))
  {
  }

  /** The tape loses nothing the real managers read. */
  lemma ManagersAreProjectable(k: StopKnobs, flatten: (int, real) -> bool)
    ensures Projectable(ManagerRules(k, flatten))
  {
    var rules := ManagerRules(k, flatten);
    forall side: Side, sl: real, entry: real, f: Feed, peak: real, be: bool
      ensures rules.trail(side, sl, entry, f.bundle, peak, be)
              == rules.trail(side, sl, entry, Rebuild(RecordOf(f)), peak, be)
    {
      TrailOnTape(k, side, sl, entry, f, peak, be);
    }
    forall side: Side, tp3: real, close: real, f: Feed
      ensures rules.closeRunner(side, tp3, close, f.bundle)
              == rules.closeRunner(side, tp3, close, Rebuild(RecordOf(f)))
    {
      RunnerOnTape(side, tp3, close, f);
    }
  }

  function InForce(anchor: Option<real>): set<real> { if anchor.Some? then {anchor.value} else {} }

  /** The anchors in force: the current stop, the break-even floor once armed, the structure stop
      behind the latest protective swing, and the chandelier below the peak. */
  function Anchors(k: StopKnobs, side: Side, sl: real, entry: real, b: Bundle, peak: real, beArmed: bool): set<real> {
    {sl} + InForce(BreakEven(k, side, entry, beArmed))
    + InForce(BehindSwing(k, side, BundleSwing(b, side.Long?), AtrSafe(b)))
    + InForce(Chandelier(k, side, peak, AtrSafe(b)))
  }

  ghost predicate IsTightest(side: Side, anchors: set<real>, q: real) {
    q in anchors && forall a | a in anchors :: side.NoWorse(q, a)
  }

  lemma AloneIsTightest(side: Side, sl: real)
    ensures IsTightest(side, {sl}, sl)
  {
  }

  lemma TighterIsTightest(side: Side, anchors: set<real>, sl: real, anchor: Option<real>)
    requires IsTightest(side, anchors, sl)
    ensures IsTightest(side, anchors + InForce(anchor), Tighter(side, sl, anchor))
  {
  }

  /** Where the anchors lie: a long stop at break-even covers the bonus above the entry, trails a
      buffer below the latest swing low and hangs a multiple of ATR below the peak; a short stop is
      its mirror image, above the latest swing high. */
  lemma AnchorsAre(k: StopKnobs, side: Side, sl: real, entry: real, b: Bundle, peak: real, beArmed: bool, a: real)
    ensures var atr := if b.atr.Some? then b.atr.value else 0.0;
            var swing := if b.structure.Some? then LastSwing(b.structure.value.swings, side.Long?) else None;
            a in Anchors(k, side, sl, entry, b, peak, beArmed) <==>
              || a == sl
              || (beArmed && (if side.Long? then a - entry else entry - a) == k.beBonusPoints * k.point)
              || (swing.Some? && atr > 0.0
                  && (if side.Long? then swing.value - a else a - swing.value) == k.trailBufferAtr * atr)
              || (atr > 0.0 && k.chandelierAtr > 0.0
                  && (if side.Long? then peak - a else a - peak) == k.chandelierAtr * atr)
  {
    SignedProduct(side, k.beBonusPoints, k.point);
    SignedProduct(side, k.trailBufferAtr, AtrSafe(b));
    SignedProduct(side, k.chandelierAtr, AtrSafe(b));
    hide LastSwing;
  }

  lemma SignedProduct(side: Side, x: real, y: real)
    ensures side.Sign() * x * y == if side.Long? then x * y else -(x * y)
  {
  }

  /** A long runner is rejected by a downward break or change of character while it closes below its
      target, a short one by an upward one above it; a break counts before a change of character. */
  lemma RunnerIs(side: Side, tp3: real, close: real, b: Bundle)
    ensures b.structure.None? ==> !ShouldCloseRunner(side, tp3, close, b)
    ensures b.structure.Some? ==>
              var st := b.structure.value;
              var events := if st.lastBos.Some? then {st.lastBos.value}
                            else if st.lastChoch.Some? then {st.lastChoch.value} else {};
              ShouldCloseRunner(side, tp3, close, b) <==>
                if side.Long? then (BosDown in events || ChochDown in events) && close < tp3
                else (BosUp in events || ChochUp in events) && tp3 < close
  {
  }

  /** The trail proposes, up to rounding, the anchor that protects most; so it never loosens. */
  lemma TrailIsTightest(k: StopKnobs, side: Side, sl: real, entry: real, b: Bundle, peak: real, beArmed: bool)
    ensures var q := TightestStop(k, side, sl, entry, AtrSafe(b), BundleSwing(b, side.Long?), peak, beArmed);
            && IsTightest(side, Anchors(k, side, sl, entry, b, peak, beArmed), q)
            && Trail(k, side, sl, entry, b, peak, beArmed) == Some(k.round(q))
  {
    hide BreakEven, BehindSwing, Chandelier, AtrSafe, BundleSwing, Tighter, InForce, IsTightest;
    var be, atr := BreakEven(k, side, entry, beArmed), AtrSafe(b);
    var st := BehindSwing(k, side, BundleSwing(b, side.Long?), atr);
    AloneIsTightest(side, sl);
    TighterIsTightest(side, {sl}, sl, be);
    var c1 := Tighter(side, sl, be);
    TighterIsTightest(side, {sl} + InForce(be), c1, st);
    TighterIsTightest(side, {sl} + InForce(be) + InForce(st), Tighter(side, c1, st), Chandelier(k, side, peak, atr));
  }

  // ---------------------------------------------------------------- same tape, same exit

  function Records(feed: seq<Feed>): seq<TapeRecord> {
    seq(|feed|, i requires 0 <= i < |feed| => RecordOf(feed[i]))
  }

  function Feeds(records: seq<TapeRecord>): seq<Feed> {
    seq(|records|, i requires 0 <= i < |records| => FeedOf(records[i]))
  }

  lemma StepOnTape(env: Env, t: Trade, s: ExitState, f: Feed)
    requires env.step > 0.0 && Projectable(env.cfg.rules)
    ensures Step(env, t, s, FeedOf(RecordOf(f))) == Step(env, t, s, f)
  {
  }

  lemma {:induction false} ManageOnTape(env: Env, t: Trade, feed: seq<Feed>)
    requires env.step > 0.0 && Projectable(env.cfg.rules)
    ensures Manage(env, t, Feeds(Records(feed))) == Manage(env, t, feed)
    decreases |feed|
  {
    if feed != [] {
      var n := |feed| - 1;
      ManageOnTape(env, t, feed[..n]);
      assert Feeds(Records(feed))[..n] == Feeds(Records(feed[..n]));
      var before := Manage(env, t, feed[..n]);
      if before.Live? { StepOnTape(env, t, before.st, feed[n]); }
    }
  }
}
