/** What one bar does to a trade, stated in prices, lots and money alone: when it leaves and at what
    price, what each target books, and where peak, arming and stop stand afterwards. */
module ExitMeaning {
  import opened Common
  import opened ExitModel

  // ---------------------------------------------------------------- lots

  function Steps(k: int, step: real): real { k as real * step }

  predicate IsWhole(v: real, step: real, k: int) { v == Steps(k, step) }

  /** `v` is `x` rounded toward zero to a whole number of steps. */
  ghost predicate Truncates(v: real, x: real, step: real) {
    && (exists k: int :: IsWhole(v, step, k))
    && if x >= 0.0 then v <= x < v + step else v - step < x <= v
  }

  lemma ToStepTruncates(x: real, step: real)
    requires step > 0.0
    ensures Truncates(ToStep(x, step), x, step)
  {
    var q := x / step;
    if x >= 0.0 {
      ToStepFloors(x, step);
      assert q >= 0.0;
      assert IsWhole(ToStep(x, step), step, q.Floor);
    } else {
      NegativeQuotient(x, step);
      LotsOf(-x, step, (-q).Floor);
      var k := (-q).Floor;
      assert Lots(-k, step) == -Lots(k, step);
      assert IsWhole(ToStep(x, step), step, -k);
    }
  }

  lemma NegativeQuotient(x: real, step: real)
    requires step > 0.0 && x < 0.0
    ensures x / step < 0.0 && (-x) / step == -(x / step)
  {
    assert x / step * step == x && (-x) / step * step == -x;
  }

  /** There is one such number of lots. */
  lemma TruncatesUnique(v: real, w: real, x: real, step: real)
    requires step > 0.0 && Truncates(v, x, step) && Truncates(w, x, step)
    ensures v == w
  {
    hide Steps;
    var k: int :| IsWhole(v, step, k);
    var l: int :| IsWhole(w, step, l);
    WholeApart(k, l, step);
    WholeApart(l, k, step);
    assert k < l ==> v + step <= w;
    assert l < k ==> w + step <= v;
    assert k == l;
  }

  lemma WholeApart(k: int, l: int, step: real)
    requires step > 0.0
    ensures k < l ==> Steps(k, step) + step <= Steps(l, step)
  {
    if k < l { assert (l - k - 1) as real * step >= 0.0; }
  }

  // ---------------------------------------------------------------- levels

  /** The bar trades through the stop. */
  predicate Stopped(side: Side, sl: real, bar: Bar) {
    match side case Long => bar.low <= sl case Short => bar.high >= sl
  }

  /** The bar trades at or beyond a level on the favourable side. */
  predicate Trades(side: Side, bar: Bar, level: Option<real>) {
    match side
    case Long => level.Some? && level.value <= bar.high
    case Short => level.Some? && bar.low <= level.value
  }

  /** Money per lot unit between the entry and a price. */
  function Gain(t: Trade, price: real): real {
    match t.side case Long => price - t.entry case Short => t.entry - price
  }

  /** The distance of the first stop, 1 where there is none. */
  function RiskDistance(t: Trade): real {
    if t.entry > t.initialSl then t.entry - t.initialSl
    else if t.initialSl > t.entry then t.initialSl - t.entry
    else 1.0
  }

  // ---------------------------------------------------------------- leaving

  /** The stop comes first, at its own price, before anything is booked. */
  lemma StopOnBar(env: Env, t: Trade, s: ExitState, f: Feed)
    requires env.step > 0.0 && Stopped(t.side, s.sl, f.bar)
    ensures Step(env, t, s, f) == Exited(s, s.sl, if s.armed then Trailed else SlHit, f.bar.time)
  {
  }

  /** Then the weekend, at the close, before anything is booked. */
  lemma WeekendOnBar(env: Env, t: Trade, s: ExitState, f: Feed)
    requires env.step > 0.0 && !Stopped(t.side, s.sl, f.bar)
    requires env.cfg.rules.flatten(f.bar.time, f.bundle.offset)
    ensures Step(env, t, s, f) == Exited(s, f.bar.close, Manual, f.bar.time)
  {
  }

  ghost predicate Trading(env: Env, t: Trade, s: ExitState, f: Feed) {
    !Stopped(t.side, s.sl, f.bar) && !env.cfg.rules.flatten(f.bar.time, f.bundle.offset)
  }

  /** Target `tp` is reached for the first time. */
  predicate First(taken: bool, side: Side, bar: Bar, tp: Option<real>) { !taken && Trades(side, bar, tp) }

  /** A runner leaves at its target, or at the close when it is armed and rejected; else it lives on. */
  lemma RunnerOnBar(env: Env, t: Trade, s: ExitState, f: Feed)
    requires env.step > 0.0 && Trading(env, t, s, f)
    ensures var m := Step(env, t, s, f); var bar := f.bar;
            var armed := s.armed || First(s.tp1Taken, t.side, bar, t.tp1);
            if Trades(t.side, bar, t.tp3) then
              m.Exited? && m.price == t.tp3.value && m.reason == Tp3Hit && m.time == bar.time
            else if armed && t.tp3.Some? && env.cfg.rules.closeRunner(t.side, t.tp3.value, bar.close, f.bundle) then
              m.Exited? && m.price == bar.close && m.reason == Manual && m.time == bar.time
            else m.Live?
    ensures var m := Step(env, t, s, f); m.Exited? ==> m.st.sl == s.sl && m.st.peak == s.peak
  {
  }

  // ---------------------------------------------------------------- what targets book

  /** A partial close of `pct` percent of the original volume at `price`: the lots are rounded toward
      zero to lot steps; nothing moves when they are below the minimum or not below what is left. */
  ghost predicate Booked(env: Env, t: Trade, pct: real, price: real, volume: real, realized: real,
                         volume': real, realized': real) {
    exists v :: Truncates(v, Asked(t, pct), env.step) && Sold(env, t, price, v, volume, realized, volume', realized')
  }

  /** Percent of the original volume. */
  function Asked(t: Trade, pct: real): real { t.initialVolume * (pct / 100.0) }

  predicate Sold(env: Env, t: Trade, price: real, v: real, volume: real, realized: real,
                 volume': real, realized': real) {
    if env.volumeMin <= v && v < volume
    then volume' == volume - v && realized' == realized + Gain(t, price) * v * env.contract
    else volume' == volume && realized' == realized
  }

  /** Booking leaves no choice. */
  lemma BookedOnce(env: Env, t: Trade, pct: real, price: real, volume: real, realized: real,
                   volume1: real, realized1: real, volume2: real, realized2: real)
    requires env.step > 0.0
    requires Booked(env, t, pct, price, volume, realized, volume1, realized1)
    requires Booked(env, t, pct, price, volume, realized, volume2, realized2)
    ensures volume1 == volume2 && realized1 == realized2
  {
    hide Truncates, Gain;
    var x := Asked(t, pct);
    var v :| Truncates(v, x, env.step) && Sold(env, t, price, v, volume, realized, volume1, realized1);
    var w :| Truncates(w, x, env.step) && Sold(env, t, price, w, volume, realized, volume2, realized2);
    TruncatesUnique(v, w, x, env.step);
  }

  /** A target that is first reached books its percentage at its price; else nothing moves. */
  ghost predicate TargetBooks(env: Env, t: Trade, bar: Bar, taken: bool, tp: Option<real>, pct: real,
                              volume: real, realized: real, volume': real, realized': real) {
    if First(taken, t.side, bar, tp) then Booked(env, t, pct, tp.value, volume, realized, volume', realized')
    else volume' == volume && realized' == realized
  }

  lemma PartialBooks(env: Env, t: Trade, s: ExitState, pct: real, price: real)
    requires env.step > 0.0
    ensures var s' := TakePartial(env, t, s, pct / 100.0, price);
            && Booked(env, t, pct, price, s.volume, s.realized, s'.volume, s'.realized)
            && s' == s.(volume := s'.volume, realized := s'.realized)
  {
    var v := PartialLots(env, t, pct / 100.0);
    var s' := TakePartial(env, t, s, pct / 100.0, price);
    assert v == ToStep(Asked(t, pct), env.step);
    ToStepTruncates(Asked(t, pct), env.step);
    GainIsPnl(env, t, price, v);
    hide Truncates, Pnl, Gain, ToStep, Asked;
    assert Sold(env, t, price, v, s.volume, s.realized, s'.volume, s'.realized);
  }

  lemma GainIsPnl(env: Env, t: Trade, price: real, v: real)
    ensures Pnl(env, t, price, v) == Gain(t, price) * v * env.contract
  {
    assert (price - t.entry) * t.side.Sign() == Gain(t, price);
  }

  /** The first target books with its own percentage, then the second with its own, on what is left;
      a reached first target arms the trade. */
  lemma TargetsOnBar(env: Env, t: Trade, s: ExitState, f: Feed)
    requires env.step > 0.0 && Trading(env, t, s, f)
    ensures var r := Step(env, t, s, f).st; var bar := f.bar;
            && (exists v, z ::
                  && TargetBooks(env, t, bar, s.tp1Taken, t.tp1, env.cfg.tp1Pct, s.volume, s.realized, v, z)
                  && TargetBooks(env, t, bar, s.tp2Taken, t.tp2, env.cfg.tp2Pct, v, z, r.volume, r.realized))
            && r.tp1Taken == (s.tp1Taken || Trades(t.side, bar, t.tp1))
            && r.tp2Taken == (s.tp2Taken || Trades(t.side, bar, t.tp2))
            && (s.armed || First(s.tp1Taken, t.side, bar, t.tp1) ==> r.armed)
  {
    var bar := f.bar;
    var s1 := AfterTp1(env, t, s, bar);
    var s2 := AfterTp2(env, t, s1, bar);
    FirstBooks(env, t, s, bar);
    SecondBooks(env, t, s1, bar);
    StepKeepsBooking(env, t, s, f);
    hide AfterTp1, AfterTp2, TargetBooks, Step;
    assert TargetBooks(env, t, bar, s.tp1Taken, t.tp1, env.cfg.tp1Pct, s.volume, s.realized, s1.volume, s1.realized);
  }

  lemma FirstBooks(env: Env, t: Trade, s: ExitState, bar: Bar)
    requires env.step > 0.0
    ensures var s' := AfterTp1(env, t, s, bar);
            && TargetBooks(env, t, bar, s.tp1Taken, t.tp1, env.cfg.tp1Pct, s.volume, s.realized, s'.volume, s'.realized)
            && s'.tp1Taken == (s.tp1Taken || Trades(t.side, bar, t.tp1)) && s'.tp2Taken == s.tp2Taken
            && s'.armed == (s.armed || First(s.tp1Taken, t.side, bar, t.tp1))
  {
    hide TakePartial, Booked;
    if First(s.tp1Taken, t.side, bar, t.tp1) { PartialBooks(env, t, s, env.cfg.tp1Pct, t.tp1.value); }
  }

  lemma SecondBooks(env: Env, t: Trade, s: ExitState, bar: Bar)
    requires env.step > 0.0
    ensures var s' := AfterTp2(env, t, s, bar);
            && TargetBooks(env, t, bar, s.tp2Taken, t.tp2, env.cfg.tp2Pct, s.volume, s.realized, s'.volume, s'.realized)
            && s'.tp2Taken == (s.tp2Taken || Trades(t.side, bar, t.tp2)) && s'.tp1Taken == s.tp1Taken
            && s'.armed == s.armed
  {
    hide TakePartial, Booked;
    if First(s.tp2Taken, t.side, bar, t.tp2) { PartialBooks(env, t, s, env.cfg.tp2Pct, t.tp2.value); }
  }

  lemma StepKeepsBooking(env: Env, t: Trade, s: ExitState, f: Feed)
    requires env.step > 0.0 && Trading(env, t, s, f)
    ensures var r, s2 := Step(env, t, s, f).st, AfterTp2(env, t, AfterTp1(env, t, s, f.bar), f.bar);
            && r.volume == s2.volume && r.realized == s2.realized
            && r.tp1Taken == s2.tp1Taken && r.tp2Taken == s2.tp2Taken && (s2.armed ==> r.armed)
  {
    hide AfterTp1, AfterTp2;
  }

  // ---------------------------------------------------------------- living on

  /** On a bar the trade survives: the peak takes in the bar's best price; the trade arms by its first
      target or by `trailActivateR` risks of excursion; armed, it asks the trail with the new peak,
      at break-even from the first target or `beTriggerR` risks of peak excursion on, and takes the
      answer only where it is tighter. */
  lemma TrailOnBar(env: Env, t: Trade, s: ExitState, f: Feed)
    requires env.step > 0.0 && Step(env, t, s, f).Live?
    ensures var r, bar, cfg := Step(env, t, s, f).st, f.bar, env.cfg;
            var best := if t.side.Long? then bar.high else bar.low;
            var be := r.tp1Taken || (cfg.beTriggerR > 0.0 && Gain(t, r.peak) >= RiskDistance(t) * cfg.beTriggerR);
            var proposal := cfg.rules.trail(t.side, s.sl, t.entry, f.bundle, r.peak, be);
            && (r.peak == s.peak || r.peak == best)
            && Gain(t, r.peak) >= Gain(t, s.peak) && Gain(t, r.peak) >= Gain(t, best)
            && (r.armed <==> s.armed || First(s.tp1Taken, t.side, bar, t.tp1)
                             || (cfg.trailActivateR > 0.0 && Gain(t, best) >= RiskDistance(t) * cfg.trailActivateR))
            && r.sl == if r.armed && proposal.Some? && Gain(t, proposal.value) > Gain(t, s.sl)
                       then proposal.value else s.sl
  {
    var s1 := AfterTp1(env, t, s, f.bar);
    var s2 := AfterTp2(env, t, s1, f.bar);
    FirstBooks(env, t, s, f.bar);
    SecondBooks(env, t, s1, f.bar);
    TrackMeaning(env, t, s2, f.bar);
    RatchetMeaning(env, t, Tracked(env, t, s2, f.bar), f.bundle);
    SurvivorIs(env, t, s, f);
    SameStop(env, t, s, f.bar);
    hide AfterTp1, AfterTp2, Tracked, Ratcheted, Step, Gain, RiskDistance, TargetBooks;
  }

  lemma SurvivorIs(env: Env, t: Trade, s: ExitState, f: Feed)
    requires env.step > 0.0 && Step(env, t, s, f).Live?
    ensures Trading(env, t, s, f)
    ensures Step(env, t, s, f).st
            == Ratcheted(env, t, Tracked(env, t, AfterTp2(env, t, AfterTp1(env, t, s, f.bar), f.bar), f.bar), f.bundle)
  {
    hide AfterTp1, AfterTp2, Tracked, Ratcheted;
  }

  lemma SameStop(env: Env, t: Trade, s: ExitState, bar: Bar)
    requires env.step > 0.0
    ensures var s2 := AfterTp2(env, t, AfterTp1(env, t, s, bar), bar); s2.sl == s.sl && s2.peak == s.peak
  {
  }

  lemma GainAtLeast(t: Trade, price: real, r: real)
    ensures AtLeastR(t, price, r) <==> Gain(t, price) >= RiskDistance(t) * r
  {
    assert RiskPerUnit(t) == RiskDistance(t);
    assert (price - t.entry) * t.side.Sign() == Gain(t, price);
  }

  lemma TrackMeaning(env: Env, t: Trade, s: ExitState, bar: Bar)
    ensures var r := Tracked(env, t, s, bar); var best := if t.side.Long? then bar.high else bar.low;
            && (r.peak == s.peak || r.peak == best)
            && Gain(t, r.peak) >= Gain(t, s.peak) && Gain(t, r.peak) >= Gain(t, best)
            && (r.armed <==> s.armed || (env.cfg.trailActivateR > 0.0
                                         && Gain(t, best) >= RiskDistance(t) * env.cfg.trailActivateR))
            && r == s.(peak := r.peak, armed := r.armed)
  {
    var best := if t.side.Long? then bar.high else bar.low;
    GainAtLeast(t, best, env.cfg.trailActivateR);
    hide AtLeastR, RiskDistance;
  }

  lemma RatchetMeaning(env: Env, t: Trade, s: ExitState, bundle: Bundle)
    ensures var r, cfg := Ratcheted(env, t, s, bundle), env.cfg;
            var be := s.tp1Taken || (cfg.beTriggerR > 0.0 && Gain(t, s.peak) >= RiskDistance(t) * cfg.beTriggerR);
            var proposal := cfg.rules.trail(t.side, s.sl, t.entry, bundle, s.peak, be);
            && r == s.(sl := r.sl)
            && r.sl == if s.armed && proposal.Some? && Gain(t, proposal.value) > Gain(t, s.sl)
                       then proposal.value else s.sl
  {
    GainAtLeast(t, s.peak, env.cfg.beTriggerR);
    hide AtLeastR, RiskDistance;
  }

  // ---------------------------------------------------------------- money and knobs

  /** The R multiple times the risked amount is the money of all legs. */
  lemma FinalRMeaning(env: Env, t: Trade, s: ExitState, price: real)
    ensures TotalPnl(env, t, s, price) == s.realized + Gain(t, price) * s.volume * env.contract
    ensures FinalR(env, t, s, price) * (if t.riskAmount > 0.0 then t.riskAmount else 1.0)
            == s.realized + Gain(t, price) * s.volume * env.contract
  {
    GainIsPnl(env, t, price, s.volume);
    hide Pnl, Gain;
    Quotient(TotalPnl(env, t, s, price), RiskUnit(t));
  }

  lemma Quotient(x: real, u: real)
    requires u > 0.0
    ensures x / u * u == x
  {
  }

  /** Lot step and minimum are the symbol's, a hundredth where it gives none. */
  lemma KnobsOf(cfg: ExitConfig, spec: SymbolSpec, contract: real)
    ensures var env := EnvOf(cfg, spec, contract);
            && env.cfg == cfg && env.contract == contract
            && (spec.volumeStep > 0.0 ==> env.step == spec.volumeStep)
            && (spec.volumeStep <= 0.0 ==> env.step == 0.01)
            && (spec.volumeMin != 0.0 ==> env.volumeMin == spec.volumeMin)
            && (spec.volumeMin == 0.0 ==> env.volumeMin == 0.01)
  {
  }

  /** Long one lot at 2000, first target 2010 with 30 percent of 100 units a lot: reaching it books
      300 on 0.30 lots and leaves 0.70. */
  lemma FirstTargetPays(rules: ExitRules)
    requires !rules.flatten(1, 0.0)
    ensures var cfg := ExitConfig(30.0, 30.0, 0.0, 0.0, rules);
            var env := Env(cfg, 100.0, 0.01, 0.01);
            var t := Trade(Long, 2000.0, 1990.0, Some(2010.0), None, None, 1000.0, 1.0);
            var f := Feed(Bar(1, 2010.0, 2000.0, 2005.0), Bundle(None, None, 0.0, []));
            var r := Step(env, t, InitState(t), f).st;
            r.volume == 0.7 && r.realized == 300.0 && r.tp1Taken && r.armed
  {
    var cfg := ExitConfig(30.0, 30.0, 0.0, 0.0, rules);
    var env := Env(cfg, 100.0, 0.01, 0.01);
    var t := Trade(Long, 2000.0, 1990.0, Some(2010.0), None, None, 1000.0, 1.0);
    var f := Feed(Bar(1, 2010.0, 2000.0, 2005.0), Bundle(None, None, 0.0, []));
    var r := Step(env, t, InitState(t), f).st;
    TargetsOnBar(env, t, InitState(t), f);
    assert IsWhole(0.3, 0.01, 30);
    assert Truncates(0.3, Asked(t, 30.0), 0.01);
    assert Sold(env, t, 2010.0, 0.3, 1.0, 0.0, 0.7, 300.0);
    assert Booked(env, t, 30.0, 2010.0, 1.0, 0.0, 0.7, 300.0);
    BookedOnce(env, t, 30.0, 2010.0, 1.0, 0.0, 0.7, 300.0, r.volume, r.realized);
  }
}
