/** The multi-tier exit of one trade: stop, weekend flat, two partial targets,
    runner target, runner rejection, then peak tracking, arming and a ratcheting
    trail.  `Step` is one bar, `Manage` a whole tape.  The stop, runner and weekend
    managers are arbitrary functions, so everything proved here holds whatever they
    return. */
module ExitModel {
  import opened Common

  // ---------------------------------------------------------------- inputs

  datatype Side = Long | Short {
    function Sign(): real { if Long? then 1.0 else -1.0 }

    /** Price `a` is at least as good for this side as price `b`. */
    predicate NoWorse(a: real, b: real) { if Long? then a >= b else a <= b }
  }

  datatype Swing = Swing(isLow: bool, price: real)

  datatype EventType = BosUp | BosDown | ChochUp | ChochDown

  datatype Structure = Structure(swings: seq<Swing>, lastBos: Option<EventType>, lastChoch: Option<EventType>)

  /** The feature snapshot of one bar.  `others` stands for every feature that is
      not part of the exit tape. */
  datatype Bundle = Bundle(atr: Option<real>, structure: Option<Structure>, offset: real, others: seq<real>)

  /** Time is in microseconds. */
  datatype Bar = Bar(time: int, high: real, low: real, close: real) {
    ghost predicate Consistent() { low <= close <= high }
  }

  datatype Feed = Feed(bar: Bar, bundle: Bundle)

  /** What the stop manager, the take-profit manager and the trading window answer.
      trail(side, current stop, entry, bundle, peak, break-even armed) proposes a stop. */
  datatype ExitRules = ExitRules(
    trail: (Side, real, real, Bundle, real, bool) -> Option<real>,
    closeRunner: (Side, real, real, Bundle) -> bool,
    flatten: (int, real) -> bool)

  /** The exec_* knobs the exit logic reads. */
  datatype ExitConfig = ExitConfig(
    tp1Pct: real, tp2Pct: real, trailActivateR: real, beTriggerR: real, rules: ExitRules)

  datatype SymbolSpec = SymbolSpec(contractSize: real, volumeMin: real, volumeStep: real)

  /** Knobs and symbol constants as the exit logic uses them. */
  datatype Env = Env(cfg: ExitConfig, contract: real, step: real, volumeMin: real) {
    ghost predicate Ok() { cfg.tp1Pct >= 0.0 && cfg.tp2Pct >= 0.0 && contract >= 0.0 && step > 0.0 }
  }

  function EnvOf(cfg: ExitConfig, spec: SymbolSpec, contract: real): (env: Env)
    ensures env.step > 0.0
  {
    Env(cfg, contract,
        if spec.volumeStep > 0.0 then spec.volumeStep else 0.01,
        if spec.volumeMin != 0.0 then spec.volumeMin else 0.01)
  }

  datatype Trade = Trade(
    side: Side, entry: real, initialSl: real,
    tp1: Option<real>, tp2: Option<real>, tp3: Option<real>,
    riskAmount: real, initialVolume: real)
  {
    /** |entry - stop|: the loss per unit that the first stop allows. */
    function InitialRisk(): real { if entry >= initialSl then entry - initialSl else initialSl - entry }

    /** Every target lies on the favourable side of the initial stop. */
    ghost predicate TargetsBeyondStop() {
      && (tp1.Some? ==> side.NoWorse(tp1.value, initialSl))
      && (tp2.Some? ==> side.NoWorse(tp2.value, initialSl))
      && (tp3.Some? ==> side.NoWorse(tp3.value, initialSl))
    }
  }

  // ---------------------------------------------------------------- state

  datatype ExitState = ExitState(
    sl: real, volume: real, realized: real, peak: real,
    tp1Taken: bool, tp2Taken: bool, armed: bool)

  datatype Reason = SlHit | Trailed | Tp3Hit | Manual

  datatype Managed =
    | Live(st: ExitState)
    | Exited(st: ExitState, price: real, reason: Reason, time: int)

  function InitState(t: Trade): ExitState {
    ExitState(t.initialSl, t.initialVolume, 0.0, t.entry, false, false, false)
  }

  // ---------------------------------------------------------------- money

  function Pnl(env: Env, t: Trade, price: real, volume: real): real {
    (price - t.entry) * t.side.Sign() * volume * env.contract
  }

  /** Partials already booked plus the final leg at `price`. */
  function TotalPnl(env: Env, t: Trade, s: ExitState, price: real): real {
    s.realized + Pnl(env, t, price, s.volume)
  }

  function RiskUnit(t: Trade): real { if t.riskAmount > 0.0 then t.riskAmount else 1.0 }

  /** R multiple of a trade that closes what is left at `price`. */
  function FinalR(env: Env, t: Trade, s: ExitState, price: real): real {
    TotalPnl(env, t, s, price) / RiskUnit(t)
  }

  // ---------------------------------------------------------------- one bar

  predicate StopHit(side: Side, sl: real, bar: Bar) {
    if side.Long? then bar.low <= sl else bar.high >= sl
  }

  predicate Reached(side: Side, bar: Bar, level: Option<real>) {
    level.Some? && if side.Long? then bar.high >= level.value else bar.low <= level.value
  }

  /** A whole number of lot steps. */
  function Lots(k: int, step: real): real { k as real * step }

  /** Round toward zero to a whole number of lot steps. */
  function ToStep(x: real, step: real): real
    requires step > 0.0
  {
    var q := x / step;
    Lots(if q >= 0.0 then q.Floor else -((-q).Floor), step)
  }

  /** Lots that a partial close of `frac` of the original size asks for. */
  function PartialLots(env: Env, t: Trade, frac: real): real
    requires env.step > 0.0
  {
    ToStep(t.initialVolume * frac, env.step)
  }

  /** A partial is skipped when it is below the broker minimum or would close everything. */
  predicate PartialTaken(env: Env, t: Trade, remaining: real, frac: real)
    requires env.step > 0.0
  {
    env.volumeMin <= PartialLots(env, t, frac) < remaining
  }

  function TakePartial(env: Env, t: Trade, s: ExitState, frac: real, price: real): ExitState
    requires env.step > 0.0
  {
    if PartialTaken(env, t, s.volume, frac) then
      var vol := PartialLots(env, t, frac);
      s.(realized := s.realized + Pnl(env, t, price, vol), volume := s.volume - vol)
    else s
  }

  function AfterTp1(env: Env, t: Trade, s: ExitState, bar: Bar): ExitState
    requires env.step > 0.0
  {
    if !s.tp1Taken && Reached(t.side, bar, t.tp1)
    then TakePartial(env, t, s, env.cfg.tp1Pct / 100.0, t.tp1.value).(tp1Taken := true, armed := true)
    else s
  }

  function AfterTp2(env: Env, t: Trade, s: ExitState, bar: Bar): ExitState
    requires env.step > 0.0
  {
    if !s.tp2Taken && Reached(t.side, bar, t.tp2)
    then TakePartial(env, t, s, env.cfg.tp2Pct / 100.0, t.tp2.value).(tp2Taken := true)
    else s
  }

  function Favourable(side: Side, bar: Bar): real { if side.Long? then bar.high else bar.low }

  function BetterPrice(side: Side, a: real, b: real): real {
    if side.Long? then Max(a, b) else Min(a, b)
  }

  function RiskPerUnit(t: Trade): real { if t.InitialRisk() > 0.0 then t.InitialRisk() else 1.0 }

  /** `price` lies at least `r` initial risks beyond the entry. */
  predicate AtLeastR(t: Trade, price: real, r: real) {
    (price - t.entry) * t.side.Sign() >= RiskPerUnit(t) * r
  }

  /** Peak tracking and arming. */
  function Tracked(env: Env, t: Trade, s: ExitState, bar: Bar): ExitState {
    var fav := Favourable(t.side, bar);
    s.(peak := BetterPrice(t.side, s.peak, fav),
       armed := s.armed || (env.cfg.trailActivateR > 0.0 && AtLeastR(t, fav, env.cfg.trailActivateR)))
  }

  /** The stop after the ratchet: a proposal counts only when it is strictly better. */
  function Ratcheted(env: Env, t: Trade, s: ExitState, bundle: Bundle): ExitState {
    var beArmed := s.tp1Taken || (env.cfg.beTriggerR > 0.0 && AtLeastR(t, s.peak, env.cfg.beTriggerR));
    var proposal := env.cfg.rules.trail(t.side, s.sl, t.entry, bundle, s.peak, beArmed);
    if s.armed && proposal.Some? && !t.side.NoWorse(s.sl, proposal.value)
    then s.(sl := proposal.value) else s
  }

  function Step(env: Env, t: Trade, s: ExitState, f: Feed): Managed
    requires env.step > 0.0
  {
    var bar := f.bar;
    if StopHit(t.side, s.sl, bar) then
      Exited(s, s.sl, if s.armed then Trailed else SlHit, bar.time)
    else if env.cfg.rules.flatten(bar.time, f.bundle.offset) then
      Exited(s, bar.close, Manual, bar.time)
    else
      var s1 := AfterTp2(env, t, AfterTp1(env, t, s, bar), bar);
      if Reached(t.side, bar, t.tp3) then
        Exited(s1, t.tp3.value, Tp3Hit, bar.time)
      else if s1.armed && t.tp3.Some? && env.cfg.rules.closeRunner(t.side, t.tp3.value, bar.close, f.bundle) then
        Exited(s1, bar.close, Manual, bar.time)
      else
        Live(Ratcheted(env, t, Tracked(env, t, s1, bar), f.bundle))
  }

  /** Nothing happens to a trade without targets that is not armed and never arms. */
  predicate Quiet(env: Env, t: Trade, s: ExitState, f: Feed) {
    && !StopHit(t.side, s.sl, f.bar) && !env.cfg.rules.flatten(f.bar.time, f.bundle.offset)
    && t.tp1.None? && t.tp2.None? && t.tp3.None? && !s.armed && env.cfg.trailActivateR <= 0.0
  }

  lemma QuietStep(env: Env, t: Trade, s: ExitState, f: Feed)
    requires env.step > 0.0 && Quiet(env, t, s, f)
    ensures Step(env, t, s, f) == Live(s.(peak := BetterPrice(t.side, s.peak, Favourable(t.side, f.bar))))
  {
  }

  lemma StopStep(env: Env, t: Trade, s: ExitState, f: Feed)
    requires env.step > 0.0 && StopHit(t.side, s.sl, f.bar)
    ensures Step(env, t, s, f) == Exited(s, s.sl, if s.armed then Trailed else SlHit, f.bar.time)
  {
  }

  // ---------------------------------------------------------------- a tape

  /** The trade after the bars that follow its entry bar; an exit is final. */
  function Manage(env: Env, t: Trade, feed: seq<Feed>): Managed
    requires env.step > 0.0
  {
    if feed == [] then Live(InitState(t))
    else
      var before := Manage(env, t, feed[..|feed| - 1]);
      if before.Exited? then before else Step(env, t, before.st, feed[|feed| - 1])
  }

  lemma ManageExtend(env: Env, t: Trade, feed: seq<Feed>, f: Feed)
    requires env.step > 0.0
    ensures var before := Manage(env, t, feed);
            Manage(env, t, feed + [f]) == if before.Exited? then before else Step(env, t, before.st, f)
  {
    assert (feed + [f])[..|feed|] == feed;
  }

  /** No look-ahead: once a trade is out, no later bar changes how it went out. */
  lemma {:induction false} ExitIsFinal(env: Env, t: Trade, feed: seq<Feed>, more: seq<Feed>)
    requires env.step > 0.0
    requires Manage(env, t, feed).Exited?
    ensures Manage(env, t, feed + more) == Manage(env, t, feed)
    decreases |more|
  {
    if more == [] {
      assert feed + more == feed;
    } else {
      var n := |more| - 1;
      ExitIsFinal(env, t, feed, more[..n]);
      assert feed + more == (feed + more[..n]) + [more[n]];
      ManageExtend(env, t, feed + more[..n], more[n]);
    }
  }

  // ---------------------------------------------------------------- what every bar keeps

  /** Volume left is positive and no more than the original. */
  ghost predicate VolumeOk(t: Trade, s: ExitState) { 0.0 < s.volume <= t.initialVolume }

  /** Partials so far lost at most the initial risk on the volume they closed. */
  ghost predicate LossOk(env: Env, t: Trade, s: ExitState) {
    s.realized >= -t.InitialRisk() * (t.initialVolume - s.volume) * env.contract
  }

  /** The quotient by a positive step, multiplied back. */
  lemma LotsOf(x: real, step: real, k: int)
    requires step > 0.0 && k as real <= x / step < k as real + 1.0
    ensures Lots(k, step) <= x < Lots(k, step) + step
    ensures k >= 0 ==> Lots(k, step) >= 0.0
  {
    var f := x / step - k as real;
    assert 0.0 <= f * step < step;
    assert x == x / step * step == Lots(k, step) + f * step;
  }

  /** Rounding to lot steps gives the largest whole number of steps that does not exceed `x`. */
  lemma ToStepFloors(x: real, step: real)
    requires x >= 0.0 && step > 0.0
    ensures exists k: nat :: ToStep(x, step) == Lots(k, step)
    ensures 0.0 <= ToStep(x, step) <= x < ToStep(x, step) + step
  {
    assert x / step >= 0.0;
    var k: nat := (x / step).Floor;
    LotsOf(x, step, k);
    hide Lots;
    assert ToStep(x, step) == Lots(k, step);
  }

  lemma LegLoss(env: Env, t: Trade, price: real, volume: real)
    requires env.contract >= 0.0 && volume >= 0.0
    requires t.side.NoWorse(price, t.initialSl)
    ensures Pnl(env, t, price, volume) >= -t.InitialRisk() * volume * env.contract
  {
    var gain := (price - t.entry) * t.side.Sign();
    assert gain >= -t.InitialRisk();
    assert gain * volume >= -t.InitialRisk() * volume;
    assert gain * volume * env.contract >= -t.InitialRisk() * volume * env.contract;
  }

  lemma PartialKeeps(env: Env, t: Trade, s: ExitState, frac: real, price: real)
    requires env.Ok() && frac >= 0.0 && VolumeOk(t, s) && LossOk(env, t, s)
    requires t.side.NoWorse(price, t.initialSl)
    ensures var s' := TakePartial(env, t, s, frac, price); VolumeOk(t, s') && LossOk(env, t, s')
  {
    if PartialTaken(env, t, s.volume, frac) {
      var vol := PartialLots(env, t, frac);
      assert t.initialVolume * frac >= 0.0;
      ToStepFloors(t.initialVolume * frac, env.step);
      LegLoss(env, t, price, vol);
      var risk := t.InitialRisk();
      calc {
        -risk * (t.initialVolume - (s.volume - vol)) * env.contract;
        (-risk * (t.initialVolume - s.volume) + -risk * vol) * env.contract;
        -risk * (t.initialVolume - s.volume) * env.contract + -risk * vol * env.contract;
      }
    }
  }

  /** What a live state or an exit owes to the initial stop. */
  ghost predicate StopRespected(env: Env, t: Trade, m: Managed) {
    && VolumeOk(t, m.st) && LossOk(env, t, m.st)
    && t.side.NoWorse(m.st.sl, t.initialSl)
    && (m.Exited? ==> t.side.NoWorse(m.price, t.initialSl))
  }

  lemma Tp1Keeps(env: Env, t: Trade, s: ExitState, bar: Bar)
    requires env.Ok() && t.TargetsBeyondStop() && VolumeOk(t, s) && LossOk(env, t, s)
    ensures var s' := AfterTp1(env, t, s, bar); VolumeOk(t, s') && LossOk(env, t, s') && s'.sl == s.sl
  {
    if !s.tp1Taken && Reached(t.side, bar, t.tp1) {
      PartialKeeps(env, t, s, env.cfg.tp1Pct / 100.0, t.tp1.value);
    }
  }

  lemma Tp2Keeps(env: Env, t: Trade, s: ExitState, bar: Bar)
    requires env.Ok() && t.TargetsBeyondStop() && VolumeOk(t, s) && LossOk(env, t, s)
    ensures var s' := AfterTp2(env, t, s, bar); VolumeOk(t, s') && LossOk(env, t, s') && s'.sl == s.sl
  {
    if !s.tp2Taken && Reached(t.side, bar, t.tp2) {
      PartialKeeps(env, t, s, env.cfg.tp2Pct / 100.0, t.tp2.value);
    }
  }

  lemma TrailKeeps(env: Env, t: Trade, s: ExitState, f: Feed)
    requires VolumeOk(t, s) && LossOk(env, t, s)
    ensures var s' := Ratcheted(env, t, Tracked(env, t, s, f.bar), f.bundle);
            VolumeOk(t, s') && LossOk(env, t, s') && t.side.NoWorse(s'.sl, s.sl)
  {
  }

  lemma StepRespectsStop(env: Env, t: Trade, s: ExitState, f: Feed)
    requires env.Ok() && t.TargetsBeyondStop() && f.bar.Consistent()
    requires StopRespected(env, t, Live(s))
    ensures StopRespected(env, t, Step(env, t, s, f))
    ensures Step(env, t, s, f).Live? ==> t.side.NoWorse(f.bar.close, t.initialSl)
  {
    Tp1Keeps(env, t, s, f.bar);
    Tp2Keeps(env, t, AfterTp1(env, t, s, f.bar), f.bar);
    TrailKeeps(env, t, AfterTp2(env, t, AfterTp1(env, t, s, f.bar), f.bar), f);
  }

  lemma {:induction false} ManageRespectsStop(env: Env, t: Trade, feed: seq<Feed>)
    requires env.Ok() && t.TargetsBeyondStop() && t.initialVolume > 0.0
    requires forall i | 0 <= i < |feed| :: feed[i].bar.Consistent()
    ensures StopRespected(env, t, Manage(env, t, feed))
    ensures feed != [] && Manage(env, t, feed).Live? ==> t.side.NoWorse(feed[|feed| - 1].bar.close, t.initialSl)
    decreases |feed|
  {
    if feed != [] {
      var n := |feed| - 1;
      ManageRespectsStop(env, t, feed[..n]);
      var before := Manage(env, t, feed[..n]);
      if before.Live? { StepRespectsStop(env, t, before.st, feed[n]); }
    }
  }

  /** Worst case: whatever the trail proposes and whichever way the trade goes out, it
      never loses more than its initial risk on its whole initial volume. */
  lemma WorstCaseLoss(env: Env, t: Trade, s: ExitState, price: real)
    requires env.Ok() && VolumeOk(t, s) && LossOk(env, t, s) && t.side.NoWorse(price, t.initialSl)
    ensures TotalPnl(env, t, s, price) >= -t.InitialRisk() * t.initialVolume * env.contract
  {
    LegLoss(env, t, price, s.volume);
    var risk := t.InitialRisk();
    calc {
      -risk * s.volume * env.contract + -risk * (t.initialVolume - s.volume) * env.contract;
      (-risk * s.volume + -risk * (t.initialVolume - s.volume)) * env.contract;
      -risk * t.initialVolume * env.contract;
    }
  }

  // ---------------------------------------------------------------- stop and peak over a tape

  /** The stop only moves in the trade's favour, and flags never fall back. */
  lemma StepRatchets(env: Env, t: Trade, s: ExitState, f: Feed)
    requires env.step > 0.0
    ensures var m := Step(env, t, s, f);
            && t.side.NoWorse(m.st.sl, s.sl)
            && (s.armed ==> m.st.armed) && (s.tp1Taken ==> m.st.tp1Taken) && (s.tp2Taken ==> m.st.tp2Taken)
            && (m.st.sl != s.sl ==> m.st.armed)
  {
  }

  lemma {:induction false} StopOnlyImproves(env: Env, t: Trade, feed: seq<Feed>, k: nat)
    requires env.step > 0.0 && k <= |feed|
    ensures t.side.NoWorse(Manage(env, t, feed).st.sl, Manage(env, t, feed[..k]).st.sl)
    decreases |feed|
  {
    if k < |feed| {
      var n := |feed| - 1;
      StopOnlyImproves(env, t, feed[..n], k);
      assert feed[..n][..k] == feed[..k];
      var before := Manage(env, t, feed[..n]);
      if before.Live? { StepRatchets(env, t, before.st, feed[n]); }
    } else {
      assert feed[..k] == feed;
    }
  }

  /** `p` is the most favourable price among the fill and the bars in `feed`. */
  ghost predicate IsPeak(t: Trade, feed: seq<Feed>, p: real) {
    && t.side.NoWorse(p, t.entry)
    && (forall i | 0 <= i < |feed| :: t.side.NoWorse(p, Favourable(t.side, feed[i].bar)))
    && (p == t.entry || exists i :: 0 <= i < |feed| && p == Favourable(t.side, feed[i].bar))
  }

  lemma PeakExtends(t: Trade, feed: seq<Feed>, p: real, f: Feed)
    requires IsPeak(t, feed, p)
    ensures IsPeak(t, feed + [f], BetterPrice(t.side, p, Favourable(t.side, f.bar)))
  {
    var q := BetterPrice(t.side, p, Favourable(t.side, f.bar));
    if q == p && p != t.entry {
      var i :| 0 <= i < |feed| && p == Favourable(t.side, feed[i].bar);
      assert (feed + [f])[i] == feed[i];
    } else if q != p {
      assert (feed + [f])[|feed|] == f;
    }
  }

  lemma StepMovesPeak(env: Env, t: Trade, s: ExitState, f: Feed)
    requires env.step > 0.0 && Step(env, t, s, f).Live?
    ensures Step(env, t, s, f).st.peak == BetterPrice(t.side, s.peak, Favourable(t.side, f.bar))
  {
  }

  lemma {:induction false} PeakIsExtreme(env: Env, t: Trade, feed: seq<Feed>)
    requires env.step > 0.0 && Manage(env, t, feed).Live?
    ensures IsPeak(t, feed, Manage(env, t, feed).st.peak)
    decreases |feed|
  {
    if feed != [] {
      var n := |feed| - 1;
      PeakIsExtreme(env, t, feed[..n]);
      var s := Manage(env, t, feed[..n]).st;
      PeakExtends(t, feed[..n], s.peak, feed[n]);
      StepMovesPeak(env, t, s, feed[n]);
      assert feed[..n] + [feed[n]] == feed;
    }
  }
}
