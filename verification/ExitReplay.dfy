/** The offline exit replay: one recorded trade over its bar tape, and a whole tape. */
module ExitReplay {
  import opened Common
  import opened ExitModel
  import opened ExitTape

  datatype TapeEntry = TapeEntry(trade: Trade, entryBarIndex: nat)

  datatype ReplayStats = ReplayStats(n: nat, wins: nat, losses: nat, totalR: real, rList: seq<real>)

  const EPS: real := 0.000000001

  /** The replay substitutes 100 for a contract size of zero. */
  function ReplayContract(spec: SymbolSpec): real {
    if spec.contractSize != 0.0 then spec.contractSize else 100.0
  }

  function ReplayEnv(cfg: ExitConfig, spec: SymbolSpec): Env { EnvOf(cfg, spec, ReplayContract(spec)) }

  /** Price at which a trade leaves a tape: its exit, or the close of the last bar. */
  function LeavePrice(m: Managed, lastClose: real): real { if m.Exited? then m.price else lastClose }

  /** R multiple of a managed trade whose leftovers are closed at `lastClose`. */
  function RMultiple(env: Env, t: Trade, m: Managed, lastClose: real): real {
    FinalR(env, t, m.st, LeavePrice(m, lastClose))
  }

  /** The R multiple of a trade whose entry bar is the first record. */
  function ReplayR(cfg: ExitConfig, spec: SymbolSpec, t: Trade, bars: seq<TapeRecord>): real {
    if |bars| <= 1 then 0.0
    else
      var env := ReplayEnv(cfg, spec);
      RMultiple(env, t, Manage(env, t, Feeds(bars[1..])), bars[|bars| - 1].close)
  }

  /** Once the replay has exited, the records that follow are irrelevant. */
  lemma ExitDecidesR(cfg: ExitConfig, spec: SymbolSpec, t: Trade, bars: seq<TapeRecord>, k: nat)
    requires 1 <= k <= |bars|
    requires Manage(ReplayEnv(cfg, spec), t, Feeds(bars[1..k])).Exited?
    ensures |bars| > 1
    ensures var env := ReplayEnv(cfg, spec); var m := Manage(env, t, Feeds(bars[1..k]));
            ReplayR(cfg, spec, t, bars) == FinalR(env, t, m.st, m.price)
  {
    var env := ReplayEnv(cfg, spec);
    assert Feeds(bars[1..]) == Feeds(bars[1..k]) + Feeds(bars[k..]);
    ExitIsFinal(env, t, Feeds(bars[1..k]), Feeds(bars[k..]));
  }

  /** No look-ahead: two tapes that agree up to the record where the trade exits give the same R. */
  lemma NoLookAhead(cfg: ExitConfig, spec: SymbolSpec, t: Trade, bars: seq<TapeRecord>, other: seq<TapeRecord>, k: nat)
    requires 1 <= k <= |bars| && k <= |other| && bars[..k] == other[..k]
    requires Manage(ReplayEnv(cfg, spec), t, Feeds(bars[1..k])).Exited?
    ensures ReplayR(cfg, spec, t, other) == ReplayR(cfg, spec, t, bars)
  {
    assert other[1..k] == other[..k][1..] == bars[..k][1..] == bars[1..k];
    ExitDecidesR(cfg, spec, t, bars, k);
    ExitDecidesR(cfg, spec, t, other, k);
  }

  method Partial(env: Env, t: Trade, frac: real, price: real, realized: real, volume: real, ghost s: ExitState)
    returns (realized': real, volume': real)
    requires env.step > 0.0
    requires s.realized == realized && s.volume == volume
    ensures TakePartial(env, t, s, frac, price) == s.(realized := realized', volume := volume')
  {
    realized', volume' := realized, volume;
    var vol := PartialLots(env, t, frac);
    if vol < env.volumeMin || vol >= volume { return; }
    realized' := realized + Pnl(env, t, price, vol);
    volume' := volume - vol;
  }

  /** The end of a bar the trade survives: peak, arming and the ratchet. */
  method TrackAndTrail(env: Env, t: Trade, rec: TapeRecord, bundle: Bundle,
                       sl0: real, peak0: real, tp1Taken: bool, armed0: bool, ghost s: ExitState)
    returns (sl: real, peak: real, armed: bool)
    requires s.sl == sl0 && s.peak == peak0 && s.tp1Taken == tp1Taken && s.armed == armed0
    ensures Ratcheted(env, t, Tracked(env, t, s, FeedOf(rec).bar), bundle)
            == s.(sl := sl, peak := peak, armed := armed)
  {
    var isLong := t.side.Long?;
    sl, armed := sl0, armed0;
    var fav := if isLong then rec.high else rec.low;
    peak := if isLong then Max(peak0, fav) else Min(peak0, fav);
    if !armed && env.cfg.trailActivateR > 0.0 && AtLeastR(t, fav, env.cfg.trailActivateR) {
      armed := true;
    }
    if armed {
      var beArmed := tp1Taken || (env.cfg.beTriggerR > 0.0 && AtLeastR(t, peak, env.cfg.beTriggerR));
      var newSl := env.cfg.rules.trail(t.side, sl, t.entry, bundle, peak, beArmed);
      if newSl.Some? && ((isLong && newSl.value > sl) || (!isLong && newSl.value < sl)) {
        sl := newSl.value;
      }
    }
  }

  /** One pass of the replay loop: the exit price if the trade leaves on this record. */
  method ReplayBar(env: Env, t: Trade, s: ExitState, rec: TapeRecord) returns (exit: Option<real>, s': ExitState)
    requires env.step > 0.0
    ensures match Step(env, t, s, FeedOf(rec))
            case Live(next) => exit == None && s' == next
            case Exited(last, price, _, _) => exit == Some(price) && s' == last
  {
    var ExitState(sl, volume, realized, peak, tp1Taken, tp2Taken, armed) := s;
    var isLong := t.side.Long?;
    ghost var bar := FeedOf(rec).bar;
    // 1. stop
    if (isLong && rec.low <= sl) || (!isLong && rec.high >= sl) {
      return Some(sl), s;
    }
    // 2. weekend flat
    if env.cfg.rules.flatten(rec.time, rec.offset) {
      return Some(rec.close), s;
    }
    var bundle := Rebuild(rec);
    // 3. partial targets
    if !tp1Taken && t.tp1.Some? && ((isLong && rec.high >= t.tp1.value) || (!isLong && rec.low <= t.tp1.value)) {
      realized, volume := Partial(env, t, env.cfg.tp1Pct / 100.0, t.tp1.value, realized, volume, s);
      tp1Taken, armed := true, true;
    }
    ghost var s1 := AfterTp1(env, t, s, bar);
    assert s1 == ExitState(sl, volume, realized, peak, tp1Taken, tp2Taken, armed);
    if !tp2Taken && t.tp2.Some? && ((isLong && rec.high >= t.tp2.value) || (!isLong && rec.low <= t.tp2.value)) {
      realized, volume := Partial(env, t, env.cfg.tp2Pct / 100.0, t.tp2.value, realized, volume, s1);
      tp2Taken := true;
    }
    s' := ExitState(sl, volume, realized, peak, tp1Taken, tp2Taken, armed);
    assert s' == AfterTp2(env, t, s1, bar);
    // 4. runner target, runner rejection
    if t.tp3.Some? && ((isLong && rec.high >= t.tp3.value) || (!isLong && rec.low <= t.tp3.value)) {
      return t.tp3, s';
    }
    if armed && t.tp3.Some? && env.cfg.rules.closeRunner(t.side, t.tp3.value, rec.close, bundle) {
      return Some(rec.close), s';
    }
    // 5. peak, arming, trail
    sl, peak, armed := TrackAndTrail(env, t, rec, bundle, sl, peak, tp1Taken, armed, s');
    return None, ExitState(sl, volume, realized, peak, tp1Taken, tp2Taken, armed);
  }

  method ReplayEntry(t: Trade, bars: seq<TapeRecord>, cfg: ExitConfig, spec: SymbolSpec) returns (r: real)
    ensures r == ReplayR(cfg, spec, t, bars)
  {
    var env := ReplayEnv(cfg, spec);
    var s := InitState(t);
    var i := 1;
    while i < |bars|
      invariant bars != [] ==> 1 <= i <= |bars| && Manage(env, t, Feeds(bars[1..i])) == Live(s)
    {
      assert Feeds(bars[1..i + 1]) == Feeds(bars[1..i]) + [FeedOf(bars[i])];
      ManageExtend(env, t, Feeds(bars[1..i]), FeedOf(bars[i]));
      var exit;
      exit, s := ReplayBar(env, t, s, bars[i]);
      i := i + 1;
      if exit.Some? {
        ExitDecidesR(cfg, spec, t, bars, i);
        return FinalR(env, t, s, exit.value);
      }
    }
    if |bars| > 1 {
      assert bars[1..i] == bars[1..];
      r := FinalR(env, t, s, bars[|bars| - 1].close);
    } else {
      r := 0.0;
    }
  }

  // ---------------------------------------------------------------- a whole tape

  function Suffix(bars: seq<TapeRecord>, i: nat): seq<TapeRecord> { if i <= |bars| then bars[i..] else [] }

  function EntryR(cfg: ExitConfig, spec: SymbolSpec, bars: seq<TapeRecord>, e: TapeEntry): real {
    ReplayR(cfg, spec, e.trade, Suffix(bars, e.entryBarIndex))
  }

  function Wins(rs: seq<real>): nat {
    if rs == [] then 0 else Wins(rs[..|rs| - 1]) + if rs[|rs| - 1] > EPS then 1 else 0
  }

  function Losses(rs: seq<real>): nat {
    if rs == [] then 0 else Losses(rs[..|rs| - 1]) + if rs[|rs| - 1] < -EPS then 1 else 0
  }

  lemma TallyAppend(rs: seq<real>, r: real)
    ensures Wins(rs + [r]) == Wins(rs) + if r > EPS then 1 else 0
    ensures Losses(rs + [r]) == Losses(rs) + if r < -EPS then 1 else 0
  {
    assert (rs + [r])[..|rs|] == rs;
  }

  method ReplayOne(bars: seq<TapeRecord>, e: TapeEntry, cfg: ExitConfig, spec: SymbolSpec) returns (r: real)
    ensures r == EntryR(cfg, spec, bars, e)
  {
    r := ReplayEntry(e.trade, Suffix(bars, e.entryBarIndex), cfg, spec);
  }

  method ReplayTape(bars: seq<TapeRecord>, entries: seq<TapeEntry>, cfg: ExitConfig, spec: SymbolSpec)
    returns (stats: ReplayStats)
    ensures |stats.rList| == |entries| == stats.n
    ensures forall i | 0 <= i < |entries| :: stats.rList[i] == EntryR(cfg, spec, bars, entries[i])
    ensures stats.totalR == Sum(stats.rList)
    ensures stats.wins == Wins(stats.rList)
    ensures stats.losses == Losses(stats.rList)
  {
    var n, wins, losses, totalR, rList := 0, 0, 0, 0.0, [];
    while n < |entries|
      invariant |rList| == n <= |entries|
      invariant forall i | 0 <= i < n :: rList[i] == EntryR(cfg, spec, bars, entries[i])
      invariant totalR == Sum(rList) && wins == Wins(rList) && losses == Losses(rList)
    {
      var r := ReplayOne(bars, entries[n], cfg, spec);
      SumAppend(rList, r);
      TallyAppend(rList, r);
      n, totalR, rList := n + 1, totalR + r, rList + [r];
      if r > EPS {
        wins := wins + 1;
      } else if r < -EPS {
        losses := losses + 1;
      }
    }
    stats := ReplayStats(n, wins, losses, totalR, rList);
  }
}
