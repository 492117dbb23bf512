/** Whole-run theorems about exits: the engine's journal against the offline replay, the
    worst-case loss of every journaled trade, and the state of trades still open. */
module ExitEquivalence {
  import opened Common
  import opened ExitModel
  import opened ExitTape
  import opened ExitReplay
  import opened Engine
  import opened Journal

  function EngineEnv(cfg: ExitConfig, spec: SymbolSpec): Env { EnvOf(cfg, spec, spec.contractSize) }

  /** What the engine journals for a trade entered on bar `e` of a finished run. */
  function Journaled(cfg: ExitConfig, spec: SymbolSpec, t: Trade, feed: seq<Feed>, e: nat): CloseRow
    requires e < |feed|
  {
    var env := EngineEnv(cfg, spec);
    JournalClose(env, t, Manage(env, t, feed[e + 1..]), feed[|feed| - 1].bar)
  }

  /** One tape holds every run of an engine: what it recorded before this run and after it. */
  function Tape(before: seq<TapeRecord>, feed: seq<Feed>, after: seq<TapeRecord>): seq<TapeRecord> {
    before + Records(feed) + after
  }

  lemma TapeSuffix(before: seq<TapeRecord>, feed: seq<Feed>, after: seq<TapeRecord>, e: nat)
    requires e < |feed|
    ensures var bars := Suffix(Tape(before, feed, after), |before| + e);
            && |bars| == |feed| - e + |after|
            && Feeds(bars[1..]) == Feeds(Records(feed[e + 1..])) + Feeds(after)
            && bars[|bars| - 1].close == LastClose(feed, after)
  {
    assert Suffix(Tape(before, feed, after), |before| + e) == Records(feed[e..]) + after;
  }

  function LastClose(feed: seq<Feed>, after: seq<TapeRecord>): real
    requires feed != []
  {
    if after != [] then after[|after| - 1].close else feed[|feed| - 1].bar.close
  }

  lemma {:induction false} SameTail(env: Env, t: Trade, x: seq<Feed>, y: seq<Feed>, tail: seq<Feed>)
    requires env.step > 0.0 && Manage(env, t, x) == Manage(env, t, y)
    ensures Manage(env, t, x + tail) == Manage(env, t, y + tail)
    decreases |tail|
  {
    hide Manage, Step;
    if tail == [] {
      assert x + tail == x && y + tail == y;
    } else {
      var n := |tail| - 1;
      SameTail(env, t, x, y, tail[..n]);
      assert x + tail == (x + tail[..n]) + [tail[n]] && y + tail == (y + tail[..n]) + [tail[n]];
      ManageExtend(env, t, x + tail[..n], tail[n]);
      ManageExtend(env, t, y + tail[..n], tail[n]);
    }
  }

  /** Replaying an entry goes on through everything recorded after its bar, later runs included. */
  lemma ReplayRunsOn(cfg: ExitConfig, spec: SymbolSpec, t: Trade, before: seq<TapeRecord>, feed: seq<Feed>,
                     after: seq<TapeRecord>, e: nat)
    requires Projectable(cfg.rules) && spec.contractSize != 0.0
    requires e < |feed| && (e + 1 < |feed| || after != [])
    ensures var env := EngineEnv(cfg, spec);
            ReplayR(cfg, spec, t, Suffix(Tape(before, feed, after), |before| + e))
            == RMultiple(env, t, Manage(env, t, feed[e + 1..] + Feeds(after)), LastClose(feed, after))
  {
    hide Manage, Feeds, Records, Tape, LastClose;
    var env := EngineEnv(cfg, spec);
    TapeSuffix(before, feed, after, e);
    ManageOnTape(env, t, feed[e + 1..]);
    SameTail(env, t, Feeds(Records(feed[e + 1..])), feed[e + 1..], Feeds(after));
  }

  /** A trade that has left, or whose run is the last one recorded, has the same outcome on the tape. */
  lemma OutcomeStays(env: Env, t: Trade, later: seq<Feed>, after: seq<TapeRecord>)
    requires env.step > 0.0 && (Manage(env, t, later).Exited? || after == [])
    ensures Manage(env, t, later + Feeds(after)) == Manage(env, t, later)
  {
    if after == [] {
      assert later + Feeds(after) == later;
    } else {
      ExitIsFinal(env, t, later, Feeds(after));
    }
  }

  /** With at least one bar after the entry, the replay gives the journaled R: on the tape of the
      last run always, on a longer tape for every trade that left within its own run. */
  lemma ReplayMatchesJournal(cfg: ExitConfig, spec: SymbolSpec, t: Trade, before: seq<TapeRecord>, feed: seq<Feed>,
                             after: seq<TapeRecord>, e: nat)
    requires Projectable(cfg.rules) && spec.contractSize != 0.0
    requires e + 1 < |feed|
    requires Manage(EngineEnv(cfg, spec), t, feed[e + 1..]).Exited? || after == []
    ensures ReplayR(cfg, spec, t, Suffix(Tape(before, feed, after), |before| + e)) == Journaled(cfg, spec, t, feed, e).r
  {
    hide Manage, Tape;
    ReplayRunsOn(cfg, spec, t, before, feed, after, e);
    OutcomeStays(EngineEnv(cfg, spec), t, feed[e + 1..], after);
  }

  /** A zero product of reals has a zero factor. */
  lemma ZeroPnl(env: Env, t: Trade, price: real, volume: real)
    requires env.contract != 0.0 && volume != 0.0
    ensures Pnl(env, t, price, volume) == 0.0 <==> price == t.entry
  {
    var d := price - t.entry;
    if d != 0.0 {
      assert d * t.side.Sign() != 0.0;
      assert d * t.side.Sign() * volume != 0.0;
      assert d * t.side.Sign() * volume * env.contract != 0.0;
    }
  }

  /** Entered on the last recorded bar, a trade is journaled with its entry cost but replayed as
      0: the two agree exactly when the fill was at that bar's close. */
  lemma LastBarEntry(cfg: ExitConfig, spec: SymbolSpec, t: Trade, before: seq<TapeRecord>, feed: seq<Feed>)
    requires spec.contractSize != 0.0 && t.initialVolume > 0.0 && feed != []
    ensures var e := |feed| - 1;
            && ReplayR(cfg, spec, t, Suffix(Tape(before, feed, []), |before| + e)) == 0.0
            && (Journaled(cfg, spec, t, feed, e).r == 0.0 <==> feed[e].bar.close == t.entry)
  {
    hide Pnl, Step, Tape, Feeds, Records, Suffix;
    var env := EngineEnv(cfg, spec);
    var e := |feed| - 1;
    TapeSuffix(before, feed, [], e);
    assert feed[e + 1..] == [];
    ZeroPnl(env, t, feed[e].bar.close, t.initialVolume);
    var pnl := Pnl(env, t, feed[e].bar.close, t.initialVolume);
    assert Journaled(cfg, spec, t, feed, e).r == (0.0 + pnl) / RiskUnit(t);
    SameQuotient(pnl, 0.0, RiskUnit(t));
  }

  lemma SameQuotient(a: real, b: real, u: real)
    requires u > 0.0
    ensures a / u == b / u <==> a == b
  {
    if a / u == b / u { assert a == a / u * u == b / u * u == b; }
  }

  /** The exact scope of the claim that the replay mirrors the engine, on a tape of any number of
      runs: the outcome must not change after the trade's own run, and the trade must have a bar
      after its entry bar or have been filled at that bar's close. */
  lemma ReplayEqualsJournalIff(cfg: ExitConfig, spec: SymbolSpec, t: Trade, before: seq<TapeRecord>, feed: seq<Feed>,
                               after: seq<TapeRecord>, e: nat)
    requires Projectable(cfg.rules) && spec.contractSize != 0.0 && t.initialVolume > 0.0
    requires e < |feed|
    ensures var env := EngineEnv(cfg, spec);
            var m, c := Manage(env, t, feed[e + 1..]), Manage(env, t, feed[e + 1..] + Feeds(after));
            ReplayR(cfg, spec, t, Suffix(Tape(before, feed, after), |before| + e)) == Journaled(cfg, spec, t, feed, e).r
            <==> if m.Exited? || after == [] then e + 1 < |feed| || feed[e].bar.close == t.entry
                 else TotalPnl(env, t, c.st, LeavePrice(c, LastClose(feed, after)))
                      == TotalPnl(env, t, m.st, feed[|feed| - 1].bar.close)
  {
    var env := EngineEnv(cfg, spec);
    var m, c := Manage(env, t, feed[e + 1..]), Manage(env, t, feed[e + 1..] + Feeds(after));
    assert e + 1 == |feed| ==> feed[e + 1..] == [];
    if m.Exited? || after == [] {
      if e + 1 < |feed| {
        ReplayMatchesJournal(cfg, spec, t, before, feed, after, e);
      } else {
        LastBarEntry(cfg, spec, t, before, feed);
      }
    } else {
      hide Manage, Feeds, Tape, LastClose, TotalPnl;
      ReplayRunsOn(cfg, spec, t, before, feed, after, e);
      SameQuotient(TotalPnl(env, t, c.st, LeavePrice(c, LastClose(feed, after))),
                   TotalPnl(env, t, m.st, feed[|feed| - 1].bar.close), RiskUnit(t));
    }
  }

  /** A trade still open when its run ends is closed there at 2001; the next run on the same engine
      trades down to 1985, and the replay lets it run into its stop at 1990. */
  lemma LaterRunDiffers(cfg: ExitConfig)
    requires cfg.rules.flatten(1, 0.0) == false && cfg.rules.flatten(2, 0.0) == false && cfg.trailActivateR <= 0.0
    ensures var spec := SymbolSpec(100.0, 0.01, 0.01);
            var t := Trade(Long, 2000.0, 1990.0, None, None, None, 1000.0, 1.0);
            var none := Bundle(None, None, 0.0, []);
            var feed := [Feed(Bar(0, 2000.0, 2000.0, 2000.0), none), Feed(Bar(1, 2001.0, 2000.0, 2001.0), none)];
            var after := [RecordOf(Feed(Bar(2, 2001.0, 1985.0, 1986.0), none))];
            && Journaled(cfg, spec, t, feed, 0).r == 0.1
            && ReplayR(cfg, spec, t, Suffix(Tape([], feed, after), 0)) == -1.0
  {
    hide Manage, Step, Tape, Suffix;
    var spec := SymbolSpec(100.0, 0.01, 0.01);
    var t := Trade(Long, 2000.0, 1990.0, None, None, None, 1000.0, 1.0);
    var none := Bundle(None, None, 0.0, []);
    var f1, f2 := Feed(Bar(1, 2001.0, 2000.0, 2001.0), none), Feed(Bar(2, 2001.0, 1985.0, 1986.0), none);
    var feed := [Feed(Bar(0, 2000.0, 2000.0, 2000.0), none), f1];
    var env, s := EngineEnv(cfg, spec), InitState(t);
    TapeSuffix([], feed, [RecordOf(f2)], 0);
    assert feed[1..] == [] + [f1];
    OneQuietBar(env, t, f1);
    assert Journaled(cfg, spec, t, feed, 0).r == 0.1;
    var g1, g2 := FeedOf(RecordOf(f1)), FeedOf(RecordOf(f2));
    assert Feeds(Records(feed[1..])) + Feeds([RecordOf(f2)]) == ([] + [g1]) + [g2];
    OneQuietBar(env, t, g1);
    ManageExtend(env, t, [] + [g1], g2);
    StopStep(env, t, s.(peak := 2001.0), g2);
  }

  lemma OneQuietBar(env: Env, t: Trade, f: Feed)
    requires env.step > 0.0 && Quiet(env, t, InitState(t), f)
    ensures Manage(env, t, [] + [f])
            == Live(InitState(t).(peak := BetterPrice(t.side, t.entry, Favourable(t.side, f.bar))))
  {
    hide Step;
    ManageExtend(env, t, [], f);
    QuietStep(env, t, InitState(t), f);
  }

  lemma {:induction false} ZeroContractRealizes(env: Env, t: Trade, feed: seq<Feed>)
    requires env.step > 0.0 && env.contract == 0.0
    ensures Manage(env, t, feed).st.realized == 0.0
    decreases |feed|
  {
    if feed != [] {
      var n := |feed| - 1;
      ZeroContractRealizes(env, t, feed[..n]);
      var before := Manage(env, t, feed[..n]);
      if before.Live? { ZeroContractStep(env, t, before.st, feed[n]); }
    }
  }

  lemma ZeroContractStep(env: Env, t: Trade, s: ExitState, f: Feed)
    requires env.step > 0.0 && env.contract == 0.0 && s.realized == 0.0
    ensures Step(env, t, s, f).st.realized == 0.0
  {
    forall price: real, volume: real
      ensures Pnl(env, t, price, volume) == 0.0
    {
    }
    hide Pnl;
  }

  /** With a contract size of zero every trade is journaled with R 0, so the replay, which assumes
      100, agrees exactly when it gives 0. */
  lemma ZeroContractIff(cfg: ExitConfig, spec: SymbolSpec, t: Trade, before: seq<TapeRecord>, feed: seq<Feed>,
                        after: seq<TapeRecord>, e: nat)
    requires spec.contractSize == 0.0 && e < |feed|
    ensures Journaled(cfg, spec, t, feed, e).r == 0.0
    ensures ReplayR(cfg, spec, t, Suffix(Tape(before, feed, after), |before| + e)) == Journaled(cfg, spec, t, feed, e).r
            <==> ReplayR(cfg, spec.(contractSize := 100.0), t, Suffix(Tape(before, feed, after), |before| + e)) == 0.0
  {
    hide Manage, Feeds, Tape;
    ZeroContractRealizes(EngineEnv(cfg, spec), t, feed[e + 1..]);
    assert ReplayEnv(cfg, spec) == ReplayEnv(cfg, spec.(contractSize := 100.0));
  }

  /** With a contract size of zero the engine books nothing while the replay assumes 100. */
  lemma ZeroContractDiffers(cfg: ExitConfig)
    requires cfg.rules.flatten(1, 0.0) == false
    ensures var spec := SymbolSpec(0.0, 0.01, 0.01);
            var t := Trade(Long, 2000.0, 1990.0, None, None, None, 1000.0, 1.0);
            var feed := [Feed(Bar(0, 2000.0, 2000.0, 2000.0), Bundle(None, None, 0.0, [])),
                         Feed(Bar(1, 2000.0, 1985.0, 1986.0), Bundle(None, None, 0.0, []))];
            && Journaled(cfg, spec, t, feed, 0).r == 0.0
            && ReplayR(cfg, spec, t, Suffix(Tape([], feed, []), 0)) == -1.0
  {
    var spec := SymbolSpec(0.0, 0.01, 0.01);
    var t := Trade(Long, 2000.0, 1990.0, None, None, None, 1000.0, 1.0);
    var f0 := Feed(Bar(0, 2000.0, 2000.0, 2000.0), Bundle(None, None, 0.0, []));
    var f1 := Feed(Bar(1, 2000.0, 1985.0, 1986.0), Bundle(None, None, 0.0, []));
    var feed := [f0, f1];
    assert feed[1..] == [] + [f1];
    ManageExtend(EngineEnv(cfg, spec), t, [], f1);
    TapeSuffix([], feed, [], 0);
    assert Feeds(Records(feed[1..])) + Feeds([]) == [] + [FeedOf(RecordOf(f1))];
    ManageExtend(ReplayEnv(cfg, spec), t, [], FeedOf(RecordOf(f1)));
  }

  /** Replaying the tape of any sequence of runs reproduces the journal rows of one of them, however
      its trades overlapped: of the last run every row, of an earlier run each row whose trade left
      before the run ended. `base` rows were journaled before that run. */
  lemma TapeReproducesJournal(cfg: ExitConfig, spec: SymbolSpec, before: seq<TapeRecord>, feed: seq<Feed>,
                              after: seq<TapeRecord>, entryAt: seq<nat>, base: nat, journal: seq<Row>, k: nat)
    requires Projectable(cfg.rules) && spec.contractSize != 0.0
    requires RunJournaled(EngineEnv(cfg, spec), feed, entryAt, base, journal)
    requires k < |entryAt| && entryAt[k] + 1 < |feed|
    requires after == []
             || Manage(EngineEnv(cfg, spec), journal[base + k].trade, feed[entryAt[k] + 1..]).Exited?
    ensures journal[base + k].close.Some?
    ensures EntryR(cfg, spec, Tape(before, feed, after), TapeEntries(entryAt, journal, base, |before|)[k])
            == journal[base + k].close.value.r
  {
    hide Manage, Tape, ReplayR, Step, Feeds, Records;
    ReplayMatchesJournal(cfg, spec, journal[base + k].trade, before, feed, after, entryAt[k]);
  }

  /** No journaled trade loses more than its initial risk on its whole volume, through any exit
      path, the forced close at the end of the run included. */
  lemma JournaledLossBounded(cfg: ExitConfig, spec: SymbolSpec, t: Trade, feed: seq<Feed>, e: nat)
    requires EngineEnv(cfg, spec).Ok() && t.TargetsBeyondStop() && t.initialVolume > 0.0
    requires e < |feed| && (e + 1 == |feed| ==> t.side.NoWorse(feed[e].bar.close, t.initialSl))
    requires forall i | 0 <= i < |feed| :: feed[i].bar.Consistent()
    ensures Journaled(cfg, spec, t, feed, e).pnl >= -t.InitialRisk() * t.initialVolume * spec.contractSize
  {
    var env := EngineEnv(cfg, spec);
    var later := feed[e + 1..];
    ManageRespectsStop(env, t, later);
    var m := Manage(env, t, later);
    if later != [] { assert later[|later| - 1] == feed[|feed| - 1]; }
    WorstCaseLoss(env, t, m.st, LeavePrice(m, feed[|feed| - 1].bar.close));
  }

  // ---------------------------------------------------------------- whole runs

  /** What a trade may lose at most: its initial risk on its whole volume. */
  function AtRisk(spec: SymbolSpec, t: Trade): real { t.InitialRisk() * t.initialVolume * spec.contractSize }

  /** A trade that was sized and aimed sensibly: a volume, targets beyond the stop, and, if entered
      on the last bar, a close on the right side of the stop. */
  ghost predicate SoundEntry(t: Trade, feed: seq<Feed>, e: nat)
    requires e < |feed|
  {
    && t.initialVolume > 0.0 && t.TargetsBeyondStop()
    && (e + 1 == |feed| ==> t.side.NoWorse(feed[e].bar.close, t.initialSl))
  }

  function RiskAtStake(spec: SymbolSpec, journal: seq<Row>): seq<real> {
    seq(|journal|, i requires 0 <= i < |journal| => AtRisk(spec, journal[i].trade))
  }

  lemma {:induction false} SumDominates(xs: seq<real>, ys: seq<real>)
    requires |xs| == |ys| && forall i | 0 <= i < |xs| :: xs[i] >= -ys[i]
    ensures Sum(xs) >= -Sum(ys)
  {
    if xs != [] { SumDominates(xs[..|xs| - 1], ys[..|ys| - 1]); }
  }

  lemma {:induction false} SumSplits(xs: seq<real>, n: nat)
    requires n <= |xs|
    ensures Sum(xs) == Sum(xs[..n]) + Sum(xs[n..])
    decreases |xs|
  {
    if n == |xs| {
      assert xs[..n] == xs;
    } else {
      var k := |xs| - 1;
      SumSplits(xs[..k], n);
      assert xs[..k][..n] == xs[..n] && xs[n..][..k - n] == xs[..k][n..];
    }
  }

  /** A finished run never costs more than the sum of what its trades put at risk, however they
      overlapped, whatever the managers answered and whatever the engine traded before it:
      `balance0` is the account after the first `base` rows. */
  lemma AccountLossBounded(cfg: ExitConfig, spec: SymbolSpec, feed: seq<Feed>, entryAt: seq<nat>, base: nat,
                           initial: real, balance0: real, riskLog0: seq<real>, fills0: seq<Fill>,
                           balance: real, journal: seq<Row>, riskLog: seq<real>, fills: seq<Fill>)
    requires EngineEnv(cfg, spec).Ok() && RunJournaled(EngineEnv(cfg, spec), feed, entryAt, base, journal)
    requires LedgerOk(initial, balance0, journal[..base], map[], map[], riskLog0, fills0)
    requires LedgerOk(initial, balance, journal, map[], map[], riskLog, fills)
    requires forall i | 0 <= i < |feed| :: feed[i].bar.Consistent()
    requires forall k | 0 <= k < |entryAt| :: SoundEntry(journal[base + k].trade, feed, entryAt[k])
    ensures balance >= balance0 - Sum(RiskAtStake(spec, journal[base..]))
  {
    hide LedgerOk, JournalClose;
    LedgerFacts(initial, balance0, journal[..base], map[], map[], riskLog0, fills0);
    LedgerFacts(initial, balance, journal, map[], map[], riskLog, fills);
    var booked, risk := Booked(journal, map[]), RiskAtStake(spec, journal[base..]);
    forall k | 0 <= k < |entryAt|
      ensures booked[base..][k] >= -risk[k]
    {
      JournaledLossBounded(cfg, spec, journal[base + k].trade, feed, entryAt[k]);
      assert journal[base + k].close == Some(Journaled(cfg, spec, journal[base + k].trade, feed, entryAt[k]));
    }
    SumDominates(booked[base..], risk);
    SumSplits(booked, base);
    assert booked[..base] == Booked(journal[..base], map[]);
  }

  /** While a trade is open its row is unjournaled, its peak is the best price since the fill, and
      its stop is at least as tight as the first one. */
  lemma OpenTradeState(env: Env, feed: seq<Feed>, entryAt: seq<nat>, base: nat, journal: seq<Row>,
                       open: map<nat, Position>, k: nat)
    requires env.step > 0.0 && AllTrack(env, feed, entryAt, base, journal, open)
    requires k < |entryAt| && base + k in open
    ensures journal[base + k].close.None? && open[base + k].trade == journal[base + k].trade && entryAt[k] < |feed|
    ensures var Position(t, s) := open[base + k];
            IsPeak(t, feed[entryAt[k] + 1..], s.peak) && t.side.NoWorse(s.sl, t.initialSl)
  {
    assert Tracks(env, feed, entryAt[k], journal[base + k], base + k, open);
    hide Step;
    var t, later := journal[base + k].trade, feed[entryAt[k] + 1..];
    PeakIsExtreme(env, t, later);
    StopOnlyImproves(env, t, later, 0);
    assert Manage(env, t, later[..0]) == Live(InitState(t));
  }

  // ---------------------------------------------------------------- a recorded run, replayed

  /** The R multiples a journal holds. */
  function RColumn(journal: seq<Row>): seq<real>
    requires forall i | 0 <= i < |journal| :: journal[i].close.Some?
  {
    seq(|journal|, i requires 0 <= i < |journal| => journal[i].close.value.r)
  }

  /** The trade entered on bar `e` has a later bar, or was filled at that bar's close. */
  predicate Replayable(t: Trade, feed: seq<Feed>, e: nat)
    requires e < |feed|
  {
    e + 1 < |feed| || feed[e].bar.close == t.entry
  }

  /** One replayed R per row, in order, and each is the journaled one exactly when its trade is
      replayable. */
  ghost predicate Replayed(feed: seq<Feed>, entryAt: seq<nat>, journal: seq<Row>, rs: seq<real>) {
    && |rs| == |journal| == |entryAt|
    && forall k | 0 <= k < |entryAt| ::
         && entryAt[k] < |feed| && journal[k].close.Some? && journal[k].openTime == feed[entryAt[k]].bar.time
         && (rs[k] == journal[k].close.value.r <==> Replayable(journal[k].trade, feed, entryAt[k]))
  }

  lemma RowReplays(cfg: ExitConfig, spec: SymbolSpec, proposals: seq<Option<Proposal>>, feed: seq<Feed>,
                   entryAt: seq<nat>, journal: seq<Row>, k: nat)
    requires Projectable(cfg.rules) && spec.contractSize != 0.0 && |feed| <= |proposals|
    requires EntriesMatch(proposals, feed, entryAt, 0, journal)
    requires RunJournaled(EngineEnv(cfg, spec), feed, entryAt, 0, journal) && k < |entryAt|
    ensures |journal| == |entryAt| && entryAt[k] < |feed|
    ensures journal[k].close.Some? && journal[k].openTime == feed[entryAt[k]].bar.time
    ensures EntryR(cfg, spec, Records(feed), TapeEntries(entryAt, journal, 0, 0)[k]) == journal[k].close.value.r
            <==> Replayable(journal[k].trade, feed, entryAt[k])
  {
    hide Manage, ReplayR, Records, JournalClose, Suffix;
    assert OpenedAs(proposals, feed, entryAt[k], journal[0 + k]);
    assert Tape([], feed, []) == Records(feed);
    ReplayEqualsJournalIff(cfg, spec, journal[k].trade, [], feed, [], entryAt[k]);
  }

  lemma RowsReplay(cfg: ExitConfig, spec: SymbolSpec, proposals: seq<Option<Proposal>>, feed: seq<Feed>,
                   entryAt: seq<nat>, journal: seq<Row>, rs: seq<real>)
    requires Projectable(cfg.rules) && spec.contractSize != 0.0 && |feed| <= |proposals|
    requires EntriesMatch(proposals, feed, entryAt, 0, journal) && |journal| == |entryAt|
    requires RunJournaled(EngineEnv(cfg, spec), feed, entryAt, 0, journal) && |rs| == |entryAt|
    requires forall k | 0 <= k < |rs| ::
               rs[k] == EntryR(cfg, spec, Records(feed), TapeEntries(entryAt, journal, 0, 0)[k])
    ensures Replayed(feed, entryAt, journal, rs)
  {
    hide EntriesMatch, RunJournaled, Records, EntryR, Replayable;
    forall k | 0 <= k < |entryAt|
      ensures entryAt[k] < |feed| && journal[k].close.Some? && journal[k].openTime == feed[entryAt[k]].bar.time
      ensures rs[k] == journal[k].close.value.r <==> Replayable(journal[k].trade, feed, entryAt[k])
    {
      RowReplays(cfg, spec, proposals, feed, entryAt, journal, k);
    }
  }

  /** If nothing was entered on the last bar, the replay's list is the journal's column. */
  lemma ReplayedColumn(feed: seq<Feed>, entryAt: seq<nat>, journal: seq<Row>, rs: seq<real>)
    requires Replayed(feed, entryAt, journal, rs) && forall k | 0 <= k < |entryAt| :: entryAt[k] + 1 < |feed|
    ensures rs == RColumn(journal)
  {
  }

  lemma EntriesLength(proposals: seq<Option<Proposal>>, feed: seq<Feed>, entryAt: seq<nat>, journal: seq<Row>)
    requires |feed| <= |proposals| && EntriesMatch(proposals, feed, entryAt, 0, journal)
    ensures |journal| == |entryAt| == |TapeEntries(entryAt, journal, 0, 0)|
  {
  }

  /** Record one run of a fresh engine and replay its tape: the replay lists the journal's R column,
      except for trades entered on the last bar at another price than its close. */
  method RecordAndReplay(cfg: ExitConfig, spec: SymbolSpec, initialBalance: real, prior: seq<Row>, bars: seq<Bar>,
                         bundles: seq<Bundle>, proposals: seq<Option<Proposal>>, startDate: int, endDate: int,
                         maxBars: Option<int>)
    returns (engine: BacktestEngine, res: Result<RunResult, RunError>, stats: ReplayStats,
             ghost lo: int, ghost feed: seq<Feed>, ghost entryAt: seq<nat>)
    requires |bundles| == |proposals| == |bars| && Projectable(cfg.rules) && spec.contractSize != 0.0
    ensures forall k | 0 <= k < |feed| :: 0 <= lo + k < |bars| && feed[k] == Feed(bars[lo + k], bundles[lo + k])
    ensures Replayed(feed, entryAt, engine.journal, stats.rList)
    ensures stats.n == |engine.journal| && stats.totalR == Sum(stats.rList)
    ensures (forall k | 0 <= k < |entryAt| :: entryAt[k] + 1 < |feed|) ==> stats.rList == RColumn(engine.journal)
  {
    hide LedgerOk, EntriesMatch, RunJournaled, Report, Records, TapeEntries, EntryR, Sum, Wins, Losses;
    engine := new BacktestEngine(cfg, spec, initialBalance, true, prior);
    ghost var hi;
    res, lo, hi, feed, entryAt := engine.Run(bars, bundles, proposals, startDate, endDate, maxBars);
    stats := ReplayTape(engine.tapeBars, engine.tapeEntries, cfg, spec);
    if res.Err? || hi <= lo {
      feed, entryAt := [], [];
    } else {
      EntriesLength(proposals[lo..], feed, entryAt, engine.journal);
      assert engine.tapeBars == Records(feed) && engine.tapeEntries == TapeEntries(entryAt, engine.journal, 0, 0);
      RowsReplay(cfg, spec, proposals[lo..], feed, entryAt, engine.journal, stats.rList);
    }
    if forall k | 0 <= k < |entryAt| :: entryAt[k] + 1 < |feed| {
      ReplayedColumn(feed, entryAt, engine.journal, stats.rList);
    }
  }
}
