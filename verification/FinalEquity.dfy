/** The reported final equity against the account: the exact difference, and the three kinds of
    input on which they part, a run of more trades than a listing holds, a journal that is not the
    engine's own, and a window of fewer than two bars after the engine has traded. */
module FinalEquity {
  import opened Common
  import opened ExitModel
  import opened ExitTape
  import opened ExitEquivalence
  import opened Journal
  import opened Engine

  /** Reported equity minus balance: the listed rows of others, less the own rows not listed. */
  lemma FinalEquityGap(initial: real, balance: real, prior: seq<Row>, journal: seq<Row>, riskLog: seq<real>,
                       fills: seq<Fill>, nBars: nat)
    requires LedgerOk(initial, balance, journal, map[], map[], riskLog, fills)
    ensures var rows := prior + journal;
            var listed, own := Chosen(Listing(rows)), Own(rows, |prior|);
            Report(initial, rows, nBars).finalEquity - balance
            == Sum(Masked(rows, listed - own)) - Sum(Masked(rows, own - listed))
  {
    LedgerFacts(initial, balance, journal, map[], map[], riskLog, fills);
    hide LedgerOk, Report, Listing, Masked, Booked;
    BookedIsOwn(prior, journal);
    ReportGap(initial, prior + journal, |prior|, nBars);
  }

  // ---------------------------------------------------------------- more trades than a listing holds

  lemma {:induction false} SumPositive(xs: seq<real>, k: nat)
    requires k < |xs| && xs[k] > 0.0 && forall i | 0 <= i < |xs| :: xs[i] >= 0.0
    ensures Sum(xs) > 0.0
  {
    var n := |xs| - 1;
    if k < n {
      SumPositive(xs[..n], k);
    } else {
      SumNotNegative(xs[..n]);
    }
  }

  lemma {:induction false} SumNotNegative(xs: seq<real>)
    requires forall i | 0 <= i < |xs| :: xs[i] >= 0.0
    ensures Sum(xs) >= 0.0
  {
    if xs != [] { SumNotNegative(xs[..|xs| - 1]); }
  }

  /** With more rows than a listing holds, some row is not listed. */
  lemma SomeDropped(rows: seq<Row>) returns (k: nat)
    requires |rows| > LIST_LIMIT
    ensures k < |rows| && k in Own(rows, 0) - Chosen(Listing(rows)) && Chosen(Listing(rows)) - Own(rows, 0) == {}
    ensures |Listing(rows)| == LIST_LIMIT
  {
    ListingIsFirst(rows);
    DistinctSize(rows, Listing(rows));
    OwnSize(rows, 0);
    hide Listing;
    SameSizeOr(Own(rows, 0), Chosen(Listing(rows)));
    k :| k in Own(rows, 0) - Chosen(Listing(rows));
  }

  lemma SameSizeOr(a: set<nat>, b: set<nat>)
    requires |a| > |b|
    ensures exists x :: x in a - b
  {
    assert |a| == |a * b| + |a - b| && |b| == |a * b| + |b - a|;
    SomeIn(a - b);
  }

  /** If every trade won, those past the limit are on the balance and missing from the report. */
  lemma WinnersDropped(initial: real, balance: real, journal: seq<Row>, riskLog: seq<real>, fills: seq<Fill>,
                       nBars: nat)
    requires LedgerOk(initial, balance, journal, map[], map[], riskLog, fills)
    requires |journal| > LIST_LIMIT && forall i | 0 <= i < |journal| :: PnlOf(journal[i]) > 0.0
    ensures Report(initial, [] + journal, nBars).finalEquity < balance
    ensures Report(initial, [] + journal, nBars).nTrades == LIST_LIMIT < |journal|
  {
    hide LedgerOk, Report, Listing, Masked, Own, Chosen, PnlOf;
    FinalEquityGap(initial, balance, [], journal, riskLog, fills, nBars);
    assert [] + journal == journal;
    DroppedSum(journal);
  }

  lemma DroppedSum(rows: seq<Row>)
    requires |rows| > LIST_LIMIT && forall i | 0 <= i < |rows| :: PnlOf(rows[i]) > 0.0
    ensures Sum(Masked(rows, Own(rows, 0) - Chosen(Listing(rows)))) > 0.0
    ensures Sum(Masked(rows, Chosen(Listing(rows)) - Own(rows, 0))) == 0.0
    ensures |Listing(rows)| == LIST_LIMIT
  {
    hide Listing, PnlOf, Own, Chosen;
    var k := SomeDropped(rows);
    NothingMasked(rows, |rows|);
    assert Masked(rows, {})[..|rows|] == Masked(rows, {});
    SumPositive(Masked(rows, Own(rows, 0) - Chosen(Listing(rows))), k);
  }

  /** Nothing happens to an unarmed trade without targets on bars that stay away from its stop. */
  lemma {:induction false} ManageQuiet(env: Env, t: Trade, feed: seq<Feed>)
    requires env.step > 0.0 && forall i | 0 <= i < |feed| :: Quiet(env, t, InitState(t), feed[i])
    ensures var m := Manage(env, t, feed); m.Live? && m.st == InitState(t).(peak := m.st.peak)
    decreases |feed|
  {
    hide Step;
    if feed != [] {
      var n := |feed| - 1;
      ManageQuiet(env, t, feed[..n]);
      QuietStep(env, t, Manage(env, t, feed[..n]).st, feed[n]);
    }
  }

  /** Flat at 2000 for `n` bars, then one bar at 2001. */
  function BusyPrice(n: nat, j: nat): real { if j < n then 2000.0 else 2001.0 }

  function BusyBars(n: nat): seq<Bar> {
    seq(n + 1, j requires j >= 0 => Bar(j, BusyPrice(n, j), BusyPrice(n, j), BusyPrice(n, j)))
  }

  const NO_FEATURES: Bundle := Bundle(None, None, 0.0, [])

  function BusyBundles(n: nat): seq<Bundle> { seq(n + 1, _ => NO_FEATURES) }

  /** One lot long, stopped at 1000, without targets. */
  const BUSY_PROPOSAL: Proposal := Proposal(Long, Some(1000.0), None, None, None, 1.0, 1.0, 0.0, 0.0)

  /** A proposal at every flat bar. */
  function BusyProposals(n: nat): seq<Option<Proposal>> {
    seq(n + 1, j => if j < n then Some(BUSY_PROPOSAL) else None)
  }

  ghost predicate IsBusy(n: nat, feed: seq<Feed>) {
    |feed| == n + 1 && forall j | 0 <= j < |feed| :: feed[j] == Feed(BusyBars(n)[j], NO_FEATURES)
  }

  ghost predicate NeverFlat(cfg: ExitConfig) {
    cfg.trailActivateR <= 0.0 && forall time: int, offset: real :: !cfg.rules.flatten(time, offset)
  }

  function Unit(): SymbolSpec { SymbolSpec(1.0, 0.01, 0.01) }

  /** Each of these trades wins 1 at the forced close. */
  lemma BusyTradeWins(cfg: ExitConfig, n: nat, feed: seq<Feed>, e: nat)
    requires NeverFlat(cfg) && e < n && IsBusy(n, feed)
    ensures Journaled(cfg, Unit(), TradeFrom(BUSY_PROPOSAL, 2000.0), feed, e).pnl == 1.0
  {
    hide Manage;
    var env, t := EngineEnv(cfg, Unit()), TradeFrom(BUSY_PROPOSAL, 2000.0);
    var later := feed[e + 1..];
    forall i | 0 <= i < |later|
      ensures Quiet(env, t, InitState(t), later[i])
    {
      assert later[i] == feed[e + 1 + i];
    }
    ManageQuiet(env, t, later);
  }

  lemma {:induction false} AllThere(entryAt: seq<nat>, n: nat)
    requires forall j: nat | j < n :: j in entryAt
    ensures |entryAt| >= n
    decreases |entryAt|
  {
    if n > 0 {
      var last: nat := n - 1;
      assert last in entryAt;
      var k :| 0 <= k < |entryAt| && entryAt[k] == last;
      var rest := entryAt[..k] + entryAt[k + 1..];
      forall j: nat | j < last
        ensures j in rest
      {
        assert j in entryAt;
        var i :| 0 <= i < |entryAt| && entryAt[i] == j;
        assert j == if i < k then rest[i] else rest[i - 1];
      }
      AllThere(rest, last);
    }
  }

  lemma {:induction false} Increasing(entryAt: seq<nat>, k: nat)
    requires k < |entryAt| && forall i, j | 0 <= i < j < |entryAt| :: entryAt[i] < entryAt[j]
    ensures entryAt[k] >= k
  {
    if k > 0 { Increasing(entryAt, k - 1); }
  }

  /** What the contract of a run says on this input: one row per flat bar, all winners. */
  lemma BusyRun(cfg: ExitConfig, n: nat, feed: seq<Feed>, entryAt: seq<nat>, journal: seq<Row>)
    requires NeverFlat(cfg) && IsBusy(n, feed)
    requires EntriesMatch(BusyProposals(n), feed, entryAt, 0, journal)
    requires RunJournaled(EngineEnv(cfg, Unit()), feed, entryAt, 0, journal)
    ensures |journal| == n && forall i | 0 <= i < |journal| :: PnlOf(journal[i]) == 1.0
  {
    hide JournalClose, Manage;
    forall j: nat | j < n
      ensures j in entryAt
    {
      assert Opens(BusyProposals(n)[j], feed[j].bar.close);
    }
    AllThere(entryAt, n);
    forall i | 0 <= i < |journal|
      ensures entryAt[i] < n && PnlOf(journal[i]) == 1.0
    {
      assert OpenedAs(BusyProposals(n), feed, entryAt[i], journal[i]);
      BusyTradeWins(cfg, n, feed, entryAt[i]);
      assert journal[i].close == Some(Journaled(cfg, Unit(), journal[i].trade, feed, entryAt[i]));
    }
    if entryAt != [] { Increasing(entryAt, |entryAt| - 1); }
  }

  lemma BusyLengths(n: nat)
    ensures |BusyBars(n)| == |BusyBundles(n)| == |BusyProposals(n)| == n + 1
    ensures BusyBars(n)[0].time == 0 && BusyBars(n)[n].time == n
  {
  }

  /** A fresh engine that trades on each of `n` flat bars. */
  method BusyEngine(cfg: ExitConfig, n: nat) returns (engine: BacktestEngine, res: RunResult)
    requires NeverFlat(cfg) && 0 < n < 5000
    ensures fresh(engine) && engine.Valid() && engine.open == map[] && engine.book == map[]
    ensures engine.prior == [] && engine.initialBalance == 10000.0 && engine.balance == engine.equity
    ensures |engine.journal| == n && forall i | 0 <= i < n :: PnlOf(engine.journal[i]) == 1.0
    ensures res == Report(10000.0, [] + engine.journal, n + 1)
  {
    hide LedgerOk, EntriesMatch, RunJournaled, Report, Records, TapeEntries, BusyProposals;
    engine := new BacktestEngine(cfg, Unit(), 10000.0, false, []);
    BusyLengths(n);
    var bars := BusyBars(n);
    var r, lo, hi, feed, entryAt := engine.Run(bars, BusyBundles(n), BusyProposals(n), 0, 5000, None);
    res := r.value;
    assert lo == 0 && hi == n;
    assert BusyProposals(n)[lo..] == BusyProposals(n);
    BusyRun(cfg, n, feed, entryAt, engine.journal);
  }

  /** A run that reports less than the account holds: 1001 trades, of which 1000 are listed. */
  method MoreTradesThanListed(cfg: ExitConfig) returns (engine: BacktestEngine, res: RunResult)
    requires NeverFlat(cfg)
    ensures engine.prior == [] && res.nTrades == 1000 && |engine.journal| == 1001
    ensures res.finalEquity < engine.balance == engine.equity
  {
    hide LedgerOk, Report;
    engine, res := BusyEngine(cfg, 1001);
    WinnersDropped(10000.0, engine.balance, engine.journal, engine.riskLog, engine.fills, 1002);
  }

  // ---------------------------------------------------------------- a short window after trading

  /** After one winning trade, a run over a window without bars reports the initial balance and no
      trades, although the journal was empty at first and holds one row. */
  method EmptyWindowForgets(cfg: ExitConfig) returns (engine: BacktestEngine, res: RunResult)
    requires NeverFlat(cfg)
    ensures engine.prior == [] && |engine.journal| == 1 && engine.balance == 10001.0
    ensures res == RunResult(0, 0, 0, 10000.0)
  {
    hide LedgerOk, EntriesMatch, RunJournaled, Report, Records, TapeEntries, BusyBars;
    var first;
    engine, first := BusyEngine(cfg, 1);
    engine.Facts();
    OneWin(engine.journal);
    var bars := [Bar(0, 2000.0, 2000.0, 2000.0)];
    var r, lo, hi, feed, entryAt := engine.Run(bars, [NO_FEATURES], [None], 10, 20, None);
    assert bars[0].time == 0;
    assert lo == 1 && hi == 0;
    res := r.value;
  }

  lemma OneWin(journal: seq<Row>)
    requires |journal| == 1 && PnlOf(journal[0]) == 1.0
    ensures Sum(Booked(journal, map[])) == 1.0
  {
    assert Booked(journal, map[]) == [] + [1.0];
    SumAppend([], 1.0);
  }

  // ---------------------------------------------------------------- a journal that holds other rows

  /** A row someone else closed at a profit of 5. */
  const FOREIGN: Row :=
    Row(Trade(Long, 2000.0, 1990.0, None, None, None, 1.0, 1.0), 0, Some(CloseRow(1, 2005.0, 5.0, 5.0, Manual)))

  /** A run without trades on a journal that held one row reports that row's profit as its own. */
  method ForeignRowReported(cfg: ExitConfig) returns (engine: BacktestEngine, res: RunResult)
    ensures engine.journal == [] && engine.balance == 10000.0
    ensures res.nTrades == 1 && res.finalEquity == 10005.0
  {
    hide LedgerOk, RunJournaled, Report, Records, TapeEntries;
    engine := new BacktestEngine(cfg, Unit(), 10000.0, false, [FOREIGN]);
    var bars := [Bar(0, 2000.0, 2000.0, 2000.0), Bar(1, 2000.0, 2000.0, 2000.0)];
    var r, lo, hi, feed, entryAt := engine.Run(bars, [NO_FEATURES, NO_FEATURES], [None, None], 0, 1, None);
    assert bars[0].time == 0 && bars[1].time == 1;
    assert lo == 0 && hi == 1;
    res := r.value;
    NoEntries([None, None][lo..], feed, entryAt, 0, engine.journal);
    engine.Facts();
    FinalEquityGap(10000.0, engine.balance, [FOREIGN], [], engine.riskLog, engine.fills, |feed|);
    OneForeign();
  }

  lemma NoEntries(proposals: seq<Option<Proposal>>, feed: seq<Feed>, entryAt: seq<nat>, base: nat, journal: seq<Row>)
    requires |feed| <= |proposals| && EntriesMatch(proposals, feed, entryAt, base, journal)
    requires forall i | 0 <= i < |proposals| :: proposals[i].None?
    ensures |journal| == base
  {
    if entryAt != [] {
      FirstEntry(proposals, feed, entryAt, base, journal);
      assert false;
    }
  }

  lemma FirstEntry(proposals: seq<Option<Proposal>>, feed: seq<Feed>, entryAt: seq<nat>, base: nat, journal: seq<Row>)
    requires |feed| <= |proposals| && EntriesMatch(proposals, feed, entryAt, base, journal) && entryAt != []
    ensures entryAt[0] < |proposals| && proposals[entryAt[0]].Some?
  {
    assert OpenedAs(proposals, feed, entryAt[0], journal[base + 0]);
  }

  lemma OneForeign()
    ensures var rows := [FOREIGN] + [];
            var listed, own := Chosen(Listing(rows)), Own(rows, 1);
            Sum(Masked(rows, listed - own)) == 5.0 && Sum(Masked(rows, own - listed)) == 0.0
  {
    var rows := [FOREIGN] + [];
    var first: nat := 0;
    assert first in Listing(rows) && Own(rows, 1) == {};
    assert Masked(rows, Chosen(Listing(rows)) - {}) == [] + [5.0];
    SumAppend([], 5.0);
    assert Masked(rows, {} - Chosen(Listing(rows))) == [] + [0.0];
    SumAppend([], 0.0);
  }
}
