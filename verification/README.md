# Verification of the trading bot's backtest core

This project models the parts of the XAUUSD bot whose correctness is easiest to lose, and proves
what they promise:

- **The multi-tier exit of a trade.** It exists twice: as `BacktestEngine`, which walks all open
  trades over one shared paper account, and as the offline replay of a recorded tape. `ExitModel`
  describes one trade alone (`Step` for one bar, `Manage` for a tape). The engine and the replay
  are methods proved against it, so trades sharing an account are shown not to influence each
  other, and the replay is shown to reproduce the engine's journal.
- **Bar aggregation.** The incremental OHLC builder with its tick cascade, and the dashboard's
  batch resampler. Both meet a grouping specification, both agree, and aggregation composes along
  the timeframe table.
- **The MQL5 scanner.** The comment and literal stripper against a token grammar, and the brace
  checker against a stack matching and the grammar of balanced braces.
- **The paper broker's ledger**, **the websocket broker's two indexes** under every interleaving,
  **walk-forward windows** with their calendar arithmetic, **the one-pass drawdown duration** and
  **the interpolated percentiles** of the spread monitor.

Prices, volumes and money are exact reals; times are integer microseconds. `dafny verify
dfyconfig.toml` checks everything.

## How the files fit together

| file | content |
|---|---|
| `Common.dfy` | options, results, sums |
| `ExitModel.dfy` | one trade: state, one bar, a tape, stop and loss invariants |
| `ExitMeaning.dfy` | what one bar does to a trade, in prices, lots and money alone |
| `ExitTape.dfy` | what a tape record keeps of a bar, and why the managers see nothing else |
| `ExitReplay.dfy` | the offline replay of one trade and of a whole tape |
| `Journal.dfy` | journal rows, the bounded listing, and results built from it |
| `BacktestEngine.dfy` | the engine: account, broker book, journal, main loop |
| `ExitEquivalence.dfy` | journal against replay over any number of runs, loss bounds over whole runs |
| `RunMeaning.dfy` | what a run opens and how it journals, in proposals, prices and money alone |
| `FinalEquity.dfy` | reported final equity against the account |
| `Bars.dfy`, `OhlcBuilder.dfy` | aggregation as a specification, and the incremental builder |
| `TickBars.dfy` | the minute bars of a tick stream, in bid and ask alone |
| `Resample.dfy`, `ResampleAgreement.dfy` | the batch resampler, and its agreement with the builder |
| `Mql5Strip.dfy`, `Mql5Braces.dfy` | stripper and brace checker |
| `PaperBroker.dfy`, `WebSocketBroker.dfy` | the two brokers |
| `Calendar.dfy`, `WalkForward.dfy` | calendar arithmetic and the window loop |
| `Drawdown.dfy`, `SpreadMonitor.dfy` | drawdown duration and percentiles |

## Where the code does not keep its word

Each of these is a proved statement about the code as it is, with the exact condition.

- *The replay mirrors the engine exactly* (`exit_replay.py:9-13`). What a caller can check: the
  contract size is not zero, and the trade left within its own run or that run is the last one on
  the tape. Then `ReplayEqualsJournalIff` says it is true exactly when the trade has a bar after its
  entry bar or was filled at that bar's close; for an entry on the last bar of the tape the replay
  answers 0 and the engine books the entry cost. Outside those guards no condition short of the
  outcome decides it. A trade still open when an earlier run ended is replayed on into the next
  run's bars (`LaterRunDiffers`: 0.1 R journaled, -1 R replayed), and the lemma says what is
  replayed. With a contract size of zero every journaled R is 0 while the replay assumes 100
  (`ZeroContractIff`, `ZeroContractDiffers`). `RecordAndReplay` puts a whole recorded run and its
  replay side by side.
- *The reported final equity is the account's* (`engine.py:1382-1433`). Three kinds of input break
  it. The result is built from a listing of the journal, which stops after 1000 rows
  (`MoreTradesThanListed`) and includes rows that were there before the engine
  (`ForeignRowReported`); and a run over a window of fewer than two bars reports the initial
  balance whatever the engine has traded before (`EmptyWindowForgets`). For a window that is walked,
  `FinalEquityGap` gives the difference exactly, `ReportsOwnIff` says when the listing is the
  engine's own rows and all of them, and with a journal that was empty and at most 1000 trades `Run`
  reports the balance. For a shorter window `Run` reports it exactly when the balance is the initial
  one.
- *Keeps line breaks* (`check_mql5_syntax.py:118-119`). `LineBreaksKeptIff`: exactly when no
  unterminated block comment swallows one.
- *Adding months preserves order.* `AddMonthsMonotoneIff`: exactly unless both days are clamped to
  the same month end while the earlier instant has the later time of day (`MonthsReorder`). Adding
  a positive number of months always advances.
- *The two indexes agree.* `StepKeepsIff`: a `connect` keeps agreement exactly when every topic the
  socket already had is among the new ones; every other step always keeps it. `IndexesAgreeIff`
  carries this to whole runs; `ReconnectLeavesStale` is a pair of connects that breaks it.
- *Resampler and builder use the same buckets.* `BucketsAgree`: exactly when the timestamp is not a
  fractional second before the epoch in the last second of a bucket.
- *Margin is the sum over the open positions.* Closing floors it at zero. While it is the sum, a
  close keeps it so exactly when the requirements of the remaining positions are not negative in
  total (`ClosePosition`, `ReleaseExactIff`). With a contract size and margin rate that are not
  negative and fills at prices that are not, every call keeps it (`MarginNonNegative`,
  `OpenPosition`, `Submit`, `ProcessBar`). `FloorBinds` is a sequence of calls, with one fill at a
  negative price, after which the margin is 0 and the sum is -10.
- *Walk-forward with a negative out-of-sample length.* `Run`: the backtest of the first window that
  fits rejects its slice, exactly when there is such a window.

## Model

| member | source | states |
|---|---|---|
| ExitModel.ManageExtend | src/xauusd_bot/backtest/exit_replay.py:156-190 | a trade's history is a fold: one more bar is one more step, and an exit is never undone |
| ExitModel.ExitIsFinal | src/xauusd_bot/backtest/exit_replay.py:156-190 | once out, a trade's outcome is the same for every continuation of the tape |
| ExitModel.ToStepFloors | src/xauusd_bot/backtest/engine.py:1208-1211 | the rounded volume is the largest whole number of lot steps not above the requested one |
| ExitMeaning.StopOnBar | src/xauusd_bot/backtest/engine.py:1100-1107 | a bar that trades through the stop leaves at the stop, before anything is booked |
| ExitMeaning.WeekendOnBar | src/xauusd_bot/backtest/engine.py:1109-1118 | otherwise the weekend leaves at the close, before anything is booked |
| ExitMeaning.TargetsOnBar | src/xauusd_bot/backtest/engine.py:1120-1139 | otherwise each target first reached books its own percentage at its own price, first the first, then the second on what is left; the first arms; without one volume and money stay |
| ExitMeaning.BookedOnce | src/xauusd_bot/backtest/engine.py:1208-1222 | what a partial close books is determined: lots rounded toward zero to lot steps, nothing below the minimum or not below what is left |
| ExitMeaning.RunnerOnBar | src/xauusd_bot/backtest/engine.py:1141-1162 | the runner leaves at its target, or at the close when armed and rejected, and lives on exactly otherwise |
| ExitMeaning.TrailOnBar | src/xauusd_bot/backtest/engine.py:1164-1190 | where peak, arming and stop stand after a bar the trade survives |
| ExitMeaning.FinalRMeaning | src/xauusd_bot/backtest/exit_replay.py:153-154 | R times the risked amount is the money of all legs |
| ExitMeaning.KnobsOf | src/xauusd_bot/backtest/engine.py:1208-1209 | lot step and minimum, a hundredth where the symbol gives none |
| ExitMeaning.FirstTargetPays | src/xauusd_bot/backtest/engine.py:1208-1222 | 30 percent of one lot at ten above the entry: 0.30 lots, 300 booked, 0.70 left |
| ExitModel.PartialKeeps | src/xauusd_bot/backtest/engine.py:1208-1226 | a partial close leaves a positive volume and never loses more than the initial risk on what it closed |
| ExitModel.StepRespectsStop | src/xauusd_bot/backtest/engine.py:1093-1190 | on a consistent bar no exit path leaves at a price beyond the initial stop, and a trade that survives closed on the right side of it |
| ExitModel.ManageRespectsStop | src/xauusd_bot/backtest/engine.py:1093-1190 | the same over every tape, whatever the trail proposes |
| ExitModel.LegLoss | src/xauusd_bot/backtest/engine.py:1237-1239 | a leg closed no worse than the stop loses at most the initial risk on its volume |
| ExitModel.WorstCaseLoss | src/xauusd_bot/backtest/engine.py:1237-1244 | partials plus final leg lose at most initial risk times initial volume times contract size |
| ExitModel.StepRatchets | src/xauusd_bot/backtest/engine.py:1166-1190 | the stop only moves in the trade's favour, only once armed, and no flag falls back |
| ExitModel.StopOnlyImproves | src/xauusd_bot/backtest/engine.py:1187-1190 | over any tape the stop is at least as good as it was after any earlier bar |
| ExitModel.PeakIsExtreme | src/xauusd_bot/backtest/engine.py:1167-1168 | the peak is the most favourable price among the fill and every walked bar |
| ExitTape.TapeBarRecord | src/xauusd_bot/backtest/engine.py:715-744 | the single backward scan finds the most recent swing of each kind |
| ExitTape.RebuildKeepsSwings | src/xauusd_bot/backtest/exit_replay.py:89-113 | the rebuilt bundle shows the same latest swing low and high as the original |
| ExitTape.LastSwingIs | src/xauusd_bot/backtest/engine.py:726-732 | the latest swing of a kind, or none |
| ExitTape.AnchorsAre | src/xauusd_bot/execution/stops.py:399-421 | where each anchor lies, for both sides |
| ExitTape.RunnerIs | src/xauusd_bot/execution/take_profit.py:330-360 | which events reject which side, and on which side of the target |
| ExitTape.TrailOnTape | src/xauusd_bot/execution/stops.py:393-424 | the stop manager's trail cannot tell a bundle from its tape projection |
| ExitTape.TrailIsTightest | src/xauusd_bot/execution/stops.py:366-434 | the trail proposes, up to rounding, the most protective of the anchors in force, the current stop among them |
| ExitTape.RunnerOnTape | src/xauusd_bot/execution/take_profit.py:330-360 | runner rejection cannot tell a bundle from its tape projection |
| ExitTape.ManagersAreProjectable | src/xauusd_bot/backtest/engine.py:715-721 | the tape captures everything the exit logic reads, for every knob setting |
| ExitTape.ManageOnTape | src/xauusd_bot/backtest/exit_replay.py:1-14 | managing the rebuilt tape is managing the original bars |
| ExitReplay.Partial | src/xauusd_bot/backtest/exit_replay.py:145-151 | the nested partial close changes realized pnl and volume the way the exit model does |
| ExitReplay.TrackAndTrail | src/xauusd_bot/backtest/exit_replay.py:178-188 | peak, arming and ratchet of the replay are those of the exit model |
| ExitReplay.ReplayBar | src/xauusd_bot/backtest/exit_replay.py:157-188 | one loop pass is one step of the exit model, exit price included |
| ExitReplay.ReplayEntry | src/xauusd_bot/backtest/exit_replay.py:116-190 | the early-return loop computes the R multiple of the managed trade |
| ExitReplay.ReplayTape | src/xauusd_bot/backtest/exit_replay.py:193-208 | one R per entry in order, their sum, and the counts of wins and losses beyond 1e-9 |
| RunMeaning.TallyCounts | src/xauusd_bot/backtest/exit_replay.py:204-207 | wins and losses are the numbers of trades beyond a billionth of R on either side |
| ExitReplay.NoLookAhead | src/xauusd_bot/backtest/exit_replay.py:156-190 | two tapes that agree up to the exit bar give the same R |
| Engine.FindFirstBarAtOrAfter | src/xauusd_bot/backtest/engine.py:697-702 | everything before the index is earlier, the bar at it is not |
| Engine.FindLastBarAtOrBefore | src/xauusd_bot/backtest/engine.py:704-712 | the longest prefix of bars that are not later |
| Engine.LedgerAfterPartial | src/xauusd_bot/backtest/engine.py:1217-1226 | a partial keeps money, volume and book accounts of every trade |
| Engine.LedgerAfterClose | src/xauusd_bot/backtest/engine.py:1242-1269 | settling only the final leg keeps the accounts: no partial is counted twice |
| Engine.LedgerAfterOpen | src/xauusd_bot/backtest/engine.py:1033-1056 | registering a position keeps the accounts |
| Engine.FillsAfter | src/xauusd_bot/backtest/engine.py:1217-1226 | a fill of one trade touches no other trade's account |
| Engine.BacktestEngine.PartialClose | src/xauusd_bot/backtest/engine.py:1192-1226 | account, risk total and state move by the same amount, or nothing moves |
| Engine.BacktestEngine.ClosePosition | src/xauusd_bot/backtest/engine.py:1228-1275 | the journal gets the blended outcome, account and risk total the final leg only, both books drop the position |
| Engine.BacktestEngine.TryOpenTrade | src/xauusd_bot/backtest/engine.py:882-1069 | exactly the proposals that pass the guards are registered, at the close plus half the spread and the slippage |
| RunMeaning.FillsAround | src/xauusd_bot/backtest/engine.py:916-919 | a buy and a sell fill a spread and twice the slippage apart, around the close |
| RunMeaning.EntriesAre | src/xauusd_bot/backtest/engine.py:882-910 | a bar opens a trade exactly when it has a proposal with a volume and a stop that is neither zero nor the close |
| RunMeaning.RowCarries | src/xauusd_bot/backtest/engine.py:1035-1056 | the trade has its proposal's side, stop, targets and amounts |
| RunMeaning.JournaledAs | src/xauusd_bot/backtest/engine.py:1237-1258 | price, time, reason, money and R of the row a trade leaves, or of the manual close at the last bar |
| RunMeaning.WindowIs | src/xauusd_bot/backtest/engine.py:539-541 | the whole window, or as many bars as the limit allows |
| Engine.BacktestEngine.TakeTargets | src/xauusd_bot/backtest/engine.py:1120-1139 | both partial targets, in order |
| Engine.BacktestEngine.TrackAndTrail | src/xauusd_bot/backtest/engine.py:1164-1190 | peak, arming and ratchet |
| Engine.BacktestEngine.WalkPosition | src/xauusd_bot/backtest/engine.py:1093-1190 | one position takes one step of the exit model; every other position and row is unchanged |
| Engine.BacktestEngine.WalkOpenPositions | src/xauusd_bot/backtest/engine.py:1071-1190 | every position open before the bar takes exactly one step |
| Engine.WalkKeepsTracks | src/xauusd_bot/backtest/engine.py:1093-1190 | non-interference: each row of a shared run shows what managing that trade alone shows |
| Engine.OpenKeepsTracks | src/xauusd_bot/backtest/engine.py:617-642 | a trade is never managed on its entry bar |
| Engine.BacktestEngine.UpdateMarks | src/xauusd_bot/connectors/paper_broker.py:183-190 | equity is balance plus the book's unrealized pnl, free margin follows |
| Engine.BacktestEngine.ProcessBar | src/xauusd_bot/backtest/engine.py:558-647 | record, mark, walk, then open: rows, tape and accounts after one bar |
| Engine.RunStateStep | src/xauusd_bot/backtest/engine.py:539-647 | one bar keeps the whole-run invariant on journal, tape and entries |
| Engine.BacktestEngine.WalkWindow | src/xauusd_bot/backtest/engine.py:539-647 | which bars are walked under a bar limit, and the run invariant after them |
| Engine.BacktestEngine.Flush | src/xauusd_bot/backtest/engine.py:661-671 | every position still open is closed once, at the last walked bar, and the balance moves by what the book was marked at there |
| Engine.MarkIsCloseOut | src/xauusd_bot/connectors/paper_broker.py:183-190 | marking the book at a price adds to the balance what closing every position there adds |
| Journal.ListingIsFirst | src/xauusd_bot/journal/store.py:437-457 | a listing holds the earliest rows in order, at most 1000, and leaves one out only when it is full of earlier ones |
| Journal.ReportGap | src/xauusd_bot/backtest/engine.py:1390-1433 | what a result says beyond the engine's own rows |
| Journal.ReportsOwnIff | src/xauusd_bot/backtest/engine.py:1390 | the exact condition under which the listing is the engine's own rows and all of them |
| Engine.ReportIsBalance | src/xauusd_bot/backtest/engine.py:1417-1433 | without other rows and within the limit, counts and equity are the account's |
| Engine.BacktestEngine.BuildResult | src/xauusd_bot/backtest/engine.py:1390-1433 | counts and final equity over the listed rows of the whole store |
| Engine.BacktestEngine.Run | src/xauusd_bot/backtest/engine.py:445-687 | books empty, every row closed exactly as if its trade had been alone, money conserved, tape complete, earlier rows untouched, the result that of the listing and, without other rows and within the limit, the balance; every error case; and a window of fewer than two bars, which reports the initial balance and so the account exactly when that is its balance |
| FinalEquity.FinalEquityGap | src/xauusd_bot/backtest/engine.py:1432-1433 | reported equity minus balance is the listed rows of others less the own rows not listed |
| FinalEquity.WinnersDropped | src/xauusd_bot/journal/store.py:442-457 | a run of more than 1000 winning trades reports less than the balance |
| FinalEquity.MoreTradesThanListed | src/xauusd_bot/journal/store.py:442-457 | a concrete run of 1001 trades that does |
| FinalEquity.EmptyWindowForgets | src/xauusd_bot/backtest/engine.py:1344-1373 | a concrete second run, over an empty window, that reports the initial balance and no trades |
| FinalEquity.ForeignRowReported | src/xauusd_bot/dashboard/api.py:777-778 | a concrete run without trades that reports the profit of a row it found |
| ExitEquivalence.ReplayRunsOn | src/xauusd_bot/backtest/exit_replay.py:196-200 | a replayed entry goes on through everything recorded after its bar, later runs included |
| ExitEquivalence.ReplayMatchesJournal | src/xauusd_bot/backtest/exit_replay.py:9-13 | replayed R equals journaled R for every trade with a bar after its entry that left within its run or belongs to the last one |
| ExitEquivalence.LastBarEntry | src/xauusd_bot/backtest/exit_replay.py:190 | an entry on the last bar is replayed as 0 and journaled with its entry cost |
| ExitEquivalence.ReplayEqualsJournalIff | src/xauusd_bot/backtest/exit_replay.py:116-190 | the exact condition under which the two agree, on a tape of any number of runs |
| ExitEquivalence.LaterRunDiffers | src/xauusd_bot/backtest/engine.py:393-395 | a second run on one engine that changes how a trade of the first is replayed |
| ExitEquivalence.ZeroContractIff | src/xauusd_bot/backtest/exit_replay.py:125 | with a zero contract size every journaled R is 0, so the two agree exactly when the replay under 100 gives 0 |
| ExitEquivalence.ZeroContractDiffers | src/xauusd_bot/backtest/exit_replay.py:125 | a zero contract size makes them differ: 0 against -1 R |
| ExitEquivalence.TapeReproducesJournal | src/xauusd_bot/backtest/engine.py:1057-1069 | replaying the tape of any sequence of runs reproduces the rows of each run, however the trades overlapped: all of the last, of earlier ones those that left in time |
| ExitEquivalence.JournaledLossBounded | src/xauusd_bot/backtest/engine.py:649-671 | the worst-case bound through every exit path, the forced close included |
| ExitEquivalence.AccountLossBounded | src/xauusd_bot/backtest/engine.py:1242-1266 | a finished run costs at most the sum of what its trades put at risk, whatever the engine traded before |
| ExitEquivalence.RecordAndReplay | src/xauusd_bot/backtest/exit_replay.py:1-14 | a recorded run of a fresh engine and the replay of its tape: one R per row in order, each the journaled one exactly when the trade has a later bar or was filled at the close, so the journal's R column if nothing was entered on the last bar |
| ExitEquivalence.OpenTradeState | src/xauusd_bot/backtest/engine.py:1035-1056 | what an open trade's stop, peak and row are at every loop head |
| Bars.RunsGroup | src/xauusd_bot/data/ohlc_builder.py:125-155 | every stream can be cut into maximal runs of one bucket |
| Bars.GroupingUnique | src/xauusd_bot/data/ohlc_builder.py:125-155 | in exactly one way |
| Bars.BarsMeetGrouping | src/xauusd_bot/data/ohlc_builder.py:106-156 | each bar is the aggregate of one maximal run, in order, none missing, for streams in any order |
| Bars.MergeAggregates | src/xauusd_bot/data/ohlc_builder.py:148-155 | extending keeps first open, extremes, last close, sums, and real volume present iff a member has it |
| Bars.TicksConserved | src/xauusd_bot/data/ohlc_builder.py:148-155 | tick volume is the same at every timeframe |
| Bars.BucketNests | src/xauusd_bot/data/ohlc_builder.py:43-49 | flooring to a divisor first does not move the floor, negative times included |
| Bars.BucketHolds | src/xauusd_bot/data/ohlc_builder.py:43-49 | a bucket starts at a whole multiple of its width and holds the instant |
| Bars.Tower | src/xauusd_bot/data/ohlc_builder.py:106-156 | aggregating in two steps is aggregating once |
| Bars.TimeframesNest | src/xauusd_bot/data/ohlc_builder.py:31-40 | each timeframe of the table divides each later one |
| OhlcBuilder.OHLCBuilder.Ingest | src/xauusd_bot/data/ohlc_builder.py:125-155 | one timeframe rolls or extends; no other timeframe changes |
| OhlcBuilder.OHLCBuilder.OnBar | src/xauusd_bot/data/ohlc_builder.py:106-156 | every timeframe then holds the bars of the extended history; the result lists the bars just closed; both errors change nothing |
| OhlcBuilder.OHLCBuilder.OnTick | src/xauusd_bot/data/ohlc_builder.py:158-198 | a tick extends the open minute or cascades it exactly once; errors change nothing |
| OhlcBuilder.OHLCBuilder.Reset | src/xauusd_bot/data/ohlc_builder.py:99-102 | everything is forgotten |
| OhlcBuilder.BuilderMeetsGrouping | src/xauusd_bot/data/ohlc_builder.py:106-156 | closed bars plus the open one are one bar per maximal run, with no tick lost |
| OhlcBuilder.BuilderTower | src/xauusd_bot/data/ohlc_builder.py:31-49 | the bars held at one timeframe aggregate to those held at any later one |
| OhlcBuilder.ClosingsInOrder | src/xauusd_bot/data/ohlc_builder.py:119-156 | the closings a bar triggers are reported shortest timeframe first |
| TickBars.TicksMakeMinutes | src/xauusd_bot/data/ohlc_builder.py:158-193 | twice a minute's open and close are bid plus ask of its first and last tick, twice its high and low the largest and smallest; volume counts each tick and its own |
| TickBars.MinutesExist | src/xauusd_bot/data/ohlc_builder.py:169-170 | every stream can be cut into minutes |
| TickBars.SwappingQuotes | src/xauusd_bot/data/ohlc_builder.py:168 | swapping bid and ask changes no bar at any timeframe |
| OhlcBuilder.TickStream | src/xauusd_bot/data/ohlc_builder.py:158-198 | finished minutes appear once, higher timeframes are built from them, and every tick is counted |
| Resample.GroupByKey | src/xauusd_bot/dashboard/api.py:247-251 | one group per bucket key, members in arrival order |
| Resample.ResampleCandles | src/xauusd_bot/dashboard/api.py:242-265 | one candle per bucket that has members, in time order, folded from them; unchanged for widths up to one |
| Resample.ResampleUnique | src/xauusd_bot/dashboard/api.py:253-265 | that determines the result |
| Resample.ResampleIdempotent | src/xauusd_bot/dashboard/api.py:242-265 | resampling twice at one width changes nothing, for candles in any order |
| ResampleAgreement.BucketsAgree | src/xauusd_bot/dashboard/api.py:250 | the exact condition under which the two bucket functions agree on a timestamp |
| ResampleAgreement.BatchEqualsIncremental | src/xauusd_bot/dashboard/api.py:242-265 | on chronological candles the batch result is what the builder holds |
| ResampleAgreement.BeforeTheEpoch | src/xauusd_bot/dashboard/api.py:250 | half a second before the epoch they differ by one bucket |
| Mql5Strip.LiteralEndIsBody | tools/check_mql5_syntax.py:147-155 | what the scanner takes for a literal divides into escape pairs and other characters up to a bare quote or the end |
| Mql5Strip.LiteralBodyEnds | tools/check_mql5_syntax.py:147-155 | no other end divides so |
| Mql5Strip.TokenUnique | tools/check_mql5_syntax.py:125-177 | at every position the grammar allows exactly the token the scanner takes |
| Mql5Strip.StripMeetsGrammar | tools/check_mql5_syntax.py:115-178 | a text has one cut into tokens, and stripping blanks those tokens |
| Mql5Strip.OutputIsClean | tools/check_mql5_syntax.py:115-178 | the output has no quote and opens no comment |
| Mql5Strip.StripIdempotent | tools/check_mql5_syntax.py:115-178 | same length, clean, and a fixed point |
| Mql5Strip.BreaksBefore | tools/check_mql5_syntax.py:129-137 | a line break survives exactly where it stands before the unterminated comment |
| Mql5Strip.LineBreaksKeptIff | tools/check_mql5_syntax.py:118-133 | the exact condition under which all line breaks are kept |
| Mql5Strip.OpenCommentLosesBreak | tools/check_mql5_syntax.py:130-133 | a concrete text that loses one |
| Mql5Strip.LiteralsEnd | tools/check_mql5_syntax.py:146-175 | a literal of either quote with an escaped quote inside |
| Mql5Strip.BlocksGo | tools/check_mql5_syntax.py:128-137 | a block comment whose opening star does not close it |
| Mql5Strip.LinesGo | tools/check_mql5_syntax.py:139-144 | a line comment up to its line break |
| Mql5Strip.ScanLiteral | tools/check_mql5_syntax.py:147-155 | the escape-aware inner loop finds the end of the literal |
| Mql5Strip.ScanToken | tools/check_mql5_syntax.py:126-177 | each branch replaces exactly one token |
| Mql5Strip.StripStringsAndComments | tools/check_mql5_syntax.py:115-178 | the scan terminates on every input and strips as specified |
| Mql5Braces.CheckBraceBalance | tools/check_mql5_syntax.py:181-215 | the counters are those of a stack matching: minimum depth minus the unmatched closers, excess depth the unmatched openers, reported line that of the last unmatched closer |
| Mql5Braces.MatchedIffBalanced | tools/check_mql5_syntax.py:181-190 | all braces match exactly when they derive from the grammar of balanced braces |
| Mql5Braces.NoErrorsIffBalanced | tools/check_mql5_syntax.py:205-215 | nothing is reported exactly then |
| Mql5Braces.ReportedDepth | tools/check_mql5_syntax.py:205-214 | the reported depth is openers less closers; a stray closer is reported exactly when somewhere the closers outnumber the openers |
| Mql5Braces.StrayIffRecord | tools/check_mql5_syntax.py:200-204 | the unmatched closers are exactly those that take the excess of closers higher than before |
| Mql5Braces.ReportedLine | tools/check_mql5_syntax.py:196-204 | the line reported is that of the last of them, lines counted from one |
| Mql5Braces.SpineOf | tools/check_mql5_syntax.py:195-204 | without stray closers the openers left on the stack cut the word into balanced words |
| Mql5Braces.StrippedBracesAreCode | tools/check_mql5_syntax.py:160-165 | after stripping only braces outside comments and literals count |
| PaperBroker.MarginNonNegative | src/xauusd_bot/connectors/paper_broker.py:326-327 | a position with a volume, opened at a price that is not negative, asks for no negative margin |
| PaperBroker.FloorBinds | src/xauusd_bot/connectors/paper_broker.py:367 | a sequence of calls after which the margin is not the sum |
| PaperBroker.PnlIsMove | src/xauusd_bot/connectors/paper_broker.py:371-376 | nothing at the open price; each move of the price gains a buy the rise and a sell the fall, on volume times contract size |
| PaperBroker.OnlyOne | src/xauusd_bot/connectors/paper_broker.py:186-189 | a book with one position is worth that position's pnl |
| PaperBroker.QuoteAround | src/xauusd_bot/connectors/paper_broker.py:293-297 | a market buy and sell fill a spread and twice the slippage apart, around the close |
| PaperBroker.TriggersIff | src/xauusd_bot/connectors/paper_broker.py:247-256 | a limit triggers exactly when the bar has a price at least as good, a stop when it has one at least as bad |
| PaperBroker.TriggerFillsAtWorst | src/xauusd_bot/connectors/paper_broker.py:247-276 | whatever its kind, a triggered order fills at a price of the bar, and none is worse for its side |
| PaperBroker.BookOpens | src/xauusd_bot/connectors/paper_broker.py:326-347 | opening adds exactly the position's requirement to the sum of margins |
| PaperBroker.BookCloses | src/xauusd_bot/connectors/paper_broker.py:362-368 | closing removes exactly the position's margin and unrealized pnl |
| PaperBroker.PaperBroker.RecordSpread | src/xauusd_bot/connectors/paper_broker.py:178-181 | the spread is clamped at zero |
| PaperBroker.PaperBroker.UpdateMarks | src/xauusd_bot/connectors/paper_broker.py:183-190 | equity is balance plus unrealized pnl at the mark, in prices for a single position; free margin follows |
| PaperBroker.PaperBroker.OpenPosition | src/xauusd_bot/connectors/paper_broker.py:320-357 | a fresh id for the request's own terms, volume times contract times price times rate as margin, and the invariant; a fill at a price that is not negative keeps the book sound |
| PaperBroker.PaperBroker.ClosePosition | src/xauusd_bot/connectors/paper_broker.py:359-369 | the balance moves by the price difference, signed by side, times volume times contract size; closing at the marked price keeps equity equal to balance plus unrealized; the margin stays the sum exactly when the remaining requirements are not negative in total, so always on a sound book; unknown ids change nothing |
| PaperBroker.PaperBroker.RecordPending | src/xauusd_bot/connectors/paper_broker.py:311-315 | queued under a fresh id that also becomes its client id |
| PaperBroker.PaperBroker.Submit | src/xauusd_bot/connectors/paper_broker.py:194-208 | market orders fill at close plus or minus half spread and slippage or fail without a price; others, stop-limit included, are queued; a price that is not negative keeps the book sound |
| PaperBroker.PaperBroker.ProcessBar | src/xauusd_bot/connectors/paper_broker.py:210-228 | exactly the triggering orders of the symbol become positions, once each, under consecutive fresh ids; pending plus open is conserved; bars at prices that are not negative keep the book sound |
| WebSocketBroker.ConnectKeepsIff | src/xauusd_bot/dashboard/websocket.py:99-102 | when connecting a known socket leaves stale entries |
| WebSocketBroker.ReconnectLeavesStale | src/xauusd_bot/dashboard/websocket.py:99-102 | two connects of one socket after which the indexes disagree |
| WebSocketBroker.DisconnectKeeps | src/xauusd_bot/dashboard/websocket.py:108-111 | agreement is kept and the socket is gone |
| WebSocketBroker.SubscribeKeeps | src/xauusd_bot/dashboard/websocket.py:114-140 | both topic changes keep agreement |
| WebSocketBroker.CleanKeeps | src/xauusd_bot/dashboard/websocket.py:173-178 | cleanup removes exactly the dead sockets, also ones already gone |
| WebSocketBroker.StepKeepsIff | src/xauusd_bot/dashboard/websocket.py:93-178 | every atomic step keeps the invariant, a connect exactly when it is safe |
| WebSocketBroker.IndexesAgreeIff | src/xauusd_bot/dashboard/websocket.py:93-178 | the invariant holds throughout an interleaving exactly when each connect is safe when taken; a socket may leave and come back |
| WebSocketBroker.ConnectsOnceIsSafe | src/xauusd_bot/dashboard/websocket.py:93-103 | when each socket connects once, every connect is safe when taken |
| WebSocketBroker.IndexesAgree | src/xauusd_bot/dashboard/websocket.py:93-178 | in every interleaving in which each socket connects once the indexes agree |
| WebSocketBroker.NoReappearance | src/xauusd_bot/dashboard/websocket.py:144-178 | in every interleaving, a socket in neither index stays out until it connects, whatever broadcasts are in flight and whether or not the indexes agree |
| WebSocketBroker.SubscriberIsTarget | src/xauusd_bot/dashboard/websocket.py:114-151 | after a subscription that changed something, every broadcast that begins has the socket among its targets, until something takes it off the topic |
| WebSocketBroker.ConnectedHears | src/xauusd_bot/dashboard/websocket.py:96-102 | connecting registers for each known topic asked for, for all of them without a list |
| WebSocketBroker.BroadcastFinishes | src/xauusd_bot/dashboard/websocket.py:150-171 | each snapshot target got one attempt, the dead are those whose attempt failed, the count is the others, the dead are in neither index |
| WebSocketBroker.Broker.Connect | src/xauusd_bot/dashboard/websocket.py:93-102 | the socket is registered for exactly the known requested topics and added to each of their sets; nothing else moves; a step of the protocol |
| WebSocketBroker.Broker.Disconnect | src/xauusd_bot/dashboard/websocket.py:105-111 | the socket leaves the register and the sets of its topics; nothing else moves; a step of the protocol |
| WebSocketBroker.Broker.Subscribe | src/xauusd_bot/dashboard/websocket.py:114-127 | true exactly for a known topic new to a registered socket; then the topic joins the socket's and the socket the topic's, else nothing moves; a step of the protocol |
| WebSocketBroker.Broker.Unsubscribe | src/xauusd_bot/dashboard/websocket.py:129-140 | true exactly for a topic the registered socket has; then each leaves the other's set, else nothing moves; a step of the protocol |
| WebSocketBroker.Broker.Broadcast | src/xauusd_bot/dashboard/websocket.py:144-178 | undisturbed: every subscriber tried, the failing ones removed, the rest counted |
| Calendar.InstantFields | src/xauusd_bot/backtest/walkforward.py:78-101 | reading back the fields of an instant built from them |
| Calendar.InstantOrder | src/xauusd_bot/backtest/walkforward.py:78-101 | instants are ordered by month, day and time of day |
| Calendar.LastDayIsLength | src/xauusd_bot/backtest/walkforward.py:94-99 | the day before the next month's first is the month's length, leap years included |
| Calendar.MonthInYear | src/xauusd_bot/backtest/walkforward.py:94-99 | days before each month of a common and of a leap year, by the Gregorian rule |
| Calendar.YearStart | src/xauusd_bot/backtest/walkforward.py:94-99 | days before each year: 365 a year and one for each leap year |
| Calendar.FourCenturies | src/xauusd_bot/backtest/walkforward.py:94-99 | 4800 months are 146097 days |
| Calendar.MarchOf2000 | src/xauusd_bot/backtest/walkforward.py:94-99 | one known date in its place |
| Calendar.AddMonthsOverflows | src/xauusd_bot/backtest/walkforward.py:91-98 | when no result exists: before year 1, or where the next month's first would lie beyond year 9999 |
| Calendar.AddMonthsFields | src/xauusd_bot/backtest/walkforward.py:78-101 | the result is a valid date that many months away, same time of day, day clamped |
| Calendar.AddMonthsMonotoneIff | src/xauusd_bot/backtest/walkforward.py:78-101 | when adding months keeps the order of two instants |
| Calendar.MonthsReorder | src/xauusd_bot/backtest/walkforward.py:100-101 | two instants whose order it reverses |
| Calendar.AddMonthsStrict | src/xauusd_bot/backtest/walkforward.py:78-101 | positive months advance by at least a day, negative go back, zero stays |
| WalkForward.KnobsAre | src/xauusd_bot/backtest/walkforward.py:151-179 | every setting: which unit, the given lengths, quarters for missing or zero ones, at least one, 12, 3 and 3 months by default, and what is refused |
| WalkForward.DayWindow | src/xauusd_bot/backtest/walkforward.py:222-225 | a window's dates in days |
| WalkForward.MonthWindow | src/xauusd_bot/backtest/walkforward.py:226-229 | a window's dates in months |
| WalkForward.MonthStarts | src/xauusd_bot/backtest/walkforward.py:284-287 | each window in month mode starts its number of steps of months after the start |
| WalkForward.FitsIff | src/xauusd_bot/backtest/walkforward.py:230-233 | a window fits exactly when its out-of-sample slice is over before the end |
| WalkForward.NonNegativeKnobs | src/xauusd_bot/backtest/walkforward.py:151-179 | without negative knobs every length the loop uses is positive, and given ones are used |
| WalkForward.Run | src/xauusd_bot/backtest/walkforward.py:194-289 | the loop terminates for every knob setting, its windows follow each other by the step, and it stops at the first that does not fit or whose dates overflow; a negative out-of-sample length is rejected exactly when a first window fits |
| WalkForward.SlicesIff | src/xauusd_bot/backtest/walkforward.py:243-258 | a window has two slices that a backtest accepts exactly when the out-of-sample length is positive |
| WalkForward.WindowsInside | src/xauusd_bot/backtest/walkforward.py:221-289 | windows lie inside the range in order, their slices adjacent |
| WalkForward.DayModeCount | src/xauusd_bot/backtest/walkforward.py:221-289 | day mode emits exactly the windows that fit |
| WalkForward.SlicesMeet | src/xauusd_bot/backtest/walkforward.py:243-258 | the bars of a window's two slices meet without sharing or skipping one |
| Drawdown.LargestUnique | src/xauusd_bot/backtest/engine.py:203-208 | the quadratic specification determines peak and trough |
| Drawdown.MaxDrawdownDurationBars | src/xauusd_bot/backtest/engine.py:203-224 | the single pass returns the distance from the earliest running peak to the first trough of the largest fall over all pairs |
| SpreadMonitor.SortSorts | src/xauusd_bot/data/spread_monitor.py:132 | the samples in order, each as often as in the window |
| SpreadMonitor.QuantileBounds | src/xauusd_bot/data/spread_monitor.py:135-145 | between the smallest and the largest sample, and exact at whole ranks |
| SpreadMonitor.QuantileMonotone | src/xauusd_bot/data/spread_monitor.py:135-145 | percentiles never decrease with the percentage |
| SpreadMonitor.QuantileIsPercentile | src/xauusd_bot/data/spread_monitor.py:135-145 | the percentile divides the gap between its neighbours the way its rank divides the step between them |
| SpreadMonitor.PercentileUnique | src/xauusd_bot/data/spread_monitor.py:135-145 | and no other value does |
| SpreadMonitor.Monitor.Update | src/xauusd_bot/data/spread_monitor.py:120-123 | the window holds the last samples, clamped at zero |
| SpreadMonitor.Monitor.GetSnapshot | src/xauusd_bot/data/spread_monitor.py:127-160 | p50 to p99 are the interpolated percentiles of the sorted window and are ordered, and a blocking spread is an outlier when the thresholds are ordered percentiles |

## Left out

- Rounding: prices, volumes and money are exact reals, so decimal contexts, binary floats and the float conversion of R are not modelled; rounding to the symbol's digits in the trail is an arbitrary function.
- Decisions: features, scoring, qualification, risk approval, zone locks, initial stops, sizing, spread and slippage enter the engine as one optional proposal per bar. A run whose decisions depend on its own account is one such sequence, so the theorems cover it.
- Managers: the engine and replay theorems hold for arbitrary stop, runner and weekend functions that read only what the tape keeps; the trail and the runner rule are also modelled concretely to show that they do; the weekend calendar is not modelled.
- Identifiers: a trade's journal id and its position id are one number, its index among the rows the engine wrote, in place of random strings.
- Engine bookkeeping that no exit depends on: stop and target fields of the broker book, margin in the backtest, zone registry, feature snapshots, order rows, warm-up, connector cursor, and every statistic except bar, trade and close counts and final equity.
- Journal store: rows that others write while an engine runs are not modelled, and rows opened at the same time stay in order of insertion, as in the in-memory store; the SQL store leaves that order open.
- ExitTape.TrailIsTightest: rounding to digits stays an arbitrary function, so the rounded proposal itself may be looser; the ratchet of the exit model then ignores it.
- ExitModel.WorstCaseLoss: needs consistent bars, targets beyond the initial stop and non-negative percentages; the source does not check them.
- Asynchronous generators: each tick's closings are taken to be consumed before the next tick.
- OhlcBuilder.OHLCBuilder.OnTick: the bars are collected before they are returned, not yielded one at a time.
- Timezones: instants are microseconds in UTC.
- Paper broker: the price lookup and the drawn slippage are parameters; fill policy, comments, magic numbers and the position snapshots with their own marks are not modelled; `close_position` leaves equity as last marked, as in the source.
- Websocket broker: sockets are numbers, payload encoding and logging are left out, and a send is an attempt that succeeds or fails; the interleavings are those of the locked sections and single sends.
- WebSocketBroker.Broker.Broadcast: the method form is a broadcast nobody interrupts; interrupted ones are the flights of the protocol.
- WalkForward.Run: inner backtests and Sharpe statistics are left out, and dates end with year 9999, where the source raises.
- SpreadMonitor.Monitor.GetSnapshot: the percentages are taken to lie between 0 and 1 as documented.
- Sorting: the built-in sort is an insertion sort with the same result.
- Error texts: errors are datatypes; the brace messages keep their depth and line.
- MQL5 checks other than stripping and brace balance, the live connectors, the LLM orchestration, HTTP routes and dashboards: input and output, or one-branch facts.
