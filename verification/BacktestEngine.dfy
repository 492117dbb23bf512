/** The replay engine's trade book: positions opened at a bar's close, walked from the
    next bar on, partially closed, closed, journaled, and flushed at the last walked bar.
    All open trades share one paper account, one risk total and one journal. */
module Engine {
  import opened Common
  import opened ExitModel
  import opened ExitTape
  import opened ExitReplay
  import opened Journal

  datatype Position = Position(trade: Trade, st: ExitState)

  /** The engine's entry in the paper broker's book. */
  datatype BookEntry = BookEntry(side: Side, volume: real, openPrice: real)

  /** One execution of part or all of a trade. */
  datatype Fill = Fill(id: nat, price: real, volume: real, pnl: real, last: bool)

  /** What qualification, risk approval, stops, targets, sizing, spread and slippage decided. */
  datatype Proposal = Proposal(
    side: Side, slPrice: Option<real>, tp1: Option<real>, tp2: Option<real>, tp3: Option<real>,
    riskAmount: real, volume: real, spread: real, slip: real)

  datatype RunError = EndNotAfterStart | NoData

  // ---------------------------------------------------------------- window

  ghost predicate IsFirstAtOrAfter(bars: seq<Bar>, t: int, i: int) {
    0 <= i <= |bars| && (forall k | 0 <= k < i :: bars[k].time < t) && (i < |bars| ==> bars[i].time >= t)
  }

  ghost predicate IsLastAtOrBefore(bars: seq<Bar>, t: int, i: int) {
    -1 <= i < |bars| && (forall k | 0 <= k <= i :: bars[k].time <= t) && (i + 1 < |bars| ==> bars[i + 1].time > t)
  }

  method FindFirstBarAtOrAfter(bars: seq<Bar>, t: int) returns (i: int)
    ensures IsFirstAtOrAfter(bars, t, i)
  {
    i := 0;
    while i < |bars|
      invariant 0 <= i <= |bars| && forall k | 0 <= k < i :: bars[k].time < t
    {
      if bars[i].time >= t { return; }
      i := i + 1;
    }
  }

  method FindLastBarAtOrBefore(bars: seq<Bar>, t: int) returns (idx: int)
    ensures IsLastAtOrBefore(bars, t, idx)
  {
    idx := -1;
    for i := 0 to |bars|
      invariant idx == i - 1 && forall k | 0 <= k <= idx :: bars[k].time <= t
    {
      if bars[i].time <= t { idx := i; } else { break; }
    }
  }

  // ---------------------------------------------------------------- accounts

  /** What one journaled trade has put on the account so far. */
  function Contribution(journal: seq<Row>, open: map<nat, Position>, i: nat): real
    requires i < |journal|
  {
    if i in open then open[i].st.realized
    else if journal[i].close.Some? then journal[i].close.value.pnl
    else 0.0
  }

  function Booked(journal: seq<Row>, open: map<nat, Position>): seq<real> {
    seq(|journal|, i requires 0 <= i < |journal| => Contribution(journal, open, i))
  }

  function FilledVolume(fills: seq<Fill>, id: nat): real {
    if fills == [] then 0.0
    else FilledVolume(fills[..|fills| - 1], id) + if fills[|fills| - 1].id == id then fills[|fills| - 1].volume else 0.0
  }

  function FilledPnl(fills: seq<Fill>, id: nat): real {
    if fills == [] then 0.0
    else FilledPnl(fills[..|fills| - 1], id) + if fills[|fills| - 1].id == id then fills[|fills| - 1].pnl else 0.0
  }

  function LastFills(fills: seq<Fill>, id: nat): nat {
    if fills == [] then 0
    else LastFills(fills[..|fills| - 1], id) + if fills[|fills| - 1].id == id && fills[|fills| - 1].last then 1 else 0
  }

  lemma FillAppend(fills: seq<Fill>, f: Fill, id: nat)
    ensures FilledVolume(fills + [f], id) == FilledVolume(fills, id) + if f.id == id then f.volume else 0.0
    ensures FilledPnl(fills + [f], id) == FilledPnl(fills, id) + if f.id == id then f.pnl else 0.0
    ensures LastFills(fills + [f], id) == LastFills(fills, id) + if f.id == id && f.last then 1 else 0
  {
    assert (fills + [f])[..|fills|] == fills;
  }

  lemma {:induction false} NoFills(fills: seq<Fill>, id: nat)
    requires forall k | 0 <= k < |fills| :: fills[k].id != id
    ensures FilledVolume(fills, id) == 0.0 && FilledPnl(fills, id) == 0.0 && LastFills(fills, id) == 0
  {
    if fills != [] { NoFills(fills[..|fills| - 1], id); }
  }

  function CloseOf(env: Env, t: Trade, s: ExitState, price: real, reason: Reason, time: int): CloseRow {
    CloseRow(time, price, TotalPnl(env, t, s, price), FinalR(env, t, s, price), reason)
  }

  /** How a trade is journaled when the run ends on bar `last`. */
  function JournalClose(env: Env, t: Trade, m: Managed, last: Bar): CloseRow {
    match m
    case Exited(s, price, reason, time) => CloseOf(env, t, s, price, reason, time)
    case Live(s) => CloseOf(env, t, s, last.close, Manual, last.time)
  }

  function UnrealizedPnl(e: BookEntry, price: real, contract: real): real {
    (price - e.openPrice) * e.side.Sign() * e.volume * contract
  }

  function Unrealized(book: map<nat, BookEntry>, n: nat, price: real, contract: real): seq<real> {
    seq(n, i requires 0 <= i < n => if i in book then UnrealizedPnl(book[i], price, contract) else 0.0)
  }

  lemma {:induction false} NothingUnrealized(book: map<nat, BookEntry>, n: nat, price: real, contract: real)
    requires book == map[]
    ensures Sum(Unrealized(book, n, price, contract)) == 0.0
  {
    if n > 0 {
      NothingUnrealized(book, n - 1, price, contract);
      assert Unrealized(book, n, price, contract)[..n - 1] == Unrealized(book, n - 1, price, contract);
    }
  }

  /** Engine book, broker book and journal agree; every open trade is still unjournaled. */
  ghost predicate BooksAgree(journal: seq<Row>, open: map<nat, Position>, book: map<nat, BookEntry>) {
    && open.Keys == book.Keys
    && (forall i: nat :: i in open <==> i < |journal| && journal[i].close.None?)
    && (forall i | i in open ::
          && open[i].trade == journal[i].trade
          && book[i] == BookEntry(open[i].trade.side, open[i].st.volume, open[i].trade.entry)
          && open[i].st.volume > 0.0)
  }

  /** The volume and money of trade `i` are exactly those of its fills, and it has had one
      last fill if it is closed, none if it is open. */
  ghost predicate Accounted(journal: seq<Row>, open: map<nat, Position>, fills: seq<Fill>, i: nat)
    requires i < |journal|
  {
    && FilledVolume(fills, i) == journal[i].trade.initialVolume - (if i in open then open[i].st.volume else 0.0)
    && FilledPnl(fills, i) == Contribution(journal, open, i)
    && LastFills(fills, i) == if i in open then 0 else 1
  }

  /** The amounts told to the risk manager are the fills' amounts, and every trade is accounted for. */
  ghost predicate FillsAccountedFor(journal: seq<Row>, open: map<nat, Position>, riskLog: seq<real>, fills: seq<Fill>) {
    && |riskLog| == |fills|
    && (forall k | 0 <= k < |fills| :: fills[k].id < |journal| && riskLog[k] == fills[k].pnl)
    && (forall i | 0 <= i < |journal| :: Accounted(journal, open, fills, i))
  }

  /** One more fill of trade `f.id` keeps the accounts if the trade itself moved by that fill. */
  lemma FillsAfter(journal: seq<Row>, open: map<nat, Position>, riskLog: seq<real>, fills: seq<Fill>, f: Fill,
                   journal': seq<Row>, open': map<nat, Position>)
    requires FillsAccountedFor(journal, open, riskLog, fills) && f.id < |journal| == |journal'|
    requires forall i: nat | i < |journal| && i != f.id ::
      journal'[i] == journal[i] && (i in open <==> i in open') && (i in open ==> open'[i] == open[i])
    requires Accounted(journal', open', fills + [f], f.id)
    ensures FillsAccountedFor(journal', open', riskLog + [f.pnl], fills + [f])
    ensures Booked(journal', open') == Booked(journal, open)[f.id := Contribution(journal', open', f.id)]
  {
    forall i: nat | i < |journal|
      ensures Accounted(journal', open', fills + [f], i)
      ensures i != f.id ==> Contribution(journal', open', i) == Contribution(journal, open, i)
    {
      if i != f.id {
        FillAppend(fills, f, i);
        assert Accounted(journal, open, fills, i);
      }
    }
  }

  /** The account holds exactly what the journal and the open partials booked, and the
      risk total was told the same amounts: no cent is lost or counted twice. */
  ghost predicate MoneyConserved(initial: real, balance: real, journal: seq<Row>, open: map<nat, Position>,
                                 riskLog: seq<real>) {
    balance == initial + Sum(Booked(journal, open)) && Sum(riskLog) == balance - initial
  }

  ghost predicate LedgerOk(initial: real, balance: real, journal: seq<Row>, open: map<nat, Position>,
                           book: map<nat, BookEntry>, riskLog: seq<real>, fills: seq<Fill>)
  {
    && BooksAgree(journal, open, book)
    && MoneyConserved(initial, balance, journal, open, riskLog)
    && FillsAccountedFor(journal, open, riskLog, fills)
  }

  lemma BooksAfterPartial(journal: seq<Row>, open: map<nat, Position>, book: map<nat, BookEntry>, pid: nat,
                          st: ExitState)
    requires BooksAgree(journal, open, book) && pid in open && st.volume > 0.0
    ensures pid in book && pid < |journal|
    ensures BooksAgree(journal, open[pid := open[pid].(st := st)], book[pid := book[pid].(volume := st.volume)])
  {
  }

  lemma LedgerAfterPartial(initial: real, balance: real, journal: seq<Row>, open: map<nat, Position>,
                           book: map<nat, BookEntry>, riskLog: seq<real>, fills: seq<Fill>,
                           f: Fill, st: ExitState)
    requires LedgerOk(initial, balance, journal, open, book, riskLog, fills)
    requires f.id in open && !f.last && st.volume > 0.0
    requires st.volume == open[f.id].st.volume - f.volume && st.realized == open[f.id].st.realized + f.pnl
    ensures f.id in book
    ensures LedgerOk(initial, balance + f.pnl, journal, open[f.id := open[f.id].(st := st)],
                     book[f.id := book[f.id].(volume := st.volume)], riskLog + [f.pnl], fills + [f])
  {
    hide BooksAgree, FilledVolume, FilledPnl, LastFills, Sum;
    BooksAfterPartial(journal, open, book, f.id, st);
    var open' := open[f.id := open[f.id].(st := st)];
    assert Accounted(journal, open, fills, f.id);
    FillAppend(fills, f, f.id);
    FillsAfter(journal, open, riskLog, fills, f, journal, open');
    SumAppend(riskLog, f.pnl);
    SumUpdate(Booked(journal, open), f.id, st.realized);
  }

  lemma BooksAfterClose(journal: seq<Row>, open: map<nat, Position>, book: map<nat, BookEntry>, pid: nat, row: CloseRow)
    requires BooksAgree(journal, open, book) && pid in open
    ensures pid < |journal|
    ensures BooksAgree(journal[pid := journal[pid].(close := Some(row))], open - {pid}, book - {pid})
  {
  }

  lemma LedgerAfterClose(initial: real, balance: real, journal: seq<Row>, open: map<nat, Position>,
                         book: map<nat, BookEntry>, riskLog: seq<real>, fills: seq<Fill>,
                         f: Fill, row: CloseRow)
    requires LedgerOk(initial, balance, journal, open, book, riskLog, fills)
    requires f.id in open && f.last && f.volume == open[f.id].st.volume
    requires row.pnl == open[f.id].st.realized + f.pnl
    ensures f.id < |journal|
    ensures LedgerOk(initial, balance + f.pnl, journal[f.id := journal[f.id].(close := Some(row))],
                     open - {f.id}, book - {f.id}, riskLog + [f.pnl], fills + [f])
  {
    hide BooksAgree;
    BooksAfterClose(journal, open, book, f.id, row);
    var journal' := journal[f.id := journal[f.id].(close := Some(row))];
    assert Accounted(journal, open, fills, f.id);
    FillAppend(fills, f, f.id);
    FillsAfter(journal, open, riskLog, fills, f, journal', open - {f.id});
    SumAppend(riskLog, f.pnl);
    SumUpdate(Booked(journal, open), f.id, row.pnl);
  }

  lemma FillsAfterOpen(journal: seq<Row>, open: map<nat, Position>, riskLog: seq<real>, fills: seq<Fill>, t: Trade,
                       time: int)
    requires FillsAccountedFor(journal, open, riskLog, fills) && |journal| !in open
    ensures var journal' := journal + [Row(t, time, None)];
            var open' := open[|journal| := Position(t, InitState(t))];
            && FillsAccountedFor(journal', open', riskLog, fills)
            && Booked(journal', open') == Booked(journal, open) + [0.0]
  {
    NoFills(fills, |journal|);
    var journal' := journal + [Row(t, time, None)];
    var open' := open[|journal| := Position(t, InitState(t))];
    forall i: nat | i < |journal|
      ensures Accounted(journal', open', fills, i) && Contribution(journal', open', i) == Contribution(journal, open, i)
    {
      assert Accounted(journal, open, fills, i);
    }
    assert Accounted(journal', open', fills, |journal|);
  }

  lemma BooksAfterOpen(journal: seq<Row>, open: map<nat, Position>, book: map<nat, BookEntry>, t: Trade, time: int)
    requires BooksAgree(journal, open, book) && t.initialVolume > 0.0
    ensures |journal| !in open
    ensures BooksAgree(journal + [Row(t, time, None)], open[|journal| := Position(t, InitState(t))],
                       book[|journal| := BookEntry(t.side, t.initialVolume, t.entry)])
  {
  }

  lemma LedgerAfterOpen(initial: real, balance: real, journal: seq<Row>, open: map<nat, Position>,
                        book: map<nat, BookEntry>, riskLog: seq<real>, fills: seq<Fill>, t: Trade, time: int)
    requires LedgerOk(initial, balance, journal, open, book, riskLog, fills) && t.initialVolume > 0.0
    ensures LedgerOk(initial, balance, journal + [Row(t, time, None)], open[|journal| := Position(t, InitState(t))],
                     book[|journal| := BookEntry(t.side, t.initialVolume, t.entry)], riskLog, fills)
  {
    hide BooksAgree, FillsAccountedFor;
    BooksAfterOpen(journal, open, book, t, time);
    FillsAfterOpen(journal, open, riskLog, fills, t, time);
    SumAppend(Booked(journal, open), 0.0);
  }

  /** Flags, stop and peak are not part of the accounts. */
  lemma LedgerAfterUpdate(initial: real, balance: real, journal: seq<Row>, open: map<nat, Position>,
                          book: map<nat, BookEntry>, riskLog: seq<real>, fills: seq<Fill>, pid: nat, st: ExitState)
    requires LedgerOk(initial, balance, journal, open, book, riskLog, fills)
    requires pid in open && st.volume == open[pid].st.volume && st.realized == open[pid].st.realized
    ensures LedgerOk(initial, balance, journal, open[pid := open[pid].(st := st)], book, riskLog, fills)
  {
    var open' := open[pid := open[pid].(st := st)];
    forall i: nat | i < |journal|
      ensures Accounted(journal, open', fills, i) && Contribution(journal, open', i) == Contribution(journal, open, i)
    {
      assert Accounted(journal, open, fills, i);
    }
    assert Booked(journal, open') == Booked(journal, open);
  }

  lemma LedgerFacts(initial: real, balance: real, journal: seq<Row>, open: map<nat, Position>,
                    book: map<nat, BookEntry>, riskLog: seq<real>, fills: seq<Fill>)
    requires LedgerOk(initial, balance, journal, open, book, riskLog, fills)
    ensures BooksAgree(journal, open, book)
    ensures balance == initial + Sum(Booked(journal, open))
  {
  }

  // ---------------------------------------------------------------- runs

  function Lookup(open: map<nat, Position>, i: nat): Option<Position> {
    if i in open then Some(open[i]) else None
  }

  /** A position and its journal row went through one bar the way `Step` says. */
  ghost predicate WalkedOne(env: Env, f: Feed, p: Position, row: Row, p': Option<Position>, row': Row)
    requires env.step > 0.0
  {
    match Step(env, p.trade, p.st, f)
    case Live(s) => p' == Some(p.(st := s)) && row' == row
    case Exited(s, price, reason, time) =>
      p' == None && row' == row.(close := Some(CloseOf(env, p.trade, s, price, reason, time)))
  }

  /** Every open trade took one step of its own; nothing else changed. */
  ghost predicate AllWalked(env: Env, f: Feed, open: map<nat, Position>, journal: seq<Row>,
                            open': map<nat, Position>, journal': seq<Row>)
    requires env.step > 0.0
  {
    && |journal'| == |journal| && open'.Keys <= open.Keys
    && (forall i | i in open ::
          i < |journal| && WalkedOne(env, f, open[i], journal[i], Lookup(open', i), journal'[i]))
    && (forall i: nat | i < |journal| && i !in open :: journal'[i] == journal[i])
  }

  lemma WalkKeepsRows(env: Env, f: Feed, open: map<nat, Position>, journal: seq<Row>,
                      open': map<nat, Position>, journal': seq<Row>)
    requires env.step > 0.0 && AllWalked(env, f, open, journal, open', journal')
    requires forall i | i in open :: i < |journal| && journal[i].close.None?
    ensures |journal'| == |journal|
    ensures forall i | 0 <= i < |journal| :: journal'[i].trade == journal[i].trade
    ensures forall i | 0 <= i < |journal| && journal[i].close.Some? :: journal'[i] == journal[i]
  {
    forall i: nat | i < |journal|
      ensures journal'[i].trade == journal[i].trade
    {
      if i in open { assert WalkedOne(env, f, open[i], journal[i], Lookup(open', i), journal'[i]); }
    }
  }

  /** The row of a trade entered on bar `e` of `feed` shows what managing it alone, on the
      bars after its entry bar, would show. */
  ghost predicate Tracks(env: Env, feed: seq<Feed>, e: nat, row: Row, i: nat, open: map<nat, Position>)
    requires env.step > 0.0
  {
    && e < |feed| && row.openTime == feed[e].bar.time
    && match Manage(env, row.trade, feed[e + 1..])
       case Live(s) => i in open && open[i] == Position(row.trade, s) && row.close == None
       case Exited(s, price, reason, time) =>
         i !in open && row.close == Some(CloseOf(env, row.trade, s, price, reason, time))
  }

  ghost predicate AllTrack(env: Env, feed: seq<Feed>, entryAt: seq<nat>, base: nat,
                           journal: seq<Row>, open: map<nat, Position>)
    requires env.step > 0.0
  {
    && |journal| == base + |entryAt|
    && (forall k | 0 <= k < |entryAt| :: Tracks(env, feed, entryAt[k], journal[base + k], base + k, open))
  }

  /** Trades sharing one account do not influence each other's exits. */
  lemma WalkKeepsTracks(env: Env, feed: seq<Feed>, f: Feed, entryAt: seq<nat>, base: nat,
                        journal: seq<Row>, open: map<nat, Position>, journal': seq<Row>, open': map<nat, Position>)
    requires env.step > 0.0
    requires AllTrack(env, feed, entryAt, base, journal, open) && AllWalked(env, f, open, journal, open', journal')
    ensures AllTrack(env, feed + [f], entryAt, base, journal', open')
  {
    forall k | 0 <= k < |entryAt|
      ensures Tracks(env, feed + [f], entryAt[k], journal'[base + k], base + k, open')
    {
      var e, i := entryAt[k], base + k;
      assert Tracks(env, feed, e, journal[i], i, open);
      assert (feed + [f])[e + 1..] == feed[e + 1..] + [f];
      ManageExtend(env, journal[i].trade, feed[e + 1..], f);
      if i in open { assert WalkedOne(env, f, open[i], journal[i], Lookup(open', i), journal'[i]); }
    }
  }

  /** The guards of an entry: a stop, not at the close, and a volume. */
  predicate Opens(p: Option<Proposal>, close: real) {
    && p.Some? && p.value.slPrice.Some? && p.value.slPrice.value != 0.0
    && p.value.slPrice.value != close && p.value.volume > 0.0
  }

  /** The trade registered at the bar's close: half the spread and the slippage against it. */
  function TradeFrom(p: Proposal, close: real): Trade
    requires p.slPrice.Some?
  {
    Trade(p.side, close + p.side.Sign() * (p.spread / 2.0 + p.slip), p.slPrice.value,
          p.tp1, p.tp2, p.tp3, p.riskAmount, p.volume)
  }

  /** A trade registered on the last bar of `feed` has not been managed yet. */
  lemma OpenKeepsTracks(env: Env, feed: seq<Feed>, entryAt: seq<nat>, base: nat,
                        journal: seq<Row>, open: map<nat, Position>, t: Trade)
    requires env.step > 0.0 && feed != [] && AllTrack(env, feed, entryAt, base, journal, open)
    ensures var last := |feed| - 1;
            AllTrack(env, feed, entryAt + [last], base, journal + [Row(t, feed[last].bar.time, None)],
                     open[|journal| := Position(t, InitState(t))])
  {
    var last := |feed| - 1;
    var journal' := journal + [Row(t, feed[last].bar.time, None)];
    var open' := open[|journal| := Position(t, InitState(t))];
    forall k | 0 <= k < |entryAt| + 1
      ensures Tracks(env, feed, (entryAt + [last])[k], journal'[base + k], base + k, open')
    {
      if k < |entryAt| {
        assert Tracks(env, feed, entryAt[k], journal[base + k], base + k, open);
      } else {
        assert feed[last + 1..] == [];
      }
    }
  }

  /** Every trade of the run is journaled as if it had been the only one. */
  ghost predicate RunJournaled(env: Env, feed: seq<Feed>, entryAt: seq<nat>, base: nat, journal: seq<Row>)
    requires env.step > 0.0
  {
    && |journal| == base + |entryAt|
    && forall k | 0 <= k < |entryAt| ::
         && entryAt[k] < |feed| && journal[base + k].openTime == feed[entryAt[k]].bar.time
         && var t := journal[base + k].trade;
            journal[base + k].close
            == Some(JournalClose(env, t, Manage(env, t, feed[entryAt[k] + 1..]), feed[|feed| - 1].bar))
  }

  /** Row `i` after a forced close at `last`: closed there if its trade was open. */
  function FlushedRow(env: Env, last: Bar, open: map<nat, Position>, journal: seq<Row>, i: nat): Row
    requires i < |journal|
  {
    if i in open
    then journal[i].(close := Some(CloseOf(env, open[i].trade, open[i].st, last.close, Manual, last.time)))
    else journal[i]
  }

  /** The rows below `pid` have been through the forced close, the others not yet. */
  ghost predicate FlushedTo(env: Env, last: Bar, open: map<nat, Position>, journal: seq<Row>, pid: nat,
                            journal': seq<Row>) {
    && |journal'| == |journal|
    && forall i: nat | i < |journal| ::
         journal'[i] == if i < pid then FlushedRow(env, last, open, journal, i) else journal[i]
  }

  /** The positions not yet reached. */
  function Later(open: map<nat, Position>, pid: nat): map<nat, Position> { map i | i in open && pid <= i :: open[i] }

  lemma FlushStep(env: Env, last: Bar, open: map<nat, Position>, journal: seq<Row>, pid: nat, journal': seq<Row>)
    requires FlushedTo(env, last, open, journal, pid, journal') && pid < |journal|
    ensures pid in Later(open, pid) <==> pid in open
    ensures pid !in open ==>
              FlushedTo(env, last, open, journal, pid + 1, journal') && Later(open, pid + 1) == Later(open, pid)
    ensures pid in open ==>
              var row := Some(CloseOf(env, open[pid].trade, open[pid].st, last.close, Manual, last.time));
              && FlushedTo(env, last, open, journal, pid + 1, journal'[pid := journal'[pid].(close := row)])
              && Later(open, pid + 1) == Later(open, pid) - {pid}
  {
    hide CloseOf;
  }

  lemma FlushLength(env: Env, last: Bar, open: map<nat, Position>, journal: seq<Row>, pid: nat, journal': seq<Row>)
    requires FlushedTo(env, last, open, journal, pid, journal')
    ensures |journal'| == |journal|
  {
  }

  /** What a position is marked at is what closing it there settles. */
  lemma MarkIsLeg(env: Env, t: Trade, s: ExitState, price: real)
    ensures UnrealizedPnl(BookEntry(t.side, s.volume, t.entry), price, env.contract) == Pnl(env, t, price, s.volume)
  {
  }

  lemma CloseOutRow(env: Env, last: Bar, journal: seq<Row>, open: map<nat, Position>, book: map<nat, BookEntry>,
                    journal': seq<Row>, i: nat)
    requires BooksAgree(journal, open, book) && i < |journal|
    requires FlushedTo(env, last, open, journal, |journal|, journal')
    ensures Contribution(journal', map[], i)
            == Contribution(journal, open, i)
               + if i in book then UnrealizedPnl(book[i], last.close, env.contract) else 0.0
  {
    hide UnrealizedPnl, Pnl;
    if i in open { MarkIsLeg(env, open[i].trade, open[i].st, last.close); }
  }

  /** Marking the book at a price adds to the balance what closing every position there adds. */
  lemma MarkIsCloseOut(env: Env, last: Bar, initial: real, balance: real, journal: seq<Row>, open: map<nat, Position>,
                       book: map<nat, BookEntry>, balance': real, journal': seq<Row>)
    requires BooksAgree(journal, open, book) && FlushedTo(env, last, open, journal, |journal|, journal')
    requires balance == initial + Sum(Booked(journal, open)) && balance' == initial + Sum(Booked(journal', map[]))
    ensures balance' == balance + Sum(Unrealized(book, |journal|, last.close, env.contract))
  {
    forall i: nat | i < |journal|
      ensures Contribution(journal', map[], i)
              == Contribution(journal, open, i)
                 + if i in book then UnrealizedPnl(book[i], last.close, env.contract) else 0.0
    {
      CloseOutRow(env, last, journal, open, book, journal', i);
    }
    hide Contribution, UnrealizedPnl, BooksAgree;
    SumAdds(Booked(journal, open), Unrealized(book, |journal|, last.close, env.contract), Booked(journal', map[]));
  }

  lemma {:induction false} SumAdds(a: seq<real>, b: seq<real>, c: seq<real>)
    requires |a| == |b| == |c| && forall i | 0 <= i < |a| :: c[i] == a[i] + b[i]
    ensures Sum(c) == Sum(a) + Sum(b)
  {
    if a != [] {
      var n := |a| - 1;
      SumAdds(a[..n], b[..n], c[..n]);
    }
  }

  lemma LaterKeeps(open: map<nat, Position>, pid: nat)
    requires pid in Later(open, pid)
    ensures pid in open && Later(open, pid)[pid] == open[pid]
  {
  }

  lemma BooksEmpty(journal: seq<Row>, book: map<nat, BookEntry>)
    requires BooksAgree(journal, map[], book)
    ensures book == map[]
  {
    assert book.Keys == {};
  }

  lemma FlushStarts(env: Env, last: Bar, open: map<nat, Position>, journal: seq<Row>, book: map<nat, BookEntry>)
    requires BooksAgree(journal, open, book)
    ensures FlushedTo(env, last, open, journal, 0, journal)
    ensures Later(open, 0) == open && Later(open, |journal|) == map[]
  {
  }

  lemma FlushJournals(env: Env, feed: seq<Feed>, entryAt: seq<nat>, base: nat, last: Bar,
                      journal: seq<Row>, open: map<nat, Position>, journal': seq<Row>)
    requires env.step > 0.0 && AllTrack(env, feed, entryAt, base, journal, open)
    requires FlushedTo(env, last, open, journal, |journal|, journal')
    requires feed != [] ==> last == feed[|feed| - 1].bar
    ensures RunJournaled(env, feed, entryAt, base, journal')
  {
    forall k | 0 <= k < |entryAt|
      ensures entryAt[k] < |feed| && journal'[base + k].openTime == feed[entryAt[k]].bar.time
      ensures var t := journal'[base + k].trade;
              journal'[base + k].close
              == Some(JournalClose(env, t, Manage(env, t, feed[entryAt[k] + 1..]), feed[|feed| - 1].bar))
    {
      assert Tracks(env, feed, entryAt[k], journal[base + k], base + k, open);
    }
  }

  /** A row opened on bar `e` is the proposal of that bar, which passed the entry guards. */
  ghost predicate OpenedAs(proposals: seq<Option<Proposal>>, feed: seq<Feed>, e: nat, row: Row) {
    && e < |feed| <= |proposals| && Opens(proposals[e], feed[e].bar.close)
    && row.trade == TradeFrom(proposals[e].value, feed[e].bar.close)
  }

  /** One trade per bar whose proposal passes the entry guards, registered as proposed. */
  ghost predicate EntriesMatch(proposals: seq<Option<Proposal>>, feed: seq<Feed>, entryAt: seq<nat>, base: nat,
                               journal: seq<Row>)
    requires |feed| <= |proposals|
  {
    && |journal| == base + |entryAt|
    && (forall k, l | 0 <= k < l < |entryAt| :: entryAt[k] < entryAt[l])
    && (forall k | 0 <= k < |entryAt| :: OpenedAs(proposals, feed, entryAt[k], journal[base + k]))
    && (forall j: nat | j < |feed| && Opens(proposals[j], feed[j].bar.close) :: j in entryAt)
  }

  lemma EntriesExtend(proposals: seq<Option<Proposal>>, feed: seq<Feed>, entryAt: seq<nat>, base: nat,
                      journal: seq<Row>, f: Feed, journal': seq<Row>)
    requires |feed| < |proposals| && EntriesMatch(proposals, feed, entryAt, base, journal)
    requires |journal'| == |journal| + if Opens(proposals[|feed|], f.bar.close) then 1 else 0
    requires Opens(proposals[|feed|], f.bar.close) ==>
      journal'[|journal|].trade == TradeFrom(proposals[|feed|].value, f.bar.close)
    requires forall i | 0 <= i < |journal| :: journal'[i].trade == journal[i].trade
    ensures EntriesMatch(proposals, feed + [f],
                         if Opens(proposals[|feed|], f.bar.close) then entryAt + [|feed|] else entryAt, base, journal')
  {
    hide TradeFrom;
    var n := |feed|;
    var entryAt' := if Opens(proposals[n], f.bar.close) then entryAt + [n] else entryAt;
    forall k | 0 <= k < |entryAt'|
      ensures OpenedAs(proposals, feed + [f], entryAt'[k], journal'[base + k])
    {
      if k < |entryAt| { assert OpenedAs(proposals, feed, entryAt[k], journal[base + k]); }
    }
    forall j: nat | j < n + 1 && Opens(proposals[j], (feed + [f])[j].bar.close)
      ensures j in entryAt'
    {
      if j == n { assert entryAt'[|entryAt|] == n; } else { assert j in entryAt; }
    }
    forall k, l | 0 <= k < l < |entryAt'|
      ensures entryAt'[k] < entryAt'[l]
    {
      assert OpenedAs(proposals, feed, entryAt[k], journal[base + k]);
    }
  }

  lemma TapeExtends(feed: seq<Feed>, f: Feed, entryAt: seq<nat>, entryAt': seq<nat>,
                    journal: seq<Row>, journal': seq<Row>, base: nat, offset: nat)
    requires |journal| == base + |entryAt| && |journal'| == base + |entryAt'|
    requires entryAt' == entryAt || entryAt' == entryAt + [|feed|]
    requires forall i | 0 <= i < |journal| :: journal'[i].trade == journal[i].trade
    ensures |Records(feed)| == |feed| && Records(feed + [f]) == Records(feed) + [RecordOf(f)]
    ensures TapeEntries(entryAt', journal', base, offset) == TapeEntries(entryAt, journal, base, offset) +
              if entryAt' == entryAt then [] else [TapeEntry(journal'[|journal|].trade, offset + |feed|)]
  {
  }

  /** What the main loop has done so far: rows, tape and earlier rows. */
  ghost predicate RunState(env: Env, recordTape: bool, proposals: seq<Option<Proposal>>, feed: seq<Feed>,
                           entryAt: seq<nat>, journal0: seq<Row>, journal: seq<Row>, open: map<nat, Position>,
                           bars0: seq<TapeRecord>, bars: seq<TapeRecord>,
                           entries0: seq<TapeEntry>, entries: seq<TapeEntry>)
    requires env.step > 0.0
  {
    && |feed| <= |proposals|
    && AllTrack(env, feed, entryAt, |journal0|, journal, open)
    && EntriesMatch(proposals, feed, entryAt, |journal0|, journal)
    && (forall i | 0 <= i < |journal0| :: journal[i] == journal0[i] && journal[i].close.Some?)
    && (recordTape ==> && bars == bars0 + Records(feed)
                       && entries == entries0 + TapeEntries(entryAt, journal, |journal0|, |bars0|))
  }

  lemma RunStateStarts(env: Env, recordTape: bool, proposals: seq<Option<Proposal>>, journal0: seq<Row>,
                       bars0: seq<TapeRecord>, entries0: seq<TapeEntry>)
    requires env.step > 0.0 && forall i | 0 <= i < |journal0| :: journal0[i].close.Some?
    ensures RunState(env, recordTape, proposals, [], [], journal0, journal0, map[], bars0, bars0, entries0, entries0)
  {
  }

  /** What processing one bar changes. */
  ghost predicate BarProcessed(env: Env, recordTape: bool, feed: seq<Feed>, entryAt: seq<nat>, base: nat,
                               f: Feed, proposal: Option<Proposal>, journal: seq<Row>,
                               journal': seq<Row>, open': map<nat, Position>,
                               bars: seq<TapeRecord>, bars': seq<TapeRecord>,
                               entries: seq<TapeEntry>, entries': seq<TapeEntry>)
    requires env.step > 0.0
  {
    var opens := Opens(proposal, f.bar.close);
    && AllTrack(env, feed + [f], if opens then entryAt + [|feed|] else entryAt, base, journal', open')
    && |journal'| == |journal| + (if opens then 1 else 0)
    && (forall i | 0 <= i < |journal| :: journal'[i].trade == journal[i].trade)
    && (forall i | 0 <= i < |journal| && journal[i].close.Some? :: journal'[i] == journal[i])
    && (opens ==> journal'[|journal|].trade == TradeFrom(proposal.value, f.bar.close))
    && bars' == bars + (if recordTape then [RecordOf(f)] else [])
    && (entries' == entries +
          if recordTape && opens then [TapeEntry(TradeFrom(proposal.value, f.bar.close), |bars|)] else [])
  }

  lemma RunStateStep(env: Env, recordTape: bool, proposals: seq<Option<Proposal>>, feed: seq<Feed>, entryAt: seq<nat>,
                     journal0: seq<Row>, journal: seq<Row>, open: map<nat, Position>,
                     bars0: seq<TapeRecord>, bars: seq<TapeRecord>, entries0: seq<TapeEntry>, entries: seq<TapeEntry>,
                     f: Feed, journal': seq<Row>, open': map<nat, Position>, bars': seq<TapeRecord>,
                     entries': seq<TapeEntry>)
    requires env.step > 0.0 && |feed| < |proposals|
    requires RunState(env, recordTape, proposals, feed, entryAt, journal0, journal, open, bars0, bars, entries0,
                      entries)
    requires BarProcessed(env, recordTape, feed, entryAt, |journal0|, f, proposals[|feed|], journal,
                          journal', open', bars, bars', entries, entries')
    ensures RunState(env, recordTape, proposals, feed + [f],
                     if Opens(proposals[|feed|], f.bar.close) then entryAt + [|feed|] else entryAt,
                     journal0, journal', open', bars0, bars', entries0, entries')
  {
    hide AllTrack, EntriesMatch, TradeFrom, TapeEntries, Records;
    AllTrackLength(env, feed, entryAt, |journal0|, journal, open);
    EntriesExtend(proposals, feed, entryAt, |journal0|, journal, f, journal');
    var entryAt' := if Opens(proposals[|feed|], f.bar.close) then entryAt + [|feed|] else entryAt;
    TapeExtends(feed, f, entryAt, entryAt', journal, journal', |journal0|, |bars0|);
  }

  lemma RunStateTracks(env: Env, recordTape: bool, proposals: seq<Option<Proposal>>, feed: seq<Feed>, entryAt: seq<nat>,
                       journal0: seq<Row>, journal: seq<Row>, open: map<nat, Position>,
                       bars0: seq<TapeRecord>, bars: seq<TapeRecord>, entries0: seq<TapeEntry>, entries: seq<TapeEntry>)
    requires env.step > 0.0
    requires RunState(env, recordTape, proposals, feed, entryAt, journal0, journal, open, bars0, bars, entries0,
                      entries)
    ensures AllTrack(env, feed, entryAt, |journal0|, journal, open)
  {
  }

  lemma AllTrackLength(env: Env, feed: seq<Feed>, entryAt: seq<nat>, base: nat, journal: seq<Row>,
                       open: map<nat, Position>)
    requires env.step > 0.0 && AllTrack(env, feed, entryAt, base, journal, open)
    ensures |journal| == base + |entryAt|
  {
  }

  /** After the forced closes every row of the run is final and earlier rows are untouched. */
  lemma FinishJournals(env: Env, recordTape: bool, proposals: seq<Option<Proposal>>, feed: seq<Feed>, entryAt: seq<nat>,
                       journal0: seq<Row>, journal: seq<Row>, open: map<nat, Position>,
                       bars0: seq<TapeRecord>, bars: seq<TapeRecord>, entries0: seq<TapeEntry>, entries: seq<TapeEntry>,
                       last: Bar, journal': seq<Row>)
    requires env.step > 0.0
    requires RunState(env, recordTape, proposals, feed, entryAt, journal0, journal, open, bars0, bars, entries0,
                      entries)
    requires forall i | i in open :: i < |journal| && journal[i].close.None?
    requires FlushedTo(env, last, open, journal, |journal|, journal')
    requires feed != [] ==> last == feed[|feed| - 1].bar
    ensures RunJournaled(env, feed, entryAt, |journal0|, journal')
    ensures EntriesMatch(proposals, feed, entryAt, |journal0|, journal')
    ensures journal'[..|journal0|] == journal0
    ensures recordTape ==> bars == bars0 + Records(feed)
                           && entries == entries0 + TapeEntries(entryAt, journal', |journal0|, |bars0|)
  {
    hide RunJournaled;
    FlushJournals(env, feed, entryAt, |journal0|, last, journal, open, journal');
    forall k | 0 <= k < |entryAt|
      ensures OpenedAs(proposals, feed, entryAt[k], journal'[|journal0| + k])
    {
      assert OpenedAs(proposals, feed, entryAt[k], journal[|journal0| + k]);
    }
    assert TapeEntries(entryAt, journal', |journal0|, |bars0|) == TapeEntries(entryAt, journal, |journal0|, |bars0|);
  }

  /** Bars walked: the whole window, cut to `maxBars` when given. */
  function WindowLength(lo: int, hi: int, maxBars: Option<int>): nat {
    var all := if lo < hi then hi - lo + 1 else 0;
    if maxBars.None? || all <= maxBars.value then all else if maxBars.value < 0 then 0 else maxBars.value
  }

  function TapeEntries(entryAt: seq<nat>, journal: seq<Row>, base: nat, offset: nat): seq<TapeEntry>
    requires |journal| == base + |entryAt|
  {
    seq(|entryAt|, k requires 0 <= k < |entryAt| => TapeEntry(journal[base + k].trade, offset + entryAt[k]))
  }

  /** What the engine's books say when nothing is open. */
  lemma BookedIsOwn(prior: seq<Row>, journal: seq<Row>)
    requires forall i | 0 <= i < |journal| :: journal[i].close.Some?
    ensures Sum(Booked(journal, map[])) == Sum(Masked(prior + journal, Own(prior + journal, |prior|)))
  {
    var masked := Masked(prior + journal, Own(prior + journal, |prior|));
    assert masked[|prior|..] == Booked(journal, map[]);
    LeadingZeros(masked, |prior|);
  }

  lemma {:induction false} LeadingZeros(xs: seq<real>, n: nat)
    requires n <= |xs| && forall i | 0 <= i < n :: xs[i] == 0.0
    ensures Sum(xs) == Sum(xs[n..])
  {
    if n < |xs| {
      var k := |xs| - 1;
      LeadingZeros(xs[..k], n);
      assert xs[n..][..k - n] == xs[..k][n..];
    } else if n > 0 {
      LeadingZeros(xs[..n - 1], n - 1);
    }
  }

  /** Without other rows and within the limit, a result is exactly the account's. */
  lemma ReportIsBalance(initial: real, balance: real, journal: seq<Row>, nBars: nat)
    requires |journal| <= LIST_LIMIT && forall i | 0 <= i < |journal| :: journal[i].close.Some?
    requires balance == initial + Sum(Booked(journal, map[]))
    ensures Report(initial, journal, nBars) == RunResult(nBars, |journal|, |journal|, balance)
  {
    var listed, own := Chosen(Listing(journal)), Own(journal, 0);
    ReportsOwnIff(journal, 0);
    assert listed - own == {} && own - listed == {};
    ReportGap(initial, journal, 0, nBars);
    assert [] + journal == journal;
    BookedIsOwn([], journal);
    AllClosed(journal, Listing(journal));
  }

  lemma {:induction false} AllClosed(rows: seq<Row>, listing: seq<nat>)
    requires Indices(rows, listing) && forall i | 0 <= i < |rows| :: rows[i].close.Some?
    ensures ClosedAmong(rows, listing) == |listing|
  {
    if listing != [] { AllClosed(rows, listing[..|listing| - 1]); }
  }

  class BacktestEngine {
    const cfg: ExitConfig
    const spec: SymbolSpec
    const initialBalance: real
    const recordTape: bool

    /** The rows the journal held when the engine was built; `journal` holds those it wrote since. */
    const prior: seq<Row>

    /** The engine registers positions without asking for margin. */
    const margin: real := 0.0

    var balance: real
    var equity: real
    var freeMargin: real
    var book: map<nat, BookEntry>
    var open: map<nat, Position>
    var journal: seq<Row>
    var riskLog: seq<real>
    var tapeBars: seq<TapeRecord>
    var tapeEntries: seq<TapeEntry>
    ghost var fills: seq<Fill>

    function Env(): (env: Env)
      ensures env.step > 0.0
    {
      EnvOf(cfg, spec, spec.contractSize)
    }

    function Store(): seq<Row>
      reads `journal
    {
      prior + journal
    }

    ghost predicate Valid()
      reads this
    {
      LedgerOk(initialBalance, balance, journal, open, book, riskLog, fills)
    }

    /** What the main loop needs of the ledger. */
    lemma Facts()
      requires Valid()
      ensures BooksAgree(journal, open, book)
      ensures balance == initialBalance + Sum(Booked(journal, open))
    {
      LedgerFacts(initialBalance, balance, journal, open, book, riskLog, fills);
    }

    constructor (cfg: ExitConfig, spec: SymbolSpec, initialBalance: real, recordTape: bool, prior: seq<Row>)
      ensures Valid()
      ensures this.cfg == cfg && this.spec == spec
      ensures this.initialBalance == initialBalance && this.recordTape == recordTape && this.prior == prior
      ensures balance == initialBalance && equity == initialBalance && open == map[] && book == map[]
      ensures journal == [] && riskLog == [] && tapeBars == [] && tapeEntries == []
    {
      this.cfg, this.spec, this.initialBalance, this.recordTape := cfg, spec, initialBalance, recordTape;
      this.prior := prior;
      balance, equity, freeMargin, book, open := initialBalance, initialBalance, initialBalance, map[], map[];
      journal, riskLog, tapeBars, tapeEntries, fills := [], [], [], [], [];
    }

    /** Mark to market: equity is balance plus what the book would realize at `price`. */
    method UpdateMarks(price: real)
      requires Valid()
      modifies `equity, `freeMargin
      ensures equity == balance + Sum(Unrealized(book, |journal|, price, spec.contractSize))
      ensures freeMargin == equity - margin
      ensures Valid()
    {
      hide UnrealizedPnl, LedgerOk;
      var total := 0.0;
      for i := 0 to |journal|
        invariant total == Sum(Unrealized(book, i, price, spec.contractSize))
      {
        ghost var before := Unrealized(book, i, price, spec.contractSize);
        var u := 0.0;
        if i in book {
          u := UnrealizedPnl(book[i], price, spec.contractSize);
        }
        assert Unrealized(book, i + 1, price, spec.contractSize) == before + [u];
        SumAppend(before, u);
        total := total + u;
      }
      equity := balance + total;
      freeMargin := equity - margin;
    }

    /** The booking half of a partial close: account, risk total, state and broker book. */
    method BookPartial(pid: nat, vol: real, price: real, pnl: real)
      requires Valid() && pid in open && vol < open[pid].st.volume
      modifies `open, `book, `balance, `equity, `riskLog, `fills
      ensures Valid()
      ensures var p := old(open)[pid];
              && open == old(open)[pid := p.(st :=
                   p.st.(realized := p.st.realized + pnl, volume := p.st.volume - vol))]
              && riskLog == old(riskLog) + [pnl] && balance == old(balance) + pnl && equity == balance
    {
      hide LedgerOk;
      var p := open[pid];
      var st := p.st.(realized := p.st.realized + pnl, volume := p.st.volume - vol);
      ghost var fill := Fill(pid, price, vol, pnl, false);
      LedgerAfterPartial(initialBalance, balance, journal, open, book, riskLog, fills, fill, st);
      open := open[pid := p.(st := st)];
      balance := balance + pnl;
      equity := balance;
      riskLog := riskLog + [pnl];
      book := book[pid := book[pid].(volume := st.volume)];
      fills := fills + [fill];
    }

    method PartialClose(pid: nat, frac: real, price: real)
      requires Valid() && pid in open
      modifies `open, `book, `balance, `equity, `riskLog, `fills
      ensures Valid()
      ensures var p := old(open)[pid];
              && open == old(open)[pid := p.(st := TakePartial(Env(), p.trade, p.st, frac, price))]
              && balance - old(balance) == open[pid].st.realized - p.st.realized
              && (if PartialTaken(Env(), p.trade, p.st.volume, frac)
                  then riskLog == old(riskLog) + [balance - old(balance)] && equity == balance
                  else riskLog == old(riskLog) && equity == old(equity))
    {
      hide LedgerOk, Pnl, PartialLots;
      var p := open[pid];
      var vol := PartialLots(Env(), p.trade, frac);
      var remaining := p.st.volume;
      if vol < Env().volumeMin || vol >= remaining {
        assert open == open[pid := p];
        return;
      }
      BookPartial(pid, vol, price, Pnl(Env(), p.trade, price, vol));
    }

    /** Journal the blended outcome, settle the final leg only, drop both book entries. */
    method ClosePosition(pid: nat, price: real, time: int, reason: Reason)
      requires Valid() && pid in open
      modifies `open, `book, `balance, `equity, `riskLog, `fills, `journal
      ensures Valid()
      ensures var p := old(open)[pid];
              var leg := Pnl(Env(), p.trade, price, p.st.volume);
              && open == old(open) - {pid} && book == old(book) - {pid}
              && journal == old(journal)[pid := old(journal)[pid].(close :=
                   Some(CloseOf(Env(), p.trade, p.st, price, reason, time)))]
              && riskLog == old(riskLog) + [leg] && balance == old(balance) + leg && equity == balance
    {
      hide LedgerOk, Pnl;
      var p := open[pid];
      var finalLeg := Pnl(Env(), p.trade, price, p.st.volume);
      var pnl := p.st.realized + finalLeg;
      var r := pnl / RiskUnit(p.trade);
      var row := CloseRow(time, price, pnl, r, reason);
      ghost var fill := Fill(pid, price, p.st.volume, finalLeg, true);
      LedgerAfterClose(initialBalance, balance, journal, open, book, riskLog, fills, fill, row);
      journal := journal[pid := journal[pid].(close := Some(row))];
      balance := balance + finalLeg;
      equity := balance;
      riskLog := riskLog + [finalLeg];
      open := open - {pid};
      book := book - {pid};
      fills := fills + [fill];
    }

    /** Overwrite stop, peak and flags of one position. */
    method Update(pid: nat, st: ExitState)
      requires Valid() && pid in open
      requires st.volume == open[pid].st.volume && st.realized == open[pid].st.realized
      modifies `open
      ensures Valid() && open == old(open)[pid := old(open)[pid].(st := st)]
    {
      hide LedgerOk;
      LedgerAfterUpdate(initialBalance, balance, journal, open, book, riskLog, fills, pid, st);
      open := open[pid := open[pid].(st := st)];
    }

    method TryOpenTrade(bar: Bar, proposal: Option<Proposal>)
      requires Valid()
      modifies `journal, `book, `open, `tapeEntries
      ensures Valid()
      ensures if Opens(proposal, bar.close) then
                var t := TradeFrom(proposal.value, bar.close);
                && journal == old(journal) + [Row(t, bar.time, None)]
                && open == old(open)[|old(journal)| := Position(t, InitState(t))]
                && (tapeEntries == old(tapeEntries) +
                      if recordTape && tapeBars != [] then [TapeEntry(t, |tapeBars| - 1)] else [])
              else journal == old(journal) && open == old(open) && book == old(book) && tapeEntries == old(tapeEntries)
    {
      hide LedgerOk;
      if proposal.None? { return; }
      var p := proposal.value;
      if p.slPrice.None? || p.slPrice.value == 0.0 { return; }
      var sl := p.slPrice.value;
      var slDistance := if bar.close >= sl then bar.close - sl else sl - bar.close;
      if slDistance <= 0.0 { return; }
      if p.volume <= 0.0 { return; }
      var fill := if p.side.Long? then bar.close + p.spread / 2.0 + p.slip else bar.close - p.spread / 2.0 - p.slip;
      var t := Trade(p.side, fill, sl, p.tp1, p.tp2, p.tp3, p.riskAmount, p.volume);
      var pid := |journal|;
      LedgerAfterOpen(initialBalance, balance, journal, open, book, riskLog, fills, t, bar.time);
      journal := journal + [Row(t, bar.time, None)];
      book := book[pid := BookEntry(t.side, t.initialVolume, t.entry)];
      open := open[pid := Position(t, InitState(t))];
      if recordTape && tapeBars != [] {
        tapeEntries := tapeEntries + [TapeEntry(t, |tapeBars| - 1)];
      }
    }

    /** 3. The two partial targets. */
    method TakeTargets(pid: nat, bar: Bar)
      requires Valid() && pid in open
      modifies `open, `book, `balance, `equity, `riskLog, `fills
      ensures Valid()
      ensures var p := old(open)[pid];
              open == old(open)[pid := p.(st := AfterTp2(Env(), p.trade, AfterTp1(Env(), p.trade, p.st, bar), bar))]
    {
      hide LedgerOk;
      var t, st := open[pid].trade, open[pid].st;
      var isLong := t.side.Long?;
      if !st.tp1Taken && t.tp1.Some? && ((isLong && bar.high >= t.tp1.value) || (!isLong && bar.low <= t.tp1.value)) {
        PartialClose(pid, cfg.tp1Pct / 100.0, t.tp1.value);
        Update(pid, open[pid].st.(tp1Taken := true, armed := true));
      }
      assert open == old(open)[pid := Position(t, AfterTp1(Env(), t, st, bar))];
      if !open[pid].st.tp2Taken && t.tp2.Some?
         && ((isLong && bar.high >= t.tp2.value) || (!isLong && bar.low <= t.tp2.value)) {
        PartialClose(pid, cfg.tp2Pct / 100.0, t.tp2.value);
        Update(pid, open[pid].st.(tp2Taken := true));
      }
    }

    /** One open position, one bar. */
    method WalkPosition(pid: nat, bar: Bar, bundle: Bundle)
      requires Valid() && pid in open && pid < |journal|
      modifies `open, `book, `balance, `equity, `riskLog, `fills, `journal
      ensures Valid() && |journal| == |old(journal)|
      ensures WalkedOne(Env(), Feed(bar, bundle), old(open)[pid], old(journal)[pid], Lookup(open, pid), journal[pid])
      ensures open.Keys <= old(open).Keys
      ensures forall i: nat | i != pid :: Lookup(open, i) == Lookup(old(open), i)
      ensures forall i: nat | i < |journal| && i != pid :: journal[i] == old(journal)[i]
    {
      hide LedgerOk;
      var t, st := open[pid].trade, open[pid].st;
      var isLong := t.side.Long?;
      // 1. stop, checked first
      if (isLong && bar.low <= st.sl) || (!isLong && bar.high >= st.sl) {
        ClosePosition(pid, st.sl, bar.time, if st.armed then Trailed else SlHit);
        return;
      }
      // 2. weekend flat
      if cfg.rules.flatten(bar.time, bundle.offset) {
        ClosePosition(pid, bar.close, bar.time, Manual);
        return;
      }
      TakeTargets(pid, bar);
      // 4. runner target
      if t.tp3.Some? && ((isLong && bar.high >= t.tp3.value) || (!isLong && bar.low <= t.tp3.value)) {
        ClosePosition(pid, t.tp3.value, bar.time, Tp3Hit);
        return;
      }
      // 5. runner rejection
      if open[pid].st.armed && t.tp3.Some? && cfg.rules.closeRunner(t.side, t.tp3.value, bar.close, bundle) {
        ClosePosition(pid, bar.close, bar.time, Manual);
        return;
      }
      TrackAndTrail(pid, bar, bundle);
    }

    /** 6. Peak, arming, and the ratcheting stop. */
    method TrackAndTrail(pid: nat, bar: Bar, bundle: Bundle)
      requires Valid() && pid in open
      modifies `open
      ensures Valid()
      ensures var p := old(open)[pid];
              open == old(open)[pid := p.(st := Ratcheted(Env(), p.trade, Tracked(Env(), p.trade, p.st, bar), bundle))]
    {
      hide LedgerOk;
      var t, st := open[pid].trade, open[pid].st;
      var isLong := t.side.Long?;
      var fav := if isLong then bar.high else bar.low;
      st := st.(peak := if isLong then Max(st.peak, fav) else Min(st.peak, fav));
      if !st.armed && cfg.trailActivateR > 0.0 && AtLeastR(t, fav, cfg.trailActivateR) {
        st := st.(armed := true);
      }
      if st.armed {
        var beArmed := st.tp1Taken || (cfg.beTriggerR > 0.0 && AtLeastR(t, st.peak, cfg.beTriggerR));
        var newSl := cfg.rules.trail(t.side, st.sl, t.entry, bundle, st.peak, beArmed);
        if newSl.Some? && ((isLong && newSl.value > st.sl) || (!isLong && newSl.value < st.sl)) {
          st := st.(sl := newSl.value);
        }
      }
      Update(pid, st);
    }

    /** Every position open before this bar takes its step; the snapshot is taken first. */
    method WalkOpenPositions(bar: Bar, bundle: Bundle)
      requires Valid()
      modifies `open, `book, `balance, `equity, `riskLog, `fills, `journal
      ensures Valid()
      ensures AllWalked(Env(), Feed(bar, bundle), old(open), old(journal), open, journal)
    {
      hide LedgerOk, WalkedOne;
      Facts();
      ghost var open0, journal0 := open, journal;
      var snapshot := open.Keys;
      for pid := 0 to |journal|
        invariant Valid() && |journal| == |journal0| && open.Keys <= snapshot
        invariant forall i | i in open0 && i < pid ::
          WalkedOne(Env(), Feed(bar, bundle), open0[i], journal0[i], Lookup(open, i), journal[i])
        invariant forall i | i in open0 && pid <= i :: Lookup(open, i) == Some(open0[i]) && journal[i] == journal0[i]
        invariant forall i: nat | i < |journal0| && i !in open0 :: journal[i] == journal0[i]
      {
        if pid in snapshot { WalkPosition(pid, bar, bundle); }
      }
    }

    /** One forced close among those before and after it. */
    method FlushOne(pid: nat, last: Bar, ghost open0: map<nat, Position>, ghost journal0: seq<Row>)
      requires Valid() && pid in open && open == Later(open0, pid) && pid < |journal0|
      requires FlushedTo(Env(), last, open0, journal0, pid, journal)
      modifies `open, `book, `balance, `equity, `riskLog, `fills, `journal
      ensures Valid() && open == Later(open0, pid + 1) && equity == balance && |journal| == |journal0|
      ensures FlushedTo(Env(), last, open0, journal0, pid + 1, journal)
    {
      hide LedgerOk, CloseOf, FlushedTo, Later;
      FlushStep(Env(), last, open0, journal0, pid, journal);
      LaterKeeps(open0, pid);
      FlushLength(Env(), last, open0, journal0, pid, journal);
      ClosePosition(pid, last.close, last.time, Manual);
    }

    /** Close what is left at the last walked bar. */
    method Flush(last: Bar)
      requires Valid()
      modifies `open, `book, `balance, `equity, `riskLog, `fills, `journal
      ensures Valid() && open == map[] && book == map[]
      ensures old(open) != map[] ==> equity == balance
      ensures old(open) == map[] ==> equity == old(equity) && balance == old(balance)
      ensures FlushedTo(Env(), last, old(open), old(journal), |old(journal)|, journal)
      ensures balance == old(balance) + Sum(Unrealized(old(book), |old(journal)|, last.close, spec.contractSize))
    {
      hide LedgerOk, CloseOf, FlushedTo, Later, BooksAgree, Booked, Unrealized, Sum;
      Facts();
      ghost var open0, journal0, flushed := open, journal, false;
      FlushStarts(Env(), last, open0, journal0, book);
      for pid := 0 to |journal|
        invariant Valid() && |journal| == |journal0| && open == Later(open0, pid)
        invariant flushed ==> equity == balance && open0 != map[]
        invariant !flushed ==> open == open0 && equity == old(equity) && balance == old(balance)
        invariant FlushedTo(Env(), last, open0, journal0, pid, journal)
      {
        FlushStep(Env(), last, open0, journal0, pid, journal);
        if pid in open {
          FlushOne(pid, last, open0, journal0);
          flushed := true;
        }
      }
      Facts();
      BooksEmpty(journal, book);
      MarkIsCloseOut(Env(), last, initialBalance, old(balance), journal0, open0, old(book), balance, journal);
    }

    /** Counts and final equity over what the journal lists: at most the limit, and among it the
        rows that were there before this engine. */
    method BuildResult(nBars: nat) returns (res: RunResult)
      ensures res == Report(initialBalance, Store(), nBars)
    {
      hide Listing;
      var rows := Store();
      var listing := Listing(rows);
      var total, nClosed := 0.0, 0;
      for k := 0 to |listing|
        invariant total == Sum(Pnls(rows, listing[..k])) && nClosed == ClosedAmong(rows, listing[..k])
      {
        var row := rows[listing[k]];
        assert listing[..k + 1][..k] == listing[..k];
        assert Pnls(rows, listing[..k + 1]) == Pnls(rows, listing[..k]) + [PnlOf(row)];
        SumAppend(Pnls(rows, listing[..k]), PnlOf(row));
        if row.close.Some? {
          total := total + row.close.value.pnl;
          nClosed := nClosed + 1;
        }
      }
      assert listing[..|listing|] == listing;
      res := RunResult(nBars, |listing|, nClosed, initialBalance + total);
    }

    /** Walking the open positions, told as what it does to the rows of the run. */
    method WalkTracked(bar: Bar, bundle: Bundle, ghost feed: seq<Feed>, ghost entryAt: seq<nat>, ghost base: nat)
      requires Valid() && AllTrack(Env(), feed, entryAt, base, journal, open)
      modifies `open, `book, `balance, `equity, `riskLog, `fills, `journal
      ensures Valid() && |journal| == |old(journal)|
      ensures AllTrack(Env(), feed + [Feed(bar, bundle)], entryAt, base, journal, open)
      ensures forall i | 0 <= i < |journal| :: journal[i].trade == old(journal)[i].trade
      ensures forall i | 0 <= i < |journal| && old(journal)[i].close.Some? :: journal[i] == old(journal)[i]
    {
      hide LedgerOk, AllTrack, AllWalked;
      Facts();
      ghost var open0, journal0 := open, journal;
      WalkOpenPositions(bar, bundle);
      WalkKeepsTracks(Env(), feed, Feed(bar, bundle), entryAt, base, journal0, open0, journal, open);
      WalkKeepsRows(Env(), Feed(bar, bundle), open0, journal0, open, journal);
    }

    /** One bar of the main loop: record, mark, walk what is open, then consider an entry. */
    method ProcessBar(bar: Bar, bundle: Bundle, proposal: Option<Proposal>,
                      ghost feed: seq<Feed>, ghost entryAt: seq<nat>, ghost base: nat)
      requires Valid() && AllTrack(Env(), feed, entryAt, base, journal, open)
      modifies this
      ensures Valid()
      ensures BarProcessed(Env(), recordTape, feed, entryAt, base, Feed(bar, bundle), proposal, old(journal),
                           journal, open, old(tapeBars), tapeBars, old(tapeEntries), tapeEntries)
    {
      hide LedgerOk, AllTrack, TradeFrom, RecordOf, InitState;
      if recordTape {
        var rec := TapeBarRecord(bar, bundle);
        tapeBars := tapeBars + [rec];
      }
      UpdateMarks(bar.close);
      WalkTracked(bar, bundle, feed, entryAt, base);
      if Opens(proposal, bar.close) {
        OpenKeepsTracks(Env(), feed + [Feed(bar, bundle)], entryAt, base, journal, open,
                        TradeFrom(proposal.value, bar.close));
      }
      TryOpenTrade(bar, proposal);
    }

    /** The loop body as a step of the run so far. */
    method NextBar(bar: Bar, bundle: Bundle, proposal: Option<Proposal>,
                   ghost proposals: seq<Option<Proposal>>, ghost feed: seq<Feed>, ghost entryAt: seq<nat>,
                   ghost journal0: seq<Row>, ghost bars0: seq<TapeRecord>, ghost entries0: seq<TapeEntry>)
      requires Valid() && |feed| < |proposals| && proposals[|feed|] == proposal
      requires RunState(Env(), recordTape, proposals, feed, entryAt, journal0, journal, open,
                        bars0, tapeBars, entries0, tapeEntries)
      modifies this
      ensures Valid()
      ensures RunState(Env(), recordTape, proposals, feed + [Feed(bar, bundle)],
                       if Opens(proposal, bar.close) then entryAt + [|feed|] else entryAt,
                       journal0, journal, open, bars0, tapeBars, entries0, tapeEntries)
    {
      hide LedgerOk, RunState, BarProcessed, Opens, AllTrack;
      RunStateTracks(Env(), recordTape, proposals, feed, entryAt, journal0, journal, open, bars0, tapeBars, entries0,
                     tapeEntries);
      ghost var journal1, open1, bars1, entries1 := journal, open, tapeBars, tapeEntries;
      ProcessBar(bar, bundle, proposal, feed, entryAt, |journal0|);
      RunStateStep(Env(), recordTape, proposals, feed, entryAt, journal0, journal1, open1, bars0, bars1, entries0,
                   entries1, Feed(bar, bundle), journal, open, tapeBars, tapeEntries);
    }

    /** The main loop over the window, stopping early at `maxBars`. */
    method WalkWindow(bars: seq<Bar>, bundles: seq<Bundle>, proposals: seq<Option<Proposal>>,
                      startIdx: nat, endIdx: nat, maxBars: Option<int>)
      returns (n: nat, ghost feed: seq<Feed>, ghost entryAt: seq<nat>)
      requires |bundles| == |proposals| == |bars| && startIdx < endIdx < |bars|
      requires Valid() && open == map[]
      modifies this
      ensures Valid()
      ensures |feed| == n == WindowLength(startIdx, endIdx, maxBars) && startIdx + n <= |bars|
      ensures forall k | 0 <= k < n :: feed[k] == Feed(bars[startIdx + k], bundles[startIdx + k])
      ensures RunState(Env(), recordTape, proposals[startIdx..], feed, entryAt, old(journal), journal, open,
                       old(tapeBars), tapeBars, old(tapeEntries), tapeEntries)
    {
      hide LedgerOk, RunState, Opens;
      Facts();
      ghost var run, journal0, bars0, entries0 := proposals[startIdx..], journal, tapeBars, tapeEntries;
      RunStateStarts(Env(), recordTape, run, journal0, bars0, entries0);
      hide BooksAgree;
      n, feed, entryAt := 0, [], [];
      var j := startIdx;
      while j <= endIdx && !(maxBars.Some? && n >= maxBars.value)
        invariant startIdx <= j <= endIdx + 1 && n == j - startIdx == |feed|
        invariant maxBars.Some? && n > 0 ==> n <= maxBars.value
        invariant forall k | 0 <= k < n :: feed[k] == Feed(bars[startIdx + k], bundles[startIdx + k])
        invariant Valid()
        invariant RunState(Env(), recordTape, run, feed, entryAt, journal0, journal, open,
                           bars0, tapeBars, entries0, tapeEntries)
      {
        NextBar(bars[j], bundles[j], proposals[j], run, feed, entryAt, journal0, bars0, entries0);
        entryAt := if Opens(proposals[j], bars[j].close) then entryAt + [|feed|] else entryAt;
        feed := feed + [Feed(bars[j], bundles[j])];
        j, n := j + 1, n + 1;
      }
    }

    /** After the loop: mark, force-close what is left, report. */
    method Finish(n: nat, last: Bar) returns (res: RunResult)
      requires Valid()
      modifies `open, `book, `balance, `equity, `freeMargin, `riskLog, `fills, `journal
      ensures Valid() && open == map[] && book == map[] && equity == balance
      ensures res == Report(initialBalance, Store(), n)
      ensures prior == [] && |journal| <= LIST_LIMIT ==> res == RunResult(n, |journal|, |journal|, balance)
      ensures FlushedTo(Env(), last, old(open), old(journal), |old(journal)|, journal)
    {
      hide LedgerOk, CloseOf, FlushedTo, Report;
      Facts();
      UpdateMarks(last.close);
      if open == map[] { NothingUnrealized(book, |journal|, last.close, spec.contractSize); }
      Flush(last);
      res := BuildResult(n);
      if prior == [] && |journal| <= LIST_LIMIT {
        assert Store() == journal;
        Facts();
        ReportIsBalance(initialBalance, balance, journal, n);
      }
    }

    /** The loop and what follows it, once the window is known to hold bars. */
    method RunWindow(bars: seq<Bar>, bundles: seq<Bundle>, proposals: seq<Option<Proposal>>,
                     startIdx: nat, endIdx: nat, maxBars: Option<int>)
      returns (res: RunResult, ghost feed: seq<Feed>, ghost entryAt: seq<nat>)
      requires |bundles| == |proposals| == |bars| && startIdx < endIdx < |bars|
      requires Valid() && open == map[]
      modifies this
      ensures Valid() && open == map[] && book == map[]
      ensures |feed| == WindowLength(startIdx, endIdx, maxBars) && startIdx + |feed| <= |bars|
      ensures forall k | 0 <= k < |feed| :: feed[k] == Feed(bars[startIdx + k], bundles[startIdx + k])
      ensures EntriesMatch(proposals[startIdx..], feed, entryAt, |old(journal)|, journal)
      ensures RunJournaled(Env(), feed, entryAt, |old(journal)|, journal)
      ensures journal[..|old(journal)|] == old(journal)
      ensures recordTape ==>
                && tapeBars == old(tapeBars) + Records(feed)
                && tapeEntries == old(tapeEntries) + TapeEntries(entryAt, journal, |old(journal)|, |old(tapeBars)|)
      ensures equity == balance && res == Report(initialBalance, Store(), |feed|)
      ensures prior == [] && |journal| <= LIST_LIMIT ==> res == RunResult(|feed|, |journal|, |journal|, balance)
    {
      hide LedgerOk, RunState, RunJournaled, EntriesMatch, TapeEntries, Records, FlushedTo, Report;
      ghost var journal0, bars0, entries0 := journal, tapeBars, tapeEntries;
      var n;
      n, feed, entryAt := WalkWindow(bars, bundles, proposals, startIdx, endIdx, maxBars);
      Facts();
      ghost var journal1, open1 := journal, open;
      var last := if n > 0 then bars[startIdx + n - 1] else bars[endIdx];
      res := Finish(n, last);
      FinishJournals(Env(), recordTape, proposals[startIdx..], feed, entryAt, journal0, journal1, open1,
                     bars0, tapeBars, entries0, tapeEntries, last, journal);
    }

    method Run(bars: seq<Bar>, bundles: seq<Bundle>, proposals: seq<Option<Proposal>>,
               startDate: int, endDate: int, maxBars: Option<int>)
      returns (res: Result<RunResult, RunError>,
               ghost lo: int, ghost hi: int, ghost feed: seq<Feed>, ghost entryAt: seq<nat>)
      requires |bundles| == |proposals| == |bars|
      requires Valid() && open == map[]
      modifies this
      ensures Valid() && open == map[] && book == map[]
      ensures res.Err? <==> endDate <= startDate || bars == []
      ensures res.Err? ==> res.error == if endDate <= startDate then EndNotAfterStart else NoData
      ensures res.Err? || hi <= lo ==>
                && journal == old(journal) && balance == old(balance)
                && tapeBars == old(tapeBars) && tapeEntries == old(tapeEntries)
      // which bars are walked
      ensures res.Ok? ==>
                && IsFirstAtOrAfter(bars, startDate, lo) && IsLastAtOrBefore(bars, endDate, hi)
                && |feed| == res.value.nBars == WindowLength(lo, hi, maxBars) && lo + |feed| <= |bars|
                && forall k | 0 <= k < |feed| :: feed[k] == Feed(bars[lo + k], bundles[lo + k])
      // what is opened, and how it is journaled
      ensures res.Ok? && lo < hi ==>
                && EntriesMatch(proposals[lo..], feed, entryAt, |old(journal)|, journal)
                && RunJournaled(Env(), feed, entryAt, |old(journal)|, journal)
                && journal[..|old(journal)|] == old(journal)
      // what is recorded for the offline replay
      ensures res.Ok? && lo < hi && recordTape ==>
                && tapeBars == old(tapeBars) + Records(feed)
                && tapeEntries == old(tapeEntries) + TapeEntries(entryAt, journal, |old(journal)|, |old(tapeBars)|)
      // what is reported
      ensures res.Ok? && lo < hi ==> equity == balance && res.value == Report(initialBalance, Store(), |feed|)
      ensures res.Ok? && lo < hi && prior == [] && |journal| <= LIST_LIMIT ==>
                res.value == RunResult(|feed|, |journal|, |journal|, balance)
      ensures res.Ok? && hi <= lo ==>
                && res.value == RunResult(0, 0, 0, initialBalance)
                && (res.value.finalEquity == balance <==> old(balance) == initialBalance)
    {
      hide LedgerOk, RunState, RunJournaled, EntriesMatch, TapeEntries, Records, Report;
      Facts();
      assert book.Keys == {};
      lo, hi, feed, entryAt := 0, -1, [], [];
      if endDate <= startDate { return Err(EndNotAfterStart), lo, hi, feed, entryAt; }
      if bars == [] { return Err(NoData), lo, hi, feed, entryAt; }
      var startIdx := FindFirstBarAtOrAfter(bars, startDate);
      var endIdx := FindLastBarAtOrBefore(bars, endDate);
      lo, hi := startIdx, endIdx;
      if endIdx <= startIdx { return Ok(RunResult(0, 0, 0, initialBalance)), lo, hi, feed, entryAt; }
      var result;
      result, feed, entryAt := RunWindow(bars, bundles, proposals, startIdx, endIdx, maxBars);
      return Ok(result), lo, hi, feed, entryAt;
    }
  }
}
