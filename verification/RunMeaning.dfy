/** What a run opens and how it journals, stated in proposals, prices and money alone. */
module RunMeaning {
  import opened Common
  import opened ExitModel
  import opened ExitReplay
  import opened ExitMeaning
  import opened Journal
  import opened Engine

  /** A buy and a sell on one proposal lie a spread and twice the slippage apart, around the close. */
  lemma FillsAround(p: Proposal, close: real)
    requires p.slPrice.Some?
    ensures var buy, sell := TradeFrom(p.(side := Long), close).entry, TradeFrom(p.(side := Short), close).entry;
            buy - sell == p.spread + 2.0 * p.slip && buy + sell == 2.0 * close
  {
  }

  /** The trade is the proposal: its own stop, targets, amounts and side. */
  ghost predicate Carries(t: Trade, p: Proposal) {
    && p.slPrice == Some(t.initialSl) && t.side == p.side
    && t.tp1 == p.tp1 && t.tp2 == p.tp2 && t.tp3 == p.tp3
    && t.riskAmount == p.riskAmount && t.initialVolume == p.volume
  }

  /** A bar opens a trade exactly when it has a proposal with a stop that is neither zero nor the
      close, and with a volume. */
  lemma EntriesAre(proposals: seq<Option<Proposal>>, feed: seq<Feed>, entryAt: seq<nat>, base: nat, journal: seq<Row>,
                   j: nat)
    requires |feed| <= |proposals| && EntriesMatch(proposals, feed, entryAt, base, journal) && j < |feed|
    ensures j in entryAt <==>
              && proposals[j].Some? && proposals[j].value.volume > 0.0 && proposals[j].value.slPrice.Some?
              && proposals[j].value.slPrice.value != 0.0
              && proposals[j].value.slPrice.value != feed[j].bar.close
  {
    if j in entryAt {
      var k :| 0 <= k < |entryAt| && entryAt[k] == j;
      assert OpenedAs(proposals, feed, entryAt[k], journal[base + k]);
    }
    assert j < |feed| && Opens(proposals[j], feed[j].bar.close) ==> j in entryAt;
  }

  lemma RowCarries(proposals: seq<Option<Proposal>>, feed: seq<Feed>, entryAt: seq<nat>, base: nat, journal: seq<Row>,
                   k: nat)
    requires |feed| <= |proposals| && EntriesMatch(proposals, feed, entryAt, base, journal) && k < |entryAt|
    ensures |journal| == base + |entryAt| && entryAt[k] < |feed| && proposals[entryAt[k]].Some?
    ensures Carries(journal[base + k].trade, proposals[entryAt[k]].value)
  {
    assert OpenedAs(proposals, feed, entryAt[k], journal[base + k]);
  }

  /** The row a finished trade leaves: where and why it left, or a manual close at the last bar's
      close; the money of all its legs; and R as that money over the risked amount. */
  lemma JournaledAs(env: Env, t: Trade, m: Managed, last: Bar)
    ensures var row := JournalClose(env, t, m, last);
            && (m.Exited? ==> row.price == m.price && row.time == m.time && row.reason == m.reason)
            && (m.Live? ==> row.price == last.close && row.time == last.time && row.reason == Manual)
            && row.pnl == m.st.realized + Gain(t, row.price) * m.st.volume * env.contract
            && row.r * (if t.riskAmount > 0.0 then t.riskAmount else 1.0) == row.pnl
  {
    FinalRMeaning(env, t, m.st, JournalClose(env, t, m, last).price);
    hide Gain, TotalPnl, FinalR;
  }

  function Above(rs: seq<real>, x: real): set<nat> { set i: nat | i < |rs| && rs[i] > x }

  function Below(rs: seq<real>, x: real): set<nat> { set i: nat | i < |rs| && rs[i] < x }

  lemma OneMore(rs: seq<real>, r: real, x: real)
    ensures Above(rs + [r], x) == Above(rs, x) + if r > x then {|rs|} else {}
    ensures Below(rs + [r], x) == Below(rs, x) + if r < x then {|rs|} else {}
    ensures |rs| !in Above(rs, x) && |rs| !in Below(rs, x)
  {
  }

  /** Wins and losses are the replayed trades beyond a billionth of R on either side. */
  lemma {:induction false} TallyCounts(rs: seq<real>)
    ensures Wins(rs) == |Above(rs, 0.000000001)|
    ensures Losses(rs) == |Below(rs, -0.000000001)|
  {
    hide Above, Below;
    if rs != [] {
      var n := |rs| - 1;
      TallyCounts(rs[..n]);
      assert rs == rs[..n] + [rs[n]];
      OneMore(rs[..n], rs[n], 0.000000001);
      OneMore(rs[..n], rs[n], -0.000000001);
    } else {
      NoneBeyond();
    }
  }

  lemma NoneBeyond()
    ensures forall x :: Above([], x) == {} && Below([], x) == {}
  {
  }

  /** The whole window, or as many bars as the limit allows. */
  lemma WindowIs(lo: int, hi: int, maxBars: Option<int>)
    ensures lo >= hi ==> WindowLength(lo, hi, maxBars) == 0
    ensures lo < hi ==>
              var n := WindowLength(lo, hi, maxBars);
              && n <= hi - lo + 1 && (maxBars.Some? ==> n <= maxBars.value || n == 0)
              && (n == hi - lo + 1 || (maxBars.Some? && (n == maxBars.value || (n == 0 && maxBars.value < 0))))
  {
  }
}
