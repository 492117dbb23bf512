/** The trade journal: its rows, the bounded listing that statistics are built from, and what a
    result built from that listing says about the rows of one engine. */
module Journal {
  import opened Common
  import opened ExitModel

  datatype CloseRow = CloseRow(time: int, price: real, pnl: real, r: real, reason: Reason)

  datatype Row = Row(trade: Trade, openTime: int, close: Option<CloseRow>)

  datatype RunResult = RunResult(nBars: nat, nTrades: nat, nClosed: nat, finalEquity: real)

  /** A listing without arguments stops after this many rows. */
  const LIST_LIMIT: nat := 1000

  // ---------------------------------------------------------------- listing

  /** By open time; rows opened at the same time stay in order of insertion. */
  predicate Before(rows: seq<Row>, i: nat, j: nat)
    requires i < |rows| && j < |rows|
  {
    rows[i].openTime < rows[j].openTime || (rows[i].openTime == rows[j].openTime && i < j)
  }

  ghost predicate Indices(rows: seq<Row>, order: seq<nat>) { forall k | 0 <= k < |order| :: order[k] < |rows| }

  ghost predicate InOrder(rows: seq<Row>, order: seq<nat>)
    requires Indices(rows, order)
  {
    forall a, b | 0 <= a < b < |order| :: Before(rows, order[a], order[b])
  }

  function Insert(rows: seq<Row>, order: seq<nat>, n: nat): (r: seq<nat>)
    requires n < |rows| && Indices(rows, order)
    ensures forall i :: i in r <==> i in order || i == n
    ensures |r| == |order| + 1 && Indices(rows, r)
  {
    var k := |order| - 1;
    if order == [] || Before(rows, order[k], n) then order + [n]
    else
      assert order == order[..k] + [order[k]];
      Insert(rows, order[..k], n) + [order[k]]
  }

  /** The first `n` rows, sorted. */
  function Sorted(rows: seq<Row>, n: nat): (r: seq<nat>)
    requires n <= |rows|
    ensures |r| == n && Indices(rows, r) && forall i: nat :: i in r <==> i < n
  {
    if n == 0 then [] else Insert(rows, Sorted(rows, n - 1), n - 1)
  }

  /** The rows a listing returns, by index. */
  function Listing(rows: seq<Row>): (r: seq<nat>)
    ensures Indices(rows, r)
  {
    var all := Sorted(rows, |rows|);
    if |all| <= LIST_LIMIT then all else all[..LIST_LIMIT]
  }

  /** The earliest rows in order, at most the limit; a row is left out only when the limit is
      reached and every listed row comes before it. */
  ghost predicate IsListing(rows: seq<Row>, listing: seq<nat>) {
    && Indices(rows, listing) && InOrder(rows, listing) && |listing| <= LIST_LIMIT
    && forall i: nat | i < |rows| && i !in listing ::
         |listing| == LIST_LIMIT && forall j | j in listing :: Before(rows, j, i)
  }

  lemma {:induction false} InsertOrders(rows: seq<Row>, order: seq<nat>, n: nat)
    requires n < |rows| && Indices(rows, order) && InOrder(rows, order) && n !in order
    ensures InOrder(rows, Insert(rows, order, n))
  {
    var k := |order| - 1;
    if order != [] && !Before(rows, order[k], n) {
      assert order == order[..k] + [order[k]];
      InsertOrders(rows, order[..k], n);
      var rest := Insert(rows, order[..k], n);
      forall a | 0 <= a < |rest|
        ensures Before(rows, rest[a], order[k])
      {
        assert rest[a] in rest;
        if rest[a] != n {
          var b :| 0 <= b < k && order[b] == rest[a];
          assert Before(rows, order[b], order[k]);
        } else {
          assert order[k] in order;
        }
      }
    } else {
      forall a | 0 <= a < |order|
        ensures Before(rows, order[a], n)
      {
        if a < k { assert Before(rows, order[a], order[k]); }
      }
    }
  }

  lemma {:induction false} SortedInOrder(rows: seq<Row>, n: nat)
    requires n <= |rows|
    ensures InOrder(rows, Sorted(rows, n))
  {
    if n > 0 {
      SortedInOrder(rows, n - 1);
      InsertOrders(rows, Sorted(rows, n - 1), n - 1);
    }
  }

  lemma ListingIsFirst(rows: seq<Row>)
    ensures IsListing(rows, Listing(rows))
  {
    var all := Sorted(rows, |rows|);
    SortedInOrder(rows, |rows|);
    if |all| > LIST_LIMIT {
      var listing := all[..LIST_LIMIT];
      forall i: nat, j: nat | i < |rows| && i !in listing && j in listing
        ensures Before(rows, j, i)
      {
        assert i in all;
        var b :| 0 <= b < |all| && all[b] == i;
        var a :| 0 <= a < LIST_LIMIT && listing[a] == j;
        forall c | 0 <= c < LIST_LIMIT
          ensures all[c] != i
        {
          assert listing[c] in listing;
        }
        assert Before(rows, all[a], all[b]);
      }
    }
  }

  function Chosen(order: seq<nat>): set<nat> { set i | i in order }

  /** An ordered list names each row at most once. */
  lemma {:induction false} DistinctSize(rows: seq<Row>, order: seq<nat>)
    requires Indices(rows, order) && InOrder(rows, order)
    ensures |Chosen(order)| == |order|
  {
    if order != [] {
      var k := |order| - 1;
      DistinctSize(rows, order[..k]);
      assert order == order[..k] + [order[k]];
      assert order[k] !in order[..k] by {
        forall a | 0 <= a < k
          ensures order[a] != order[k]
        {
          assert Before(rows, order[a], order[k]);
        }
      }
      assert Chosen(order) == Chosen(order[..k]) + {order[k]};
    }
  }

  // ---------------------------------------------------------------- results

  function PnlOf(row: Row): real { if row.close.Some? then row.close.value.pnl else 0.0 }

  function Pnls(rows: seq<Row>, listing: seq<nat>): seq<real>
    requires Indices(rows, listing)
  {
    seq(|listing|, k requires 0 <= k < |listing| => PnlOf(rows[listing[k]]))
  }

  function ClosedAmong(rows: seq<Row>, listing: seq<nat>): nat
    requires Indices(rows, listing)
  {
    if listing == [] then 0
    else
      var k := |listing| - 1;
      ClosedAmong(rows, listing[..k]) + if rows[listing[k]].close.Some? then 1 else 0
  }

  /** Counts and final equity over the listed rows. */
  function Report(initial: real, rows: seq<Row>, nBars: nat): (res: RunResult)
    ensures res.nBars == nBars && res.nTrades == if |rows| <= LIST_LIMIT then |rows| else LIST_LIMIT
  {
    var listing := Listing(rows);
    RunResult(nBars, |listing|, ClosedAmong(rows, listing), initial + Sum(Pnls(rows, listing)))
  }

  /** The pnl of the rows in `s`; 0 for the others. */
  function Masked(rows: seq<Row>, s: set<nat>): seq<real> {
    seq(|rows|, i requires 0 <= i < |rows| => if i in s then PnlOf(rows[i]) else 0.0)
  }

  /** The rows an engine wrote after the `n` that were there before. */
  function Own(rows: seq<Row>, n: nat): set<nat> { set i: nat | i < |rows| && AtOrAfter(i, n) }

  predicate AtOrAfter(i: nat, n: nat) { n <= i }

  /** An ordered list goes on with a row it did not name before. */
  lemma LastIsNew(rows: seq<Row>, order: seq<nat>)
    requires Indices(rows, order) && InOrder(rows, order) && order != []
    ensures var k := |order| - 1;
            && order[k] < |rows| && order[k] !in order[..k]
            && Indices(rows, order[..k]) && InOrder(rows, order[..k])
            && order == order[..k] + [order[k]]
  {
    var k := |order| - 1;
    forall a | 0 <= a < k
      ensures order[a] != order[k]
    {
      assert Before(rows, order[a], order[k]);
    }
  }

  lemma MaskOneMore(rows: seq<Row>, before: seq<nat>, i: nat)
    requires i < |rows| && i !in before && Indices(rows, before)
    ensures Indices(rows, before + [i])
    ensures Sum(Masked(rows, Chosen(before + [i]))) == Sum(Masked(rows, Chosen(before))) + PnlOf(rows[i])
    ensures Sum(Pnls(rows, before + [i])) == Sum(Pnls(rows, before)) + PnlOf(rows[i])
  {
    hide PnlOf, Sum;
    assert Chosen(before + [i]) == Chosen(before) + {i};
    assert Masked(rows, Chosen(before + [i])) == Masked(rows, Chosen(before))[i := PnlOf(rows[i])];
    SumUpdate(Masked(rows, Chosen(before)), i, PnlOf(rows[i]));
    assert Pnls(rows, before + [i]) == Pnls(rows, before) + [PnlOf(rows[i])];
    SumAppend(Pnls(rows, before), PnlOf(rows[i]));
  }

  lemma {:induction false} PnlsMasked(rows: seq<Row>, order: seq<nat>)
    requires Indices(rows, order) && InOrder(rows, order)
    ensures Sum(Pnls(rows, order)) == Sum(Masked(rows, Chosen(order)))
  {
    if order == [] {
      assert Chosen(order) == {};
      NothingMasked(rows, |rows|);
      assert Masked(rows, Chosen(order))[..|rows|] == Masked(rows, Chosen(order));
    } else {
      hide InOrder, Before, Masked, Pnls, Chosen, Sum, Indices;
      var k := |order| - 1;
      LastIsNew(rows, order);
      PnlsMasked(rows, order[..k]);
      MaskOneMore(rows, order[..k], order[k]);
    }
  }

  lemma {:induction false} NothingMasked(rows: seq<Row>, n: nat)
    requires n <= |rows|
    ensures Sum(Masked(rows, {})[..n]) == 0.0
  {
    if n > 0 {
      NothingMasked(rows, n - 1);
      assert Masked(rows, {})[..n][..n - 1] == Masked(rows, {})[..n - 1];
    }
  }

  lemma {:induction false} SumsBalance(a: seq<real>, b: seq<real>, c: seq<real>, d: seq<real>)
    requires |a| == |b| == |c| == |d| && forall i | 0 <= i < |a| :: a[i] + b[i] == c[i] + d[i]
    ensures Sum(a) + Sum(b) == Sum(c) + Sum(d)
  {
    if a != [] {
      var n := |a| - 1;
      SumsBalance(a[..n], b[..n], c[..n], d[..n]);
    }
  }

  /** What a result says beyond an engine's own rows: the listed rows of others count in, its own
      rows past the limit do not. */
  lemma ReportGap(initial: real, rows: seq<Row>, n: nat, nBars: nat)
    requires n <= |rows|
    ensures var listed, own := Chosen(Listing(rows)), Own(rows, n);
            Report(initial, rows, nBars).finalEquity - (initial + Sum(Masked(rows, own)))
            == Sum(Masked(rows, listed - own)) - Sum(Masked(rows, own - listed))
  {
    ListingIsFirst(rows);
    var listed, own := Chosen(Listing(rows)), Own(rows, n);
    PnlsMasked(rows, Listing(rows));
    SumsBalance(Masked(rows, listed), Masked(rows, own - listed), Masked(rows, own), Masked(rows, listed - own));
  }

  /** The exact condition under which a result is about the engine's own rows and all of them:
      they fit the limit, and there are no others or they fill it before any other row opens. */
  lemma ReportsOwnIff(rows: seq<Row>, n: nat)
    requires n <= |rows|
    ensures Chosen(Listing(rows)) == Own(rows, n)
            <==> |rows| - n <= LIST_LIMIT
                 && (n == 0 || (|rows| - n == LIST_LIMIT && forall i: nat, j: nat | i < n <= j < |rows| ::
                                  rows[j].openTime < rows[i].openTime))
  {
    ListingIsFirst(rows);
    var listing, own := Listing(rows), Own(rows, n);
    DistinctSize(rows, listing);
    OwnSize(rows, n);
    if Chosen(listing) == own {
      OthersLater(rows, n);
    } else if n > 0 && |rows| - n == LIST_LIMIT {
      SameSize(Chosen(listing), own);
      var i: nat :| i in Chosen(listing) - own;
      var j: nat :| j in own - Chosen(listing);
      assert Before(rows, i, j);
    }
  }

  lemma SameSize(a: set<nat>, b: set<nat>)
    requires |a| == |b| && a != b
    ensures (exists x :: x in a - b) && exists x :: x in b - a
  {
    assert |a| == |a * b| + |a - b| && |b| == |a * b| + |b - a|;
    assert a == (a * b) + (a - b) && b == (a * b) + (b - a);
    SomeIn(a - b);
    SomeIn(b - a);
  }

  lemma SomeIn(s: set<nat>)
    ensures s == {} || exists x :: x in s
  {
    if forall x :: x !in s { assert s == {}; }
  }

  lemma {:induction false} OwnSize(rows: seq<Row>, n: nat)
    requires n <= |rows|
    ensures |Own(rows, n)| == |rows| - n
    decreases |rows| - n
  {
    if n < |rows| {
      OwnSize(rows, n + 1);
      assert Own(rows, n) == Own(rows, n + 1) + {n};
    } else {
      assert Own(rows, n) == {};
    }
  }

  /** When exactly the own rows are listed, every other row opened later. */
  lemma OthersLater(rows: seq<Row>, n: nat)
    requires n <= |rows| && Chosen(Listing(rows)) == Own(rows, n) && IsListing(rows, Listing(rows))
    ensures forall i: nat, j: nat | i < n <= j < |rows| :: rows[j].openTime < rows[i].openTime
    ensures n > 0 ==> |Listing(rows)| == LIST_LIMIT
  {
    forall i: nat | i < n
      ensures i !in Listing(rows)
    {
      assert i !in Own(rows, n);
      assert i in Listing(rows) ==> i in Chosen(Listing(rows));
    }
    forall i: nat, j: nat | i < n <= j < |rows|
      ensures rows[j].openTime < rows[i].openTime
    {
      assert j in Own(rows, n) && j in Chosen(Listing(rows)) && j in Listing(rows);
      assert i !in Listing(rows);
      assert Before(rows, j, i);
    }
    if n > 0 {
      var first: nat := 0;
      assert first !in Listing(rows);
    }
  }
}
