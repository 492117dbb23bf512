/** The simulated broker's ledger: balance, equity, margin and free margin, open positions and
    pending orders, updated in place by every call. */
module PaperBroker {
  import opened Common

  datatype Side = Buy | Sell

  datatype OrderType = Market | Limit | Stop | StopLimit

  datatype OrderRequest = OrderRequest(
    symbol: string, side: Side, kind: OrderType, volume: real, price: Option<real>,
    sl: Option<real>, tp: Option<real>, clientOrderId: Option<nat>)

  datatype Position = Position(
    side: Side, volume: real, openPrice: real, openTime: int, sl: Option<real>, tp: Option<real>)

  datatype Bar = Bar(symbol: string, time: int, high: real, low: real, close: real)

  datatype SymbolSpec = SymbolSpec(contractSize: real, marginRate: real, point: real) {
    predicate NonNegative() { contractSize >= 0.0 && marginRate >= 0.0 }
  }

  datatype OrderError = NoPrice | NotFound

  /** An accepted order: its id, and volume and price if it was filled. */
  datatype Accepted = Filled(id: nat, volume: real, price: real) | Queued(id: nat)

  // ---------------------------------------------------------------- money

  function MarginOf(spec: SymbolSpec, p: Position): real {
    p.volume * spec.contractSize * p.openPrice * spec.marginRate
  }

  /** Bought or sold at a price that is not negative, a position never asks for a negative margin. */
  lemma MarginNonNegative(spec: SymbolSpec, p: Position)
    requires spec.NonNegative() && p.volume > 0.0 && p.openPrice >= 0.0
    ensures MarginOf(spec, p) >= 0.0
  {
    assert p.volume * spec.contractSize >= 0.0;
    assert p.volume * spec.contractSize * p.openPrice >= 0.0;
  }

  function UnrealizedPnl(spec: SymbolSpec, p: Position, price: real): real {
    (if p.side.Buy? then price - p.openPrice else p.openPrice - price) * p.volume * spec.contractSize
  }

  /** Margin of each position, by id; 0 where there is none. */
  function Margins(spec: SymbolSpec, book: map<nat, Position>, n: nat): seq<real> {
    seq(n, i requires 0 <= i < n => if i in book then MarginOf(spec, book[i]) else 0.0)
  }

  function Unrealized(spec: SymbolSpec, book: map<nat, Position>, n: nat, price: real): seq<real> {
    seq(n, i requires 0 <= i < n => if i in book then UnrealizedPnl(spec, book[i], price) else 0.0)
  }

  /** What a position gains when the price moves from `a` to `b`: for a buy the rise, for a sell the
      fall, on volume times contract size. */
  function Moved(spec: SymbolSpec, p: Position, a: real, b: real): real {
    match p.side
    case Buy => (b - a) * p.volume * spec.contractSize
    case Sell => (a - b) * p.volume * spec.contractSize
  }

  /** Nothing is gained at the open price, and each move of the price gains its own amount. */
  lemma PnlIsMove(spec: SymbolSpec, p: Position, a: real, b: real)
    ensures UnrealizedPnl(spec, p, p.openPrice) == 0.0
    ensures UnrealizedPnl(spec, p, b) - UnrealizedPnl(spec, p, a) == Moved(spec, p, a, b)
    ensures UnrealizedPnl(spec, p, b) == Moved(spec, p, p.openPrice, b)
  {
    PnlOf(spec, p, a);
    PnlOf(spec, p, b);
    var d, e, f := (a - p.openPrice) * p.volume, (b - p.openPrice) * p.volume, (b - a) * p.volume;
    assert f == e - d;
    assert f * spec.contractSize == e * spec.contractSize - d * spec.contractSize;
  }

  lemma PnlOf(spec: SymbolSpec, p: Position, x: real)
    ensures UnrealizedPnl(spec, p, x)
            == if p.side.Buy? then (x - p.openPrice) * p.volume * spec.contractSize
               else -((x - p.openPrice) * p.volume * spec.contractSize)
  {
  }

  /** The unrealized pnl of a book with one position is that position's. */
  lemma {:induction false} OnlyOne(spec: SymbolSpec, id: nat, p: Position, n: nat, price: real)
    ensures Sum(Unrealized(spec, map[id := p], n, price)) == if id < n then UnrealizedPnl(spec, p, price) else 0.0
  {
    hide UnrealizedPnl;
    if n > 0 {
      OnlyOne(spec, id, p, n - 1, price);
      assert Unrealized(spec, map[id := p], n, price)[..n - 1] == Unrealized(spec, map[id := p], n - 1, price);
    }
  }

  lemma {:induction false} SumNonNegative(xs: seq<real>)
    requires forall i | 0 <= i < |xs| :: xs[i] >= 0.0
    ensures Sum(xs) >= 0.0
  {
    if xs != [] { SumNonNegative(xs[..|xs| - 1]); }
  }

  /** Releasing one position's margin, floored at zero, leaves the margin of the rest exactly
      when that margin is not negative. */
  lemma ReleaseExactIff(xs: seq<real>, i: nat)
    requires i < |xs|
    ensures Max(0.0, Sum(xs) - xs[i]) == Sum(xs[i := 0.0]) <==> Sum(xs[i := 0.0]) >= 0.0
  {
    SumUpdate(xs, i, 0.0);
  }

  lemma BookOpens(spec: SymbolSpec, book: map<nat, Position>, n: nat, p: Position)
    requires forall i | i in book :: i < n
    ensures Sum(Margins(spec, book[n := p], n + 1)) == Sum(Margins(spec, book, n)) + MarginOf(spec, p)
  {
    hide MarginOf;
    assert Margins(spec, book[n := p], n + 1) == Margins(spec, book, n) + [MarginOf(spec, p)];
    SumAppend(Margins(spec, book, n), MarginOf(spec, p));
  }

  lemma BookCloses(spec: SymbolSpec, book: map<nat, Position>, n: nat, pid: nat)
    requires pid in book && pid < n
    ensures Margins(spec, book - {pid}, n) == Margins(spec, book, n)[pid := 0.0]
    ensures forall price :: Sum(Unrealized(spec, book - {pid}, n, price))
                            == Sum(Unrealized(spec, book, n, price)) - UnrealizedPnl(spec, book[pid], price)
  {
    hide MarginOf, UnrealizedPnl;
    assert Margins(spec, book - {pid}, n) == Margins(spec, book, n)[pid := 0.0];
    forall price
      ensures Sum(Unrealized(spec, book - {pid}, n, price))
              == Sum(Unrealized(spec, book, n, price)) - UnrealizedPnl(spec, book[pid], price)
    {
      SumUpdate(Unrealized(spec, book, n, price), pid, 0.0);
      assert Unrealized(spec, book - {pid}, n, price) == Unrealized(spec, book, n, price)[pid := 0.0];
    }
  }

  // ---------------------------------------------------------------- pending orders

  /** A missing or zero price falls back to `other`. */
  function PriceOr(price: Option<real>, other: real): real {
    if price.Some? && price.value != 0.0 then price.value else other
  }

  /** Some price of the bar satisfies a condition. */
  ghost predicate Touches(bar: Bar, price: real) { bar.low <= price <= bar.high }

  /** A limit triggers exactly when the bar has a price at least as good as its own, a stop when it
      has one at least as bad; nothing else triggers. A missing price counts as zero. */
  lemma TriggersIff(bar: Bar, req: OrderRequest)
    requires bar.low <= bar.high
    ensures var level := if req.price.Some? then req.price.value else 0.0;
            BarTriggers(bar, req) <==>
              match (req.kind, req.side)
              case (Limit, Buy) => exists x :: Touches(bar, x) && x <= level
              case (Limit, Sell) => exists x :: Touches(bar, x) && x >= level
              case (Stop, Buy) => exists x :: Touches(bar, x) && x >= level
              case (Stop, Sell) => exists x :: Touches(bar, x) && x <= level
              case (_, _) => false
  {
    assert Touches(bar, bar.low) && Touches(bar, bar.high);
  }

  predicate BarTriggers(bar: Bar, req: OrderRequest) {
    match req.kind
    case Limit => if req.side.Buy? then bar.low <= PriceOr(req.price, 0.0) else bar.high >= PriceOr(req.price, 0.0)
    case Stop => if req.side.Buy? then bar.high >= PriceOr(req.price, 0.0) else bar.low <= PriceOr(req.price, 0.0)
    case Market => false
    case StopLimit => false
  }

  function PendingFill(bar: Bar, req: OrderRequest): real {
    if req.side.Buy? then
      if req.kind == Limit then bar.high else Max(bar.high, PriceOr(req.price, bar.high))
    else
      if req.kind == Limit then bar.low else Min(bar.low, PriceOr(req.price, bar.low))
  }

  /** The worst price of the bar for the side. */
  function Worst(bar: Bar, side: Side): (price: real)
    ensures bar.low >= 0.0 && bar.high >= 0.0 ==> price >= 0.0
  {
    if side.Buy? then bar.high else bar.low
  }

  /** A triggered order always fills at the bar's worst price. */
  lemma TriggerFillsAtWorst(bar: Bar, req: OrderRequest)
    requires BarTriggers(bar, req)
    ensures PendingFill(bar, req) == Worst(bar, req.side)
    ensures bar.low <= bar.high ==>
              && Touches(bar, PendingFill(bar, req))
              && forall x | Touches(bar, x) ::
                   if req.side.Buy? then x <= PendingFill(bar, req) else x >= PendingFill(bar, req)
  {
  }

  /** A buy and a sell at one quote lie a spread and twice the slippage apart, around the close. */
  lemma QuoteAround(close: real, spreadPrice: real, slip: real)
    ensures var buy, sell := MarketPrice(Buy, close, spreadPrice, slip), MarketPrice(Sell, close, spreadPrice, slip);
            buy - sell == spreadPrice + 2.0 * slip && buy + sell == 2.0 * close
  {
  }

  /** The last close moved by half the spread and the slippage, against the order. */
  function MarketPrice(side: Side, close: real, spreadPrice: real, slip: real): (price: real)
    ensures spreadPrice >= 0.0 && slip >= 0.0 ==> if side.Buy? then price >= close else price <= close
  {
    if side.Buy? then close + spreadPrice / 2.0 + slip else close - spreadPrice / 2.0 - slip
  }

  function PositionFrom(req: OrderRequest, price: real, time: int): Position {
    Position(req.side, req.volume, price, time, req.sl, req.tp)
  }

  /** `fired` lists, oldest first, exactly the pending orders on the bar's symbol that it triggers. */
  ghost predicate Fires(pending: map<nat, OrderRequest>, bar: Bar, n: nat, fired: seq<nat>) {
    && (forall i, j | 0 <= i < j < |fired| :: fired[i] < fired[j])
    && (forall id: nat :: id in fired <==>
          id < n && id in pending && pending[id].symbol == bar.symbol && BarTriggers(bar, pending[id]))
  }

  /** The book after the fired orders were filled under the ids that follow `n`. */
  function FilledBook(book: map<nat, Position>, pending: map<nat, OrderRequest>, bar: Bar, n: nat,
                      fired: seq<nat>): map<nat, Position>
    requires forall id | id in fired :: id in pending
  {
    if fired == [] then book
    else
      var k := |fired| - 1;
      assert fired[k] in fired;
      FilledBook(book, pending, bar, n, fired[..k])
        [n + k := PositionFrom(pending[fired[k]], Worst(bar, pending[fired[k]].side), bar.time)]
  }

  /** Ids are never reused, free margin is equity minus margin, and margin is the sum of the open
      positions' requirements as long as no requirement was ever negative. */
  ghost predicate LedgerOk(spec: SymbolSpec, equity: real, margin: real, freeMargin: real,
                           positions: map<nat, Position>, pending: map<nat, OrderRequest>, nextId: nat, sound: bool)
  {
    && (forall id | id in positions :: id < nextId)
    && (forall id | id in pending ::
          id < nextId && id !in positions && pending[id].kind != Market && pending[id].volume > 0.0)
    && freeMargin == equity - margin
    && (sound ==> margin == Sum(Margins(spec, positions, nextId)))
    && (sound ==> forall id | id in positions :: MarginOf(spec, positions[id]) >= 0.0)
  }

  lemma LedgerOpens(spec: SymbolSpec, equity: real, margin: real, freeMargin: real, positions: map<nat, Position>,
                    pending: map<nat, OrderRequest>, nextId: nat, sound: bool, p: Position)
    requires LedgerOk(spec, equity, margin, freeMargin, positions, pending, nextId, sound)
    ensures var m := MarginOf(spec, p);
            LedgerOk(spec, equity, margin + m, equity - (margin + m), positions[nextId := p], pending, nextId + 1,
                     sound && m >= 0.0)
  {
    hide MarginOf, Margins, Sum;
    BookOpens(spec, positions, nextId, p);
  }

  lemma PendingRemoved(spec: SymbolSpec, equity: real, margin: real, freeMargin: real, positions: map<nat, Position>,
                       pending: map<nat, OrderRequest>, nextId: nat, sound: bool, ids: set<nat>)
    requires LedgerOk(spec, equity, margin, freeMargin, positions, pending, nextId, sound)
    ensures LedgerOk(spec, equity, margin, freeMargin, positions, pending - ids, nextId, sound)
  {
    hide MarginOf;
  }

  lemma FreshId(spec: SymbolSpec, equity: real, margin: real, freeMargin: real, positions: map<nat, Position>,
                pending: map<nat, OrderRequest>, nextId: nat, sound: bool)
    requires LedgerOk(spec, equity, margin, freeMargin, positions, pending, nextId, sound)
    ensures nextId !in positions && nextId !in pending
    ensures forall id | id in pending :: id < nextId && pending[id].volume > 0.0
  {
    hide MarginOf;
  }

  function Ids(s: seq<nat>): set<nat> { set x | x in s }

  /** What the trigger loop has done after looking at the ids below `id`. */
  ghost predicate FilledSoFar(book: map<nat, Position>, pending: map<nat, OrderRequest>, bar: Bar, n: nat, id: nat,
                              fired: seq<nat>, book': map<nat, Position>, nextId: nat, results: seq<Accepted>)
  {
    && Fires(pending, bar, id, fired) && (forall k | k in fired :: k in pending)
    && book' == FilledBook(book, pending, bar, n, fired) && |book'| == |book| + |fired|
    && nextId == n + |fired| && |results| == |fired|
    && (forall k | 0 <= k < |fired| ::
          fired[k] in pending &&
          results[k] == Filled(n + k, pending[fired[k]].volume, Worst(bar, pending[fired[k]].side)))
  }

  lemma FillingStarts(book: map<nat, Position>, pending: map<nat, OrderRequest>, bar: Bar, n: nat)
    ensures FilledSoFar(book, pending, bar, n, 0, [], book, n, [])
  {
    hide BarTriggers;
  }

  lemma FillingSkips(book: map<nat, Position>, pending: map<nat, OrderRequest>, bar: Bar, n: nat, id: nat,
                     fired: seq<nat>, book': map<nat, Position>, nextId: nat, results: seq<Accepted>)
    requires FilledSoFar(book, pending, bar, n, id, fired, book', nextId, results)
    requires !(id in pending && pending[id].symbol == bar.symbol && BarTriggers(bar, pending[id]))
    ensures FilledSoFar(book, pending, bar, n, id + 1, fired, book', nextId, results)
  {
    hide BarTriggers, FilledBook, Worst, Fires;
    FiresSkip(pending, bar, id, fired);
  }

  lemma FillingAdds(book: map<nat, Position>, pending: map<nat, OrderRequest>, bar: Bar, n: nat, id: nat,
                    fired: seq<nat>, book': map<nat, Position>, nextId: nat, results: seq<Accepted>)
    requires FilledSoFar(book, pending, bar, n, id, fired, book', nextId, results) && nextId !in book'
    requires id in pending && pending[id].symbol == bar.symbol && BarTriggers(bar, pending[id])
    ensures var price := Worst(bar, pending[id].side);
            FilledSoFar(book, pending, bar, n, id + 1, fired + [id],
                        book'[nextId := PositionFrom(pending[id], price, bar.time)], nextId + 1,
                        results + [Filled(nextId, pending[id].volume, price)])
  {
    hide BarTriggers, Worst, PositionFrom, Fires, FilledBook;
    FiresNext(pending, bar, id, fired);
    var fired' := fired + [id];
    assert fired'[..|fired|] == fired && fired'[|fired|] == id;
    forall k | k in fired'
      ensures k in pending
    {
      assert k in fired || k == id;
    }
    BookGrows(book, pending, bar, n, fired, id);
  }

  lemma BookGrows(book: map<nat, Position>, pending: map<nat, OrderRequest>, bar: Bar, n: nat, fired: seq<nat>, id: nat)
    requires (forall k | k in fired :: k in pending) && (forall k | k in fired + [id] :: k in pending) && id in pending
    ensures FilledBook(book, pending, bar, n, fired + [id]) ==
            FilledBook(book, pending, bar, n, fired)
              [n + |fired| := PositionFrom(pending[id], Worst(bar, pending[id].side), bar.time)]
  {
    assert (fired + [id])[..|fired|] == fired;
  }

  class PaperBroker {
    const spec: SymbolSpec

    var balance: real
    var equity: real
    var margin: real
    var freeMargin: real
    var positions: map<nat, Position>
    var pending: map<nat, OrderRequest>
    var nextId: nat
    var lastSpread: real

    /** No position was ever opened with a negative margin requirement. */
    ghost var sound: bool

    ghost predicate Valid()
      reads this
    {
      LedgerOk(spec, equity, margin, freeMargin, positions, pending, nextId, sound)
    }

    /** Balance plus what closing everything at `price` would add. */
    ghost function WorthAt(price: real): real
      reads this
    {
      balance + Sum(Unrealized(spec, positions, nextId, price))
    }

    constructor (spec: SymbolSpec, initialBalance: real)
      ensures Valid() && sound && this.spec == spec
      ensures balance == equity == freeMargin == initialBalance && margin == 0.0
      ensures positions == map[] && pending == map[] && nextId == 1
    {
      this.spec := spec;
      balance, equity, margin, freeMargin := initialBalance, initialBalance, 0.0, initialBalance;
      positions, pending, nextId, lastSpread, sound := map[], map[], 1, 30.0, true;
      new;
      assert Margins(spec, map[], 1) == [] + [0.0];
      SumAppend([], 0.0);
    }

    method RecordSpread(points: real)
      requires Valid()
      modifies `lastSpread
      ensures Valid() && lastSpread == Max(0.0, points)
    {
      lastSpread := if 0.0 >= points then 0.0 else points;
    }

    method UpdateMarks(lastPrice: real)
      requires Valid()
      modifies `equity, `freeMargin
      ensures Valid() && equity == WorthAt(lastPrice)
      ensures forall id: nat, p: Position | positions == map[id := p] ::
                equity == balance + Moved(spec, p, p.openPrice, lastPrice)
    {
      hide MarginOf, UnrealizedPnl;
      var total := 0.0;
      for i := 0 to nextId
        invariant total == Sum(Unrealized(spec, positions, i, lastPrice))
      {
        var u := if i in positions then UnrealizedPnl(spec, positions[i], lastPrice) else 0.0;
        assert Unrealized(spec, positions, i + 1, lastPrice) == Unrealized(spec, positions, i, lastPrice) + [u];
        SumAppend(Unrealized(spec, positions, i, lastPrice), u);
        total := total + u;
      }
      equity := balance + total;
      freeMargin := equity - margin;
      forall id: nat, p: Position | positions == map[id := p]
        ensures equity == balance + Moved(spec, p, p.openPrice, lastPrice)
      {
        assert id in positions;
        OnlyOne(spec, id, p, nextId, lastPrice);
        PnlIsMove(spec, p, lastPrice, lastPrice);
      }
    }

    method OpenPosition(request: OrderRequest, fillPrice: real, time: int) returns (r: Accepted)
      requires Valid() && request.volume > 0.0
      modifies `positions, `margin, `freeMargin, `nextId, `sound
      ensures Valid()
      ensures old(nextId) in positions
              && positions[old(nextId)]
                 == Position(request.side, request.volume, fillPrice, time, request.sl, request.tp)
      ensures margin - old(margin) == request.volume * spec.contractSize * fillPrice * spec.marginRate
      ensures var p := PositionFrom(request, fillPrice, time);
              && positions == old(positions)[old(nextId) := p] && nextId == old(nextId) + 1
              && margin == old(margin) + MarginOf(spec, p)
              && sound == (old(sound) && MarginOf(spec, p) >= 0.0)
              && (old(sound) && spec.NonNegative() && fillPrice >= 0.0 ==> sound)
              && r == Filled(old(nextId), request.volume, fillPrice)
    {
      hide LedgerOk, Margins, Sum;
      var notional := request.volume * spec.contractSize * fillPrice;
      var m := notional * spec.marginRate;
      var position := Position(request.side, request.volume, fillPrice, time, request.sl, request.tp);
      assert m == MarginOf(spec, position);
      if spec.NonNegative() && fillPrice >= 0.0 { MarginNonNegative(spec, position); }
      LedgerOpens(spec, equity, margin, freeMargin, positions, pending, nextId, sound, position);
      hide MarginOf;
      var pid := nextId;
      nextId := nextId + 1;
      positions := positions[pid := position];
      margin := margin + m;
      freeMargin := equity - margin;
      sound := sound && m >= 0.0;
      r := Filled(pid, request.volume, fillPrice);
    }

    /** Close at the caller's price: realize the pnl and release the margin; equity is not remarked. */
    method ClosePosition(pid: nat, lastPrice: real) returns (r: Result<Accepted, OrderError>)
      requires Valid()
      modifies `positions, `balance, `margin, `freeMargin
      ensures Valid()
      ensures r.Err? <==> pid !in old(positions)
      ensures r.Err? ==> r.error == NotFound && positions == old(positions) && balance == old(balance)
                         && margin == old(margin) && freeMargin == old(freeMargin)
      ensures r.Ok? ==> var p := old(positions)[pid];
                && balance - old(balance) ==
                   (if p.side.Buy? then (lastPrice - p.openPrice) * p.volume * spec.contractSize
                    else (p.openPrice - lastPrice) * p.volume * spec.contractSize)
                && r.value == Filled(pid, p.volume, lastPrice)
                && positions == old(positions) - {pid}
                && balance == old(balance) + UnrealizedPnl(spec, p, lastPrice)
                && margin == Max(0.0, old(margin) - MarginOf(spec, p))
                && (sound ==> margin == old(margin) - MarginOf(spec, p))
                && (old(margin == Sum(Margins(spec, positions, nextId))) ==>
                      var rest := Sum(Margins(spec, positions, nextId));
                      margin == rest <==> rest >= 0.0)
                && forall mark :: WorthAt(mark) == old(WorthAt(mark))
                                  + (UnrealizedPnl(spec, p, lastPrice) - UnrealizedPnl(spec, p, mark))
      ensures old(equity == WorthAt(lastPrice)) ==> equity == WorthAt(lastPrice)
    {
      hide MarginOf, UnrealizedPnl;
      if pid !in positions { return Err(NotFound); }
      var position := positions[pid];
      ghost var terms := Margins(spec, positions, nextId);
      BookCloses(spec, positions, nextId, pid);
      SumUpdate(terms, pid, 0.0);
      PnlIsMove(spec, position, lastPrice, lastPrice);
      ReleaseExactIff(terms, pid);
      if sound { SumNonNegative(terms[pid := 0.0]); }
      positions := positions - {pid};
      balance := balance + UnrealizedPnl(spec, position, lastPrice);
      margin := Max(0.0, margin - MarginOf(spec, position));
      freeMargin := equity - margin;
      r := Ok(Filled(pid, position.volume, lastPrice));
    }

    method RecordPending(request: OrderRequest) returns (r: Accepted)
      requires Valid() && request.kind != Market && request.volume > 0.0
      modifies `pending, `nextId
      ensures Valid()
      ensures pending == old(pending)[old(nextId) := request.(clientOrderId := Some(old(nextId)))]
      ensures nextId == old(nextId) + 1 && r == Queued(old(nextId))
    {
      hide MarginOf;
      assert Margins(spec, positions, nextId + 1) == Margins(spec, positions, nextId) + [0.0];
      SumAppend(Margins(spec, positions, nextId), 0.0);
      var pid := nextId;
      nextId := nextId + 1;
      pending := pending[pid := request.(clientOrderId := Some(pid))];
      r := Queued(pid);
    }

    /** `last` is the last visible bar, if the price lookup succeeds; `slip` is the drawn slippage. */
    method Submit(request: OrderRequest, last: Option<Bar>, slip: real) returns (r: Result<Accepted, OrderError>)
      requires Valid() && request.volume > 0.0
      modifies `positions, `margin, `freeMargin, `pending, `nextId, `sound
      ensures Valid()
      ensures r.Err? <==> request.kind == Market && last.None?
      ensures r.Err? ==> r.error == NoPrice && positions == old(positions) && pending == old(pending)
                         && margin == old(margin) && nextId == old(nextId)
      ensures request.kind == Market && last.Some? ==>
                var price := MarketPrice(request.side, last.value.close, lastSpread * spec.point, slip);
                && r.Ok? && r.value == Filled(old(nextId), request.volume, price) && pending == old(pending)
                && positions == old(positions)[old(nextId) := PositionFrom(request, price, last.value.time)]
                && nextId == old(nextId) + 1
                && margin == old(margin) + MarginOf(spec, PositionFrom(request, price, last.value.time))
                && (old(sound) && spec.NonNegative() && price >= 0.0 ==> sound)
      ensures request.kind != Market || last.None? ==> sound == old(sound)
      ensures request.kind != Market ==>
                && r.Ok? && r.value == Queued(old(nextId)) && positions == old(positions) && margin == old(margin)
                && pending == old(pending)[old(nextId) := request.(clientOrderId := Some(old(nextId)))]
    {
      hide MarginOf;
      if request.kind != Market {
        var queued := RecordPending(request);
        return Ok(queued);
      }
      if last.None? { return Err(NoPrice); }
      var spreadPrice := lastSpread * spec.point;
      var fillPrice := MarketPrice(request.side, last.value.close, spreadPrice, slip);
      hide MarketPrice;
      var filled := OpenPosition(request, fillPrice, last.value.time);
      return Ok(filled);
    }

    /** Pending orders become positions: every order of the bar's symbol that triggers, no other,
        each once, at the bar's worst price and under a fresh id. */
    method ProcessBar(bar: Bar) returns (results: seq<Accepted>, ghost fired: seq<nat>)
      requires Valid()
      modifies `positions, `margin, `freeMargin, `pending, `nextId, `sound
      ensures Valid()
      ensures Fires(old(pending), bar, old(nextId), fired)
      ensures forall id | id in fired :: id in old(pending)
      ensures pending == old(pending) - Ids(fired)
      ensures positions == FilledBook(old(positions), old(pending), bar, old(nextId), fired)
      ensures nextId == old(nextId) + |fired| && |results| == |fired|
      ensures forall k | 0 <= k < |fired| ::
                fired[k] in old(pending) &&
                results[k] == Filled(old(nextId) + k, old(pending)[fired[k]].volume,
                                     Worst(bar, old(pending)[fired[k]].side))
      ensures |pending| + |positions| == |old(pending)| + |old(positions)|
      ensures old(sound) && spec.NonNegative() && bar.low >= 0.0 && bar.high >= 0.0 ==> sound
    {
      hide LedgerOk, MarginOf, BarTriggers, FilledSoFar, PositionFrom, Worst, Fires, FilledBook, Ids, PendingFill;
      FreshId(spec, equity, margin, freeMargin, positions, pending, nextId, sound);
      FillingStarts(positions, pending, bar, nextId);
      results, fired := [], [];
      var triggered: seq<nat> := [];
      var bound := nextId;
      for id := 0 to bound
        invariant Valid() && pending == old(pending) && fired == triggered
        invariant old(sound) && spec.NonNegative() && bar.low >= 0.0 && bar.high >= 0.0 ==> sound
        invariant FilledSoFar(old(positions), old(pending), bar, bound, id, fired, positions, nextId, results)
      {
        if id in pending && pending[id].symbol == bar.symbol && BarTriggers(bar, pending[id]) {
          var req := pending[id];
          TriggerFillsAtWorst(bar, req);
          FreshId(spec, equity, margin, freeMargin, positions, pending, nextId, sound);
          FillingAdds(old(positions), pending, bar, bound, id, fired, positions, nextId, results);
          var fill := OpenPosition(req, PendingFill(bar, req), bar.time);
          triggered, fired := triggered + [id], fired + [id];
          results := results + [fill];
        } else {
          FillingSkips(old(positions), pending, bar, bound, id, fired, positions, nextId, results);
        }
      }
      FillingDone(old(positions), old(pending), bar, bound, bound, fired, positions, nextId, results);
      RemoveTriggered(triggered);
    }

    /** Drop the triggered ids from the pending book. */
    method RemoveTriggered(triggered: seq<nat>)
      requires Valid()
      requires forall i, j | 0 <= i < j < |triggered| :: triggered[i] < triggered[j]
      requires forall id | id in triggered :: id in pending
      modifies `pending
      ensures Valid()
      ensures pending == old(pending) - Ids(triggered)
      ensures |pending| == |old(pending)| - |triggered|
    {
      hide LedgerOk;
      for k := 0 to |triggered|
        invariant pending == old(pending) - Ids(triggered[..k]) && |pending| == |old(pending)| - k
      {
        TakeOne(old(pending), triggered, k);
        pending := pending - {triggered[k]};
      }
      assert triggered[..|triggered|] == triggered;
      PendingRemoved(spec, equity, margin, freeMargin, positions, old(pending), nextId, sound, Ids(triggered));
    }
  }

  lemma SumOfThree(a: real, b: real, c: real)
    ensures Sum([a, b, c]) == a + b + c
  {
    assert Sum([]) == 0.0;
    assert [] + [a] == [a] && [a] + [b] == [a, b] && [a, b] + [c] == [a, b, c];
    hide Sum;
    SumAppend([], a);
    SumAppend([a], b);
    SumAppend([a, b], c);
  }

  /** Two market buys, at 5 and at a close of -10, then the first is closed: its margin of 5 is
      taken from -5, the floor binds, and the margin is no longer the sum over the open position. */
  method FloorBinds() returns (b: PaperBroker)
    ensures b.Valid() && b.spec.NonNegative() && b.margin == 0.0
    ensures Sum(Margins(b.spec, b.positions, b.nextId)) == -10.0
  {
    hide LedgerOk, Sum, Margins, Unrealized, UnrealizedPnl, MarginOf, MarketPrice;
    var request := OrderRequest("XAUUSD", Buy, Market, 1.0, None, None, None, None);
    var spec := SymbolSpec(1.0, 1.0, 0.0);
    b := new PaperBroker(spec, 100.0);
    UnitMargin(request, 5.0, 0, b.lastSpread);
    var first := b.Submit(request, Some(Bar("XAUUSD", 0, 5.0, 5.0, 5.0)), 0.0);
    UnitMargin(request, -10.0, 1, b.lastSpread);
    var second := b.Submit(request, Some(Bar("XAUUSD", 1, -10.0, -10.0, -10.0)), 0.0);
    assert b.positions == map[1 := PositionFrom(request, 5.0, 0), 2 := PositionFrom(request, -10.0, 1)];
    var closed := b.ClosePosition(1, 5.0);
    assert b.positions == map[2 := PositionFrom(request, -10.0, 1)];
    OnlySecond(PositionFrom(request, -10.0, 1));
  }

  /** A unit position under a unit specification costs its price. */
  lemma UnitMargin(request: OrderRequest, close: real, time: int, spread: real)
    requires request.volume == 1.0
    ensures MarketPrice(request.side, close, spread * 0.0, 0.0) == close
    ensures MarginOf(SymbolSpec(1.0, 1.0, 0.0), PositionFrom(request, close, time)) == close
  {
  }

  lemma OnlySecond(p: Position)
    ensures Sum(Margins(SymbolSpec(1.0, 1.0, 0.0), map[2 := p], 3)) == MarginOf(SymbolSpec(1.0, 1.0, 0.0), p)
  {
    hide MarginOf, Sum;
    var spec := SymbolSpec(1.0, 1.0, 0.0);
    assert Margins(spec, map[2 := p], 3) == [0.0, 0.0, MarginOf(spec, p)];
    SumOfThree(0.0, 0.0, MarginOf(spec, p));
  }

  lemma FillingDone(book: map<nat, Position>, pending: map<nat, OrderRequest>, bar: Bar, n: nat, id: nat,
                    fired: seq<nat>, book': map<nat, Position>, nextId: nat, results: seq<Accepted>)
    requires FilledSoFar(book, pending, bar, n, id, fired, book', nextId, results)
    ensures Fires(pending, bar, id, fired) && (forall k | k in fired :: k in pending)
    ensures book' == FilledBook(book, pending, bar, n, fired) && |book'| == |book| + |fired|
    ensures nextId == n + |fired| && |results| == |fired|
    ensures forall k | 0 <= k < |fired| ::
              fired[k] in pending &&
              results[k] == Filled(n + k, pending[fired[k]].volume, Worst(bar, pending[fired[k]].side))
  {
  }

  lemma TakeOne(pending: map<nat, OrderRequest>, ids: seq<nat>, k: nat)
    requires k < |ids| && (forall i, j | 0 <= i < j < |ids| :: ids[i] < ids[j])
    requires forall id | id in ids :: id in pending
    ensures pending - Ids(ids[..k + 1]) == (pending - Ids(ids[..k])) - {ids[k]}
    ensures |pending - Ids(ids[..k + 1])| == |pending - Ids(ids[..k])| - 1
  {
    IdsTake(ids, k);
    hide Ids;
    var x, rest := ids[k], pending - Ids(ids[..k]);
    assert x in ids;
    MinusUnion(pending, Ids(ids[..k]), x);
    RemoveOne(rest, x);
  }

  lemma IdsTake(ids: seq<nat>, k: nat)
    requires k < |ids| && forall i, j | 0 <= i < j < |ids| :: ids[i] < ids[j]
    ensures Ids(ids[..k + 1]) == Ids(ids[..k]) + {ids[k]} && ids[k] !in Ids(ids[..k])
  {
    assert ids[..k + 1] == ids[..k] + [ids[k]];
  }

  lemma MinusUnion(m: map<nat, OrderRequest>, a: set<nat>, x: nat)
    ensures m - (a + {x}) == (m - a) - {x}
  {
  }

  lemma RemoveOne(m: map<nat, OrderRequest>, id: nat)
    requires id in m
    ensures |m - {id}| == |m| - 1
  {
    assert m == (m - {id})[id := m[id]];
  }

  lemma FiresNext(pending: map<nat, OrderRequest>, bar: Bar, id: nat, fired: seq<nat>)
    requires Fires(pending, bar, id, fired)
    requires id in pending && pending[id].symbol == bar.symbol && BarTriggers(bar, pending[id])
    ensures Fires(pending, bar, id + 1, fired + [id])
  {
    hide BarTriggers;
    forall k: nat
      ensures k in fired + [id] <==> k in fired || k == id
    {
    }
    forall i | 0 <= i < |fired|
      ensures fired[i] < id
    {
      assert fired[i] in fired;
    }
  }

  lemma FiresSkip(pending: map<nat, OrderRequest>, bar: Bar, id: nat, fired: seq<nat>)
    requires Fires(pending, bar, id, fired)
    requires !(id in pending && pending[id].symbol == bar.symbol && BarTriggers(bar, pending[id]))
    ensures Fires(pending, bar, id + 1, fired)
  {
    hide BarTriggers;
  }
}
