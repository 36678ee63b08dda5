/** `PaperTradingBot`: the per-symbol order ledger (open order, last submitted
    delta, last price, position) and the reconciliation step `submit_order`
    that moves one symbol toward a target quantity through the gateway. */
module TradingBot {
  import opened Common
  import opened Broker

  /** Cap on the number of scraped tickers. */
  const MAX_TICKERS: nat := 500
  /** `list_orders(limit=1)` when the ledger is initialised. */
  const LEDGER_ORDER_LIMIT: nat := 1
  /** `list_orders(limit=500)` in `close_positions`. */
  const CLOSE_ORDER_LIMIT: nat := 500

  /** The bot's state as a value: its four per-symbol lists, the symbols, and
      the stray attribute `position`, which only the failed-lookup handler
      of the constructor assigns (None: the attribute does not exist). */
  datatype Ledger = Ledger(
    symbols: seq<string>,
    currentOrders: seq<Option<OrderId>>,
    lastDeltas: seq<int>,
    lastPrices: seq<real>,
    positions: seq<int>,
    strayPosition: Option<int>)
  {
    predicate Valid() {
      && |currentOrders| == |symbols|
      && |lastDeltas| == |symbols|
      && |lastPrices| == |symbols|
      && |positions| == |symbols|
      && (strayPosition.None? || strayPosition == Some(0))
    }
  }

  /** Two ledgers that agree on everything `submit_order` never writes. */
  predicate SameSnapshot(l: Ledger, l': Ledger) {
    && l'.symbols == l.symbols
    && l'.lastPrices == l.lastPrices
    && l'.positions == l.positions
    && l'.strayPosition == l.strayPosition
  }

  // ---------------------------------------------------------------------
  // Tickers

  /** Python's `s[:-1]`: all but the last character, or nothing. */
  function DropLast(s: string): (r: string)
    ensures r <= s && |r| == Max(|s| - 1, 0)
  {
    if |s| == 0 then s else s[..|s| - 1]
  }

  /** The tickers kept from the first cells of the table rows: a cell with a
      '.' is skipped, any other loses its last character. */
  function ScrapedTickers(cells: seq<string>): (t: seq<string>)
    ensures |t| <= |cells|
    ensures forall k | 0 <= k < |t| :: '.' !in t[k]
  {
    if cells == [] then []
    else
      var cell := cells[|cells| - 1];
      var kept := if '.' in cell then [] else [DropLast(cell)];
      ScrapedTickers(cells[..|cells| - 1]) + kept
  }

  /** Cells without '.' each yield the cell minus its last character, in
      order. */
  lemma {:induction false} ScrapedTickersAllClean(cells: seq<string>)
    requires forall k | 0 <= k < |cells| :: '.' !in cells[k]
    ensures var t := ScrapedTickers(cells);
      |t| == |cells| && forall k | 0 <= k < |t| :: t[k] == DropLast(cells[k])
  {
    if cells != [] {
      ScrapedTickersAllClean(cells[..|cells| - 1]);
    }
  }

  /** Cells that all contain '.' yield no ticker. */
  lemma {:induction false} ScrapedTickersAllDotted(cells: seq<string>)
    requires forall k | 0 <= k < |cells| :: '.' in cells[k]
    ensures ScrapedTickers(cells) == []
  {
    if cells != [] {
      ScrapedTickersAllDotted(cells[..|cells| - 1]);
    }
  }

  /** The filter works cell by cell: the tickers of two runs of cells are
      the tickers of the first run followed by those of the second. With
      the clean and all-dotted cases, this fixes the result: each cell
      without '.' yields that cell minus its last character, in order, and
      nothing else is kept. */
  lemma {:induction false} ScrapedTickersConcat(a: seq<string>, b: seq<string>)
    ensures ScrapedTickers(a + b) == ScrapedTickers(a) + ScrapedTickers(b)
    decreases |b|
  {
    if b != [] {
      var front := b[..|b| - 1];
      assert (a + b)[..|a + b| - 1] == a + front;
      assert (a + b)[|a + b| - 1] == b[|b| - 1];
      ScrapedTickersConcat(a, front);
    } else {
      assert a + b == a;
    }
  }

  /** Python's `s[0:stop]`: a negative stop counts from the end. */
  function PyPrefix<T>(s: seq<T>, stop: int): (r: seq<T>)
    ensures r <= s
    ensures stop >= 0 ==> |r| == Min(stop, |s|)
    ensures stop < 0 ==> |r| == Max(|s| + stop, 0)
  {
    if stop >= 0 then s[..Min(stop, |s|)] else s[..Max(|s| + stop, 0)]
  }

  /** The symbols `get_tickers` yields: the given stocks, or else the first
      `min(numTickers, 500)` scraped tickers. */
  function Tickers(numTickers: int, stocks: seq<string>, cells: seq<string>): (t: seq<string>)
    ensures stocks != [] ==> t == stocks
    ensures stocks == [] ==> t <= ScrapedTickers(cells)
    ensures stocks == [] ==> forall k | 0 <= k < |t| :: '.' !in t[k]
    ensures stocks == [] && numTickers >= 0 ==>
      |t| == Min(Min(numTickers, MAX_TICKERS), |ScrapedTickers(cells)|)
    ensures stocks == [] && numTickers < 0 ==>
      |t| == Max(|ScrapedTickers(cells)| + numTickers, 0)
  {
    if stocks != [] then stocks
    else
      var all := ScrapedTickers(cells);
      var t := PyPrefix(all, Min(numTickers, MAX_TICKERS));
      assert forall k | 0 <= k < |t| :: t[k] == all[k];
      t
  }

  method GetTickers(numTickers: int, stocks: seq<string>, cells: seq<string>) returns (tickers: seq<string>)
    ensures tickers == Tickers(numTickers, stocks, cells)
  {
    if stocks == [] {
      tickers := [];
      var i := 0;
      while i < |cells|
        invariant 0 <= i <= |cells|
        invariant tickers == ScrapedTickers(cells[..i])
      {
        var ticker := cells[i];
        assert cells[..i + 1][..i] == cells[..i];
        if '.' !in ticker {
          tickers := tickers + [DropLast(ticker)];
        }
        i := i + 1;
      }
      assert cells[..|cells|] == cells;
      tickers := PyPrefix(tickers, Min(numTickers, MAX_TICKERS));
    } else {
      tickers := stocks;
    }
  }

  // ---------------------------------------------------------------------
  // Snapshot and ledger initialisation

  /** The last price recorded for a symbol: the bid, or the high of the last
      minute bar when the bid is zero. */
  function QuotePrice(m: Market, symbol: string): (p: real)
    ensures m.bidPrice(symbol) != 0.0 ==> p == m.bidPrice(symbol)
    ensures m.bidPrice(symbol) == 0.0 ==> p == m.minuteHigh(symbol)
  {
    if m.bidPrice(symbol) == 0.0 then m.minuteHigh(symbol) else m.bidPrice(symbol)
  }

  /** The position recorded for a symbol: 0 when the lookup fails. */
  function HeldQuantity(m: Market, symbol: string): (q: int)
    ensures symbol in m.heldQty ==> q == m.heldQty[symbol]
    ensures symbol !in m.heldQty ==> q == 0
  {
    if symbol in m.heldQty then m.heldQty[symbol] else 0
  }

  method LoadPrices(m: Market, symbols: seq<string>) returns (prices: seq<real>)
    ensures |prices| == |symbols|
    ensures forall i | 0 <= i < |symbols| :: prices[i] == QuotePrice(m, symbols[i])
  {
    prices := seq(|symbols|, _ => 0.0);
    for i := 0 to |symbols|
      invariant |prices| == |symbols|
      invariant forall j | 0 <= j < i :: prices[j] == QuotePrice(m, symbols[j])
    {
      var bid := m.bidPrice(symbols[i]);
      if bid == 0.0 {
        bid := m.minuteHigh(symbols[i]);
      }
      prices := prices[i := bid];
    }
  }

  /** Any symbol whose position lookup fails? */
  predicate SomeLookupFails(m: Market, symbols: seq<string>) {
    exists i | 0 <= i < |symbols| :: symbols[i] !in m.heldQty
  }

  method LoadPositions(m: Market, symbols: seq<string>) returns (positions: seq<int>, position: Option<int>)
    ensures |positions| == |symbols|
    ensures forall i | 0 <= i < |symbols| :: positions[i] == HeldQuantity(m, symbols[i])
    ensures position.Some? <==> SomeLookupFails(m, symbols)
    ensures position.Some? ==> position.value == 0
  {
    positions := seq(|symbols|, _ => 0);
    position := None;
    for i := 0 to |symbols|
      invariant |positions| == |symbols|
      invariant forall j | 0 <= j < i :: positions[j] == HeldQuantity(m, symbols[j])
      invariant forall j | i <= j < |symbols| :: positions[j] == 0
      invariant position.Some? <==> exists j | 0 <= j < i :: symbols[j] !in m.heldQty
      invariant position.Some? ==> position.value == 0
    {
      if symbols[i] in m.heldQty {
        positions := positions[i := m.heldQty[symbols[i]]];
      } else {
        position := Some(0);
      }
    }
  }

  /** Position of the first occurrence of `s` (Python's `list.index`). */
  function IndexOf(symbols: seq<string>, s: string): (i: nat)
    requires s in symbols
    ensures i < |symbols| && symbols[i] == s
    ensures forall j | 0 <= j < i :: symbols[j] != s
  {
    if symbols[0] == s then 0 else 1 + IndexOf(symbols[1..], s)
  }

  /** The symbols of a list of orders. */
  function SymbolsOf(listed: seq<ListedOrder>): set<string> {
    set k | 0 <= k < |listed| :: listed[k].symbol
  }

  /** `listed[k]` is the last listed order for symbol `s`. */
  predicate IsLastListed(listed: seq<ListedOrder>, k: int, s: string) {
    0 <= k < |listed| && listed[k].symbol == s &&
    forall k' | k < k' < |listed| :: listed[k'].symbol != s
  }

  /** The order slots after recording each listed order at the first index
      of its symbol, when that symbol is tracked; a later order overwrites. */
  function OrderSlots(symbols: seq<string>, listed: seq<ListedOrder>): (slots: seq<Option<OrderId>>)
    ensures |slots| == |symbols|
    ensures forall i | 0 <= i < |slots| ::
      slots[i].Some? <==> symbols[i] in SymbolsOf(listed) && IndexOf(symbols, symbols[i]) == i
    ensures forall i | 0 <= i < |slots| && slots[i].Some? ::
      exists k :: IsLastListed(listed, k, symbols[i]) && slots[i].value == listed[k].id
  {
    if listed == [] then seq(|symbols|, _ => None)
    else
      var front := listed[..|listed| - 1];
      var o := listed[|listed| - 1];
      var prev := OrderSlots(symbols, front);
      assert SymbolsOf(listed) == SymbolsOf(front) + {o.symbol} by {
        forall s | s in SymbolsOf(listed) ensures s in SymbolsOf(front) + {o.symbol} {
          var k :| 0 <= k < |listed| && listed[k].symbol == s;
          if k < |listed| - 1 { assert front[k] == listed[k]; }
        }
        forall s | s in SymbolsOf(front) ensures s in SymbolsOf(listed) {
          var k :| 0 <= k < |front| && front[k].symbol == s;
          assert listed[k] == front[k];
        }
      }
      var slots := if o.symbol in symbols then prev[IndexOf(symbols, o.symbol) := Some(o.id)] else prev;
      forall i | 0 <= i < |slots| && slots[i].Some?
        ensures exists k :: IsLastListed(listed, k, symbols[i]) && slots[i].value == listed[k].id
      {
        if o.symbol in symbols && i == IndexOf(symbols, o.symbol) {
          assert IsLastListed(listed, |listed| - 1, symbols[i]);
        } else {
          var k :| IsLastListed(front, k, symbols[i]) && prev[i].value == front[k].id;
          assert symbols[i] != o.symbol;
          assert IsLastListed(listed, k, symbols[i]) by {
            forall k' | k < k' < |listed| ensures listed[k'].symbol != symbols[i] {
              if k' < |front| { assert front[k'] == listed[k']; }
            }
          }
        }
      }
      slots
  }

  /** With at most one listed order, at most one slot is filled: the first
      index of that order's symbol, with that order's id. */
  lemma {:induction false} SingleListedOrder(symbols: seq<string>, listed: seq<ListedOrder>)
    requires |listed| <= 1
    ensures forall i | 0 <= i < |symbols| ::
      OrderSlots(symbols, listed)[i] ==
        if |listed| == 1 && listed[0].symbol in symbols && i == IndexOf(symbols, listed[0].symbol)
        then Some(listed[0].id) else None
  {
    if |listed| == 1 {
      assert listed[..0] == [];
    }
  }

  method LoadOpenOrders(symbols: seq<string>, listed: seq<ListedOrder>) returns (slots: seq<Option<OrderId>>)
    ensures slots == OrderSlots(symbols, listed)
  {
    slots := seq(|symbols|, _ => None);
    for k := 0 to |listed|
      invariant slots == OrderSlots(symbols, listed[..k])
    {
      assert listed[..k + 1][..k] == listed[..k];
      var order := listed[k];
      if order.symbol in symbols {
        var index := IndexOf(symbols, order.symbol);
        slots := slots[index := Some(order.id)];
      }
    }
    assert listed[..|listed|] == listed;
  }

  /** The ledger right after construction. */
  function InitialLedger(m: Market, numTickers: int, stocks: seq<string>, cells: seq<string>): (l: Ledger)
    ensures l.Valid()
    ensures l.symbols == Tickers(numTickers, stocks, cells)
    ensures forall i | 0 <= i < |l.symbols| :: l.lastDeltas[i] == 0
    ensures forall i | 0 <= i < |l.symbols| :: l.lastPrices[i] == QuotePrice(m, l.symbols[i])
    ensures forall i | 0 <= i < |l.symbols| :: l.positions[i] == HeldQuantity(m, l.symbols[i])
    ensures l.strayPosition.Some? <==> SomeLookupFails(m, l.symbols)
    ensures forall i, j | 0 <= i < |l.symbols| && 0 <= j < |l.symbols| ::
      l.currentOrders[i].Some? && l.currentOrders[j].Some? ==> i == j
    ensures forall i | 0 <= i < |l.symbols| ::
      l.currentOrders[i].Some? <==>
        m.openOrders != [] && l.symbols[i] == m.openOrders[0].symbol && IndexOf(l.symbols, l.symbols[i]) == i
    ensures forall i | 0 <= i < |l.symbols| ::
      l.currentOrders[i].Some? ==> l.currentOrders[i].value == m.openOrders[0].id
  {
    var symbols := Tickers(numTickers, stocks, cells);
    var listed := ListOrders(m, LEDGER_ORDER_LIMIT);
    SingleListedOrder(symbols, listed);
    Ledger(
      symbols,
      OrderSlots(symbols, listed),
      seq(|symbols|, _ => 0),
      seq(|symbols|, i requires 0 <= i < |symbols| => QuotePrice(m, symbols[i])),
      seq(|symbols|, i requires 0 <= i < |symbols| => HeldQuantity(m, symbols[i])),
      if SomeLookupFails(m, symbols) then Some(0) else None)
  }

  // ---------------------------------------------------------------------
  // Reconciliation

  /** The quantity of a buy for `delta > 0` as written: the full delta,
      except that when the position is short the cap is taken from the stray
      attribute `position` (AttributeError when it was never assigned). */
  function BuyQuantity(delta: int, position: int, strayPosition: Option<int>): (q: Option<int>)
    requires delta > 0
    ensures position >= 0 ==> q == Some(delta)
    ensures position < 0 ==> (q.None? <==> strayPosition.None?)
    ensures position < 0 && strayPosition.Some? ==>
      q.Some? && 0 <= q.value <= delta && q.value <= Abs(strayPosition.value)
    ensures position < 0 && strayPosition == Some(0) ==> q == Some(0)
  {
    if position < 0 then
      match strayPosition
      case None => None
      case Some(p) => Some(Min(Abs(p), delta))
    else Some(delta)
  }

  /** The buy quantity the cap evidently means: never more than covers the
      short position. */
  function IntendedBuyQuantity(delta: int, position: int): (q: int)
    requires delta > 0
    ensures 1 <= q <= delta
    ensures position >= 0 ==> q == delta
    ensures position < 0 ==> q <= -position && (q == delta || position + q == 0)
  {
    if position < 0 then Min(Abs(position), delta) else delta
  }

  /** Short position -5, target 10: the cap as written buys nothing (or
      raises), while the intended cap buys the 5 shares that close the short. */
  lemma ShortCoverCounterexample()
    ensures BuyQuantity(15, -5, Some(0)) == Some(0)
    ensures BuyQuantity(15, -5, None) == None
    ensures IntendedBuyQuantity(15, -5) == 5
  {
  }

  /** For every short position, the as-written cap never agrees with the
      intended one. */
  lemma ShortCoverCapDiffers(delta: int, position: int, strayPosition: Option<int>)
    requires delta > 0 && position < 0
    requires strayPosition.None? || strayPosition == Some(0)
    ensures BuyQuantity(delta, position, strayPosition) != Some(IntendedBuyQuantity(delta, position))
  {
  }

  /** The quantity of a sell for `delta < 0`: |delta|, capped to the held
      quantity when the position is long. */
  function SellQuantity(delta: int, position: int): (q: int)
    requires delta < 0
    ensures 1 <= q <= -delta
    ensures position > 0 ==> q <= position && (q == -delta || q == position)
    ensures position <= 0 ==> q == -delta
  {
    var q := Abs(delta);
    if position > 0 then Min(Abs(position), q) else q
  }

  /** What one `submit_order` call does: the new ledger, the gateway calls
      in order, and the returned delta or the exception. */
  datatype Effect = Effect(ledger: Ledger, events: seq<Event>, outcome: Result<int, PyError>)

  /** The cancel `submit_order` issues first for a tracked order. */
  function CancelTracked(order: Option<OrderId>): (c: seq<Event>)
    ensures order.None? ==> c == []
    ensures order.Some? ==> c == [Cancel(order.value)]
  {
    if order.Some? then [Cancel(order.value)] else []
  }

  /** `submit_order(index, target)` on the ledger `l`; `freshId` is the id the
      gateway hands to the next submitted order. */
  function Reconcile(l: Ledger, index: nat, target: int, freshId: OrderId): (e: Effect)
    requires l.Valid() && index < |l.symbols|
    // nothing but slot `index` of the orders and deltas changes
    ensures e.ledger.Valid() && SameSnapshot(l, e.ledger)
    ensures e.ledger.currentOrders == l.currentOrders[index := e.ledger.currentOrders[index]]
    ensures e.ledger.lastDeltas == l.lastDeltas[index := e.ledger.lastDeltas[index]]
    // a tracked order is cancelled before anything else; at most one submit follows
    ensures var c := CancelTracked(l.currentOrders[index]);
      && |c| <= |e.events| <= |c| + 1
      && e.events[..|c|] == c
      && (|e.events| == |c| + 1 ==> e.events[|c|].Submit?)
    // the exception and the returned value
    ensures e.outcome.Err? <==>
      target > l.positions[index] && l.positions[index] < 0 && l.strayPosition.None?
    ensures e.outcome.Err? ==> e.outcome.error == AttributeError
    ensures e.outcome.Ok? ==> e.outcome.value == target - l.positions[index]
    // an order goes out exactly when the delta is nonzero and nothing raised
    ensures var c := CancelTracked(l.currentOrders[index]);
      |e.events| == |c| + 1 <==> e.outcome.Ok? && target != l.positions[index]
    // no order: the stale reference stays, the delta is reset only by a cancel
    ensures var c := CancelTracked(l.currentOrders[index]);
      |e.events| == |c| ==>
        && e.ledger.currentOrders[index] == l.currentOrders[index]
        && e.ledger.lastDeltas[index] == (if l.currentOrders[index].Some? then 0 else l.lastDeltas[index])
    // an order: a day-valid limit order at the last price, recorded in the ledger
    ensures var c := CancelTracked(l.currentOrders[index]);
      |e.events| == |c| + 1 ==>
        var s := e.events[|c|];
        && s.symbol == l.symbols[index]
        && s.orderType == LIMIT && s.timeInForce == DAY
        && s.limitPrice == l.lastPrices[index]
        && e.ledger.currentOrders[index] == Some(freshId)
        && (s.side == Buy <==> target > l.positions[index])
        && e.ledger.lastDeltas[index] == (if s.side == Buy then s.qty else -s.qty)
    // buy path: the full delta unless short, and then the stray field's 0
    ensures var c := CancelTracked(l.currentOrders[index]);
      |e.events| == |c| + 1 && e.events[|c|].side == Buy ==>
        && (l.positions[index] >= 0 ==> e.events[|c|].qty == target - l.positions[index])
        && (l.positions[index] < 0 ==> e.events[|c|].qty == 0)
    // sell path: |delta|, never more than a long position holds
    ensures var c := CancelTracked(l.currentOrders[index]);
      |e.events| == |c| + 1 && e.events[|c|].side == Sell ==>
        var q := e.events[|c|].qty;
        && 1 <= q <= l.positions[index] - target
        && (l.positions[index] > 0 ==> q <= l.positions[index])
        && (q == l.positions[index] - target || q == l.positions[index])
  {
    var order := l.currentOrders[index];
    var cancels := CancelTracked(order);
    var deltas := if order.Some? then l.lastDeltas[index := 0] else l.lastDeltas;
    var position := l.positions[index];
    var delta := target - position;
    if delta == 0 then
      Effect(l.(lastDeltas := deltas), cancels, Ok(delta))
    else if delta > 0 then
      match BuyQuantity(delta, position, l.strayPosition)
      case None =>
        Effect(l.(lastDeltas := deltas), cancels, Err(AttributeError))
      case Some(q) =>
        Effect(
          l.(lastDeltas := deltas[index := q], currentOrders := l.currentOrders[index := Some(freshId)]),
          cancels + [Submit(l.symbols[index], q, Buy, LIMIT, DAY, l.lastPrices[index])],
          Ok(delta))
    else
      var q := SellQuantity(delta, position);
      Effect(
        l.(lastDeltas := deltas[index := -1 * q], currentOrders := l.currentOrders[index := Some(freshId)]),
        cancels + [Submit(l.symbols[index], q, Sell, LIMIT, DAY, l.lastPrices[index])],
        Ok(delta))
  }

  /** Positions are not refreshed after a submit, so calling `submit_order`
      again with the same target does not become a no-op: it cancels the
      order just placed and places the same order again. */
  lemma RepeatedSubmitResubmits(l: Ledger, index: nat, target: int, id1: OrderId, id2: OrderId)
    requires l.Valid() && index < |l.symbols|
    requires target != l.positions[index]
    requires Reconcile(l, index, target, id1).outcome.Ok?
    ensures var e1 := Reconcile(l, index, target, id1);
      var e2 := Reconcile(e1.ledger, index, target, id2);
      && e2.outcome == e1.outcome
      && e2.events == [Cancel(id1), e1.events[|e1.events| - 1]]
      && e2.ledger.lastDeltas[index] == e1.ledger.lastDeltas[index]
      && e2.ledger.currentOrders[index] == Some(id2)
  {
    var e1 := Reconcile(l, index, target, id1);
    var c := CancelTracked(l.currentOrders[index]);
    assert e1.events == c + [e1.events[|c|]];
  }

  // ---------------------------------------------------------------------
  // The bot object

  class PaperTradingBot {
    const api: Gateway
    const symbols: seq<string>
    var currentOrders: seq<Option<OrderId>>
    var lastDeltas: seq<int>
    const lastPrices: seq<real>
    const positions: seq<int>
    /** The attribute the failed-position handler assigns; None while unset. */
    const position: Option<int>

    function State(): Ledger
      reads this
    {
      Ledger(symbols, currentOrders, lastDeltas, lastPrices, positions, position)
    }

    ghost predicate Valid()
      reads this
    {
      State().Valid()
    }

    constructor (numTickers: int, stocks: seq<string>, cells: seq<string>, api: Gateway)
      ensures this.api == api && Valid()
      ensures State() == InitialLedger(api.market, numTickers, stocks, cells)
    {
      this.api := api;
      var tickers := GetTickers(numTickers, stocks, cells);
      var prices := LoadPrices(api.market, tickers);
      var held, stray := LoadPositions(api.market, tickers);
      var orders := LoadOpenOrders(tickers, ListOrders(api.market, LEDGER_ORDER_LIMIT));
      symbols := tickers;
      lastDeltas := seq(|tickers|, _ => 0);
      lastPrices := prices;
      positions := held;
      position := stray;
      currentOrders := orders;
      new;
      ghost var l := InitialLedger(api.market, numTickers, stocks, cells);
      assert lastPrices == l.lastPrices;
      assert positions == l.positions;
    }

    method SubmitOrder(index: nat, target: int) returns (result: Result<int, PyError>)
      requires Valid() && index < |symbols|
      modifies this`currentOrders, this`lastDeltas, api
      ensures Valid()
      ensures var e := Reconcile(old(State()), index, target, old(api.nextId));
        && State() == e.ledger
        && api.trace == old(api.trace) + e.events
        && api.nextId == old(api.nextId) + SubmitCount(e.events)
        && result == e.outcome
    {
      ghost var e := Reconcile(State(), index, target, api.nextId);
      if currentOrders[index].Some? {
        lastDeltas := lastDeltas[index := 0];
        api.CancelOrder(currentOrders[index].value);
      }
      assert SubmitCount(api.trace[|old(api.trace)|..]) == 0 by {
        assert api.trace[|old(api.trace)|..] == CancelTracked(old(currentOrders)[index]);
      }
      var delta := target - positions[index];
      if delta == 0 {
        assert api.trace == old(api.trace) + e.events;
        return Ok(delta);
      }
      if delta > 0 {
        var buyQuantity := delta;
        if positions[index] < 0 {
          if position.None? {
            return Err(AttributeError);
          }
          buyQuantity := Min(Abs(position.value), buyQuantity);
        }
        lastDeltas := lastDeltas[index := buyQuantity];
        var id := api.SubmitOrder(symbols[index], buyQuantity, Buy, LIMIT, DAY, lastPrices[index]);
        currentOrders := currentOrders[index := Some(id)];
        assert e.events[..|e.events| - 1] == CancelTracked(old(currentOrders)[index]);
        return Ok(delta);
      }
      var sellQuantity := Abs(delta);
      if positions[index] > 0 {
        sellQuantity := Min(Abs(positions[index]), sellQuantity);
      }
      lastDeltas := lastDeltas[index := -1 * sellQuantity];
      var id := api.SubmitOrder(symbols[index], sellQuantity, Sell, LIMIT, DAY, lastPrices[index]);
      currentOrders := currentOrders[index := Some(id)];
      assert e.events[..|e.events| - 1] == CancelTracked(old(currentOrders)[index]);
      return Ok(delta);
    }

    /** Cancels every order the gateway lists, up to 500. */
    method ClosePositions()
      modifies api
      ensures api.trace == old(api.trace) + Cancels(ListOrders(api.market, CLOSE_ORDER_LIMIT))
      ensures api.nextId == old(api.nextId)
    {
      var existingOrders := ListOrders(api.market, CLOSE_ORDER_LIMIT);
      for k := 0 to |existingOrders|
        invariant api.trace == old(api.trace) + Cancels(existingOrders[..k])
        invariant api.nextId == old(api.nextId)
      {
        api.CancelOrder(existingOrders[k].id);
        assert Cancels(existingOrders[..k + 1]) == Cancels(existingOrders[..k]) + [Cancel(existingOrders[k].id)];
      }
      assert existingOrders[..|existingOrders|] == existingOrders;
    }
  }
}
