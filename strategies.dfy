/** `sma_crossover`: one rebalance session. The buying power is split evenly,
    every open order is cancelled, then each ticker in turn gets a target: on
    a buy signal the whole shares its share of the buying power pays for,
    otherwise its held position. The order placed is the difference from the
    held position (a sell when more is held), and the running buying-power
    total is debited the target's full value. The crossover signal is an
    input. */
module Strategies {
  import opened Common
  import opened Broker
  import opened TradingBot

  /** `pc_bp`: the buying power per stock, `(1 / divisor) * bp`, where the
      divisor is `number` when no stocks are given and their count otherwise. */
  function PerStockBuyingPower(number: int, bp: real, stocks: seq<string>): (r: Result<real, PyError>)
    ensures r.Err? <==> stocks == [] && number == 0
    ensures r.Err? ==> r.error == ZeroDivisionError
    ensures r.Ok? ==> r.value * (if stocks == [] then number else |stocks|) as real == bp
  {
    if stocks == [] then
      if number == 0 then Err(ZeroDivisionError) else Ok((1.0 / number as real) * bp)
    else
      Ok((1.0 / |stocks| as real) * bp)
  }

  /** Python's `int` on a float drops the fractional part: the result is the
      whole number next to `x` on the side of zero. */
  function TruncateToInt(x: real): (n: int)
    ensures x >= 0.0 ==> 0 <= n && n as real <= x < n as real + 1.0
    ensures x < 0.0 ==> n <= 0 && n as real - 1.0 < x <= n as real
  {
    if x >= 0.0 then x.Floor else -((-x).Floor)
  }

  /** `num_bought = int(pc_bp / price)`: the whole part of the quotient. */
  function SharesToBuy(pcBp: real, price: real): (n: int)
    requires price != 0.0
    ensures pcBp / price >= 0.0 ==> 0 <= n && n as real <= pcBp / price < n as real + 1.0
    ensures pcBp / price < 0.0 ==> n <= 0 && n as real - 1.0 < pcBp / price <= n as real
  {
    TruncateToInt(pcBp / price)
  }

  /** With a non-negative per-stock budget and a positive price, the share
      count is the most whole shares the budget pays for. */
  lemma {:induction false} SharesToBuyAffordable(pcBp: real, price: real)
    requires pcBp >= 0.0 && price > 0.0
    ensures var n := SharesToBuy(pcBp, price);
      0 <= n && n as real * price <= pcBp < (n as real + 1.0) * price
  {
    var x := pcBp / price;
    var n := TruncateToInt(x);
    assert x * price == pcBp;
    assert x >= 0.0 by {
      if x < 0.0 {
        MulStrictMonotone(x, 0.0, price);
      }
    }
    MulMonotone(n as real, x, price);
    MulStrictMonotone(x, n as real + 1.0, price);
    assert pcBp < (n as real + 1.0) * price;
    assert SharesToBuy(pcBp, price) == n;
  }

  lemma MulMonotone(a: real, b: real, c: real)
    requires a <= b && c > 0.0
    ensures a * c <= b * c
  {
  }

  lemma MulStrictMonotone(a: real, b: real, c: real)
    requires a < b && c > 0.0
    ensures a * c < b * c
  {
  }

  /** The session after some tickers: the bot's ledger, the running buying
      power, the gateway calls made, the next order id, and the exception
      that ended the session early, if any. */
  datatype Run = Run(ledger: Ledger, bp: real, events: seq<Event>, nextId: OrderId, failure: Option<PyError>)

  /** A buy signal on a ticker whose last price is 0: `pc_bp / 0` raises. */
  predicate DividesByZero(l: Ledger, buySignal: string -> bool, i: nat)
    requires l.Valid() && i < |l.symbols|
  {
    buySignal(l.symbols[i]) && l.lastPrices[i] == 0.0
  }

  /** The quantity a branch passes to `submit_order`: the affordable share
      count on a buy signal, the position already held otherwise. */
  function Target(l: Ledger, pcBp: real, buySignal: string -> bool, i: nat): (t: int)
    requires l.Valid() && i < |l.symbols| && !DividesByZero(l, buySignal, i)
    ensures !buySignal(l.symbols[i]) ==> t == l.positions[i]
    ensures buySignal(l.symbols[i]) && pcBp >= 0.0 && l.lastPrices[i] > 0.0 ==>
      0 <= t && t as real * l.lastPrices[i] <= pcBp < (t as real + 1.0) * l.lastPrices[i]
  {
    if buySignal(l.symbols[i]) then
      var price := l.lastPrices[i];
      if pcBp >= 0.0 && price > 0.0 then
        SharesToBuyAffordable(pcBp, price);
        SharesToBuy(pcBp, price)
      else SharesToBuy(pcBp, price)
    else l.positions[i]
  }

  /** One iteration of the ticker loop, on ticker `i`: the buying power moves
      by the target's value at the last price (down on a buy, up otherwise),
      then the bot reconciles the ticker towards the target. */
  function TickerStep(r: Run, pcBp: real, buySignal: string -> bool, i: nat): (r': Run)
    requires r.ledger.Valid() && i < |r.ledger.symbols|
    ensures r'.ledger.Valid() && SameSnapshot(r.ledger, r'.ledger)
    ensures r.events <= r'.events
  {
    var l := r.ledger;
    if DividesByZero(l, buySignal, i) then r.(failure := Some(ZeroDivisionError))
    else
      var target := Target(l, pcBp, buySignal, i);
      var value := target as real * l.lastPrices[i];
      var e := Reconcile(l, i, target, r.nextId);
      Run(e.ledger, if buySignal(l.symbols[i]) then r.bp - value else r.bp + value,
          r.events + e.events, r.nextId + SubmitCount(e.events),
          if e.outcome.Err? then Some(e.outcome.error) else None)
  }

  /** A step that does not raise moves the buying power by the target's
      value at the last price: down on a buy signal, up otherwise. */
  lemma TickerStepMovesBalance(r: Run, pcBp: real, buySignal: string -> bool, i: nat)
    requires r.ledger.Valid() && i < |r.ledger.symbols| && !DividesByZero(r.ledger, buySignal, i)
    ensures var value := Target(r.ledger, pcBp, buySignal, i) as real * r.ledger.lastPrices[i];
      TickerStep(r, pcBp, buySignal, i).bp == if buySignal(r.ledger.symbols[i]) then r.bp - value else r.bp + value
  {
    hide Reconcile;
  }

  /** A buy signal on a zero last price raises `ZeroDivisionError` and
      changes nothing else. */
  lemma TickerStepRaises(r: Run, pcBp: real, buySignal: string -> bool, i: nat)
    requires r.ledger.Valid() && i < |r.ledger.symbols| && DividesByZero(r.ledger, buySignal, i)
    ensures TickerStep(r, pcBp, buySignal, i) == r.(failure := Some(ZeroDivisionError))
  {
    hide Reconcile;
  }

  /** `TickerStep` on a ticker that does not raise, given the target, the
      buying power after the branch and the reconciliation. */
  lemma TickerStepIs(r: Run, pcBp: real, buySignal: string -> bool, i: nat, target: int, bp': real, e: Effect)
    requires r.ledger.Valid() && i < |r.ledger.symbols| && !DividesByZero(r.ledger, buySignal, i)
    requires target == Target(r.ledger, pcBp, buySignal, i)
    requires bp' == if buySignal(r.ledger.symbols[i]) then r.bp - target as real * r.ledger.lastPrices[i]
                    else r.bp + target as real * r.ledger.lastPrices[i]
    requires e == Reconcile(r.ledger, i, target, r.nextId)
    ensures TickerStep(r, pcBp, buySignal, i) ==
      Run(e.ledger, bp', r.events + e.events, r.nextId + SubmitCount(e.events),
          if e.outcome.Err? then Some(e.outcome.error) else None)
  {
    hide Reconcile;
  }

  /** The session after the first `n` tickers of `l0`, in index order, each
      reconciled once; a failure ends it. */
  function Cycle(l0: Ledger, pcBp: real, buySignal: string -> bool, bp: real, firstId: OrderId, n: nat): (r: Run)
    requires l0.Valid() && n <= |l0.symbols|
    ensures r.ledger.Valid() && SameSnapshot(l0, r.ledger)
  {
    if n == 0 then Run(l0, bp, [], firstId, None)
    else
      var prev := Cycle(l0, pcBp, buySignal, bp, firstId, n - 1);
      if prev.failure.Some? then prev else TickerStep(prev, pcBp, buySignal, n - 1)
  }

  /** Once a ticker raised, the later tickers change nothing. */
  lemma {:induction false} CycleFailureIsFinal(l0: Ledger, pcBp: real, buySignal: string -> bool, bp: real, firstId: OrderId, k: nat, n: nat)
    requires l0.Valid() && k <= n <= |l0.symbols|
    requires Cycle(l0, pcBp, buySignal, bp, firstId, k).failure.Some?
    ensures Cycle(l0, pcBp, buySignal, bp, firstId, n) == Cycle(l0, pcBp, buySignal, bp, firstId, k)
  {
    hide TickerStep;
    if n > k {
      CycleFailureIsFinal(l0, pcBp, buySignal, bp, firstId, k, n - 1);
    }
  }

  /** A ticker's step leaves every other ticker's slots alone. */
  lemma TickerStepLeavesOtherSlots(r: Run, pcBp: real, buySignal: string -> bool, i: nat)
    requires r.ledger.Valid() && i < |r.ledger.symbols|
    ensures var l' := TickerStep(r, pcBp, buySignal, i).ledger;
      forall j | 0 <= j < |r.ledger.symbols| && j != i ::
        l'.currentOrders[j] == r.ledger.currentOrders[j] && l'.lastDeltas[j] == r.ledger.lastDeltas[j]
  {
    hide Reconcile;
    if !DividesByZero(r.ledger, buySignal, i) {
      var e := Reconcile(r.ledger, i, Target(r.ledger, pcBp, buySignal, i), r.nextId);
      assert TickerStep(r, pcBp, buySignal, i).ledger == e.ledger;
    }
  }

  /** Tickers at index `n` and beyond still have the slots they started with. */
  lemma {:induction false} CycleLeavesLaterSlots(l0: Ledger, pcBp: real, buySignal: string -> bool, bp: real, firstId: OrderId, n: nat)
    requires l0.Valid() && n <= |l0.symbols|
    ensures var l := Cycle(l0, pcBp, buySignal, bp, firstId, n).ledger;
      forall j | n <= j < |l0.symbols| ::
        l.currentOrders[j] == l0.currentOrders[j] && l.lastDeltas[j] == l0.lastDeltas[j]
  {
    hide TickerStep;
    if n > 0 {
      CycleLeavesLaterSlots(l0, pcBp, buySignal, bp, firstId, n - 1);
      var prev := Cycle(l0, pcBp, buySignal, bp, firstId, n - 1);
      if prev.failure.None? {
        TickerStepLeavesOtherSlots(prev, pcBp, buySignal, n - 1);
      }
    }
  }

  /** What a ticker's branch takes from the buying power. */
  function BuyCost(l: Ledger, pcBp: real, buySignal: string -> bool, i: nat): real
    requires l.Valid() && i < |l.symbols|
  {
    if buySignal(l.symbols[i]) && l.lastPrices[i] != 0.0
    then SharesToBuy(pcBp, l.lastPrices[i]) as real * l.lastPrices[i]
    else 0.0
  }

  /** What a ticker's branch adds to the buying power. */
  function HeldValue(l: Ledger, buySignal: string -> bool, i: nat): real
    requires l.Valid() && i < |l.symbols|
  {
    if buySignal(l.symbols[i]) then 0.0 else l.positions[i] as real * l.lastPrices[i]
  }

  /** The cost and value of a branch depend only on what `submit_order`
      never writes. */
  lemma SameSnapshotSameValues(l: Ledger, l': Ledger, pcBp: real, buySignal: string -> bool, i: nat)
    requires l.Valid() && l'.Valid() && SameSnapshot(l, l') && i < |l.symbols|
    ensures BuyCost(l', pcBp, buySignal, i) == BuyCost(l, pcBp, buySignal, i)
    ensures HeldValue(l', buySignal, i) == HeldValue(l, buySignal, i)
  {
  }

  function TotalBuyCost(l: Ledger, pcBp: real, buySignal: string -> bool, n: nat): real
    requires l.Valid() && n <= |l.symbols|
  {
    if n == 0 then 0.0 else TotalBuyCost(l, pcBp, buySignal, n - 1) + BuyCost(l, pcBp, buySignal, n - 1)
  }

  function TotalHeldValue(l: Ledger, buySignal: string -> bool, n: nat): real
    requires l.Valid() && n <= |l.symbols|
  {
    if n == 0 then 0.0 else TotalHeldValue(l, buySignal, n - 1) + HeldValue(l, buySignal, n - 1)
  }

  /** A step that did not raise moves the buying power by exactly its
      branch's cost and value. */
  lemma TickerStepBalance(r: Run, pcBp: real, buySignal: string -> bool, i: nat)
    requires r.ledger.Valid() && i < |r.ledger.symbols|
    requires TickerStep(r, pcBp, buySignal, i).failure.None?
    ensures TickerStep(r, pcBp, buySignal, i).bp ==
      r.bp - BuyCost(r.ledger, pcBp, buySignal, i) + HeldValue(r.ledger, buySignal, i)
  {
    hide TickerStep;
    var l := r.ledger;
    if DividesByZero(l, buySignal, i) {
      TickerStepRaises(r, pcBp, buySignal, i);
      assert false;
    }
    TickerStepMovesBalance(r, pcBp, buySignal, i);
    if buySignal(l.symbols[i]) {
      assert HeldValue(l, buySignal, i) == 0.0;
    } else {
      assert BuyCost(l, pcBp, buySignal, i) == 0.0;
    }
  }

  /** A session that ran through: the final buying power is the initial one,
      less every buy branch's cost, plus every other branch's position value. */
  lemma {:induction false} CycleBalance(l0: Ledger, pcBp: real, buySignal: string -> bool, bp: real, firstId: OrderId, n: nat)
    requires l0.Valid() && n <= |l0.symbols|
    requires Cycle(l0, pcBp, buySignal, bp, firstId, n).failure.None?
    ensures Cycle(l0, pcBp, buySignal, bp, firstId, n).bp ==
      bp - TotalBuyCost(l0, pcBp, buySignal, n) + TotalHeldValue(l0, buySignal, n)
  {
    hide TickerStep;
    if n > 0 {
      var prev := Cycle(l0, pcBp, buySignal, bp, firstId, n - 1);
      assert prev.failure.None?;
      CycleBalance(l0, pcBp, buySignal, bp, firstId, n - 1);
      assert Cycle(l0, pcBp, buySignal, bp, firstId, n) == TickerStep(prev, pcBp, buySignal, n - 1);
      TickerStepBalance(prev, pcBp, buySignal, n - 1);
      SameSnapshotSameValues(l0, prev.ledger, pcBp, buySignal, n - 1);
    }
  }

  /** A step's events are the run's events followed by what reconciling the
      ticker towards its target emits. */
  lemma TickerStepEvents(r: Run, pcBp: real, buySignal: string -> bool, i: nat)
    requires r.ledger.Valid() && i < |r.ledger.symbols| && !DividesByZero(r.ledger, buySignal, i)
    ensures var e := Reconcile(r.ledger, i, Target(r.ledger, pcBp, buySignal, i), r.nextId);
      TickerStep(r, pcBp, buySignal, i).events == r.events + e.events
  {
    hide Reconcile;
  }

  /** A ticker's step submits an order only on a buy signal, and then for
      that ticker: the other branch targets the position already held. */
  lemma TickerStepSubmitsOnlyOnBuySignal(r: Run, pcBp: real, buySignal: string -> bool, i: nat)
    requires r.ledger.Valid() && i < |r.ledger.symbols|
    ensures var r' := TickerStep(r, pcBp, buySignal, i);
      forall k | |r.events| <= k < |r'.events| ::
        r'.events[k].Submit? ==> buySignal(r.ledger.symbols[i]) && r'.events[k].symbol == r.ledger.symbols[i]
  {
    hide Reconcile;
    var l := r.ledger;
    if !DividesByZero(l, buySignal, i) {
      var target := Target(l, pcBp, buySignal, i);
      var e := Reconcile(l, i, target, r.nextId);
      TickerStepEvents(r, pcBp, buySignal, i);
      var c := CancelTracked(l.currentOrders[i]);
      if !buySignal(l.symbols[i]) {
        assert target == l.positions[i];
        assert |e.events| == |c|;
      }
      forall k | |r.events| <= k < |r.events| + |e.events|
        ensures (r.events + e.events)[k].Submit? ==>
          buySignal(l.symbols[i]) && (r.events + e.events)[k].symbol == l.symbols[i]
      {
        var j := k - |r.events|;
        assert (r.events + e.events)[k] == e.events[j];
        if j < |c| {
          assert e.events[j] == e.events[..|c|][j] == c[j];
        }
      }
    }
  }

  /** Every order submitted in `events` is for a symbol with a buy signal. */
  predicate SubmitsOnlyOnBuySignal(events: seq<Event>, buySignal: string -> bool) {
    forall k | 0 <= k < |events| :: events[k].Submit? ==> buySignal(events[k].symbol)
  }

  /** Orders go out only for tickers with a buy signal: the other branch
      asks for the position already held. */
  lemma {:induction false} CycleSubmitsOnlyOnBuySignal(l0: Ledger, pcBp: real, buySignal: string -> bool, bp: real, firstId: OrderId, n: nat)
    requires l0.Valid() && n <= |l0.symbols|
    ensures SubmitsOnlyOnBuySignal(Cycle(l0, pcBp, buySignal, bp, firstId, n).events, buySignal)
  {
    hide TickerStep;
    if n > 0 {
      CycleSubmitsOnlyOnBuySignal(l0, pcBp, buySignal, bp, firstId, n - 1);
      var prev := Cycle(l0, pcBp, buySignal, bp, firstId, n - 1);
      var cur := Cycle(l0, pcBp, buySignal, bp, firstId, n);
      if prev.failure.None? {
        TickerStepSubmitsOnlyOnBuySignal(prev, pcBp, buySignal, n - 1);
        assert cur == TickerStep(prev, pcBp, buySignal, n - 1);
        assert prev.events <= cur.events;
        forall k | 0 <= k < |cur.events| && cur.events[k].Submit?
          ensures buySignal(cur.events[k].symbol)
        {
          if k < |prev.events| {
            assert cur.events[k] == prev.events[k];
          }
        }
      } else {
        assert cur == prev;
      }
    }
  }

  /** Once the close-out cancelled the listed order, the ticker that tracks
      it cancels the same order again when its turn comes (unless an earlier
      ticker raised, or this one divides by zero first). */
  lemma ListedOrderCancelledTwice(m: Market, number: int, stocks: seq<string>, cells: seq<string>,
                                  pcBp: real, buySignal: string -> bool, bp: real, firstId: OrderId, i: nat)
    requires var l0 := InitialLedger(m, number, stocks, cells);
      i < |l0.symbols| && l0.currentOrders[i].Some?
    ensures var l0 := InitialLedger(m, number, stocks, cells);
      var id := l0.currentOrders[i].value;
      && Cancels(ListOrders(m, CLOSE_ORDER_LIMIT))[0] == Cancel(id)
      && (Cycle(l0, pcBp, buySignal, bp, firstId, i).failure.None? && !DividesByZero(l0, buySignal, i) ==>
            Cancel(id) in Cycle(l0, pcBp, buySignal, bp, firstId, i + 1).events)
  {
    var l0 := InitialLedger(m, number, stocks, cells);
    var prev := Cycle(l0, pcBp, buySignal, bp, firstId, i);
    if prev.failure.None? && !DividesByZero(l0, buySignal, i) {
      CycleLeavesLaterSlots(l0, pcBp, buySignal, bp, firstId, i);
      var l := prev.ledger;
      var e := Reconcile(l, i, Target(l, pcBp, buySignal, i), prev.nextId);
      assert e.events[0] == Cancel(l0.currentOrders[i].value);
      TickerStepEvents(prev, pcBp, buySignal, i);
      assert Cycle(l0, pcBp, buySignal, bp, firstId, i + 1).events == prev.events + e.events;
      assert (prev.events + e.events)[|prev.events|] == e.events[0];
    }
  }

  /** Two tickers, 1000 of buying power: AAA (buy signal, 50 a share, none
      held) and BBB (no buy signal, 4 held at 25). The session ends at 600,
      but the only order it places is the buy of 10 AAA: BBB is not sold. */
  lemma TwoTickerSession()
    ensures PerStockBuyingPower(2, 1000.0, ["AAA", "BBB"]) == Ok(500.0)
    ensures var l0 := Ledger(["AAA", "BBB"], [None, None], [0, 0], [50.0, 25.0], [0, 4], None);
      var r := Cycle(l0, 500.0, s => s == "AAA", 1000.0, 0, 2);
      && r.failure == None
      && r.bp == 600.0
      && r.events == [Submit("AAA", 10, Buy, LIMIT, DAY, 50.0)]
  {
    var l0 := Ledger(["AAA", "BBB"], [None, None], [0, 0], [50.0, 25.0], [0, 4], None);
    var signal := s => s == "AAA";
    var r0 := Cycle(l0, 500.0, signal, 1000.0, 0, 0);
    assert SharesToBuy(500.0, 50.0) == 10;
    var r1 := TickerStep(r0, 500.0, signal, 0);
    assert r1.failure == None && r1.bp == 500.0 && r1.events == [Submit("AAA", 10, Buy, LIMIT, DAY, 50.0)];
    var r2 := TickerStep(r1, 500.0, signal, 1);
    assert r2.failure == None && r2.bp == 600.0 && r2.events == r1.events;
    assert Cycle(l0, 500.0, signal, 1000.0, 0, 1) == r1;
  }

  /** The non-buy branch as written: the buying power is credited with the
      position's value, yet no order goes out. */
  lemma NonBuySignalSubmitsNothing(r: Run, pcBp: real, buySignal: string -> bool, i: nat)
    requires r.ledger.Valid() && i < |r.ledger.symbols| && !buySignal(r.ledger.symbols[i])
    ensures var r' := TickerStep(r, pcBp, buySignal, i);
      && r'.failure.None?
      && r'.nextId == r.nextId
      && (forall k | |r.events| <= k < |r'.events| :: !r'.events[k].Submit?)
      && r'.bp == r.bp + r.ledger.positions[i] as real * r.ledger.lastPrices[i]
  {
    var l := r.ledger;
    var e := Reconcile(l, i, l.positions[i], r.nextId);
    var c := CancelTracked(l.currentOrders[i]);
    assert e.events == c;
  }

  /** The non-buy branch as evidently intended: sell what is held long and
      credit the buying power with exactly that sale's proceeds. */
  function IntendedNonBuyStep(r: Run, i: nat): (r': Run)
    requires r.ledger.Valid() && i < |r.ledger.symbols|
    ensures r'.ledger.Valid() && SameSnapshot(r.ledger, r'.ledger) && r'.failure.None?
    ensures r.events <= r'.events
    ensures var held := r.ledger.positions[i];
      var price := r.ledger.lastPrices[i];
      held > 0 ==>
        && |r'.events| > |r.events|
        && r'.events[|r'.events| - 1] == Submit(r.ledger.symbols[i], held, Sell, LIMIT, DAY, price)
        && r'.bp == r.bp + r'.events[|r'.events| - 1].qty as real * price
    ensures r.ledger.positions[i] <= 0 ==>
      && r'.bp == r.bp
      && forall k | |r.events| <= k < |r'.events| :: !r'.events[k].Submit?
  {
    var l := r.ledger;
    var held := l.positions[i];
    var target := if held > 0 then 0 else held;
    var e := Reconcile(l, i, target, r.nextId);
    var c := CancelTracked(l.currentOrders[i]);
    assert held <= 0 ==> e.events == c;
    var sold := if held > 0 then held else 0;
    Run(e.ledger, r.bp + sold as real * l.lastPrices[i], r.events + e.events,
        r.nextId + SubmitCount(e.events), None)
  }

  /** One pass of the ticker loop on the bot: the buy branch passes the
      affordable share count as the target, so the order is its difference
      from the held position and bp is debited the whole target; the other
      branch passes the held position. */
  method TradeTicker(bot: PaperTradingBot, pcBp: real, buySignal: string -> bool, i: nat, balance: real,
                     ghost run: Run, ghost closed: seq<Event>)
    returns (balance': real, failure: Option<PyError>)
    requires bot.Valid() && i < |bot.symbols|
    requires run.failure.None? && bot.State() == run.ledger && balance == run.bp
    requires bot.api.trace == closed + run.events && bot.api.nextId == run.nextId
    modifies bot`currentOrders, bot`lastDeltas, bot.api
    ensures bot.Valid()
    ensures var next := TickerStep(run, pcBp, buySignal, i);
      && failure == next.failure
      && bot.api.trace == closed + next.events && bot.api.nextId == next.nextId
      && bot.State() == next.ledger
      && (failure.None? ==> balance' == next.bp)
  {
    hide Reconcile;
    var price := bot.lastPrices[i];
    var target;
    if buySignal(bot.symbols[i]) {
      if price == 0.0 {
        return balance, Some(ZeroDivisionError);
      }
      target := SharesToBuy(pcBp, price);
      balance' := balance - target as real * price;
    } else {
      target := bot.positions[i];
      balance' := balance + target as real * price;
    }
    hide TickerStep;
    ghost var e := Reconcile(run.ledger, i, target, run.nextId);
    TickerStepIs(run, pcBp, buySignal, i, target, balance', e);
    var outcome := bot.SubmitOrder(i, target);
    assert bot.api.nextId == run.nextId + SubmitCount(e.events);
    failure := if outcome.Err? then Some(outcome.error) else None;
  }

  /** The ticker loop of one session, on a bot whose open orders were just
      closed out: each ticker in index order, stopping at the first exception. */
  method TradeAll(bot: PaperTradingBot, pcBp: real, buySignal: string -> bool, bp: real)
    returns (result: Result<real, PyError>)
    requires bot.Valid()
    modifies bot`currentOrders, bot`lastDeltas, bot.api
    ensures var run := Cycle(old(bot.State()), pcBp, buySignal, bp, old(bot.api.nextId), |bot.symbols|);
      && bot.api.trace == old(bot.api.trace) + run.events
      && bot.api.nextId == run.nextId
      && bot.State() == run.ledger
      && result == (if run.failure.Some? then Err(run.failure.value) else Ok(run.bp))
  {
    hide TickerStep;
    ghost var l0 := bot.State();
    ghost var closed := bot.api.trace;
    ghost var firstId := bot.api.nextId;
    var tickers := bot.symbols;
    var balance := bp;
    var i := 0;
    ghost var run := Cycle(l0, pcBp, buySignal, bp, firstId, 0);
    while i < |tickers|
      invariant 0 <= i <= |tickers| && tickers == bot.symbols == l0.symbols
      invariant bot.Valid()
      invariant run == Cycle(l0, pcBp, buySignal, bp, firstId, i)
      invariant run.failure.None?
      invariant bot.State() == run.ledger
      invariant balance == run.bp
      invariant bot.api.trace == closed + run.events
      invariant bot.api.nextId == run.nextId
    {
      var failure;
      balance, failure := TradeTicker(bot, pcBp, buySignal, i, balance, run, closed);
      run := TickerStep(run, pcBp, buySignal, i);
      if failure.Some? {
        CycleFailureIsFinal(l0, pcBp, buySignal, bp, firstId, i + 1, |tickers|);
        return Err(failure.value);
      }
      i := i + 1;
    }
    return Ok(balance);
  }

  /** `sma_crossover`: split the buying power, start the bot, cancel every
      open order, then trade each ticker; the result is the final buying
      power, or the exception that escaped. */
  method SmaCrossover(api: Gateway, number: int, bp: real, stocks: seq<string>, cells: seq<string>,
                      buySignal: string -> bool)
    returns (result: Result<real, PyError>)
    modifies api
    ensures stocks == [] && number == 0 ==>
      && result == Err(ZeroDivisionError)
      && api.trace == old(api.trace) && api.nextId == old(api.nextId)
    ensures !(stocks == [] && number == 0) ==>
      var l0 := InitialLedger(api.market, number, stocks, cells);
      var run := Cycle(l0, PerStockBuyingPower(number, bp, stocks).value, buySignal, bp, old(api.nextId), |l0.symbols|);
      && api.trace == old(api.trace) + Cancels(ListOrders(api.market, CLOSE_ORDER_LIMIT)) + run.events
      && api.nextId == run.nextId
      && result == (if run.failure.Some? then Err(run.failure.value) else Ok(run.bp))
  {
    var allocation := PerStockBuyingPower(number, bp, stocks);
    if allocation.Err? {
      return Err(allocation.error);
    }
    var bot := new PaperTradingBot(number, stocks, cells, api);
    bot.ClosePositions();
    result := TradeAll(bot, allocation.value, buySignal, bp);
  }
}

