# Paper-trading bot: order ledger and rebalance loop

This project models the order-reconciliation core of a small paper-trading
client. It has two parts:

- **`PaperTradingBot`** (`trading_bot.py`). The bot holds one slot per ticker
  symbol in each of four lists: the tracked open order, the last submitted
  signed quantity, the last price and the held position. `submit_order(index,
  target)` cancels the tracked order, computes `delta = target - position` and
  then does one of three things: nothing, a capped limit buy, or a capped limit
  sell. It records the new order and returns the uncapped delta. The model also
  covers:
  - the constructor's ledger set-up: the ticker list, prices, positions, and the
    listed order mapped onto its symbol's slot;
  - `get_tickers` on a given list of table cells;
  - `close_positions`.
- **`sma_crossover`** (`strategies.py`). This is one rebalance session:
  - split the buying power evenly;
  - build the bot and cancel every listed order;
  - walk the tickers in index order, keeping a running buying-power total.

  On a buy signal the target is the whole shares the per-stock budget pays
  for. The order placed is the difference from the held position (a sell when
  more is held), and the running total is debited the target's full value.
  Otherwise the bot calls `submit_order` with the position it already holds.
  The moving-average crossover signal is an input: a predicate on symbols.

The brokerage is a `Gateway` object (module `Broker`). It gives a read-only
market snapshot: bid prices, minute-bar highs, held quantities and listed open
orders. It also has a trace of every cancel and submit, in order; each submit
receives a fresh order id. Every property is stated over the bot's lists and
this trace.

Modules:

- `Common` holds `Option`, `Result`, and the two Python exceptions the code lets
  escape.
- `Broker` holds the gateway.
- `TradingBot` holds:
  - the `Ledger` value;
  - the pure reconciliation function `Reconcile`, which is the specification of
    `submit_order`;
  - the class `PaperTradingBot`, whose methods are proved against `Reconcile`.
- `Strategies` holds:
  - the session as a pure fold `Cycle` over the tickers;
  - the imperative loop `TradeAll`, proved to follow `Cycle`;
  - the lemmas about `Cycle`.

Floats are modelled as `real`. Python's `int()` on a float is truncation
toward zero (`TruncateToInt`). Python integers are unbounded, like Dafny's.

The model keeps the following behaviour of the code, although the code
evidently does not intend some of it:

- On a short position, the buy cap at trading_bot.py:75-76 reads the stray
  attribute `self.position`, which only the exception handler at
  trading_bot.py:36 assigns. It does not read `self.positions[index]`, so the
  buy is not capped at the short's size (see "## Findings").
- Positions are read once, at trading_bot.py:32-36, and never refreshed after a
  submit. So a second `submit_order` with the same target is not a no-op: it
  cancels and re-places the order (`RepeatedSubmitResubmits`).
- The non-buy branch at strategies.py:42-44 sells nothing. It passes the held
  position as the target, so the delta is 0, although the comment at
  strategies.py:36 says "Otherwise, we sell shares" (`TwoTickerSession`,
  `NonBuySignalSubmitsNothing`).
- On a buy signal, strategies.py:39 debits the running total the full value
  of the target `num_bought`, although `submit_order` orders only the
  difference from the held position (trading_bot.py:65), a sell when more is
  already held
  (`TickerStepMovesBalance`, `CycleBalance`).
- A negative `numTickers` slices from the end of the scraped list, as Python's
  `[0:n]` does at trading_bot.py:113.

## Model

| member | source | states |
|---|---|---|
| TradingBot.DropLast | trading_bot.py:111 | `ticker[:-1]`: the prefix one character shorter, or the empty string |
| TradingBot.ScrapedTickers | trading_bot.py:107-111 | at most one ticker per table cell, and no kept ticker contains '.' |
| TradingBot.ScrapedTickersAllClean | trading_bot.py:107-111 | cells without '.' each yield the cell minus its last character, in order, one per cell |
| TradingBot.ScrapedTickersAllDotted | trading_bot.py:107-111 | cells that all contain '.' yield no ticker |
| TradingBot.ScrapedTickersConcat | trading_bot.py:107-111 | the filter works cell by cell: the tickers of `a + b` are those of `a` followed by those of `b`, which with the two lemmas above fixes the result for any cells |
| TradingBot.PyPrefix | trading_bot.py:113 | Python's `s[0:stop]`: a prefix of `s` of length min(stop, len(s)), or len(s)+stop (not below 0) for a negative stop |
| TradingBot.Tickers | trading_bot.py:98-117 | the given stocks when there are any; otherwise a prefix of the scraped tickers of length min(numTickers, 500, available), or all but the last -numTickers for a negative count, none containing '.' |
| TradingBot.GetTickers | trading_bot.py:98-117 | the append loop and the slice compute exactly `Tickers` |
| TradingBot.QuotePrice | trading_bot.py:24-29 | a symbol's price is its bid, or the minute-bar high when the bid is 0 |
| TradingBot.HeldQuantity | trading_bot.py:33-36 | a symbol's position is the held quantity, or 0 when the lookup fails |
| TradingBot.LoadPrices | trading_bot.py:19-29 | one price per symbol: the bid, or the minute-bar high when the bid is 0 |
| TradingBot.LoadPositions | trading_bot.py:20-36 | one position per symbol: the held quantity, or 0 when the lookup fails; the stray `position` attribute exists (and is 0) exactly when some lookup failed |
| TradingBot.IndexOf | trading_bot.py:45 | `list.index`: an index holding `s`, with no earlier index holding it |
| TradingBot.OrderSlots | trading_bot.py:40-46 | a slot holds an order exactly when its symbol is among the listed orders' symbols and it is that symbol's first index; a filled slot holds the id of the last listed order for its symbol |
| TradingBot.SingleListedOrder | trading_bot.py:39-46 | with `limit=1`, at most one slot is filled: the first index of the listed order's symbol, with its id; every other slot is None |
| TradingBot.LoadOpenOrders | trading_bot.py:38-46 | the loop over listed orders computes exactly `OrderSlots` |
| TradingBot.InitialLedger | trading_bot.py:16-46 | after construction, all four lists have one slot per symbol; deltas are 0; prices and positions are as loaded; at most one order slot is filled, with the first listed order's id, at its symbol's first index |
| TradingBot.PaperTradingBot.constructor | trading_bot.py:11-46 | the constructed bot's state is `InitialLedger` of the market snapshot |
| TradingBot.BuyQuantity | trading_bot.py:73-76 | the full delta unless the position is short; when short, AttributeError if the stray attribute is unset, else a quantity capped by that attribute's magnitude, which is 0 |
| TradingBot.IntendedBuyQuantity | trading_bot.py:75-76 | the corrected cap: between 1 and delta, never more than covers the short, and either the full delta or exactly closing the short |
| TradingBot.ShortCoverCounterexample | trading_bot.py:75-76 | position -5, target 10: as written the bot buys 0 (or raises); the corrected cap buys 5 |
| TradingBot.ShortCoverCapDiffers | trading_bot.py:75-76 | for every short position and delta, the as-written cap never equals the corrected one |
| TradingBot.SellQuantity | trading_bot.py:84-87 | between 1 and abs(delta); never more than a long position holds; either abs(delta) or the whole position |
| TradingBot.CancelTracked | trading_bot.py:59-62 | a tracked order yields exactly one cancel of its id; no tracked order yields none |
| TradingBot.Reconcile | trading_bot.py:56-92 | only slot `index` of the orders and deltas changes, and symbols, prices and positions never do. A tracked order is cancelled first; at most one submit follows, and only when the delta is nonzero and nothing raised. AttributeError exactly on a short buy with the attribute unset; otherwise the result is the uncapped delta. With no order, the stale reference stays and a cancel zeroes the delta. An order is a day-valid limit order at the last price, on the buy side exactly when delta > 0; it is recorded, and the signed quantity is stored. Buy quantity: the delta, or 0 when short. Sell quantity: within [1, abs(delta)] and within a long position |
| TradingBot.RepeatedSubmitResubmits | trading_bot.py:56-92 | a second call with the same target returns the same delta; it cancels the order just placed and submits an identical order under a new id |
| TradingBot.PaperTradingBot.SubmitOrder | trading_bot.py:56-92 | the in-place method leaves the bot in the state `Reconcile` gives, appends its events to the gateway trace, consumes one id per submit, and returns its outcome |
| TradingBot.PaperTradingBot.ClosePositions | trading_bot.py:122-126 | the trace grows by one cancel per listed order (at most 500), in list order, and no submit |
| Broker.ListOrders | trading_bot.py:123 | the newest min(limit, available) open orders, as a prefix of the listing |
| Broker.Cancels | trading_bot.py:124-126 | one cancel per order, in order, with that order's id |
| Broker.Gateway.CancelOrder | trading_bot.py:62 | appends one cancel to the trace |
| Broker.Gateway.SubmitOrder | trading_bot.py:79-80 | appends one submit to the trace and returns a fresh id |
| Strategies.PerStockBuyingPower | strategies.py:14-18 | ZeroDivisionError exactly when no stocks are given and `number` is 0; otherwise pc_bp times the divisor (the stock count, or `number`) is bp |
| Strategies.TruncateToInt | strategies.py:38 | `int()` rounds toward zero: the result is within 1 of x, on the side of zero |
| Strategies.SharesToBuy | strategies.py:38 | `num_bought` is the quotient pc_bp / price with its fractional part dropped toward zero |
| Strategies.SharesToBuyAffordable | strategies.py:38 | for a non-negative budget and a positive price, `num_bought` is non-negative and is the largest share count the budget pays for |
| Strategies.Target | strategies.py:38-44 | the branch's target: the held position without a buy signal; with one, a non-negative budget and a positive price, the most whole shares the budget pays for |
| Strategies.TickerStep | strategies.py:36-44 | one ticker's pass keeps the ledger well formed, changes no price, position or symbol, and only extends the trace |
| Strategies.TickerStepMovesBalance | strategies.py:39-43 | bp falls by target × price on a buy signal and rises by it otherwise |
| Strategies.TickerStepRaises | strategies.py:38 | a buy signal at a zero price raises ZeroDivisionError before any gateway call |
| Strategies.Cycle | strategies.py:27-44 | the session folds the tickers in index order, with one `submit_order` per ticker, and keeps the ledger well formed over the same snapshot |
| Strategies.CycleFailureIsFinal | strategies.py:27-44 | once a ticker raised, later tickers change nothing |
| Strategies.TickerStepLeavesOtherSlots | strategies.py:41-44 | a ticker's pass changes no other ticker's order or delta slot |
| Strategies.CycleLeavesLaterSlots | strategies.py:27-44 | after the first n tickers, every later ticker still has its initial order and delta slots |
| Strategies.SameSnapshotSameValues | strategies.py:38-43 | for the same pc_bp, a branch's buy cost and position value are the same on any two ledgers that agree on symbols, prices and positions, which `submit_order` never writes; so they can be read off the initial ledger |
| Strategies.TickerStepBalance | strategies.py:37-44 | a pass that did not raise moves bp by exactly the branch's buy cost (down) or position value (up) |
| Strategies.CycleBalance | strategies.py:27-49 | the final bp is the initial bp, minus the buy-branch costs, plus the non-buy branches' position values |
| Strategies.TickerStepEvents | strategies.py:41-44 | a pass's gateway calls are exactly `Reconcile`'s events for that ticker and target |
| Strategies.TickerStepSubmitsOnlyOnBuySignal | strategies.py:36-44 | a pass submits only for its own ticker, and only on a buy signal |
| Strategies.CycleSubmitsOnlyOnBuySignal | strategies.py:27-44 | in a whole session, every submitted order is for a symbol with a buy signal |
| Strategies.ListedOrderCancelledTwice | strategies.py:21-44 | the order that construction tracks is cancelled by `close_positions` and cancelled again when its ticker's turn comes, unless an earlier ticker raised or this ticker's buy divides by zero |
| Strategies.TwoTickerSession | strategies.py:11-44 | AAA (buy, 50) and BBB (no buy, 4 held at 25) with 1000: bp ends at 600, and the only order is a buy of 10 AAA; BBB is not sold |
| Strategies.NonBuySignalSubmitsNothing | strategies.py:42-44 | as written, the non-buy branch raises nothing, submits nothing, consumes no id, yet credits the position's value to bp |
| Strategies.IntendedNonBuyStep | strategies.py:42-44 | corrected non-buy branch: a long position is sold in full at the last price and bp is credited with exactly that sale; otherwise nothing is submitted and bp is unchanged |
| Strategies.TradeTicker | strategies.py:36-44 | the method's pass on the bot follows `TickerStep`: same exception, same trace and ids, the same new ledger (including the delta reset before an AttributeError), and on success the same bp |
| Strategies.TradeAll | strategies.py:23-44 | the ticker loop's final ledger, trace, ids and result (final bp or the escaping exception) are exactly those of `Cycle` |
| Strategies.SmaCrossover | strategies.py:11-44 | ZeroDivisionError with no gateway call when the divisor is 0. Otherwise the trace is the close-out cancels followed by the session's events, and the result is `Cycle`'s bp or exception, with pc_bp fixed from the initial bp |

## Left out

- Broker calls (`alpaca_trade_api`) are replaced by the `Gateway` snapshot and trace. Network, authentication and not-found errors from the broker are not modelled, except a failed position lookup, which falls back to 0.
- `get_order(id)` returns an order object in the source; the ledger keeps only the id, which is all `submit_order` reads.
- The Wikipedia request and HTML parsing in `get_tickers` are replaced: `Tickers` takes the first cell of each table row after the header as a string list.
- The moving-average and crossover computation (pandas, numpy) becomes the `buySignal` input.
- Printing, the buying-power log file and the `os.environ` assignment are I/O and are not modelled. The one print that can raise is in `close_positions` and has its own line below.
- `main.py` and `close_positions.py` (credential files, prompts, wiring) are not part of this model.
- Floating-point rounding: prices and buying power are exact reals.
- `close_positions` is modelled for listed limit orders with whole-share quantities. At trading_bot.py:125 the source formats `int(order.qty)` and `float(order.limit_price)` before each cancel. A listed market order (no limit price) or a fractional quantity raises there, which would end the session with later orders still open; `ListedOrder` carries no quantity or price, so that path is not modelled.
- Order ids are fresh only among the gateway's own submits: the first id is a free parameter, so a submitted order's id is not proved to differ from the ids of orders listed before the session.
- What the broker does with a zero-quantity buy or a repeated cancel of the same id is not modelled; the trace records the call.
- An exception escaping `sma_crossover` ends the session, so the model's result is the exception and the trace up to that point. The Python process's later behaviour is outside the model.

## Findings

| source | as written | input that shows it | evidently intended | confidence | as-written member | corrected member |
|---|---|---|---|---|---|---|
| trading_bot.py:75-76 | the buy cap on a short position reads the stray attribute `self.position`, which is only ever 0 or unset, instead of `self.positions[index]` | position -5, target 10 (delta 15): buys 0 shares if some lookup failed, else raises AttributeError | buy min(5, 15) = 5 shares, closing the short | not executed; high | TradingBot.ShortCoverCounterexample | TradingBot.IntendedBuyQuantity |
| strategies.py:42-44 | the non-buy branch calls `submit_order(i, positions[i])`, so delta is 0 and nothing is sold, yet bp is credited with the position's value | BBB with 4 held at 25 and no buy signal: bp rises by 100 and no order is placed | sell the held position and credit bp with that sale | not executed; medium | Strategies.NonBuySignalSubmitsNothing | Strategies.IntendedNonBuyStep |

The session model (`Reconcile`, `Cycle`, `SmaCrossover`) keeps the as-written behaviour, since that is what the program does. The corrected definitions stand beside it, with their intended properties proved.
