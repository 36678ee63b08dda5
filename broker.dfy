/** The brokerage as the bot sees it: a read-only market snapshot (quotes,
    minute bars, held positions, recently listed orders) and an order gateway
    whose only effects are the cancels and submits it records, in order. */
module Broker {
  import opened Common

  type OrderId = nat

  datatype Side = Buy | Sell

  /** The order type and time in force the bot always passes to the gateway. */
  const LIMIT: string := "limit"
  const DAY: string := "day"

  /** One call into the gateway that changes something at the brokerage. */
  datatype Event =
    | Cancel(id: OrderId)
    | Submit(symbol: string, qty: int, side: Side, orderType: string, timeInForce: string, limitPrice: real)

  /** An order as the gateway lists it (newest first). */
  datatype ListedOrder = ListedOrder(symbol: string, id: OrderId)

  /** What the gateway answers to the read-only calls of one session.
      `heldQty` has no entry for a symbol whose position lookup fails. */
  datatype Market = Market(
    bidPrice: string -> real,
    minuteHigh: string -> real,
    heldQty: map<string, int>,
    openOrders: seq<ListedOrder>)

  /** `list_orders(limit=...)`: the newest `limit` open orders. */
  function ListOrders(m: Market, limit: nat): (r: seq<ListedOrder>)
    ensures r <= m.openOrders
    ensures |r| == Min(limit, |m.openOrders|)
  {
    m.openOrders[..Min(limit, |m.openOrders|)]
  }

  /** The events of cancelling each of `orders`, in order. */
  function Cancels(orders: seq<ListedOrder>): (r: seq<Event>)
    ensures |r| == |orders|
    ensures forall k | 0 <= k < |r| :: r[k] == Cancel(orders[k].id)
  {
    seq(|orders|, k requires 0 <= k < |orders| => Cancel(orders[k].id))
  }

  /** How many order submissions a trace holds. */
  function SubmitCount(events: seq<Event>): (n: nat)
    ensures n <= |events|
    ensures n == 0 <==> forall k | 0 <= k < |events| :: !events[k].Submit?
  {
    if events == [] then 0
    else SubmitCount(events[..|events| - 1]) + (if events[|events| - 1].Submit? then 1 else 0)
  }

  /** The order side of the brokerage API. Every cancel and submit is
      appended to `trace`; a submit answers with a fresh order id. */
  class Gateway {
    const market: Market
    var trace: seq<Event>
    var nextId: OrderId

    constructor (market: Market, firstId: OrderId)
      ensures this.market == market && trace == [] && nextId == firstId
    {
      this.market := market;
      trace := [];
      nextId := firstId;
    }

    method CancelOrder(id: OrderId)
      modifies this
      ensures trace == old(trace) + [Cancel(id)]
      ensures nextId == old(nextId)
    {
      trace := trace + [Cancel(id)];
    }

    method SubmitOrder(symbol: string, qty: int, side: Side, orderType: string, timeInForce: string, limitPrice: real)
      returns (id: OrderId)
      modifies this
      ensures id == old(nextId) && nextId == old(nextId) + 1
      ensures trace == old(trace) + [Submit(symbol, qty, side, orderType, timeInForce, limitPrice)]
    {
      id := nextId;
      nextId := nextId + 1;
      trace := trace + [Submit(symbol, qty, side, orderType, timeInForce, limitPrice)];
    }
  }
}
