/**
 What the orders of a log have traded. `fills` tells how much of each accepted order has traded in the
 end; a position on an exchange is what was bought there less what was sold.
 */
module Positions {
  import opened Wrappers
  import opened Exchange

  function Towards(side: Side, x: real): real { if side.Long? then x else -x }

  /** The sum of a value over the orders accepted under ids from `from` on. */
  function Sum(log: History<Event>, from: nat, value: Order -> real): real {
    match log
    case Start => 0.0
    case Then(before, Submitted(o, Some(id))) => Sum(before, from, value) + (if id >= from then value(o.(id := id)) else 0.0)
    case Then(before, _) => Sum(before, from, value)
  }

  function Traded(exchange: string, fills: nat -> real): Order -> real {
    (o: Order) => if o.exchange == exchange then Towards(o.side, fills(o.id)) else 0.0
  }

  // What so much of an order costs at its price.
  function Payment(o: Order, fill: real): real { Towards(o.side, o.price * fill) }

  function Paid(fills: nat -> real): Order -> real {
    (o: Order) => if o.kind == Limit then Payment(o, fills(o.id)) else 0.0
  }

  /** Bought less sold on an exchange, by the orders accepted under ids from `from` on. */
  function Position(log: History<Event>, from: nat, exchange: string, fills: nat -> real): real {
    Sum(log, from, Traded(exchange, fills))
  }

  /** What the limit orders cost at their prices: paid for buys less received for sells. */
  function Cost(log: History<Event>, from: nat, fills: nat -> real): real { Sum(log, from, Paid(fills)) }

  /** The same sum over the limit orders on record. */
  function SumPlaced(limits: History<Placement>, from: nat, value: Order -> real): real {
    match limits
    case Start => 0.0
    case Then(before, p) => SumPlaced(before, from, value) + (if p.order.id >= from then value(p.order) else 0.0)
  }

  /** Every accepted order is on record as a limit order or as a market order. */
  lemma {:induction false} SumByBook(log: History<Event>, from: nat, value: Order -> real)
    ensures var view := BookFrom(EMPTY_BOOK, log);
            Sum(log, from, value) == SumPlaced(view.limits, from, value) + Sum(view.markets, from, value)
  {
    if log.Then? {
      SumByBook(log.before, from, value);
      SumByEvent(log.before, log.last, from, value);
    }
  }

  lemma SumByEvent(before: History<Event>, e: Event, from: nat, value: Order -> real)
    ensures var view, log := BookFrom(EMPTY_BOOK, before), Then(before, e);
            Sum(log, from, value) - Sum(before, from, value) ==
            SumPlaced(view.Apply(e).limits, from, value) - SumPlaced(view.limits, from, value) +
            Sum(view.Apply(e).markets, from, value) - Sum(view.markets, from, value)
  {
  }

  /** Orders placed before count for nothing. */
  lemma {:induction false} NothingNewer(log: History<Event>, from: nat, value: Order -> real)
    requires from >= BookFrom(EMPTY_BOOK, log).next
    ensures var view := BookFrom(EMPTY_BOOK, log);
            SumPlaced(view.limits, from, value) == 0.0 && Sum(view.markets, from, value) == 0.0 && Sum(log, from, value) == 0.0
  {
    if log.Then? { NothingNewer(log.before, from, value); }
  }

  /** Market orders on one exchange leave the positions on the others alone. */
  lemma {:induction false} OrdersElsewhere(markets: History<Event>, start: History<Event>, exchange: string, side: Side,
                                           most: nat, from: nat, other: string, fills: nat -> real)
    requires OrdersSince(markets, start, exchange, side, most) && other != exchange
    ensures Position(markets, from, other, fills) == Position(start, from, other, fills)
  {
    if markets != start { OrdersElsewhere(markets.before, start, exchange, side, most - 1, from, other, fills); }
  }

  /** A position only depends on the fills of orders that have been accepted. */
  lemma {:induction false} PositionAgrees(log: History<Event>, from: nat, exchange: string, f: nat -> real, g: nat -> real)
    requires forall id: nat :: id < BookFrom(EMPTY_BOOK, log).next ==> f(id) == g(id)
    ensures Position(log, from, exchange, f) == Position(log, from, exchange, g)
  {
    if log.Then? { PositionAgrees(log.before, from, exchange, f, g); }
  }

  /** The fills that are known up to an id, and others from there on. */
  function Joined(known: nat -> real, bound: nat, later: nat -> real): nat -> real {
    (id: nat) => if id < bound then known(id) else later(id)
  }
}
