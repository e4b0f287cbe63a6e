/**
 Orders, order reports and the execution backend. The backend is an adversary: it may refuse or
 accept any call and answer any status it likes, but every call it receives is recorded in `log`.
 */
module Exchange {
  import opened Wrappers

  datatype Side = Long | Short {
    function Opposite(): Side { if Long? then Short else Long }
  }

  datatype Kind = Limit | Market

  datatype OrderStatus = Pending | Filled | Cancelled

  // Id 0 stands for the empty id of an order that has not been accepted yet.
  datatype Order = Order(id: nat, exchange: string, side: Side, kind: Kind, price: real, size: real,
                         status: OrderStatus)

  datatype StatusInfo = StatusInfo(status: OrderStatus, filled: real, total: real) {
    predicate IsFullyFilled() { status == Filled && filled >= total }
  }

  // The source tells a quantity-limit refusal from the others by searching the error text.
  datatype ApiError = QuantityLimit | OtherError

  // The two sides of an order book.
  datatype Touch = Bid | Ask

  datatype Event =
    | Submitted(order: Order, accepted: Option<nat>)
    | CancelSent(id: nat, acked: bool)
    | Queried(id: nat, answer: Option<StatusInfo>)
    | Quoted(exchange: string, touch: Touch, best: Option<real>)
    | DepthAsked(exchange: string, quantity: real, critical: Option<bool>)

  // An accepted limit order, and the ids whose cancel had been acknowledged when it went out.
  datatype Placement = Placement(order: Order, gone: set<nat>)

  /**
   What a run of calls amounts to: limit orders accepted and not known cancelled, the ids a cancel
   was issued for, the ids and quantities some report called fully filled, every order handed to the
   exchange, the ids whose cancel was acknowledged, the accepted limit orders in order, the market orders
   sent in order, the number of status queries, and a bound on the ids given out.
   */
  datatype Book = Book(live: set<nat>, cancelled: set<nat>, saidFilled: set<(nat, real)>, submitted: set<Order>,
                       gone: set<nat>, limits: History<Placement>, markets: History<Event>, asked: nat, next: nat) {
    function Apply(e: Event): Book {
      match e
      case Submitted(o, Some(id)) =>
        var b := Sent(e).(next := if id >= next then id + 1 else next);
        if o.kind == Limit then b.(live := live + {id}, limits := Then(limits, Placement(o.(id := id), gone))) else b
      case Submitted(_, None) => Sent(e)
      case CancelSent(id, acked) =>
        this.(live := if acked then live - {id} else live, cancelled := cancelled + {id},
              gone := if acked then gone + {id} else gone)
      case Queried(id, Some(info)) =>
        (if info.IsFullyFilled() then this.(saidFilled := saidFilled + {(id, info.filled)}) else this).(asked := asked + 1)
      case Queried(_, None) => this.(asked := asked + 1)
      case _ => this
    }

    function Sent(e: Event): Book
      requires e.Submitted?
    {
      this.(submitted := submitted + {e.order}, markets := if e.order.kind == Market then Then(markets, e) else markets)
    }

    /** Some report called the order fully filled. */
    ghost predicate SaidFilled(id: nat) { exists q :: (id, q) in saidFilled }

    /** The order was reported fully filled, or a cancel was issued for it. */
    ghost predicate Done(id: nat) { id in cancelled || SaidFilled(id) }

    // Calls that place and cancel no limit order.
    ghost predicate SameResting(old_: Book) {
      live == old_.live && cancelled == old_.cancelled && limits == old_.limits && Extends(old_)
    }

    // No order, cancel or report is ever forgotten; only `live` can shrink.
    ghost predicate Extends(old_: Book) {
      && old_.cancelled <= cancelled && old_.saidFilled <= saidFilled && old_.submitted <= submitted
      && old_.next <= next
    }
  }

  const EMPTY_BOOK := Book({}, {}, {}, {}, {}, Start, Start, 0, 1)

  function BookFrom(start: Book, log: History<Event>): Book {
    match log
    case Start => start
    case Then(before, e) => BookFrom(start, before).Apply(e)
  }

  /** No id of the log reaches this one. */
  function NextId(log: History<Event>): nat {
    match log
    case Start => 1
    case Then(before, e) =>
      var n := NextId(before);
      var id := match e
                case Submitted(_, accepted) => if accepted.Some? then accepted.value else 0
                case CancelSent(id, _) => id
                case Queried(id, _) => id
                case _ => 0;
      if id >= n then id + 1 else n
  }

  lemma {:induction false} NextIdIsFresh(log: History<Event>)
    ensures forall id :: id in BookFrom(EMPTY_BOOK, log).live ==> id < NextId(log)
    ensures forall id :: id in BookFrom(EMPTY_BOOK, log).cancelled ==> id < NextId(log)
    ensures forall p :: p in BookFrom(EMPTY_BOOK, log).saidFilled ==> p.0 < NextId(log)
    ensures BookFrom(EMPTY_BOOK, log).next <= NextId(log)
  {
    if log.Then? { NextIdIsFresh(log.before); }
  }

  /** The market orders are those of the start and at most `most` more on one exchange and side. */
  predicate OrdersSince(markets: History<Event>, start: History<Event>, exchange: string, side: Side, most: nat) {
    || markets == start
    || (markets.Then? && markets.last.Submitted? && markets.last.order.exchange == exchange && markets.last.order.side == side
        && most > 0 && OrdersSince(markets.before, start, exchange, side, most - 1))
  }

  predicate IdsBelow(limits: History<Placement>, bound: nat) {
    limits.Then? ==> limits.last.order.id < bound && IdsBelow(limits.before, bound)
  }

  lemma {:induction false} IdsBelowWeakens(limits: History<Placement>, bound: nat, bound': nat)
    requires IdsBelow(limits, bound) && bound <= bound'
    ensures IdsBelow(limits, bound')
  {
    if limits.Then? { IdsBelowWeakens(limits.before, bound, bound'); }
  }

  /** The limit orders a book has seen accepted have ids below its bound. */
  lemma {:induction false} LimitsAreBelow(log: History<Event>)
    ensures var view := BookFrom(EMPTY_BOOK, log);
            IdsBelow(view.limits, view.next) && forall id :: id in view.live ==> id < view.next
  {
    if log.Then? {
      LimitsAreBelow(log.before);
      var view := BookFrom(EMPTY_BOOK, log.before);
      IdsBelowWeakens(view.limits, view.next, BookFrom(EMPTY_BOOK, log).next);
    }
  }

  predicate GoneWithin(limits: History<Placement>, ids: set<nat>) {
    limits.Then? ==> limits.last.gone <= ids && GoneWithin(limits.before, ids)
  }

  lemma {:induction false} GoneWithinWeakens(limits: History<Placement>, ids: set<nat>, ids': set<nat>)
    requires GoneWithin(limits, ids) && ids <= ids'
    ensures GoneWithin(limits, ids')
  {
    if limits.Then? { GoneWithinWeakens(limits.before, ids, ids'); }
  }

  /** A cancel that was acknowledged before a limit order went out had been issued. */
  lemma {:induction false} GoneAreCancelled(log: History<Event>)
    ensures var view := BookFrom(EMPTY_BOOK, log);
            view.gone <= view.cancelled && GoneWithin(view.limits, view.cancelled)
  {
    if log.Then? {
      GoneAreCancelled(log.before);
      var view := BookFrom(EMPTY_BOOK, log.before);
      GoneWithinWeakens(view.limits, view.cancelled, BookFrom(EMPTY_BOOK, log).cancelled);
    }
  }

  class Backend {
    var log: History<Event>

    constructor ()
      ensures log == Start
    {
      log := Start;
    }

    ghost function View(): Book
      reads this
    {
      BookFrom(EMPTY_BOOK, log)
    }

    /** place_order and place_market_order: refused, or accepted unchanged under a fresh id. */
    method Place(order: Order) returns (r: Result<Order, ApiError>)
      modifies this
      ensures r.Ok? ==> r.value == order.(id := r.value.id) && forall q :: (r.value.id, q) !in old(View()).saidFilled
      ensures r.Ok? ==> r.value.id !in old(View()).live + old(View()).cancelled
      ensures r.Ok? ==> r.value.id >= old(View()).next
      ensures log == Then(old(log), Submitted(order, if r.Ok? then Some(r.value.id) else None))
      ensures View() == old(View()).Apply(Submitted(order, if r.Ok? then Some(r.value.id) else None))
    {
      var accept: bool, limit: bool := *, *;
      if accept {
        NextIdIsFresh(log);
        r := Ok(order.(id := NextId(log)));
      } else {
        r := Err(if limit then QuantityLimit else OtherError);
      }
      var e := Submitted(order, if r.Ok? then Some(r.value.id) else None);
      log := Then(log, e);
    }

    method Cancel(id: nat) returns (acked: bool)
      modifies this
      ensures log == Then(old(log), CancelSent(id, acked))
      ensures View() == old(View()).Apply(CancelSent(id, acked))
    {
      acked := *;
      log := Then(log, CancelSent(id, acked));
    }

    /** get_order_status_detailed: no answer, or any answer whatever. */
    method Query(id: nat) returns (answer: Option<StatusInfo>)
      modifies this
      ensures log == Then(old(log), Queried(id, answer))
      ensures View() == old(View()).Apply(Queried(id, answer))
    {
      var answered: bool, info: StatusInfo := *, *;
      answer := if answered then Some(info) else None;
      log := Then(log, Queried(id, answer));
    }

    /** get_best_bid and get_best_ask. */
    method BestPrice(exchange: string, touch: Touch) returns (price: Option<real>)
      modifies this
      ensures log == Then(old(log), Quoted(exchange, touch, price)) && View() == old(View())
    {
      var answered: bool, p: real := *, *;
      price := if answered then Some(p) else None;
      log := Then(log, Quoted(exchange, touch, price));
    }

    /** check_depth_for_hedge: no answer, or whether the depth is critically low. */
    method DepthIsCritical(exchange: string, quantity: real) returns (answer: Option<bool>)
      modifies this
      ensures log == Then(old(log), DepthAsked(exchange, quantity, answer)) && View() == old(View())
    {
      var answered: bool, critical: bool := *, *;
      answer := if answered then Some(critical) else None;
      log := Then(log, DepthAsked(exchange, quantity, answer));
    }
  }
}
