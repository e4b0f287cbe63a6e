/** Repricing of a resting limit order: cancel, then place again at the best price. */
module PriceChaser {
  import opened Wrappers
  import opened Exchange
  import opened Numbers
  import opened Positions

  datatype Move = Move(oldPrice: real, newPrice: real)

  datatype Metrics = Metrics(count: nat, initial: real, final: real, moves: seq<Move>) {
    function Record(m: Move): Metrics {
      this.(count := count + 1, final := m.newPrice, moves := moves + [m])
    }

    /** Each recorded move starts where the one before it ended, from `initial` to `final`. */
    ghost predicate Chained() {
      && count == |moves|
      && (if moves == [] then final == initial
          else moves[0].oldPrice == initial && moves[|moves| - 1].newPrice == final)
      && (forall i :: 0 < i < |moves| ==> moves[i].oldPrice == moves[i - 1].newPrice)
    }
  }

  /** A deviation above the threshold, in basis points; at price zero the quotient is infinite or undefined. */
  predicate ShouldReprice(threshold: real, orderPrice: real, best: real) {
    if orderPrice == 0.0 then best != 0.0 else Abs(best - orderPrice) / orderPrice * 10000.0 > threshold
  }

  /** Within the band that leaves the order alone exactly when the best price is close to the order's. */
  lemma RepriceBand(threshold: real, orderPrice: real, best: real)
    requires orderPrice > 0.0 && threshold >= 0.0
    ensures !ShouldReprice(threshold, orderPrice, best) <==>
            orderPrice * (1.0 - threshold / 10000.0) <= best <= orderPrice * (1.0 + threshold / 10000.0)
  {
    var q := Abs(best - orderPrice) / orderPrice;
    assert q * orderPrice == Abs(best - orderPrice);
    var t := threshold / 10000.0;
    assert q * 10000.0 > threshold <==> q > t;
    if q > t {
      assert (q - t) * orderPrice > 0.0;
    } else {
      assert (t - q) * orderPrice >= 0.0;
    }
  }

  /** The calls of one reprice: the new order only goes out after an acknowledged cancel. */
  function RepriceCalls(log: History<Event>, order: Order, price: real, acked: bool, accepted: Option<nat>): History<Event> {
    var cancelled := Then(log, CancelSent(order.id, acked));
    if acked then Then(cancelled, Submitted(order.(id := 0, price := price), accepted)) else cancelled
  }

  /**
   The old order gives way to the replacement, if there is one; it goes on record as placed after the old
   one's cancel was acknowledged, and nothing has been said about it.
   */
  ghost predicate MovesTo(before: Book, after: Book, id: nat, r: Option<Order>) {
    && after.Extends(before) && after.saidFilled == before.saidFilled && after.markets == before.markets
    && match r
       case None =>
         && after.limits == before.limits && after.live <= before.live
         && before.live + before.cancelled <= after.live + after.cancelled
       case Some(o) =>
         && before.next <= o.id < after.next && !before.SaidFilled(o.id) && o.id !in before.live + before.cancelled
         && after.limits == Then(before.limits, Placement(o, before.gone + {id}))
         && after.live <= before.live - {id} + {o.id}
         && before.live + before.cancelled + {o.id} <= after.live + after.cancelled
  }

  /** reprice_order. */
  method RepriceOrder(b: Backend, order: Order, price: real, metrics: Metrics)
    returns (r: Option<Order>, metrics': Metrics, ghost acked: bool, ghost accepted: Option<nat>)
    modifies b
    ensures b.log == RepriceCalls(old(b.log), order, price, acked, accepted)
    ensures r == if acked && accepted.Some? then Some(order.(id := accepted.value, price := price)) else None
    ensures metrics' == if r.Some? then metrics.Record(Move(order.price, price)) else metrics
    ensures metrics.Chained() && metrics.final == order.price && r.Some? ==>
              metrics'.Chained() && metrics'.final == r.value.price
    ensures order.kind == Limit ==> MovesTo(old(b.View()), b.View(), order.id, r)
    ensures b.View().Extends(old(b.View())) && b.View().saidFilled == old(b.View()).saidFilled
    ensures b.View().asked == old(b.View()).asked
  {
    metrics', r, accepted := metrics, None, None;
    var cancelled := b.Cancel(order.id);
    acked := cancelled;
    if !cancelled {
      return;
    }
    var placed := b.Place(order.(id := 0, price := price));
    if placed.Err? {
      return;
    }
    accepted := Some(placed.value.id);
    metrics' := metrics.Record(Move(order.price, price));
    r := Some(placed.value);
  }

  /** A resting order is priced by its own side of the book: a buy by the bid, a sell by the ask. */
  function TouchOf(side: Side): Touch { if side.Long? then Bid else Ask }

  // ---- One leg over a whole chase ----

  datatype LegState =
    | Resting(id: nat, price: real)
    | Due(id: nat, price: real, best: real)   // a quote calls for a reprice
    | Gone(id: nat, best: real)               // the cancel was acknowledged
    | Lost(id: nat)                           // the replacement was refused
    | Broken

  /**
   The discipline of a single leg: only its resting order is asked about, a quote of its own side of the
   book decides whether it is repriced, and a reprice is its cancel and, once that is acknowledged, the
   first order again at the quoted price.
   */
  function Track(first: Order, threshold: real, calls: History<Event>): LegState {
    match calls
    case Start => Resting(first.id, first.price)
    case Then(before, e) =>
      match (Track(first, threshold, before), e)
      case (Resting(id, price), Queried(asked, _)) => if asked == id then Resting(id, price) else Broken
      case (Resting(id, price), Quoted(exchange, touch, best)) =>
        if exchange != first.exchange || touch != (if first.side.Long? then Bid else Ask) then Broken
        else if best.Some? && ShouldReprice(threshold, price, best.value) then Due(id, price, best.value)
        else Resting(id, price)
      case (Due(id, price, best), CancelSent(cancelled, acked)) =>
        if cancelled != id then Broken else if acked then Gone(id, best) else Resting(id, price)
      case (Gone(id, best), Submitted(o, accepted)) =>
        if o != first.(id := 0, price := best) then Broken
        else if accepted.Some? then Resting(accepted.value, best) else Lost(id)
      case _ => Broken
  }

  function AcceptedIds(calls: History<Event>): History<nat> {
    match calls
    case Start => Start
    case Then(before, e) =>
      if e.Submitted? && e.accepted.Some? then Then(AcceptedIds(before), e.accepted.value) else AcceptedIds(before)
  }

  /** How often the status of an order was asked. */
  function Polls(calls: History<Event>): nat {
    match calls
    case Start => 0
    case Then(before, e) => Polls(before) + (if e.Queried? then 1 else 0)
  }

  /** A reprice moves the leg from the cancelled order to the placed one, if any, and counts it once. */
  lemma TrackReprice(first: Order, threshold: real, base: History<Event>, before: History<Event>, order: Order, price: real,
                     acked: bool, accepted: Option<nat>)
    requires order == first.(id := order.id, price := order.price)
    requires Track(first, threshold, before) == Due(order.id, order.price, price)
    ensures var calls := RepriceCalls(before, order, price, acked, accepted);
            && base.Plus(calls) == RepriceCalls(base.Plus(before), order, price, acked, accepted)
            && Track(first, threshold, calls) ==
               (if !acked then Resting(order.id, order.price)
                else if accepted.Some? then Resting(accepted.value, price) else Lost(order.id))
            && Polls(calls) == Polls(before)
            && AcceptedIds(calls) ==
               (if acked && accepted.Some? then Then(AcceptedIds(before), accepted.value) else AcceptedIds(before))
  {
    var cancelled := Then(before, CancelSent(order.id, acked));
    assert base.Plus(cancelled) == Then(base.Plus(before), CancelSent(order.id, acked));
    assert Track(first, threshold, cancelled) == if acked then Gone(order.id, price) else Resting(order.id, order.price);
  }

  /** At every moment of a tracked run at most one of the leg's orders is live. */
  lemma {:induction false} AtMostOneLive(first: Order, threshold: real, calls: History<Event>, moment: History<Event>)
    requires first.kind == Limit && Track(first, threshold, calls) != Broken && calls.HasPrefix(moment)
    ensures var live := BookFrom(EMPTY_BOOK.(live := {first.id}), moment).live;
            match Track(first, threshold, moment)
            case Resting(x, _) => live == {x}
            case Due(x, _, _) => live == {x}
            case Gone(_, _) => live == {}
            case Lost(_) => live == {}
            case Broken => false
  {
    if moment != calls {
      AtMostOneLive(first, threshold, calls.before, moment);
    } else if calls.Then? {
      AtMostOneLive(first, threshold, calls.before, calls.before);
    }
  }

  function TotalFill(ids: History<nat>, fills: nat -> real): real {
    match ids
    case Start => 0.0
    case Then(before, id) => TotalFill(before, fills) + fills(id)
  }

  predicate FillsWithin(ids: History<nat>, size: real, fills: nat -> real) {
    ids.Then? ==> 0.0 <= fills(ids.last) <= size && FillsWithin(ids.before, size, fills)
  }

  /**
   The limit orders of a leg, the first one and the accepted replacements, trade at most one size
   each, and at most one size in all when no cancelled order had filled.
   */
  lemma {:induction false} LegFillBound(firstId: nat, later: History<nat>, size: real, maxReprices: nat, fills: nat -> real)
    requires later.Length() <= maxReprices
    requires 0.0 <= fills(firstId) <= size && FillsWithin(later, size, fills)
    ensures 0.0 <= fills(firstId) + TotalFill(later, fills) <= Multiple(maxReprices + 1, size)
    ensures later.Then? && FillsWithin(later.before, 0.0, fills) && fills(firstId) == 0.0 ==>
              fills(firstId) + TotalFill(later, fills) <= size
  {
    match later
    case Start => MultipleGrows(1, maxReprices + 1, size);
    case Then(before, id) =>
      LegFillBound(firstId, before, size, maxReprices - 1, fills);
      NoFills(before, fills);
  }

  lemma {:induction false} NoFills(ids: History<nat>, fills: nat -> real)
    ensures FillsWithin(ids, 0.0, fills) ==> TotalFill(ids, fills) == 0.0
  {
    if ids.Then? { NoFills(ids.before, fills); }
  }

  // ---- The replacements of a leg among all orders of an entry ----

  /** The limit orders placed on one side since the ids reached `from`. */
  function Replacements(limits: History<Placement>, from: nat, side: Side): History<Placement> {
    match limits
    case Start => Start
    case Then(before, p) =>
      if p.order.side == side && p.order.id >= from then Then(Replacements(before, from, side), p)
      else Replacements(before, from, side)
  }

  /** The limit orders placed before the ids reached a bound. */
  function Older(limits: History<Placement>, bound: nat): History<Placement> {
    match limits
    case Start => Start
    case Then(before, p) => if p.order.id < bound then Then(Older(before, bound), p) else Older(before, bound)
  }

  lemma {:induction false} OlderIsAll(limits: History<Placement>, bound: nat)
    requires IdsBelow(limits, bound)
    ensures Older(limits, bound) == limits
  {
    if limits.Then? {
      OlderIsAll(limits.before, bound);
    }
  }

  /** Every limit order is an older one, or a newer one of either side. */
  lemma {:induction false} PlacedSplits(limits: History<Placement>, from: nat, next: nat, value: Order -> real)
    requires from <= next
    ensures SumPlaced(limits, from, value) ==
            SumPlaced(Older(limits, next), from, value) +
            SumPlaced(Replacements(limits, next, Side.Long), from, value) +
            SumPlaced(Replacements(limits, next, Side.Short), from, value)
  {
    if limits.Then? { PlacedSplits(limits.before, from, next, value); }
  }

  /** A chain of replacements moves the position on its first order's exchange, towards that order's side. */
  lemma {:induction false} ChainPosition(first: Order, chain: History<Placement>, from: nat, exchange: string,
                                         fills: nat -> real)
    requires Replaces(first, chain) && from <= first.id
    ensures SumPlaced(chain, from, Traded(exchange, fills)) ==
            if first.exchange == exchange then Towards(first.side, TotalFill(ChainIds(chain), fills)) else 0.0
    ensures CurrentOrder(first, chain).id >= first.id
  {
    if chain.Then? { ChainPosition(first, chain.before, from, exchange, fills); }
  }

  /** The order a leg rests with after its replacements. */
  function CurrentOrder(first: Order, chain: History<Placement>): Order {
    if chain.Then? then chain.last.order else first
  }

  /**
   Each replacement differs from the leg's first order in id and price alone, has an id above all before
   it, and went out after the cancel of the order it replaces had been acknowledged.
   */
  predicate Replaces(first: Order, chain: History<Placement>) {
    chain.Then? ==>
      && Replaces(first, chain.before)
      && var current, next := CurrentOrder(first, chain.before), chain.last.order;
         next == first.(id := next.id, price := next.price) && next.id > current.id && current.id in chain.last.gone
  }

  /** Every order of the chain, the first one included, is done with. */
  ghost predicate ChainDone(first: Order, chain: History<Placement>, view: Book) {
    view.Done(CurrentOrder(first, chain).id) && (chain.Then? ==> ChainDone(first, chain.before, view))
  }

  ghost predicate RetiredDone(first: Order, chain: History<Placement>, view: Book) {
    chain.Then? ==> ChainDone(first, chain.before, view)
  }

  /** All orders of a chain but the current one have had their cancel. */
  lemma {:induction false} RetiredAreDone(first: Order, chain: History<Placement>, view: Book)
    requires Replaces(first, chain) && GoneWithin(chain, view.cancelled)
    ensures RetiredDone(first, chain, view)
  {
    if chain.Then? { RetiredAreDone(first, chain.before, view); }
  }

  lemma {:induction false} ReplacementsGone(limits: History<Placement>, from: nat, side: Side, ids: set<nat>)
    requires GoneWithin(limits, ids)
    ensures GoneWithin(Replacements(limits, from, side), ids)
  {
    if limits.Then? { ReplacementsGone(limits.before, from, side, ids); }
  }

  function ChainIds(chain: History<Placement>): History<nat> {
    match chain
    case Start => Start
    case Then(before, p) => Then(ChainIds(before), p.order.id)
  }

  lemma {:induction false} ChainLength(chain: History<Placement>)
    ensures ChainIds(chain).Length() == chain.Length()
  {
    if chain.Then? { ChainLength(chain.before); }
  }

  lemma {:induction false} NothingSince(limits: History<Placement>, from: nat, side: Side)
    requires IdsBelow(limits, from)
    ensures Replacements(limits, from, side) == Start
  {
    if limits.Then? { NothingSince(limits.before, from, side); }
  }

  /** No order of the chain trades more than its size. */
  predicate TradesWithin(first: Order, chain: History<Placement>, fills: nat -> real) {
    0.0 <= fills(first.id) <= first.size && FillsWithin(ChainIds(chain), first.size, fills)
  }

  /**
   The limit orders of one leg trade at most (1 + max reprices) sizes in all, and at most one size when
   only the last of them traded.
   */
  lemma ChainFillBound(first: Order, chain: History<Placement>, maxReprices: nat, fills: nat -> real)
    requires Replaces(first, chain) && chain.Length() <= maxReprices && TradesWithin(first, chain, fills)
    ensures var total := fills(first.id) + TotalFill(ChainIds(chain), fills);
            && 0.0 <= total <= Multiple(maxReprices + 1, first.size)
            && (chain.Then? && FillsWithin(ChainIds(chain.before), 0.0, fills) && fills(first.id) == 0.0 ==>
                  total <= first.size)
  {
    ChainLength(chain);
    LegFillBound(first.id, ChainIds(chain), first.size, maxReprices, fills);
  }

  datatype ChaseError = StatusFailed | ChaseMaxReprices | PriceFailed | RepriceFailed | TimedOut

  /**
   chase_until_filled. `budget` is the number of polls the clock allows before the timeout. The
   leg's orders are the first one and the accepted replacements, never more than the limit.
   */
  method ChaseUntilFilled(b: Backend, first: Order, threshold: real, maxReprices: nat, budget: nat)
    returns (r: Result<Order, ChaseError>, metrics: Metrics, ghost calls: History<Event>)
    modifies b
    ensures b.log == old(b.log).Plus(calls)
    // Every reprice that a quote called for was made, and no other.
    ensures Track(first, threshold, calls).Resting? || Track(first, threshold, calls).Lost?
    ensures metrics.Chained() && metrics.initial == first.price
    ensures AcceptedIds(calls).Length() == metrics.count <= maxReprices
    ensures r.Ok? ==> Track(first, threshold, calls) == Resting(r.value.id, r.value.price) && metrics.final == r.value.price
    ensures r.Ok? <==> calls.Then? && calls.last.Queried? && calls.last.answer.Some? && calls.last.answer.value.status == Filled
    ensures r.Err? ==>
              match r.error
              case StatusFailed => calls.Then? && calls.last.Queried? && calls.last.answer.None?
              case ChaseMaxReprices => metrics.count == maxReprices
              case PriceFailed => calls.Then? && calls.last.Quoted? && calls.last.best.None?
              case RepriceFailed => calls.Then? && (calls.last.CancelSent? || Track(first, threshold, calls).Lost?)
              case TimedOut => Polls(calls) == budget
  {
    var order := first;
    metrics := Metrics(0, first.price, first.price, []);
    calls := Start;
    var polls := 0;
    while polls < budget
      invariant b.log == old(b.log).Plus(calls)
      invariant order == first.(id := order.id, price := order.price)
      invariant Track(first, threshold, calls) == Resting(order.id, order.price)
      invariant Polls(calls) == polls <= budget
      invariant metrics.Chained() && metrics.initial == first.price && metrics.final == order.price
      invariant AcceptedIds(calls).Length() == metrics.count <= maxReprices
      invariant calls.Then? ==> !calls.last.Queried?
      decreases budget - polls
    {
      polls := polls + 1;
      var answer := b.Query(order.id);
      calls := Then(calls, Queried(order.id, answer));
      if answer.None? {
        return Err(StatusFailed), metrics, calls;
      }
      if answer.value.status == Filled {
        return Ok(order), metrics, calls;
      }
      if metrics.count >= maxReprices {
        return Err(ChaseMaxReprices), metrics, calls;
      }
      var best := b.BestPrice(order.exchange, TouchOf(order.side));
      calls := Then(calls, Quoted(order.exchange, TouchOf(order.side), best));
      if best.None? {
        return Err(PriceFailed), metrics, calls;
      }
      if ShouldReprice(threshold, order.price, best.value) {
        ghost var told := calls;
        var next, metrics', acked, accepted := RepriceOrder(b, order, best.value, metrics);
        TrackReprice(first, threshold, old(b.log), told, order, best.value, acked, accepted);
        calls := RepriceCalls(told, order, best.value, acked, accepted);
        metrics := metrics';
        if next.None? {
          return Err(RepriceFailed), metrics, calls;
        }
        order := next.value;
      }
    }
    r := Err(TimedOut);
  }
}
