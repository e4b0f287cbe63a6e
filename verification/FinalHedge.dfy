/**
 The hedge after the final check: the cancelled order's own fills, an aggressive limit order and market
 orders, each for what the ones before have left uncovered, and the account of what they filled.
 */
module FinalHedge {
  import opened Wrappers
  import opened Exchange
  import opened MarketRetry
  import opened EmergencyClose
  import opened RaceGuard
  import opened AtomicEntry

  /** An aggressive order takes the other side of the book: a buy the ask, a sell the bid. */
  function CrossOf(side: Side): Touch { if side.Long? then Ask else Bid }

  datatype LimitTry =
    | Untried
    | NoPrice
    | Refused(price: real)
    | Placed(price: real, id: nat, report: Option<StatusInfo>, acked: bool)
  {
    // What the aggressive limit order is reported to have filled.
    function Filled(): real { if Placed? && report.Some? then report.value.filled else 0.0 }

    // What it really traded.
    function Moved(fills: nat -> real): real { if Placed? then fills(id) else 0.0 }

    predicate Complete(size: real) { Placed? && report.Some? && report.value.filled >= size }

    // The order is cancelled unless it filled completely.
    function Extend(log: History<Event>, template: Order, size: real): History<Event> {
      var touch := if template.side.Long? then Ask else Bid;
      match this
      case Untried => log
      case NoPrice => Then(log, Quoted(template.exchange, touch, None))
      case Refused(p) =>
        Then(Then(log, Quoted(template.exchange, touch, Some(p))),
             Submitted(template.(price := p, size := size), None))
      case Placed(p, id, report, acked) =>
        var quoted := Then(log, Quoted(template.exchange, touch, Some(p)));
        var queried := Then(Then(quoted, Submitted(template.(price := p, size := size), Some(id))), Queried(id, report));
        if Complete(size) then queried else Then(queried, CancelSent(id, acked))
    }
  }

  /** The log after the aggressive limit. */
  function LimitCalls(log: History<Event>, opp: Opportunity, leg: Leg, remaining: real, limit: LimitTry): History<Event> {
    limit.Extend(log, MarketTemplate(opp, leg.Other(), leg.Other().EntrySide(), 0.0).(kind := Limit), remaining)
  }

  /** The log after the aggressive limit and the market orders for the remainder. */
  function RemainderCalls(log: History<Event>, opp: Opportunity, leg: Leg, remaining: real, limit: LimitTry, hedge: Attempts)
    : History<Event>
  {
    Trace(LimitCalls(log, opp, leg, remaining, limit), hedge,
          MarketTemplate(opp, leg.Other(), leg.Other().EntrySide(), remaining - limit.Filled()))
  }

  /** The three sources of a final-check hedge: the cancelled order, an aggressive limit, market retries. */
  datatype FinalHedgeRun = FinalHedgeRun(
    depth: Option<bool>, acked: bool, report: Option<StatusInfo>, limit: LimitTry, hedge: Attempts)
  {
    // What the orders after the cancel really traded.
    function Moved(fills: nat -> real): real { limit.Moved(fills) + Exposure(hedge, fills) }

    function FromCancelled(): real { if report.Some? then report.value.filled else 0.0 }

    function BeforeMarket(): real { FromCancelled() + limit.Filled() }

    function Total(): real { BeforeMarket() + Counted(hedge) }

    function Calls(log: History<Event>, opp: Opportunity, leg: Leg, other: Order, quantity: real): History<Event> {
      RemainderCalls(Cancelled(log, other, quantity), opp, leg, quantity - FromCancelled(), limit, hedge)
    }

    // The log after the depth check, the cancel and the query of the cancelled order.
    function Cancelled(log: History<Event>, other: Order, quantity: real): History<Event> {
      var asked := Then(log, DepthAsked(other.exchange, quantity, depth));
      Then(Then(asked, CancelSent(other.id, acked)), Queried(other.id, report))
    }

    // The log before the market orders.
    function BeforeHedge(log: History<Event>, opp: Opportunity, leg: Leg, other: Order, quantity: real): History<Event> {
      LimitCalls(Cancelled(log, other, quantity), opp, leg, quantity - FromCancelled(), limit)
    }

    /** No source is used once the ones before it have covered the quantity. */
    ghost predicate Accounts(quantity: real) {
      && (FromCancelled() >= quantity ==> limit.Untried?)
      && (BeforeMarket() >= quantity ==> hedge.Start?)
      && SizedAtRemainder(quantity - BeforeMarket(), hedge) && hedge.Length() <= MAX_HEDGE_RETRIES
    }

    /** The depth was not critical, and each source was tried when the ones before it had not covered the quantity. */
    ghost predicate Thorough(quantity: real) {
      && depth != Some(true) && (FromCancelled() < quantity ==> !limit.Untried?)
      && (BeforeMarket() < quantity ==> hedge.Then? && (Counted(hedge) < quantity - BeforeMarket() ==>
                                                        hedge.Length() == MAX_HEDGE_RETRIES))
    }

    /** No reported fill exceeds the order it is reported for. */
    ghost predicate WithinOrders(quantity: real, fills: nat -> real) {
      && 0.0 <= FromCancelled() <= quantity
      && 0.0 <= limit.Filled() <= quantity - FromCancelled()
      && HonestFills(hedge, fills)
    }
  }

  /**
   The reported fills of the three sources never sum to more than the quantity to hedge, and a hedge
   that completes has reported exactly that quantity.
   */
  lemma FinalHedgeAccounting(run: FinalHedgeRun, quantity: real, fills: nat -> real)
    requires run.Accounts(quantity) && run.WithinOrders(quantity, fills)
    ensures 0.0 <= run.Total() <= quantity
    ensures run.Total() >= quantity ==> run.Total() == quantity
  {
    ExposureSplit(quantity - run.BeforeMarket(), run.hedge, fills);
  }

  /** The size the run records for the hedged leg. */
  function RecordedSize(run: FinalHedgeRun): real {
    if run.hedge.Start? then run.BeforeMarket() else Counted(run.hedge)
  }

  /**
   The recorded size, which also sizes the exit order, is the hedged quantity exactly when the market
   retries were not needed or nothing had filled before them: a market retry overwrites the leg with
   the size of the remainder alone.
   */
  lemma FinalHedgeRecordExact(run: FinalHedgeRun, quantity: real, fills: nat -> real)
    requires run.Accounts(quantity) && run.WithinOrders(quantity, fills) && run.Total() >= quantity
    ensures RecordedSize(run) == quantity <==> run.hedge.Start? || run.BeforeMarket() == 0.0
    ensures run.hedge.Then? ==> RecordedSize(run) == quantity - run.BeforeMarket()
  {
    FinalHedgeAccounting(run, quantity, fills);
  }

  /** It happens: of two contracts the cancelled order had filled one, a market order fills the other, and one is recorded. */
  lemma FinalHedgeRecordWrong() returns (run: FinalHedgeRun, fills: nat -> real)
    ensures run.Accounts(2.0) && run.WithinOrders(2.0, fills) && run.Total() == 2.0 && RecordedSize(run) == 1.0
  {
    run := FinalHedgeRun(None, true, Some(StatusInfo(Cancelled, 1.0, 2.0)), NoPrice,
                         One(Verified(7, 1.0, StatusInfo(OrderStatus.Filled, 1.0, 1.0))));
    fills := (id: nat) => 1.0;
    assert run.hedge.before == Start && Counted(run.hedge) == 1.0;
  }

  /**
   The only limit order a final hedge places is its aggressive one for what remains, if it was accepted, and
   it is reported complete or had its cancel issued.
   */
  ghost predicate LimitAdded(before: Book, view: Book, limit: LimitTry, opp: Opportunity, leg: Leg, remaining: real) {
    if limit.Placed? then
      var template := MarketTemplate(opp, leg.Other(), leg.Other().EntrySide(), remaining).(kind := Limit);
      && view.limits.Then? && view.limits.before == before.limits
      && view.limits.last.order == template.(id := limit.id, price := limit.price)
      && limit.id >= before.next && (limit.Complete(remaining) || limit.id in view.cancelled)
    else
      view.limits == before.limits
  }

  /**
   The calls of a final hedge that fails: none, the depth check and the close alone, or all the hedge's calls
   and then the close.
   */
  ghost predicate FailedCalls(e: EntryError, run: FinalHedgeRun, c: Closing, opp: Opportunity, leg: Leg, s: EntryState,
                              before: History<Event>, log: History<Event>) {
    var own, other := s.orders.At(leg), s.orders.At(leg.Other());
    if e.LockBusy? then log == before && run == NO_HEDGE
    else
      && e.AfterClose() && e.leg == leg && CloseRun(own.size, c, !e.CloseFailed())
      && if e.OpenLeg().Some? then
           log == c.Calls(Then(before, DepthAsked(other.exchange, own.size, Some(true))), CloseOrder(own)) && run == NO_HEDGE
         else
           && log == c.Calls(run.Calls(before, opp, leg, other, own.size), CloseOrder(own))
           && run.Thorough(own.size) && run.Total() < own.size
  }

  /** A final hedge from `base` on that completed: it accounts for at least the filled leg's size. */
  ghost predicate CompletedFrom(base: History<Event>, run: FinalHedgeRun, cancelled: Order, s: EntryState, leg: Leg,
                                opp: Opportunity, start: Book, log: History<Event>) {
    var before, view := BookFrom(EMPTY_BOOK, base), BookFrom(EMPTY_BOOK, log);
    var own, other := s.orders.At(leg), s.orders.At(leg.Other());
    && s.BothFilled() && FillKnown(own, start, before) && before.markets == start.markets
    && log == run.Calls(base, opp, leg, cancelled, own.size)
    && Increasing(run.hedge, BookFrom(EMPTY_BOOK, run.BeforeHedge(base, opp, leg, cancelled, own.size)).next, view.next)
    && run.Accounts(own.size) && run.Thorough(own.size) && run.Total() >= own.size && other.size == RecordedSize(run)
    && (own.id, own.size) in view.saidFilled && cancelled.id in view.cancelled
    && (run.limit.Placed? ==> run.limit.id >= before.next)
  }

  /** The aggressive limit order at the best price, and its cancel unless it filled completely. */
  method AggressiveLimit(b: Backend, template: Order, size: real) returns (t: LimitTry, placed: Order)
    requires template.kind == Limit
    modifies b
    ensures !t.Untried?
    ensures if t.Placed?
            then b.View().limits.Then? && b.View().limits.before == old(b.View()).limits && b.View().limits.last.order == placed
            else b.View().limits == old(b.View()).limits
    ensures t.Placed? ==> (t.Complete(size) || t.id in b.View().cancelled) && t.id >= old(b.View()).next
    ensures b.View().markets == old(b.View()).markets
    ensures b.log == t.Extend(old(b.log), template, size)
    ensures t.Placed? ==> placed == template.(id := t.id, price := t.price, size := size)
    ensures b.View().Extends(old(b.View()))
  {
    placed := template;
    var best := b.BestPrice(template.exchange, CrossOf(template.side));
    if best.None? {
      return NoPrice, placed;
    }
    var r := b.Place(template.(price := best.value, size := size));
    if r.Err? {
      return Refused(best.value), placed;
    }
    placed := r.value;
    var report := b.Query(placed.id);
    if report.Some? && report.value.filled >= size {
      return LimitTry.Placed(best.value, placed.id, report, false), placed;
    }
    var acked := b.Cancel(placed.id);
    t := LimitTry.Placed(best.value, placed.id, report, acked);
  }

  const NO_HEDGE := FinalHedgeRun(None, false, None, Untried, Start)

  /**
   The final-check hedge of the leg that is not filled. Whether it completes or fails, no source is used
   once the ones before it cover the quantity, and its calls are exactly those of the run, followed on
   failure by those of the filled leg's close.
   */
  method HedgeFinally(b: Backend, locks: HedgeLocks, halt: TradingHalt, opp: Opportunity, leg: Leg, s: EntryState,
                    ghost start: Book)
    returns (s': EntryState, error: Option<EntryError>, ghost run: FinalHedgeRun, ghost c: Closing)
    requires locks.Valid() && KnownFilled(leg, s, start, b.View())
    modifies b, locks, halt
    ensures locks.Valid() && locks.held == old(locks.held) && locks.guards == old(locks.guards)
    ensures run.Accounts(s.orders.At(leg).size)
    ensures LimitAdded(old(b.View()), b.View(), run.limit, opp, leg, s.orders.At(leg).size - run.FromCancelled())
    ensures error.None? ==>
              && s'.orders.At(leg) == s.orders.At(leg)
              && CompletedFrom(old(b.log), run, s.orders.At(leg.Other()), s', leg, opp, start, b.log)
    ensures error.Some? ==> s' == s && HandedToClose(error.value, s', opp, start, b.log, opp.symbol !in old(locks.held))
                            && FailedCalls(error.value, run, c, opp, leg, s, old(b.log), b.log)
    ensures halt.halted == (old(halt.halted) || (error.Some? && error.value.CloseFailed()))
    ensures s'.reprices == s.reprices && s'.metrics == s.metrics
    ensures b.View().Extends(old(b.View()))
  {
    s', error, run, c := s, None, NO_HEDGE, Closing(Start, Start, Start);
    var acquired := locks.TryAcquire(opp.symbol);
    if !acquired {
      error := Some(LockBusy(leg));
      return;
    }
    s', error, run, c := HedgeFinallyLocked(b, halt, opp, leg, s, start);
    locks.Drop(opp.symbol);
  }

  method HedgeFinallyLocked(b: Backend, halt: TradingHalt, opp: Opportunity, leg: Leg, s: EntryState, ghost start: Book)
    returns (s': EntryState, error: Option<EntryError>, ghost run: FinalHedgeRun, ghost c: Closing)
    requires KnownFilled(leg, s, start, b.View())
    modifies b, halt
    ensures run.Accounts(s.orders.At(leg).size)
    ensures LimitAdded(old(b.View()), b.View(), run.limit, opp, leg, s.orders.At(leg).size - run.FromCancelled())
    ensures error.None? ==>
              && s'.orders.At(leg) == s.orders.At(leg)
              && CompletedFrom(old(b.log), run, s.orders.At(leg.Other()), s', leg, opp, start, b.log)
    ensures error.Some? ==> s' == s && HandedToClose(error.value, s', opp, start, b.log, true)
                            && FailedCalls(error.value, run, c, opp, leg, s, old(b.log), b.log)
    ensures halt.halted == (old(halt.halted) || (error.Some? && error.value.CloseFailed()))
    ensures s'.reprices == s.reprices && s'.metrics == s.metrics
    ensures b.View().Extends(old(b.View()))
  {
    s', error, run, c := s, None, NO_HEDGE, Closing(Start, Start, Start);
    var other := s.orders.At(leg.Other());
    var depth := b.DepthIsCritical(other.exchange, s.orders.At(leg).size);
    if depth == Some(true) {
      var abort;
      abort, c := CloseOnDepth(b, halt, opp, leg, s, start);
      error := Some(abort);
      return;
    }
    s', error, run, c := CancelAndFinish(b, halt, opp, leg, s, depth, old(b.log), start);
  }

  // The final hedge once its depth check has passed; `base` is the log before that check.
  method CancelAndFinish(b: Backend, halt: TradingHalt, opp: Opportunity, leg: Leg, s: EntryState, ghost depth: Option<bool>,
                         ghost base: History<Event>, ghost start: Book)
    returns (s': EntryState, error: Option<EntryError>, ghost run: FinalHedgeRun, ghost c: Closing)
    requires KnownFilled(leg, s, start, b.View()) && depth != Some(true)
    requires b.log == Then(base, DepthAsked(s.orders.At(leg.Other()).exchange, s.orders.At(leg).size, depth))
    modifies b, halt
    ensures run.Accounts(s.orders.At(leg).size)
    ensures LimitAdded(old(b.View()), b.View(), run.limit, opp, leg, s.orders.At(leg).size - run.FromCancelled())
    ensures error.None? ==>
              && s'.orders.At(leg) == s.orders.At(leg)
              && CompletedFrom(base, run, s.orders.At(leg.Other()), s', leg, opp, start, b.log)
    ensures error.Some? ==> s' == s && HandedToClose(error.value, s', opp, start, b.log, true)
                            && FailedCalls(error.value, run, c, opp, leg, s, base, b.log)
    ensures halt.halted == (old(halt.halted) || (error.Some? && error.value.CloseFailed()))
    ensures s'.reprices == s.reprices && s'.metrics == s.metrics
    ensures b.View().Extends(old(b.View()))
  {
    var other := s.orders.At(leg.Other());
    var acked := b.Cancel(other.id);
    var report := b.Query(other.id);
    s', error, run, c := HedgeAfterCancel(b, halt, opp, leg, s, depth, acked, report, base, start);
    if error.None? {
      CompletedIs(opp, s', leg, run, other, base, start, b.log);
    } else {
      FailedIs(error.value, run, c, opp, leg, s, base, b.log);
    }
  }

  // What the cancelled order has filled counts first.
  method HedgeAfterCancel(b: Backend, halt: TradingHalt, opp: Opportunity, leg: Leg, s: EntryState, ghost depth: Option<bool>,
                          ghost acked: bool, report: Option<StatusInfo>, ghost base: History<Event>, ghost start: Book)
    returns (s': EntryState, error: Option<EntryError>, ghost run: FinalHedgeRun, ghost c: Closing)
    requires KnownFilled(leg, s, start, b.View()) && s.orders.At(leg.Other()).id in b.View().cancelled && depth != Some(true)
    requires var run := FinalHedgeRun(depth, acked, report, Untried, Start);
             b.log == run.Cancelled(base, s.orders.At(leg.Other()), s.orders.At(leg).size)
    modifies b, halt
    ensures run.Accounts(s.orders.At(leg).size) && run.Thorough(s.orders.At(leg).size)
    ensures LimitAdded(old(b.View()), b.View(), run.limit, opp, leg, s.orders.At(leg).size - run.FromCancelled())
    ensures var own, other := s.orders.At(leg), s.orders.At(leg.Other());
            var calls := run.Calls(base, opp, leg, other, own.size);
            if error.None? then
              && s'.BothFilled() && s'.orders.At(leg) == own && run.Total() >= own.size
              && s'.orders.At(leg.Other()).size == RecordedSize(run) && b.log == calls
              && var before := run.BeforeHedge(base, opp, leg, other, own.size);
                 Increasing(run.hedge, BookFrom(EMPTY_BOOK, before).next, b.View().next)
            else
              && s' == s && HandedToClose(error.value, s', opp, start, b.log, true) && run.Total() < own.size
              && (error.value == HedgeFailed(leg) || error.value == HedgeAndCloseFailed(leg))
              && b.log == c.Calls(calls, CloseOrder(own)) && CloseRun(own.size, c, !error.value.CloseFailed())
    ensures halt.halted == (old(halt.halted) || (error.Some? && error.value.CloseFailed()))
    ensures s'.reprices == s.reprices && s'.metrics == s.metrics
    ensures b.View().Extends(old(b.View()))
  {
    var quantity := s.orders.At(leg).size;
    var totalFilled := if report.Some? then report.value.filled else 0.0;
    ghost var queried := b.log;
    ghost var t, hedge;
    s', error, t, hedge, c := HedgeUncovered(b, halt, opp, leg, s, quantity - totalFilled, totalFilled, start);
    run := FinalHedgeRun(depth, acked, report, t, hedge);
    RunOf(run, quantity, base, queried, opp, leg, s.orders.At(leg.Other()));
  }

  lemma FailedIs(e: EntryError, run: FinalHedgeRun, c: Closing, opp: Opportunity, leg: Leg, s: EntryState,
                 base: History<Event>, log: History<Event>)
    requires e == HedgeFailed(leg) || e == HedgeAndCloseFailed(leg)
    requires var own := s.orders.At(leg);
             && CloseRun(own.size, c, !e.CloseFailed()) && run.Thorough(own.size) && run.Total() < own.size
             && log == c.Calls(run.Calls(base, opp, leg, s.orders.At(leg.Other()), own.size), CloseOrder(own))
    ensures FailedCalls(e, run, c, opp, leg, s, base, log)
  {
  }

  lemma CompletedIs(opp: Opportunity, s: EntryState, leg: Leg, run: FinalHedgeRun, cancelled: Order, base: History<Event>,
                    start: Book, log: History<Event>)
    requires s.BothFilled() && FillKnown(s.orders.At(leg), start, BookFrom(EMPTY_BOOK, base))
    requires BookFrom(EMPTY_BOOK, base).markets == start.markets
    requires var view, own := BookFrom(EMPTY_BOOK, log), s.orders.At(leg);
             && (own.id, own.size) in view.saidFilled && cancelled.id in view.cancelled
             && log == run.Calls(base, opp, leg, cancelled, own.size)
             && run.Accounts(own.size) && run.Thorough(own.size) && run.Total() >= own.size
             && var before := run.BeforeHedge(base, opp, leg, cancelled, own.size);
                Increasing(run.hedge, BookFrom(EMPTY_BOOK, before).next, view.next)
    requires s.orders.At(leg.Other()).size == RecordedSize(run)
    requires run.limit.Placed? ==> run.limit.id >= BookFrom(EMPTY_BOOK, base).next
    ensures CompletedFrom(base, run, cancelled, s, leg, opp, start, log)
  {
  }

  // What the remainder's sources did, in terms of the whole run.
  lemma RunOf(run: FinalHedgeRun, quantity: real, base: History<Event>, queried: History<Event>, opp: Opportunity, leg: Leg,
              other: Order)
    requires run.depth != Some(true) && Uncovered(run.limit, run.hedge, quantity - run.FromCancelled())
    requires queried == run.Cancelled(base, other, quantity)
    ensures run.Accounts(quantity) && run.Thorough(quantity)
    ensures run.Calls(base, opp, leg, other, quantity) ==
            RemainderCalls(queried, opp, leg, quantity - run.FromCancelled(), run.limit, run.hedge)
    ensures run.Total() - quantity == run.limit.Filled() + Counted(run.hedge) - (quantity - run.FromCancelled())
  {
    assert quantity - run.FromCancelled() - run.limit.Filled() == quantity - run.BeforeMarket();
  }

  /** Nothing is tried when nothing is uncovered; otherwise each source is, unless the ones before it cover what remains. */
  ghost predicate Uncovered(limit: LimitTry, hedge: Attempts, remaining: real) {
    && (limit.Untried? <==> remaining <= 0.0)
    && (hedge.Start? <==> limit.Filled() >= remaining)
    && SizedAtRemainder(remaining - limit.Filled(), hedge) && hedge.Length() <= MAX_HEDGE_RETRIES
    && (limit.Filled() + Counted(hedge) < remaining ==> hedge.Length() == MAX_HEDGE_RETRIES)
  }

  method HedgeUncovered(b: Backend, halt: TradingHalt, opp: Opportunity, leg: Leg, s: EntryState,
                        remaining: real, covered: real, ghost start: Book)
    returns (s': EntryState, error: Option<EntryError>, ghost limit: LimitTry, ghost hedge: Attempts, ghost c: Closing)
    requires KnownFilled(leg, s, start, b.View()) && s.orders.At(leg.Other()).id in b.View().cancelled
    modifies b, halt
    ensures Increasing(hedge, BookFrom(EMPTY_BOOK, LimitCalls(old(b.log), opp, leg, remaining, limit)).next, b.View().next)
    ensures Uncovered(limit, hedge, remaining)
    ensures error.None? <==> limit.Filled() + Counted(hedge) >= remaining
    ensures error.None? ==>
              && s'.BothFilled() && s'.orders.At(leg) == s.orders.At(leg)
              && s'.orders.At(leg.Other()).size == (if hedge.Start? then covered + limit.Filled() else Counted(hedge))
              && b.log == RemainderCalls(old(b.log), opp, leg, remaining, limit, hedge)
    ensures error.Some? ==> s' == s && HandedToClose(error.value, s', opp, start, b.log, true)
                            && (error.value == HedgeFailed(leg) || error.value == HedgeAndCloseFailed(leg))
    ensures error.Some? ==>
              && b.log == c.Calls(RemainderCalls(old(b.log), opp, leg, remaining, limit, hedge), CloseOrder(s.orders.At(leg)))
              && CloseRun(s.orders.At(leg).size, c, !error.value.CloseFailed())
    ensures LimitAdded(old(b.View()), b.View(), limit, opp, leg, remaining)
    ensures halt.halted == (old(halt.halted) || (error.Some? && error.value.CloseFailed()))
    ensures s'.reprices == s.reprices && s'.metrics == s.metrics
    ensures b.View().Extends(old(b.View()))
  {
    if remaining <= 0.0 {
      s', error, limit, hedge, c := s, None, Untried, Start, Closing(Start, Start, Start);
      s' := s.MarkFilled(leg.Other(), s.orders.At(leg.Other()).(size := covered));
      return;
    }
    s', error, limit, hedge, c := HedgeRemaining(b, halt, opp, leg, s, remaining, covered, start);
  }

  /** The aggressive limit and then the market order, each for what is still uncovered. */
  method HedgeRemaining(b: Backend, halt: TradingHalt, opp: Opportunity, leg: Leg, s: EntryState,
                        remaining: real, covered: real, ghost start: Book)
    returns (s': EntryState, error: Option<EntryError>, ghost limit: LimitTry, ghost hedge: Attempts, ghost c: Closing)
    requires remaining > 0.0
    requires KnownFilled(leg, s, start, b.View()) && s.orders.At(leg.Other()).id in b.View().cancelled
    modifies b, halt
    ensures Increasing(hedge, BookFrom(EMPTY_BOOK, LimitCalls(old(b.log), opp, leg, remaining, limit)).next, b.View().next)
    ensures Uncovered(limit, hedge, remaining)
    ensures error.None? <==> limit.Filled() + Counted(hedge) >= remaining
    ensures error.None? ==>
              && s'.BothFilled() && s'.orders.At(leg) == s.orders.At(leg)
              && s'.orders.At(leg.Other()).size == (if hedge.Start? then covered + limit.Filled() else Counted(hedge))
              && b.log == RemainderCalls(old(b.log), opp, leg, remaining, limit, hedge)
    ensures error.Some? ==> s' == s && HandedToClose(error.value, s', opp, start, b.log, true)
                            && (error.value == HedgeFailed(leg) || error.value == HedgeAndCloseFailed(leg))
    ensures error.Some? ==>
              && b.log == c.Calls(RemainderCalls(old(b.log), opp, leg, remaining, limit, hedge), CloseOrder(s.orders.At(leg)))
              && CloseRun(s.orders.At(leg).size, c, !error.value.CloseFailed())
    ensures LimitAdded(old(b.View()), b.View(), limit, opp, leg, remaining)
    ensures halt.halted == (old(halt.halted) || (error.Some? && error.value.CloseFailed()))
    ensures s'.reprices == s.reprices && s'.metrics == s.metrics
    ensures b.View().Extends(old(b.View()))
  {
    s', error, hedge, c := s, None, Start, Closing(Start, Start, Start);
    var side := leg.Other().EntrySide();
    var t, placed := AggressiveLimit(b, MarketTemplate(opp, leg.Other(), side, 0.0).(kind := Limit), remaining);
    limit := t;
    if t.Filled() >= remaining {
      var order := if t.Complete(remaining) then placed else s.orders.At(leg.Other());
      s' := s.MarkFilled(leg.Other(), order.(size := covered + t.Filled()));
      return;
    }
    s', error, hedge, c := MarketHedgeOrClose(b, halt, opp, leg, s, remaining - t.Filled(), start);
  }
}
