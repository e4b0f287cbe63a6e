/**
 The dual-leg entry: both limit orders rest, are polled and repriced, and as soon as one leg is
 reported filled the other one is hedged at market or the filled one is closed again.
 */
module AtomicEntry {
  import opened Wrappers
  import opened Exchange
  import opened MarketRetry
  import opened EmergencyClose
  import opened RaceGuard
  import opened Numbers
  import opened PriceChaser
  import opened Positions

  datatype Leg = LongLeg | ShortLeg {
    function Other(): Leg { if LongLeg? then ShortLeg else LongLeg }

    function EntrySide(): Side { if LongLeg? then Side.Long else Side.Short }
  }

  datatype Pair<T> = Pair(long: T, short: T) {
    function At(l: Leg): T { if l.LongLeg? then long else short }

    function Set(l: Leg, v: T): Pair<T> { if l.LongLeg? then this.(long := v) else this.(short := v) }
  }

  datatype Opportunity = Opportunity(symbol: string, exchanges: Pair<string>, prices: Pair<real>)

  datatype Config = Config(threshold: real, maxReprices: nat, collapseBps: real)

  datatype EntryState = EntryState(orders: Pair<Order>, filled: Pair<bool>, reprices: Pair<nat>, metrics: Pair<Metrics>) {
    function MarkFilled(l: Leg, o: Order): EntryState {
      this.(orders := orders.Set(l, o), filled := filled.Set(l, true))
    }

    predicate NoneFilled() { !filled.long && !filled.short }

    predicate BothFilled() { filled.long && filled.short }

    predicate OnlyFilled(l: Leg) { filled.At(l) && !filled.At(l.Other()) }
  }

  datatype EntryError =
    | SpreadCollapsed
    | MaxReprices(leg: Leg)
    | NeitherFilled
    | LockBusy(leg: Leg)
    | DepthAbort(leg: Leg)
    | DepthAbortCloseFailed(leg: Leg)
    | HedgeFailed(leg: Leg)
    | HedgeAndCloseFailed(leg: Leg)
    | ShouldNotHappen
  {
    predicate CloseFailed() { DepthAbortCloseFailed? || HedgeAndCloseFailed? }

    /** How many market orders a run with this error may have sent to hedge before its close. */
    function HedgesTried(): nat { if HedgeFailed? || HedgeAndCloseFailed? then MAX_HEDGE_RETRIES else 0 }

    predicate NothingFilled() { SpreadCollapsed? || MaxReprices? || NeitherFilled? }

    /** The errors of a run that went through the emergency close. */
    predicate AfterClose() { DepthAbort? || DepthAbortCloseFailed? || HedgeFailed? || HedgeAndCloseFailed? }

    /** The leg whose current order a run with this error leaves neither filled nor cancelled. */
    function OpenLeg(): Option<Leg> {
      if LockBusy? || DepthAbort? || DepthAbortCloseFailed? then Some(leg.Other()) else None
    }
  }

  /** No report of the book has called the current order of either leg fully filled. */
  ghost predicate NeitherSaidFilled(s: EntryState, view: Book) {
    !view.SaidFilled(s.orders.long.id) && !view.SaidFilled(s.orders.short.id)
  }

  /** Since the start the order was reported fully filled, at its size. */
  ghost predicate FillKnown(o: Order, start: Book, view: Book) {
    (o.id, o.size) in view.saidFilled && !start.SaidFilled(o.id) && view.Extends(start)
  }

  /** Exactly one leg is filled, known to be so since the start, and no market order has been sent since. */
  ghost predicate KnownFilled(leg: Leg, s: EntryState, start: Book, view: Book) {
    s.OnlyFilled(leg) && FillKnown(s.orders.At(leg), start, view) && view.markets == start.markets
  }

  /**
   The run's last calls are the emergency close of the filled leg, which succeeded exactly when the error
   says so. It began after the report of this run's fill. Before it went a critically low depth and no market
   order, or the other leg's cancel and a few market orders on its exchange.
   */
  ghost predicate ClosedBy(e: EntryError, base: History<Event>, c: Closing, s: EntryState, opp: Opportunity, start: Book,
                           log: History<Event>)
    requires e.AfterClose()
  {
    var own, other, view := s.orders.At(e.leg), e.leg.Other(), BookFrom(EMPTY_BOOK, base);
    && log == c.Calls(base, CloseOrder(own)) && CloseRun(own.size, c, !e.CloseFailed())
    && Increasing(c.All(), view.next, BookFrom(EMPTY_BOOK, log).next)
    && s.OnlyFilled(e.leg) && FillKnown(own, start, view)
    && OrdersSince(view.markets, start.markets, opp.exchanges.At(other), other.EntrySide(), e.HedgesTried())
    && if e.OpenLeg().Some? then base.Then? && base.last == DepthAsked(s.orders.At(other).exchange, own.size, Some(true))
       else s.orders.At(other).id in view.cancelled
  }

  /**
   What an error after a fill means for the run that began at `start`: exactly one leg is filled, a report
   of this run said so, and unless the lock was taken the run's last calls are that leg's emergency close.
   */
  ghost predicate HandedToClose(e: EntryError, s: EntryState, opp: Opportunity, start: Book, log: History<Event>,
                                lockWasFree: bool) {
    if e.LockBusy? then !lockWasFree && KnownFilled(e.leg, s, start, BookFrom(EMPTY_BOOK, log))
    else lockWasFree && e.AfterClose() && exists base, c :: ClosedBy(e, base, c, s, opp, start, log)
  }

  function MarketTemplate(opp: Opportunity, leg: Leg, side: Side, size: real): Order {
    Order(0, opp.exchanges.At(leg), side, Market, opp.prices.At(leg), size, Pending)
  }

  // ---- Both legs found filled by the race check ----

  const MISMATCH_TOLERANCE: real := 0.001

  predicate MustBalance(qty: Pair<real>) { Abs(qty.long - qty.short) > MISMATCH_TOLERANCE }

  /** A mismatch above the tolerance is cut back on the larger leg by a market order of the difference. */
  function RaceCalls(log: History<Event>, opp: Opportunity, qty: Pair<real>, accepted: Option<nat>): History<Event> {
    if !MustBalance(qty) then log
    else
      var larger := if qty.long > qty.short then LongLeg else ShortLeg;
      var cut := MarketTemplate(opp, larger, larger.EntrySide().Opposite(), Abs(qty.long - qty.short));
      Then(log, Submitted(cut, accepted))
  }

  /**
   The larger leg is cut back by a market order; the leg found filled by the race check is then
   recorded at the size the race check reported for it.
   */
  method BalanceRace(b: Backend, opp: Opportunity, leg: Leg, qty: Pair<real>, s: EntryState)
    returns (s': EntryState, ghost accepted: Option<nat>)
    requires s.OnlyFilled(leg)
    modifies b
    ensures s' == RaceRecord(s, leg, qty, accepted.Some?)
    ensures b.log == RaceCalls(old(b.log), opp, qty, accepted)
    ensures accepted.Some? ==> MustBalance(qty) && accepted.value >= old(b.View()).next
    ensures b.log == old(b.log) <==> -0.001 <= qty.long - qty.short <= 0.001
    ensures b.View().SameResting(old(b.View()))
  {
    s', accepted := s, None;
    if Abs(qty.long - qty.short) > MISMATCH_TOLERANCE {
      if qty.long > qty.short {
        var placed := b.Place(MarketTemplate(opp, LongLeg, Side.Short, qty.long - qty.short));
        if placed.Ok? {
          accepted := Some(placed.value.id);
          s' := s'.(orders := s'.orders.(long := s'.orders.long.(size := qty.short)));
        }
      } else {
        var placed := b.Place(MarketTemplate(opp, ShortLeg, Side.Long, qty.short - qty.long));
        if placed.Ok? {
          accepted := Some(placed.value.id);
          s' := s'.(orders := s'.orders.(short := s'.orders.short.(size := qty.long)));
        }
      }
    }
    var found := s'.orders.At(leg.Other());
    s' := s'.MarkFilled(leg.Other(), found.(status := OrderStatus.Filled, size := qty.At(leg.Other())));
  }

  function RaceRecord(s: EntryState, leg: Leg, qty: Pair<real>, balanced: bool): EntryState {
    var own, other := s.orders.At(leg), s.orders.At(leg.Other());
    var cut := balanced && qty.At(leg) > qty.At(leg.Other());
    s.(orders := s.orders.Set(leg, if cut then own.(size := qty.At(leg.Other())) else own))
    .MarkFilled(leg.Other(), other.(status := OrderStatus.Filled, size := qty.At(leg.Other())))
  }

  /** The positions the race leaves behind once the balancing order, if accepted, has traded in full. */
  function RacePosition(leg: Leg, qty: Pair<real>, balanced: bool): real {
    if balanced && qty.At(leg) > qty.At(leg.Other()) then qty.At(leg.Other()) else qty.At(leg)
  }

  /**
   Let the legs hold the quantities the race check reported when the balancing order, if one is accepted, trades
   its whole size. Then each leg's exchange is left with that leg's race position, and unless the order was
   refused the two positions cancel out but for the tolerance.
   */
  lemma RaceSettles(log: History<Event>, opp: Opportunity, qty: Pair<real>, accepted: Option<nat>, from: nat,
                    fills: nat -> real)
    requires opp.exchanges.long != opp.exchanges.short
    requires Position(log, from, opp.exchanges.long, fills) == qty.long
    requires Position(log, from, opp.exchanges.short, fills) == -qty.short
    requires accepted.Some? ==> MustBalance(qty) && accepted.value >= from
    requires accepted.Some? ==> fills(accepted.value) == RaceCalls(log, opp, qty, accepted).last.order.size
    ensures var after := RaceCalls(log, opp, qty, accepted);
            var long := Position(after, from, opp.exchanges.long, fills);
            var short := Position(after, from, opp.exchanges.short, fills);
            && long == RacePosition(LongLeg, qty, accepted.Some?) && short == -RacePosition(ShortLeg, qty, accepted.Some?)
            && (accepted.Some? ==> long + short == 0.0)
            && (!MustBalance(qty) ==> after == log && -0.001 <= long + short <= 0.001)
  {
  }

  /**
   The recorded sizes are the real positions exactly when it was not the later leg that was cut
   back: its balanced size is overwritten by the size the race check had reported.
   */
  lemma RaceRecordExact(s: EntryState, leg: Leg, qty: Pair<real>, balanced: bool)
    requires s.orders.At(leg).size == qty.At(leg)
    ensures var rec := RaceRecord(s, leg, qty, balanced);
            (forall l :: rec.orders.At(l).size == RacePosition(l, qty, balanced)) <==>
            !(balanced && qty.At(leg.Other()) > qty.At(leg))
    ensures balanced ==> RacePosition(LongLeg, qty, balanced) == RacePosition(ShortLeg, qty, balanced)
  {
    var rec := RaceRecord(s, leg, qty, balanced);
    assert rec.orders.At(leg).size == RacePosition(leg, qty, balanced);
    if balanced && qty.At(leg.Other()) > qty.At(leg) {
      assert rec.orders.At(leg.Other()).size != RacePosition(leg.Other(), qty, balanced);
    }
  }

  /**
   It happens: the long leg fills 1, the race check reports 2 for the short leg, and the balanced short leg
   is recorded at 2.
   */
  lemma RaceRecordWrong() returns (s: EntryState, qty: Pair<real>)
    ensures s.OnlyFilled(LongLeg) && s.orders.long.size == qty.long && Abs(qty.long - qty.short) > MISMATCH_TOLERANCE
    ensures RacePosition(ShortLeg, qty, true) == 1.0 && RaceRecord(s, LongLeg, qty, true).orders.short.size == 2.0
  {
    var long := Order(1, "bybit", Side.Long, Limit, 100.0, 1.0, OrderStatus.Filled);
    var short := Order(2, "okx", Side.Short, Limit, 101.0, 2.0, Pending);
    var m := Metrics(0, 100.0, 100.0, []);
    s, qty := EntryState(Pair(long, short), Pair(true, false), Pair(0, 0), Pair(m, m)), Pair(1.0, 2.0);
  }

  // ---- One poll of one leg ----

  datatype Next = GoOn | Break | NextPoll | Fail(error: EntryError)

  /**
   The market hedge of the other leg for the given quantity, and the emergency close of the filled
   leg when it fails.
   */
  method MarketHedgeOrClose(b: Backend, halt: TradingHalt, opp: Opportunity, leg: Leg, s: EntryState, quantity: real,
                            ghost start: Book)
    returns (s': EntryState, error: Option<EntryError>, ghost hedge: Attempts, ghost c: Closing)
    requires KnownFilled(leg, s, start, b.View()) && s.orders.At(leg.Other()).id in b.View().cancelled
    modifies b, halt
    ensures SizedAtRemainder(quantity, hedge) && hedge.Length() <= MAX_HEDGE_RETRIES
    ensures Increasing(hedge, old(b.View()).next, b.View().next)
    ensures error.None? <==> Counted(hedge) >= quantity
    ensures error.None? ==>
              var template := MarketTemplate(opp, leg.Other(), leg.Other().EntrySide(), quantity);
              var hedged := s'.orders.At(leg.Other());
              && hedged == template.(id := hedged.id, size := Counted(hedge))
              && s' == s.MarkFilled(leg.Other(), hedged)
              && b.log == Trace(old(b.log), hedge, template)
    ensures error.Some? ==> s' == s && (error.value == HedgeFailed(leg) || error.value == HedgeAndCloseFailed(leg))
                            && HandedToClose(error.value, s', opp, start, b.log, true)
    ensures error.Some? ==>
              var template := MarketTemplate(opp, leg.Other(), leg.Other().EntrySide(), quantity);
              && b.log == c.Calls(Trace(old(b.log), hedge, template), CloseOrder(s.orders.At(leg)))
              && CloseRun(s.orders.At(leg).size, c, !error.value.CloseFailed()) && hedge.Length() == MAX_HEDGE_RETRIES
    ensures b.View().SameResting(old(b.View()))
    ensures halt.halted == (old(halt.halted) || (error.Some? && error.value.CloseFailed()))
  {
    s', error, c := s, None, Closing(Start, Start, Start);
    var other := leg.Other();
    var template := MarketTemplate(opp, other, other.EntrySide(), quantity);
    var r;
    r, hedge := PlaceMarketOrderWithRetry(b, template, quantity);
    if r.Ok? {
      s' := s.MarkFilled(other, r.value);
    } else {
      ghost var base := b.log;
      TraceSends(old(b.log), hedge, template, MAX_HEDGE_RETRIES);
      var closed;
      closed, c := EmergencyClosePosition(b, halt, s.orders.At(leg));
      error := Some(if closed then HedgeFailed(leg) else HedgeAndCloseFailed(leg));
      assert ClosedBy(error.value, base, c, s, opp, start, b.log);
      var next := BookFrom(EMPTY_BOOK, base).next;
      IncreasingWidens(hedge, old(b.View()).next, next, old(b.View()).next, b.View().next);
    }
  }

  /** Calls that place no limit order and forget nothing. */
  ghost predicate NoNewOrders(view: Book, before: Book) {
    view.live <= before.live && view.limits == before.limits && view.Extends(before)
  }

  /** The log after the market orders that hedge the other leg for the size the filled one is recorded at. */
  function HedgeCalls(base: History<Event>, s: EntryState, leg: Leg, opp: Opportunity, hedge: Attempts): History<Event> {
    Trace(base, hedge, MarketTemplate(opp, leg.Other(), leg.Other().EntrySide(), s.orders.At(leg).size))
  }

  ghost predicate HedgedBy(s: EntryState, s': EntryState, leg: Leg, opp: Opportunity, hedge: Attempts) {
    var target := s'.orders.At(leg).size;
    && SizedAtRemainder(target, hedge) && hedge.Length() <= MAX_HEDGE_RETRIES && Counted(hedge) >= target
    && s'.orders.At(leg.Other()) ==
       MarketTemplate(opp, leg.Other(), leg.Other().EntrySide(), Counted(hedge)).(id := s'.orders.At(leg.Other()).id)
  }

  /** With fills within their orders the in-loop hedge leaves both legs recorded at the same size. */
  lemma HedgedLegsEqual(s: EntryState, s': EntryState, leg: Leg, opp: Opportunity, hedge: Attempts, fills: nat -> real)
    requires HedgedBy(s, s', leg, opp, hedge) && s'.orders.At(leg).size > 0.0 && HonestFills(hedge, fills)
    ensures s'.orders.long.size == s'.orders.short.size
    ensures UnverifiedCount(hedge) == 0 ==> Exposure(hedge, fills) == s'.orders.At(leg).size
  {
    HedgeExposure(s'.orders.At(leg).size, hedge, fills);
  }

  /** On a critically low depth the filled leg is closed at once and nothing else is sent. */
  method CloseOnDepth(b: Backend, halt: TradingHalt, opp: Opportunity, leg: Leg, s: EntryState, ghost start: Book)
    returns (error: EntryError, ghost c: Closing)
    requires KnownFilled(leg, s, start, b.View()) && b.log.Then?
    requires b.log.last == DepthAsked(s.orders.At(leg.Other()).exchange, s.orders.At(leg).size, Some(true))
    modifies b, halt
    ensures error == DepthAbort(leg) || error == DepthAbortCloseFailed(leg)
    ensures HandedToClose(error, s, opp, start, b.log, true)
    ensures b.log == c.Calls(old(b.log), CloseOrder(s.orders.At(leg)))
    ensures CloseRun(s.orders.At(leg).size, c, !error.CloseFailed())
    ensures b.View().SameResting(old(b.View()))
    ensures halt.halted == (old(halt.halted) || error.CloseFailed())
  {
    ghost var base := b.log;
    var closed;
    closed, c := EmergencyClosePosition(b, halt, s.orders.At(leg));
    error := if closed then DepthAbort(leg) else DepthAbortCloseFailed(leg);
    assert ClosedBy(error, base, c, s, opp, start, b.log);
  }

  /** The log after the other leg's depth was asked for the filled size. */
  function DepthCall(log: History<Event>, s: EntryState, leg: Leg, depth: Option<bool>): History<Event> {
    Then(log, DepthAsked(s.orders.At(leg.Other()).exchange, s.orders.At(leg).size, depth))
  }

  /** The log after the depth check and the cancel of the other leg. */
  function CancelCalls(log: History<Event>, s: EntryState, leg: Leg, depth: Option<bool>, acked: bool): History<Event> {
    Then(DepthCall(log, s, leg, depth), CancelSent(s.orders.At(leg.Other()).id, acked))
  }

  // An in-loop hedge: the answers of its depth check and its cancel, and its market orders.
  datatype Hedging = Hedging(depth: Option<bool>, acked: bool, hedge: Attempts)

  /**
   The calls of an in-loop hedge that fails: on a critical depth the close alone, or the cancel of the
   other leg, the hedge and then the close.
   */
  ghost predicate FailedHedge(e: EntryError, h: Hedging, c: Closing, opp: Opportunity, s: EntryState,
                              before: History<Event>, log: History<Event>)
    requires e.AfterClose()
  {
    var own, other := s.orders.At(e.leg), s.orders.At(e.leg.Other());
    && CloseRun(own.size, c, !e.CloseFailed()) && (h.depth == Some(true) <==> e.OpenLeg().Some?)
    && if h.depth == Some(true) then
         log == c.Calls(DepthCall(before, s, e.leg, h.depth), CloseOrder(own))
       else
         && log == c.Calls(HedgeCalls(CancelCalls(before, s, e.leg, h.depth, h.acked), s, e.leg, opp, h.hedge), CloseOrder(own))
         && SizedAtRemainder(own.size, h.hedge) && h.hedge.Length() == MAX_HEDGE_RETRIES && Counted(h.hedge) < own.size
  }

  /** The depth was not critical, the other leg's order was cancelled, and a market hedge that reached the size followed. */
  ghost predicate HedgedFrom(before: History<Event>, h: Hedging, s: EntryState, s': EntryState, leg: Leg, opp: Opportunity,
                             start: Book, log: History<Event>) {
    var base := CancelCalls(before, s, leg, h.depth, h.acked);
    var view := BookFrom(EMPTY_BOOK, base);
    && h.depth != Some(true) && KnownFilled(leg, s, start, view)
    && log == HedgeCalls(base, s', leg, opp, h.hedge) && HedgedBy(s, s', leg, opp, h.hedge)
    && Increasing(h.hedge, view.next, BookFrom(EMPTY_BOOK, log).next)
    && s' == s.MarkFilled(leg.Other(), s'.orders.At(leg.Other())) && s'.orders.At(leg) == s.orders.At(leg)
  }

  // The in-loop hedge once its depth check has passed; `before` is the log before that check.
  method CancelAndHedge(b: Backend, halt: TradingHalt, opp: Opportunity, leg: Leg, s: EntryState, ghost depth: Option<bool>,
                        ghost before: History<Event>, ghost start: Book)
    returns (s': EntryState, next: Next, ghost h: Hedging, ghost c: Closing)
    requires KnownFilled(leg, s, start, b.View()) && b.log == DepthCall(before, s, leg, depth) && depth != Some(true)
    modifies b, halt
    ensures next == GoOn || next.Fail?
    ensures next == GoOn ==> HedgedFrom(before, h, s, s', leg, opp, start, b.log)
    ensures next.Fail? ==> s' == s && HandedToClose(next.error, s', opp, start, b.log, true)
                           && (next.error == HedgeFailed(leg) || next.error == HedgeAndCloseFailed(leg))
                           && FailedHedge(next.error, h, c, opp, s, before, b.log)
    ensures NoNewOrders(b.View(), old(b.View()))
    ensures halt.halted == (old(halt.halted) || (next.Fail? && next.error.CloseFailed()))
  {
    var acked := b.Cancel(s.orders.At(leg.Other()).id);
    var error;
    ghost var hedge;
    s', error, hedge, c := MarketHedgeOrClose(b, halt, opp, leg, s, s.orders.At(leg).size, start);
    h := Hedging(depth, acked, hedge);
    next := if error.Some? then Fail(error.value) else GoOn;
  }

  /**
   The in-loop hedge of the other leg: depth check, cancel, market retry, and the emergency close of
   the filled leg when the hedge cannot be had.
   */
  method HedgeInLoop(b: Backend, halt: TradingHalt, opp: Opportunity, leg: Leg, s: EntryState, ghost start: Book)
    returns (s': EntryState, next: Next, ghost h: Hedging, ghost c: Closing)
    requires KnownFilled(leg, s, start, b.View())
    modifies b, halt
    ensures next == GoOn || next.Fail?
    ensures next == GoOn ==> HedgedFrom(old(b.log), h, s, s', leg, opp, start, b.log)
    ensures next.Fail? ==> s' == s && HandedToClose(next.error, s', opp, start, b.log, true) && next.error.AfterClose()
                           && FailedHedge(next.error, h, c, opp, s, old(b.log), b.log)
    ensures next.Fail? ==> next.error.leg == leg
    // A depth abort leaves the other leg's order exactly as live as it was.
    ensures next.Fail? && next.error.OpenLeg().Some? ==>
              b.View().live == old(b.View()).live && b.View().cancelled == old(b.View()).cancelled
    ensures NoNewOrders(b.View(), old(b.View()))
    ensures halt.halted == (old(halt.halted) || (next.Fail? && next.error.CloseFailed()))
  {
    s', c := s, Closing(Start, Start, Start);
    var depth := b.DepthIsCritical(s.orders.At(leg.Other()).exchange, s.orders.At(leg).size);
    h := Hedging(depth, false, Start);
    if depth == Some(true) {
      var abort;
      abort, c := CloseOnDepth(b, halt, opp, leg, s, start);
      next := Fail(abort);
      return;
    }
    s', next, h, c := CancelAndHedge(b, halt, opp, leg, s, depth, old(b.log), start);
  }

  /** The log after the race check. */
  function RaceAsked(log: History<Event>, s: EntryState, l: Option<StatusInfo>, sh: Option<StatusInfo>): History<Event> {
    Asked(log, s.orders.long.id, s.orders.short.id, l, sh)
  }

  predicate BothSaid(l: Option<StatusInfo>, sh: Option<StatusInfo>) {
    l.Some? && sh.Some? && l.value.IsFullyFilled() && sh.value.IsFullyFilled()
  }

  /** The two reports of the race check, and what followed them: a balanced race, or a hedge. */
  datatype Fill = Fill(l: Option<StatusInfo>, sh: Option<StatusInfo>, accepted: Option<nat>, hedging: Hedging) {
    predicate Raced() { BothSaid(l, sh) }

    function Qty(): Pair<real>
      requires Raced()
    {
      Pair(l.value.filled, sh.value.filled)
    }
  }

  /** Both legs are filled: by the race that the check found, balanced, or by a hedge when it found none. */
  ghost predicate FilledAs(how: Fill, before: History<Event>, polled: EntryState, s': EntryState, leg: Leg, opp: Opportunity,
                           start: Book, log: History<Event>) {
    var asked := RaceAsked(before, polled, how.l, how.sh);
    if how.Raced() then
      && s' == RaceRecord(polled, leg, how.Qty(), how.accepted.Some?) && log == RaceCalls(asked, opp, how.Qty(), how.accepted)
      && (how.accepted.Some? ==> MustBalance(how.Qty()) && how.accepted.value >= BookFrom(EMPTY_BOOK, asked).next)
      && KnownFilled(leg, polled, start, BookFrom(EMPTY_BOOK, asked))
    else
      HedgedFrom(asked, how.hedging, polled, s', leg, opp, start, log)
  }

  lemma NoNewOrdersTransitive(a: Book, b: Book, c: Book)
    requires NoNewOrders(b, a) && NoNewOrders(c, b)
    ensures NoNewOrders(c, a)
  {
  }

  /**
   What follows a fill while the hedge lock is held: the race check over both legs, then either the
   balanced pair or the hedge of the other leg.
   */
  method ResolveFill(b: Backend, halt: TradingHalt, opp: Opportunity, leg: Leg, polled: EntryState, ghost start: Book)
    returns (s': EntryState, next: Next, ghost how: Fill, ghost c: Closing)
    requires KnownFilled(leg, polled, start, b.View())
    modifies b, halt
    ensures next.GoOn? || next.NextPoll? ==>
              s'.BothFilled() && FilledAs(how, old(b.log), polled, s', leg, opp, start, b.log)
    ensures !next.Break? && (next.NextPoll? <==> how.Raced())
    ensures next.Fail? ==> s' == polled && HandedToClose(next.error, s', opp, start, b.log, true) && next.error.AfterClose()
                           && FailedHedge(next.error, how.hedging, c, opp, polled,
                                          RaceAsked(old(b.log), polled, how.l, how.sh), b.log)
    ensures NoNewOrders(b.View(), old(b.View()))
    ensures halt.halted == (old(halt.halted) || (next.Fail? && next.error.CloseFailed()))
  {
    c := Closing(Start, Start, Start);
    var race;
    ghost var l, sh;
    race, l, sh := CheckBothLegs(b, polled.orders.long.id, polled.orders.short.id);
    if race.Some? && race.value.BothFilled? {
      var qty := Pair(race.value.longQty, race.value.shortQty);
      ghost var accepted;
      s', accepted := BalanceRace(b, opp, leg, qty, polled);
      how := Fill(l, sh, accepted, Hedging(None, false, Start));
      next := NextPoll;
    } else {
      ghost var h;
      s', next, h, c := HedgeInLoop(b, halt, opp, leg, polled, start);
      how := Fill(l, sh, None, h);
    }
  }

  /** A reported fill is resolved under the hedge lock, or not at all when the lock is taken. */
  method HandleFill(b: Backend, locks: HedgeLocks, halt: TradingHalt, opp: Opportunity, leg: Leg, polled: EntryState,
                    ghost start: Book)
    returns (s': EntryState, next: Next, ghost how: Fill, ghost c: Closing)
    requires locks.Valid() && KnownFilled(leg, polled, start, b.View())
    modifies b, locks, halt
    ensures locks.Valid() && locks.held == old(locks.held) && locks.guards == old(locks.guards)
    ensures !next.Break? && (next.NextPoll? ==> how.Raced()) && (next.GoOn? ==> !how.Raced())
    ensures next.Fail? ==> s' == polled && HandedToClose(next.error, s', opp, start, b.log, opp.symbol !in old(locks.held))
    ensures next.Fail? && next.error.LockBusy? ==> b.log == old(b.log)
    ensures next.Fail? && !next.error.LockBusy? ==>
              FailedHedge(next.error, how.hedging, c, opp, polled, RaceAsked(old(b.log), polled, how.l, how.sh), b.log)
              && !how.Raced()
    ensures !next.Fail? ==> s'.BothFilled() && FilledAs(how, old(b.log), polled, s', leg, opp, start, b.log)
    ensures NoNewOrders(b.View(), old(b.View()))
    ensures halt.halted == (old(halt.halted) || (next.Fail? && next.error.CloseFailed()))
  {
    s', next, how, c := polled, GoOn, Fill(None, None, None, Hedging(None, false, Start)), Closing(Start, Start, Start);
    var acquired := locks.TryAcquire(opp.symbol);
    if !acquired {
      next := Fail(LockBusy(leg));
      return;
    }
    s', next, how, c := ResolveFill(b, halt, opp, leg, polled, start);
    locks.Drop(opp.symbol);
  }

  /** A leg is marked filled exactly when a report calls its order fully filled, at the quantity of the report. */
  function Marked(s: EntryState, leg: Leg, report: Option<StatusInfo>): EntryState {
    if report.Some? && report.value.IsFullyFilled()
    then s.MarkFilled(leg, s.orders.At(leg).(status := OrderStatus.Filled, size := report.value.filled)) else s
  }

  // What an unfilled report leads to: a cancelled order without a partial fill ends the loop.
  function UnfilledNext(report: Option<StatusInfo>): Next {
    if report.Some? && !(0.0 < report.value.filled < report.value.total) && report.value.status == Cancelled then Break
    else GoOn
  }

  /**
   One status poll of an unfilled leg and all that follows from it. A leg found filled leaves this
   poll together with the other one, or the run fails with the leg in the emergency close. The
   other leg is never filled alone here, so the source's test of its flag always succeeds.
   */
  method PollLeg(b: Backend, locks: HedgeLocks, halt: TradingHalt, opp: Opportunity, leg: Leg, s: EntryState, ghost start: Book)
    returns (s': EntryState, next: Next, ghost report: Option<StatusInfo>, ghost how: Fill, ghost c: Closing)
    requires locks.Valid() && s.NoneFilled() && NeitherSaidFilled(s, start)
    requires b.View().Extends(start) && b.View().markets == start.markets
    modifies b, locks, halt
    ensures locks.Valid() && locks.held == old(locks.held) && locks.guards == old(locks.guards)
    ensures var polled, asked := Marked(s, leg, report), Then(old(b.log), Queried(s.orders.At(leg).id, report));
            if polled == s then
              s' == s && next == UnfilledNext(report) && b.log == asked
            else
              // With the lock taken nothing follows the report: the filled leg is neither hedged nor closed.
              && !next.Break? && (next.Fail? && next.error.LockBusy? ==> b.log == asked)
              && (next.Fail? ==>
                    s' == polled && HandedToClose(next.error, s', opp, start, b.log, opp.symbol !in old(locks.held)))
              && (next.Fail? && !next.error.LockBusy? ==>
                    FailedHedge(next.error, how.hedging, c, opp, polled, RaceAsked(asked, polled, how.l, how.sh), b.log)
                    && !how.Raced())
              && (!next.Fail? ==> s'.BothFilled() && FilledAs(how, asked, polled, s', leg, opp, start, b.log)
                                  && next == if how.Raced() then NextPoll else GoOn)
    ensures Marked(s, leg, report) != s <==>
              report.Some? && report.value.status == OrderStatus.Filled && report.value.filled >= report.value.total
    ensures next.Break? <==>
              report.Some? && report.value.status == Cancelled && !(0.0 < report.value.filled < report.value.total)
    ensures Marked(s, leg, report) != s ==> (s.orders.At(leg).id, report.value.filled) in b.View().saidFilled
    ensures Marked(s, leg, report) == s ==> b.View() == old(b.View()).(asked := old(b.View()).asked + 1)
    ensures s'.reprices == s.reprices && s'.metrics == s.metrics
    ensures NoNewOrders(b.View(), old(b.View()))
    ensures halt.halted == (old(halt.halted) || (next.Fail? && next.error.CloseFailed()))
  {
    s', next, how, c := s, GoOn, Fill(None, None, None, Hedging(None, false, Start)), Closing(Start, Start, Start);
    var order := s.orders.At(leg);
    var answer := b.Query(order.id);
    report := answer;
    if answer.None? {
      return;
    }
    if answer.value.IsFullyFilled() {
      s' := s.MarkFilled(leg, order.(status := OrderStatus.Filled, size := answer.value.filled));
      ghost var polled := s';
      assert KnownFilled(leg, polled, start, b.View());
      ghost var seen := b.View();
      assert NoNewOrders(seen, old(b.View()));
      s', next, how, c := HandleFill(b, locks, halt, opp, leg, s', start);
      NoNewOrdersTransitive(old(b.View()), seen, b.View());
    } else if !(0.0 < answer.value.filled < answer.value.total) && answer.value.status == Cancelled {
      next := Break;
    }
  }
}
