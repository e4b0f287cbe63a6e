/**
 The poll loop with price chasing and the final check, what they keep while nothing is filled, and how a
 run is over.
 */
module EntryRun {
  import opened Wrappers
  import opened Exchange
  import opened MarketRetry
  import opened EmergencyClose
  import opened Numbers
  import opened RaceGuard
  import opened PriceChaser
  import opened AtomicEntry
  import opened FinalHedge

  // ---- Price chasing and the poll loop ----

  /** What chasing keeps for each leg: the reprice limit and an unbroken chain of recorded prices. */
  ghost predicate ChasedWithin(s: EntryState, max: nat) {
    ChasedLeg(s, LongLeg, max) && ChasedLeg(s, ShortLeg, max)
  }

  ghost predicate ChasedLeg(s: EntryState, leg: Leg, max: nat) {
    s.metrics.At(leg).Chained() && s.metrics.At(leg).count == s.reprices.At(leg) <= max
  }

  /** The two orders an entry starts to poll, and what had happened when both rested. */
  datatype Rest = Rest(orders: Pair<Order>, view: Book) {
    function Others(): set<nat> { view.live - {orders.long.id, orders.short.id} }

    function Chain(leg: Leg, limits: History<Placement>): History<Placement> {
      Replacements(limits, view.next, leg.EntrySide())
    }

    /** The order a leg rests with once these limit orders have been placed. */
    function Current(leg: Leg, limits: History<Placement>): Order { CurrentOrder(orders.At(leg), Chain(leg, limits)) }
  }

  /** Every limit order the entry has placed since is one of at most `max` replacements of its leg's first order. */
  ghost predicate Disciplined(limits: History<Placement>, rest: Rest, max: nat) {
    && Older(limits, rest.view.next) == rest.view.limits
    && Replaces(rest.orders.long, rest.Chain(LongLeg, limits)) && rest.Chain(LongLeg, limits).Length() <= max
    && Replaces(rest.orders.short, rest.Chain(ShortLeg, limits)) && rest.Chain(ShortLeg, limits).Length() <= max
  }

  /** A leg rests with the last of its replacements, one for each counted reprice, priced where its chain ends. */
  ghost predicate ChasingLeg(s: EntryState, leg: Leg, view: Book, rest: Rest) {
    var order, chain := s.orders.At(leg), rest.Chain(leg, view.limits);
    && order.kind == Limit && order.side == leg.EntrySide() && order.id < view.next
    && s.metrics.At(leg).final == order.price
    && Replaces(rest.orders.At(leg), chain) && rest.Current(leg, view.limits) == order
    && chain.Length() == s.reprices.At(leg)
  }

  /** While nothing is filled both legs rest, no report since has called anything fully filled, and no market order went out. */
  ghost predicate Chasing(s: EntryState, view: Book, rest: Rest) {
    && s.NoneFilled() && NeitherSaidFilled(s, view) && view.saidFilled == rest.view.saidFilled
    && view.Extends(rest.view) && view.markets == rest.view.markets
    && Older(view.limits, rest.view.next) == rest.view.limits
    && ChasingLeg(s, LongLeg, view, rest) && ChasingLeg(s, ShortLeg, view, rest)
    && view.live <= rest.Others() + {s.orders.long.id, s.orders.short.id}
    && s.orders.long.id != s.orders.short.id && {s.orders.long.id, s.orders.short.id} <= view.live + view.cancelled
  }

  lemma ChasingIsDisciplined(s: EntryState, view: Book, rest: Rest, max: nat)
    requires Chasing(s, view, rest) && ChasedWithin(s, max)
    ensures Disciplined(view.limits, rest, max)
  {
  }

  /** Two resting orders start the chase. */
  lemma RestIsChasing(s: EntryState, rest: Rest, log: History<Event>)
    requires rest.view == BookFrom(EMPTY_BOOK, log) && s.orders == rest.orders && s.NoneFilled() && s.reprices == Pair(0, 0)
    requires rest.orders.long.kind == rest.orders.short.kind == Limit
    requires rest.orders.long.side == Side.Long && rest.orders.short.side == Side.Short
    requires rest.orders.long.id != rest.orders.short.id && {rest.orders.long.id, rest.orders.short.id} <= rest.view.live
    requires NeitherSaidFilled(s, rest.view)
    requires s.metrics.long.final == rest.orders.long.price && s.metrics.short.final == rest.orders.short.price
    ensures Chasing(s, rest.view, rest)
  {
    LimitsAreBelow(log);
    OlderIsAll(rest.view.limits, rest.view.next);
    NothingSince(rest.view.limits, rest.view.next, Side.Long);
    NothingSince(rest.view.limits, rest.view.next, Side.Short);
  }

  /** The state after a reprice: nothing new unless the cancel was acknowledged and the replacement accepted. */
  function Repriced(s: EntryState, leg: Leg, price: real, acked: bool, accepted: Option<nat>): EntryState {
    if !acked || accepted.None? then s
    else
      var order := s.orders.At(leg);
      s.(orders := s.orders.Set(leg, order.(id := accepted.value, price := price)),
         reprices := s.reprices.Set(leg, s.reprices.At(leg) + 1),
         metrics := s.metrics.Set(leg, s.metrics.At(leg).Record(Move(order.price, price))))
  }

  /**
   A leg below its limit is quoted; when the quote calls for it, and only then, its order is cancelled and
   placed again at that price.
   */
  ghost predicate Chased(s: EntryState, s': EntryState, cfg: Config, leg: Leg, best: Option<real>, before: History<Event>,
                         log: History<Event>) {
    var order := s.orders.At(leg);
    if s.reprices.At(leg) >= cfg.maxReprices then log == before && s' == s
    else
      var quoted := Then(before, Quoted(order.exchange, if order.side.Long? then Bid else Ask, best));
      if best.None? || !ShouldReprice(cfg.threshold, order.price, best.value) then log == quoted && s' == s
      else exists acked, accepted ::
             && log == RepriceCalls(quoted, order, best.value, acked, accepted)
             && s' == Repriced(s, leg, best.value, acked, accepted)
  }

  /** The chase of one leg inside the poll loop; `best` is the price it was told. */
  method ChaseLeg(b: Backend, cfg: Config, leg: Leg, s: EntryState, ghost rest: Rest)
    returns (s': EntryState, ghost best: Option<real>)
    requires Chasing(s, b.View(), rest) && ChasedWithin(s, cfg.maxReprices)
    modifies b
    ensures Chasing(s', b.View(), rest) && ChasedWithin(s', cfg.maxReprices)
    ensures b.View().Extends(old(b.View())) && b.View().asked == old(b.View()).asked
    ensures s'.orders.At(leg.Other()) == s.orders.At(leg.Other())
    ensures Chased(s, s', cfg, leg, best, old(b.log), b.log)
  {
    s', best := s, None;
    if s.reprices.At(leg) >= cfg.maxReprices {
      return;
    }
    var order := s.orders.At(leg);
    var quoted := b.BestPrice(order.exchange, TouchOf(order.side));
    best := quoted;
    if quoted.None? || !ShouldReprice(cfg.threshold, order.price, quoted.value) {
      return;
    }
    var moved, metrics, acked, accepted := RepriceOrder(b, order, quoted.value, s.metrics.At(leg));
    if moved.Some? {
      s' := s.(orders := s.orders.Set(leg, moved.value),
               reprices := s.reprices.Set(leg, s.reprices.At(leg) + 1),
               metrics := s.metrics.Set(leg, metrics));
    }
    assert s' == Repriced(s, leg, quoted.value, acked, accepted);
    RepricedIsChasing(s, s', leg, moved, old(b.View()), b.View(), rest);
  }

  lemma RepricedIsChasing(s: EntryState, s': EntryState, leg: Leg, moved: Option<Order>, before: Book, after: Book, rest: Rest)
    requires Chasing(s, before, rest) && MovesTo(before, after, s.orders.At(leg).id, moved)
    requires match moved
             case None => s' == s
             case Some(o) =>
               && o == s.orders.At(leg).(id := o.id, price := o.price)
               && s'.orders == s.orders.Set(leg, o) && s'.filled == s.filled
               && s'.reprices == s.reprices.Set(leg, s.reprices.At(leg) + 1)
               && s'.metrics.At(leg).final == o.price && s'.metrics.At(leg.Other()) == s.metrics.At(leg.Other())
    ensures Chasing(s', after, rest)
  {
  }

  method CancelBoth(b: Backend, s: EntryState)
    modifies b
    ensures BothCancelled(s, old(b.log), b.log)
    ensures b.View().saidFilled == old(b.View()).saidFilled && b.View().limits == old(b.View()).limits
    ensures b.View().Extends(old(b.View())) && b.View().markets == old(b.View()).markets
  {
    var _ := b.Cancel(s.orders.long.id);
    var _ := b.Cancel(s.orders.short.id);
  }

  /** The last two calls of the run cancel the current order of each leg. */
  ghost predicate BothCancelled(s: EntryState, before: History<Event>, log: History<Event>) {
    && log.Then? && log.before.Then? && log.before.before == before
    && log.last.CancelSent? && log.last.id == s.orders.short.id
    && log.before.last.CancelSent? && log.before.last.id == s.orders.long.id
  }

  /** An order as it was, but for its status and its filled size. */
  predicate SameOrder(o: Order, placed: Order) { o == placed.(status := o.status, size := o.size) }

  /** The run's orders are still the ones the legs rested with at the end of their chase. */
  ghost predicate OwnOrders(s: EntryState, rest: Rest, chased: History<Placement>) {
    && SameOrder(s.orders.long, rest.Current(LongLeg, chased))
    && SameOrder(s.orders.short, rest.Current(ShortLeg, chased))
  }

  /**
   How a run that fails has ended: nothing was reported fully filled, no market order was sent and both
   current orders were cancelled last, or the one known-filled leg was handed over.
   */
  ghost predicate Failed(e: EntryError, s: EntryState, opp: Opportunity, rest: Rest, chased: History<Placement>,
                         log: History<Event>, lockWasFree: bool) {
    && OwnOrders(s, rest, chased)
    && if e.NothingFilled() then
         var view := BookFrom(EMPTY_BOOK, log);
         && s.NoneFilled() && NeitherSaidFilled(s, view) && view.saidFilled == rest.view.saidFilled
         && view.markets == rest.view.markets && exists before :: BothCancelled(s, before, log)
       else
         HandedToClose(e, s, opp, rest.view, log, lockWasFree)
  }

  /** The spread between the resting prices has moved from the opportunity's by more than the limit. */
  predicate SpreadMoved(opp: Opportunity, cfg: Config, s: EntryState)
    requires opp.prices.long != 0.0
  {
    var initial := (opp.prices.short - opp.prices.long) / opp.prices.long * 10000.0;
    if s.orders.long.price == 0.0 then s.orders.short.price != 0.0
    else
      var current := (s.orders.short.price - s.orders.long.price) / s.orders.long.price * 10000.0;
      Abs(initial - current) > cfg.collapseBps
  }

  /**
   With positive prices: the ratio of the two prices has moved by more than the limit allows, basis points
   being ten-thousandths.
   */
  lemma SpreadMovedIff(opp: Opportunity, cfg: Config, s: EntryState)
    requires opp.prices.long > 0.0 && s.orders.long.price > 0.0
    ensures SpreadMoved(opp, cfg, s) <==>
            10000.0 * Abs(opp.prices.short * s.orders.long.price - s.orders.short.price * opp.prices.long) >
            cfg.collapseBps * (opp.prices.long * s.orders.long.price)
  {
    RatiosDiffer(opp.prices.short, opp.prices.long, s.orders.short.price, s.orders.long.price);
    var gap := opp.prices.short / opp.prices.long - s.orders.short.price / s.orders.long.price;
    var product := opp.prices.long * s.orders.long.price;
    Magnify(gap, product, cfg.collapseBps);
    SpreadIsRatio(opp.prices.short, opp.prices.long);
    SpreadIsRatio(s.orders.short.price, s.orders.long.price);
  }

  lemma SpreadIsRatio(short: real, long: real)
    requires long > 0.0
    ensures (short - long) / long == short / long - 1.0
  {
    var ratio, gap := short / long, (short - long) / long;
    assert ratio * long == short && gap * long == short - long;
    NoFactorLeft(ratio - 1.0 - gap, long);
  }

  lemma NoFactorLeft(x: real, y: real)
    requires y > 0.0 && x * y == 0.0
    ensures x == 0.0
  {
  }

  lemma RatiosDiffer(a: real, b: real, c: real, d: real)
    requires b > 0.0 && d > 0.0
    ensures (a / b - c / d) * (b * d) == a * d - c * b && b * d > 0.0
  {
    assert a / b * b == a && c / d * d == c;
    assert a / b * (b * d) == a / b * b * d;
    assert c / d * (b * d) == c / d * d * b;
  }

  lemma Magnify(gap: real, product: real, limit: real)
    requires product > 0.0
    ensures Abs(gap * 10000.0) > limit <==> 10000.0 * Abs(gap * product) > limit * product
  {
    assert Abs(gap * product) == Abs(gap) * product;
    var over := Abs(gap) * 10000.0 - limit;
    assert over * product == 10000.0 * Abs(gap * product) - limit * product;
    assert over > 0.0 ==> over * product > 0.0;
    assert over <= 0.0 ==> over * product <= 0.0;
  }

  /** Why a run gives up at the end of a round, if it does. */
  function Reason(opp: Opportunity, cfg: Config, s: EntryState): Option<EntryError>
    requires opp.prices.long != 0.0
  {
    if SpreadMoved(opp, cfg, s) then Some(SpreadCollapsed)
    else if s.reprices.long >= cfg.maxReprices then Some(EntryError.MaxReprices(LongLeg))
    else if s.reprices.short >= cfg.maxReprices then Some(EntryError.MaxReprices(ShortLeg))
    else None
  }

  /** A collapsed spread or a leg out of reprices cancels both orders and ends the run. */
  method GiveUp(b: Backend, opp: Opportunity, cfg: Config, s: EntryState, ghost rest: Rest) returns (error: Option<EntryError>)
    requires opp.prices.long != 0.0 && Chasing(s, b.View(), rest)
    modifies b
    ensures error == Reason(opp, cfg, s)
    ensures error.None? ==> b.log == old(b.log)
    ensures error.Some? ==> Failed(error.value, s, opp, rest, b.View().limits, b.log, true) && error.value.NothingFilled()
    ensures b.View().limits == old(b.View()).limits && b.View().Extends(old(b.View()))
  {
    error := None;
    if SpreadMoved(opp, cfg, s) {
      error := Some(SpreadCollapsed);
    } else if s.reprices.long >= cfg.maxReprices {
      error := Some(EntryError.MaxReprices(LongLeg));
    } else if s.reprices.short >= cfg.maxReprices {
      error := Some(EntryError.MaxReprices(ShortLeg));
    }
    if error.Some? {
      CancelBoth(b, s);
    }
  }

  /** The clock ran out after `budget` rounds of two polls each, or the last poll found its order cancelled. */
  ghost predicate PolledOut(log: History<Event>, start: Book, budget: nat) {
    || BookFrom(EMPTY_BOOK, log).asked == start.asked + 2 * budget
    || (log.Then? && log.last.Queried? && UnfilledNext(log.last.answer) == Break)
  }

  /**
   The poll loop. `budget` is the number of polls the clock allows before the timeout. At its head
   the two flags agree, so it is left with both legs filled, with neither filled, or by an error.
   */
  method PollLoop(b: Backend, locks: HedgeLocks, halt: TradingHalt, opp: Opportunity, cfg: Config, budget: nat,
                  s0: EntryState, ghost rest: Rest)
    returns (s: EntryState, error: Option<EntryError>)
    requires locks.Valid() && opp.prices.long != 0.0
    requires Chasing(s0, b.View(), rest) && ChasedWithin(s0, cfg.maxReprices)
    modifies b, locks, halt
    ensures locks.Valid() && locks.held == old(locks.held) && locks.guards == old(locks.guards)
    ensures if error.None? && !s.BothFilled() then Chasing(s, b.View(), rest) && PolledOut(b.log, old(b.View()), budget)
            else Finished(opp, s, error, rest, b.View().limits, b.log, opp.symbol !in old(locks.held))
    ensures error.Some? ==> !error.value.ShouldNotHappen? && !error.value.NeitherFilled?
    ensures error.Some? && error.value.NothingFilled() ==> error == Reason(opp, cfg, s)
    ensures halt.halted == (old(halt.halted) || (error.Some? && error.value.CloseFailed()))
    ensures ChasedWithin(s, cfg.maxReprices) && Disciplined(b.View().limits, rest, cfg.maxReprices)
    ensures b.View().Extends(old(b.View()))
  {
    ChasingIsDisciplined(s0, b.View(), rest, cfg.maxReprices);
    s := s0;
    error := None;
    var polls := 0;
    while polls < budget && !s.BothFilled()
      invariant locks.Valid() && locks.held == old(locks.held) && locks.guards == old(locks.guards)
      invariant error.None? && polls <= budget
      invariant if s.BothFilled() then Settled(opp, s, rest, b.View().limits, b.log)
                else Chasing(s, b.View(), rest) && b.View().asked == old(b.View()).asked + 2 * polls
      invariant ChasedWithin(s, cfg.maxReprices) && Disciplined(b.View().limits, rest, cfg.maxReprices)
      invariant halt.halted == old(halt.halted)
      invariant b.View().Extends(old(b.View()))
      decreases budget - polls
    {
      polls := polls + 1;
      var next;
      s, next := PollRound(b, locks, halt, opp, cfg, s, rest);
      match next {
        case Fail(e) => return s, Some(e);
        case Break => return;
        case NextPoll =>
        case GoOn =>
      }
    }
  }

  /**
   How a round ends: the run fails; its last poll found its order cancelled; both legs are settled; or, with as
   many polls as `asked` says, the chase goes on because there is no reason to give up.
   */
  ghost predicate RoundEnds(next: Next, s: EntryState, opp: Opportunity, cfg: Config, rest: Rest, log: History<Event>,
                            lockWasFree: bool, asked: nat)
    requires opp.prices.long != 0.0
  {
    var view := BookFrom(EMPTY_BOOK, log);
    match next
    case Fail(e) =>
      && Failed(e, s, opp, rest, view.limits, log, lockWasFree)
      && !e.ShouldNotHappen? && !e.NeitherFilled? && (e.NothingFilled() ==> Reason(opp, cfg, s) == Some(e))
    case Break =>
      Chasing(s, view, rest) && log.Then? && log.last.Queried? && UnfilledNext(log.last.answer) == Break
    case NextPoll => Settled(opp, s, rest, view.limits, log)
    case GoOn =>
      if s.BothFilled() then Settled(opp, s, rest, view.limits, log)
      else Chasing(s, view, rest) && Reason(opp, cfg, s).None? && view.asked == asked
  }

  /** One round: the long leg, then the short one unless the first poll settled both, then the reasons to give up. */
  method PollRound(b: Backend, locks: HedgeLocks, halt: TradingHalt, opp: Opportunity, cfg: Config,
                   s: EntryState, ghost rest: Rest)
    returns (s': EntryState, next: Next)
    requires locks.Valid() && opp.prices.long != 0.0 && Chasing(s, b.View(), rest) && ChasedWithin(s, cfg.maxReprices)
    modifies b, locks, halt
    ensures locks.Valid() && locks.held == old(locks.held) && locks.guards == old(locks.guards)
    ensures RoundEnds(next, s', opp, cfg, rest, b.log, opp.symbol !in old(locks.held), old(b.View()).asked + 2)
    ensures ChasedWithin(s', cfg.maxReprices) && Disciplined(b.View().limits, rest, cfg.maxReprices)
    ensures halt.halted == (old(halt.halted) || (next.Fail? && next.error.CloseFailed()))
    ensures b.View().Extends(old(b.View()))
  {
    ghost var report, best;
    s', next, report, best := PollAndChase(b, locks, halt, opp, cfg, LongLeg, s, rest);
    if next.GoOn? && !s'.BothFilled() {
      s', next := FinishRound(b, locks, halt, opp, cfg, s', rest);
    }
  }

  // The round's second half: the short leg, and the reasons to give up.
  method FinishRound(b: Backend, locks: HedgeLocks, halt: TradingHalt, opp: Opportunity, cfg: Config,
                     s: EntryState, ghost rest: Rest)
    returns (s': EntryState, next: Next)
    requires locks.Valid() && opp.prices.long != 0.0 && Chasing(s, b.View(), rest) && ChasedWithin(s, cfg.maxReprices)
    modifies b, locks, halt
    ensures locks.Valid() && locks.held == old(locks.held) && locks.guards == old(locks.guards)
    ensures RoundEnds(next, s', opp, cfg, rest, b.log, opp.symbol !in old(locks.held), old(b.View()).asked + 1)
    ensures ChasedWithin(s', cfg.maxReprices) && Disciplined(b.View().limits, rest, cfg.maxReprices)
    ensures halt.halted == (old(halt.halted) || (next.Fail? && next.error.CloseFailed()))
    ensures b.View().Extends(old(b.View()))
  {
    ghost var report, best;
    s', next, report, best := PollAndChase(b, locks, halt, opp, cfg, ShortLeg, s, rest);
    if next.GoOn? && !s'.BothFilled() {
      var error := GiveUp(b, opp, cfg, s', rest);
      if error.Some? {
        next := Fail(error.value);
      }
    }
  }

  /** What stands behind the second leg of a pair that is marked filled; `cancelled` is the order a hedge stood in for. */
  datatype Cover =
    | BothReported
    | InLoop(before: History<Event>, polled: EntryState, how: Fill)
    | FinalCover(base: History<Event>, run: FinalHedgeRun, cancelled: Order)

  /**
   One leg was reported fully filled since the start. The other one was reported fully filled too, at the
   size recorded for it, and no market order was sent; or a race was found and balanced, or its order was
   cancelled and hedged, by the run's last calls from `before` on; or these are a final hedge that accounts
   for the first leg's size.
   */
  ghost predicate Covered(opp: Opportunity, s: EntryState, leg: Leg, cover: Cover, start: Book, log: History<Event>) {
    var view := BookFrom(EMPTY_BOOK, log);
    var own, other := s.orders.At(leg), s.orders.At(leg.Other());
    && s.BothFilled() && view.SaidFilled(own.id) && view.Extends(start)
    && match cover
       case BothReported => FillKnown(own, start, view) && FillKnown(other, start, view) && view.markets == start.markets
       case InLoop(before, polled, how) =>
         && FilledAs(how, before, polled, s, leg, opp, start, log) && view.Done(polled.orders.At(leg.Other()).id)
         && polled.orders.At(leg).id == own.id
       case FinalCover(base, run, cancelled) => CompletedFrom(base, run, cancelled, s, leg, opp, start, log)
  }

  /** The orders a cover speaks of are those the legs rested with at the end of their chase, and nothing was placed since. */
  ghost predicate FromChase(s: EntryState, leg: Leg, cover: Cover, rest: Rest, chased: History<Placement>,
                            log: History<Event>) {
    var other := rest.Current(leg.Other(), chased);
    match cover
    case BothReported => OwnOrders(s, rest, chased) && BookFrom(EMPTY_BOOK, log).limits == chased
    case InLoop(before, polled, how) => OwnOrders(polled, rest, chased) && BookFrom(EMPTY_BOOK, before).limits == chased
    case FinalCover(base, run, cancelled) =>
      && SameOrder(s.orders.At(leg), rest.Current(leg, chased)) && SameOrder(cancelled, other)
      && BookFrom(EMPTY_BOOK, base).limits == chased
  }

  /** Both legs are filled, and both of them really stand behind it. */
  ghost predicate Settled(opp: Opportunity, s: EntryState, rest: Rest, chased: History<Placement>, log: History<Event>) {
    && s.BothFilled()
    && exists leg: Leg, cover :: Covered(opp, s, leg, cover, rest.view, log) && FromChase(s, leg, cover, rest, chased, log)
  }

  /** How a run is over: settled, or failed with its error. */
  ghost predicate Finished(opp: Opportunity, s: EntryState, error: Option<EntryError>, rest: Rest, chased: History<Placement>,
                           log: History<Event>, lockWasFree: bool) {
    if error.None? then Settled(opp, s, rest, chased, log) else Failed(error.value, s, opp, rest, chased, log, lockWasFree)
  }

  /** The current order of each leg but the open one was reported fully filled or had its cancel issued. */
  ghost predicate Ended(rest: Rest, chased: History<Placement>, open: Option<Leg>, view: Book) {
    && (open != Some(LongLeg) ==> view.Done(rest.Current(LongLeg, chased).id))
    && (open != Some(ShortLeg) ==> view.Done(rest.Current(ShortLeg, chased).id))
  }

  /**
   A run that is over leaves no limit order of its chase unattended, except the other leg's current one when
   the depth was critical or the lock was taken.
   */
  lemma FinishedIsEnded(opp: Opportunity, s: EntryState, error: Option<EntryError>, rest: Rest, chased: History<Placement>,
                        log: History<Event>, lockWasFree: bool)
    requires Finished(opp, s, error, rest, chased, log, lockWasFree)
    requires error.Some? ==> !error.value.ShouldNotHappen?
    ensures Ended(rest, chased, if error.Some? then error.value.OpenLeg() else None, BookFrom(EMPTY_BOOK, log))
  {
    if error.None? {
      var leg: Leg, cover :| Covered(opp, s, leg, cover, rest.view, log) && FromChase(s, leg, cover, rest, chased, log);
      SettledIsDone(opp, s, leg, cover, rest, chased, log);
    } else if !error.value.NothingFilled() {
      HandedIsDone(error.value, s, opp, rest.view, log, lockWasFree);
    }
  }

  lemma SettledIsDone(opp: Opportunity, s: EntryState, leg: Leg, cover: Cover, rest: Rest, chased: History<Placement>,
                      log: History<Event>)
    requires Covered(opp, s, leg, cover, rest.view, log) && FromChase(s, leg, cover, rest, chased, log)
    ensures Ended(rest, chased, None, BookFrom(EMPTY_BOOK, log))
  {
    var view := BookFrom(EMPTY_BOOK, log);
    assert view.Done(rest.Current(leg, chased).id) && view.Done(rest.Current(leg.Other(), chased).id);
  }

  /** The filled leg's report is still on record after its close. */
  lemma HandedIsDone(e: EntryError, s: EntryState, opp: Opportunity, start: Book, log: History<Event>, lockWasFree: bool)
    requires HandedToClose(e, s, opp, start, log, lockWasFree)
    ensures var view := BookFrom(EMPTY_BOOK, log);
            && view.SaidFilled(s.orders.At(e.leg).id)
            && (e.OpenLeg().None? ==> s.orders.At(e.leg.Other()).id in view.cancelled)
  {
    if !e.LockBusy? {
      var base, c :| ClosedBy(e, base, c, s, opp, start, log);
      ClosedIsKnown(e, base, c, s, opp, start, log);
    } else {
      var own := s.orders.At(e.leg);
      assert (own.id, own.size) in BookFrom(EMPTY_BOOK, log).saidFilled;
    }
  }

  lemma ClosedIsKnown(e: EntryError, base: History<Event>, c: Closing, s: EntryState, opp: Opportunity, start: Book,
                      log: History<Event>)
    requires e.AfterClose() && ClosedBy(e, base, c, s, opp, start, log)
    ensures BookFrom(EMPTY_BOOK, log).SaidFilled(s.orders.At(e.leg).id)
    ensures BookFrom(EMPTY_BOOK, log).SameResting(BookFrom(EMPTY_BOOK, base))
  {
    var own := s.orders.At(e.leg);
    CloseKeepsBook(base, c, CloseOrder(own));
    assert (own.id, own.size) in BookFrom(EMPTY_BOOK, base).saidFilled;
  }

  /** What the limit orders of one leg have traded in all. */
  function LegTraded(leg: Leg, rest: Rest, chased: History<Placement>, fills: nat -> real): real {
    fills(rest.orders.At(leg).id) + TotalFill(ChainIds(rest.Chain(leg, chased)), fills)
  }

  // The status poll of one leg: what a full-fill report leads to is a settled or a failed run.
  method PollOnce(b: Backend, locks: HedgeLocks, halt: TradingHalt, opp: Opportunity, leg: Leg, s: EntryState, ghost rest: Rest)
    returns (s': EntryState, next: Next, ghost report: Option<StatusInfo>)
    requires locks.Valid() && Chasing(s, b.View(), rest)
    modifies b, locks, halt
    ensures locks.Valid() && locks.held == old(locks.held) && locks.guards == old(locks.guards)
    ensures if Marked(s, leg, report) == s then
              && s' == s && next == UnfilledNext(report) && b.log == Then(old(b.log), Queried(s.orders.At(leg).id, report))
              && b.View() == old(b.View()).(asked := old(b.View()).asked + 1)
            else
              && !next.Break?
              && (if next.Fail?
                  then && Failed(next.error, s', opp, rest, b.View().limits, b.log, opp.symbol !in old(locks.held))
                       && !next.error.NothingFilled() && !next.error.ShouldNotHappen?
                  else Settled(opp, s', rest, b.View().limits, b.log))
    ensures s'.reprices == s.reprices && s'.metrics == s.metrics && b.View().limits == old(b.View()).limits
    ensures halt.halted == (old(halt.halted) || (next.Fail? && next.error.CloseFailed()))
    ensures b.View().Extends(old(b.View()))
  {
    ghost var before := b.log;
    ghost var how, c;
    s', next, report, how, c := PollLeg(b, locks, halt, opp, leg, s, rest.view);
    MarkedIsOwn(s, leg, report, rest, b.View().limits);
    if s'.BothFilled() && !next.Fail? {
      FilledIsSettled(opp, how, s, report, s', leg, rest, Then(before, Queried(s.orders.At(leg).id, report)), b.log);
    }
  }

  /** The status poll of one leg followed by its chase; a filled leg is not chased. */
  method PollAndChase(b: Backend, locks: HedgeLocks, halt: TradingHalt, opp: Opportunity, cfg: Config, leg: Leg,
                      s: EntryState, ghost rest: Rest)
    returns (s': EntryState, next: Next, ghost report: Option<StatusInfo>, ghost best: Option<real>)
    requires locks.Valid() && Chasing(s, b.View(), rest) && ChasedWithin(s, cfg.maxReprices)
    modifies b, locks, halt
    ensures locks.Valid() && locks.held == old(locks.held) && locks.guards == old(locks.guards)
    ensures var polled, asked := Marked(s, leg, report), Then(old(b.log), Queried(s.orders.At(leg).id, report));
            if polled == s then
              && next == UnfilledNext(report) && Chasing(s', b.View(), rest) && b.View().asked == old(b.View()).asked + 1
              && (if next.GoOn? then Chased(s, s', cfg, leg, best, asked, b.log) else s' == s && b.log == asked)
            else
              && !next.Break?
              && (if next.Fail?
                  then && Failed(next.error, s', opp, rest, b.View().limits, b.log, opp.symbol !in old(locks.held))
                       && !next.error.NothingFilled() && !next.error.ShouldNotHappen?
                  else Settled(opp, s', rest, b.View().limits, b.log))
    ensures ChasedWithin(s', cfg.maxReprices) && Disciplined(b.View().limits, rest, cfg.maxReprices)
    ensures halt.halted == (old(halt.halted) || (next.Fail? && next.error.CloseFailed()))
    ensures b.View().Extends(old(b.View()))
  {
    ChasingIsDisciplined(s, b.View(), rest, cfg.maxReprices);
    best := None;
    s', next, report := PollOnce(b, locks, halt, opp, leg, s, rest);
    if !s'.BothFilled() && next.GoOn? {
      s', best := ChaseLeg(b, cfg, leg, s', rest);
      ChasingIsDisciplined(s', b.View(), rest, cfg.maxReprices);
    }
  }

  lemma MarkedIsOwn(s: EntryState, leg: Leg, report: Option<StatusInfo>, rest: Rest, chased: History<Placement>)
    ensures OwnOrders(s, rest, chased) ==> OwnOrders(Marked(s, leg, report), rest, chased)
    ensures s.NoneFilled() ==> (Marked(s, leg, report) == s <==> Marked(s, leg, report).NoneFilled())
  {
  }

  lemma FilledIsSettled(opp: Opportunity, how: Fill, s: EntryState, report: Option<StatusInfo>, s': EntryState, leg: Leg,
                        rest: Rest, before: History<Event>, log: History<Event>)
    requires var polled := Marked(s, leg, report);
             && polled != s && s'.BothFilled() && FilledAs(how, before, polled, s', leg, opp, rest.view, log)
             && (polled.orders.At(leg).id, polled.orders.At(leg).size) in BookFrom(EMPTY_BOOK, log).saidFilled
    requires OwnOrders(s, rest, BookFrom(EMPTY_BOOK, log).limits) && BookFrom(EMPTY_BOOK, log).Extends(rest.view)
    requires BookFrom(EMPTY_BOOK, before).limits == BookFrom(EMPTY_BOOK, log).limits
    ensures Settled(opp, s', rest, BookFrom(EMPTY_BOOK, log).limits, log)
  {
    var polled, chased := Marked(s, leg, report), BookFrom(EMPTY_BOOK, log).limits;
    FilledIsCovered(opp, how, before, polled, s', leg, rest.view, log);
    var cover := InLoop(before, polled, how);
    assert Covered(opp, s', leg, cover, rest.view, log) && FromChase(s', leg, cover, rest, chased, log);
  }

  lemma FilledIsCovered(opp: Opportunity, how: Fill, before: History<Event>, polled: EntryState, s: EntryState, leg: Leg,
                        start: Book, log: History<Event>)
    requires s.BothFilled() && FilledAs(how, before, polled, s, leg, opp, start, log)
    requires BookFrom(EMPTY_BOOK, log).Extends(start)
    requires (polled.orders.At(leg).id, polled.orders.At(leg).size) in BookFrom(EMPTY_BOOK, log).saidFilled
    ensures Covered(opp, s, leg, InLoop(before, polled, how), start, log)
  {
    var other := polled.orders.At(leg.Other());
    if how.Raced() {
      RaceIsSaid(how, before, polled, leg, opp, log);
    } else {
      var base := CancelCalls(RaceAsked(before, polled, how.l, how.sh), polled, leg, how.hedging.depth, how.hedging.acked);
      assert other.id in BookFrom(EMPTY_BOOK, base).cancelled;
      TraceRests(base, how.hedging.hedge, MarketTemplate(opp, leg.Other(), leg.Other().EntrySide(), s.orders.At(leg).size));
    }
  }

  lemma RaceIsSaid(how: Fill, before: History<Event>, polled: EntryState, leg: Leg, opp: Opportunity, log: History<Event>)
    requires how.Raced() && log == RaceCalls(RaceAsked(before, polled, how.l, how.sh), opp, how.Qty(), how.accepted)
    ensures BookFrom(EMPTY_BOOK, log).SaidFilled(polled.orders.At(leg.Other()).id)
  {
    var asked := RaceAsked(before, polled, how.l, how.sh);
    var long, short := (polled.orders.long.id, how.Qty().long), (polled.orders.short.id, how.Qty().short);
    assert BookFrom(EMPTY_BOOK, asked) == BookFrom(EMPTY_BOOK, asked.before).Apply(asked.last);
    assert long in BookFrom(EMPTY_BOOK, asked.before).saidFilled;
    assert {long, short} <= BookFrom(EMPTY_BOOK, asked).saidFilled;
    assert {long, short} <= BookFrom(EMPTY_BOOK, log).saidFilled;
  }

  // ---- After the loop ----

  /** A leg is marked filled exactly when a report says so, at the quantity of the report. */
  ghost predicate Checked(leg: Leg, s: EntryState, s': EntryState, view: Book) {
    var before, after := s.orders.At(leg), s'.orders.At(leg);
    if s'.filled.At(leg) then
      after == before.(status := OrderStatus.Filled, size := after.size) && (after.id, after.size) in view.saidFilled
    else
      after == before && !view.SaidFilled(after.id)
  }

  /** The final verification check of both orders, and the cancel of both when neither has filled. */
  method FinalCheck(b: Backend, s: EntryState, opp: Opportunity, ghost rest: Rest)
    returns (s': EntryState, error: Option<EntryError>, ghost l: Option<StatusInfo>, ghost sh: Option<StatusInfo>)
    requires Chasing(s, b.View(), rest)
    modifies b
    ensures s' == Marked(Marked(s, LongLeg, l), ShortLeg, sh)
    ensures error == if s'.NoneFilled() then Some(EntryError.NeitherFilled) else None
    ensures if error.None? then b.log == RaceAsked(old(b.log), s, l, sh)
            else BothCancelled(s', RaceAsked(old(b.log), s, l, sh), b.log)
                 && Failed(error.value, s', opp, rest, b.View().limits, b.log, true)
    ensures b.View().limits == old(b.View()).limits && b.View().markets == old(b.View()).markets
    ensures b.View().next == old(b.View()).next
    ensures Checked(LongLeg, s, s', b.View()) && Checked(ShortLeg, s, s', b.View())
    ensures s'.reprices == s.reprices && s'.metrics == s.metrics
    ensures b.View().Extends(old(b.View()))
  {
    s', error := s, None;
    var long := b.Query(s.orders.long.id);
    if long.Some? && long.value.IsFullyFilled() {
      s' := s'.MarkFilled(LongLeg, s.orders.long.(status := OrderStatus.Filled, size := long.value.filled));
    }
    var short := b.Query(s.orders.short.id);
    if short.Some? && short.value.IsFullyFilled() {
      s' := s'.MarkFilled(ShortLeg, s.orders.short.(status := OrderStatus.Filled, size := short.value.filled));
    }
    l, sh := long, short;
    if s'.NoneFilled() {
      CancelBoth(b, s');
      error := Some(EntryError.NeitherFilled);
    }
  }
}
