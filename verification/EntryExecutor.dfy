/**
 The entry from its checks to its exit orders, and the classification of every run once both limit
 orders rest.
 */
module EntryExecutor {
  import opened Wrappers
  import opened Exchange
  import opened MarketRetry
  import opened EmergencyClose
  import opened Numbers
  import opened RaceGuard
  import opened PriceChaser
  import opened AtomicEntry
  import opened FinalHedge
  import opened EntryRun
  import Sizing

  datatype Trade = Trade(orders: Pair<Order>, exits: Pair<Option<Order>>)

  // 90% of the spread is the exit target.
  function ExitTemplate(opp: Opportunity, leg: Leg, size: real): Order {
    var target := (opp.prices.short - opp.prices.long) * 0.9;
    var price := if leg.LongLeg? then opp.prices.long + target else opp.prices.short - target;
    Order(0, opp.exchanges.At(leg), leg.EntrySide().Opposite(), Limit, price, size, Pending)
  }

  /** Both limit orders are accepted, live and not yet reported on. */
  ghost predicate BothRest(long: Order, short: Order, view: Book) {
    && long.kind == short.kind == Limit && long.side == Side.Long && short.side == Side.Short && long.id != short.id
    && {long.id, short.id} <= view.live && !view.SaidFilled(long.id) && !view.SaidFilled(short.id)
  }

  // An order that was sent, once it is accepted.
  function AcceptedAs(sent: Order, accepted: Option<nat>): Option<Order> {
    if accepted.Some? then Some(sent.(id := accepted.value)) else None
  }

  /** Each exit order is submitted once, at the size recorded for its leg and on the opposite side. */
  ghost predicate ExitsPlaced(opp: Opportunity, t: Trade, log: History<Event>) {
    && log.Then? && log.before.Then? && log.last.Submitted? && log.before.last.Submitted?
    && var next := BookFrom(EMPTY_BOOK, log.before.before).next;
       var long, short := log.before.last, log.last;
       && long.order == ExitTemplate(opp, LongLeg, t.orders.long.size)
       && short.order == ExitTemplate(opp, ShortLeg, t.orders.short.size)
       && t.exits == Pair(AcceptedAs(long.order, long.accepted), AcceptedAs(short.order, short.accepted))
       && (long.accepted.Some? ==> next <= long.accepted.value)
       && (short.accepted.Some? ==> next <= short.accepted.value && short.accepted != long.accepted)
  }

  // The hedge after the final check, if one was made: of which leg's other one, for how much, and how.
  datatype FinalMade = FinalMade(leg: Leg, quantity: real, run: FinalHedgeRun)

  // The reports of the final check.
  datatype Answers = Answers(long: Option<StatusInfo>, short: Option<StatusInfo>)

  predicate SaysFilled(report: Option<StatusInfo>) { report.Some? && report.value.IsFullyFilled() }

  /** A run from two resting orders: its start, its calls up to the end of its poll loop, its final check and final hedge. */
  datatype RunRecord = RunRecord(rest: Rest, loop: History<Event>, check: Option<Answers>, made: Option<FinalMade>) {
    function Chased(): History<Placement> { BookFrom(EMPTY_BOOK, loop).limits }

    // The log after the final check's two queries.
    function CheckCalls(): History<Event>
      requires check.Some?
    {
      Asked(loop, rest.Current(LongLeg, Chased()).id, rest.Current(ShortLeg, Chased()).id, check.value.long, check.value.short)
    }
  }

  /** What the final hedge added to the limit orders of the chase; it accounts for its quantity in any case. */
  ghost predicate AfterChase(before: Book, view: Book, opp: Opportunity, made: Option<FinalMade>) {
    match made
    case None => view.limits == before.limits
    case Some(m) =>
      m.run.Accounts(m.quantity) && LimitAdded(before, view, m.run.limit, opp, m.leg, m.quantity - m.run.FromCancelled())
  }

  /** The final hedge is the run's last calls, from `base` on: its own, or on failure its own and the close's. */
  ghost predicate MadeBy(m: FinalMade, error: Option<EntryError>, opp: Opportunity, s: EntryState, start: Book,
                         base: History<Event>, log: History<Event>) {
    match error
    case None => exists cancelled :: CompletedFrom(base, m.run, cancelled, s, m.leg, opp, start, log)
    case Some(e) => exists c :: FailedCalls(e, m.run, c, opp, m.leg, s, base, log)
  }

  // What the final hedge's aggressive order may trade on a leg.
  function AggressiveSize(made: Option<FinalMade>, leg: Leg): real {
    if made.Some? && made.value.leg.Other() == leg && made.value.run.limit.Placed?
    then made.value.quantity - made.value.run.FromCancelled() else 0.0
  }

  predicate AggressiveWithin(made: Option<FinalMade>, fills: nat -> real) {
    made.Some? && made.value.run.limit.Placed? ==>
      0.0 <= fills(made.value.run.limit.id) <= made.value.quantity - made.value.run.FromCancelled()
  }

  lemma AddedFill(before: Book, view: Book, from: nat, opp: Opportunity, made: Option<FinalMade>, leg: Leg,
                  fills: nat -> real)
    requires AfterChase(before, view, opp, made) && AggressiveWithin(made, fills)
    ensures var chased := TotalFill(ChainIds(Replacements(before.limits, from, leg.EntrySide())), fills);
            chased <= TotalFill(ChainIds(Replacements(view.limits, from, leg.EntrySide())), fills) <=
            chased + AggressiveSize(made, leg)
  {
  }

  /**
   All limit orders an entry places on one side before its exits trade at most (1 + max reprices) times the
   contract quantity, and what the final hedge's aggressive order adds.
   */
  lemma EntryFillBound(run: RunRecord, view: Book, max: nat, opp: Opportunity, leg: Leg, fills: nat -> real)
    requires Disciplined(run.Chased(), run.rest, max) && AfterChase(BookFrom(EMPTY_BOOK, run.loop), view, opp, run.made)
    requires TradesWithin(run.rest.orders.At(leg), run.rest.Chain(leg, run.Chased()), fills)
    requires AggressiveWithin(run.made, fills)
    ensures 0.0 <= LegTraded(leg, run.rest, view.limits, fills) <=
            Multiple(max + 1, run.rest.orders.At(leg).size) + AggressiveSize(run.made, leg)
  {
    ChainFillBound(run.rest.orders.At(leg), run.rest.Chain(leg, run.Chased()), max, fills);
    AddedFill(BookFrom(EMPTY_BOOK, run.loop), view, run.rest.view.next, opp, run.made, leg, fills);
  }

  function BeforeExits<T, E>(r: Result<T, E>, log: History<Event>): History<Event> {
    if r.Ok? && log.Then? && log.before.Then? then log.before.before else log
  }

  /**
   Every limit order of the chase was reported fully filled or had its cancel issued, but for the current
   order of the open leg.
   */
  ghost predicate Attended(run: RunRecord, open: Option<Leg>, view: Book) {
    && Ended(run.rest, run.Chased(), open, view)
    && RetiredDone(run.rest.orders.long, run.rest.Chain(LongLeg, run.Chased()), view)
    && RetiredDone(run.rest.orders.short, run.rest.Chain(ShortLeg, run.Chased()), view)
  }

  /**
   What follows the poll loop. When the loop itself settled or failed the run, nothing; then a run that was given
   up had its reason. Otherwise the clock had run out, or an order was found cancelled, and both orders were
   checked once more: both found filled end the run, none found filled cancels both, and one found filled is
   hedged at the quantity of its report.
   */
  ghost predicate AfterTheLoop(run: RunRecord, opp: Opportunity, cfg: Config, budget: nat, s: EntryState,
                               error: Option<EntryError>, log: History<Event>)
    requires opp.prices.long != 0.0
  {
    if run.check.None? then
      && run.made.None? && log == run.loop
      && (error.Some? && error.value.NothingFilled() ==>
            error == Reason(opp, cfg, s) && error.value != EntryError.NeitherFilled)
    else
      var long, short := SaysFilled(run.check.value.long), SaysFilled(run.check.value.short);
      && PolledOut(run.loop, run.rest.view, budget)
      && (if long && short then error.None? && run.made.None? && log == run.CheckCalls()
          else if !long && !short then
            error == Some(EntryError.NeitherFilled) && run.made.None? && BothCancelled(s, run.CheckCalls(), log)
          else
            && run.made.Some? && run.made.value.leg == (if long then LongLeg else ShortLeg)
            && run.made.value.quantity == (if long then run.check.value.long else run.check.value.short).value.filled
            && MadeBy(run.made.value, error, opp, s, run.rest.view, run.CheckCalls(), log))
  }

  /**
   What holds of a run that is over, before its exits: it settled or failed with its error; its limit orders
   are each leg's replacements, at most the limit of them and each after its predecessor's acknowledged cancel,
   and then at most the final hedge's aggressive one; and none of them is left unattended.
   */
  ghost predicate RunIsOver(run: RunRecord, opp: Opportunity, cfg: Config, budget: nat, s: EntryState,
                            error: Option<EntryError>, log: History<Event>, lockWasFree: bool)
    requires opp.prices.long != 0.0
  {
    var view := BookFrom(EMPTY_BOOK, log);
    && Finished(opp, s, error, run.rest, run.Chased(), log, lockWasFree)
    && Disciplined(run.Chased(), run.rest, cfg.maxReprices) && AfterChase(BookFrom(EMPTY_BOOK, run.loop), view, opp, run.made)
    && AfterTheLoop(run, opp, cfg, budget, s, error, log)
    && Attended(run, if error.Some? then error.value.OpenLeg() else None, view)
  }

  lemma OverIsAttended(run: RunRecord, opp: Opportunity, max: nat, s: EntryState, error: Option<EntryError>,
                       log: History<Event>, lockWasFree: bool)
    requires Finished(opp, s, error, run.rest, run.Chased(), log, lockWasFree)
    requires error.Some? ==> !error.value.ShouldNotHappen?
    requires Disciplined(run.Chased(), run.rest, max)
    requires AfterChase(BookFrom(EMPTY_BOOK, run.loop), BookFrom(EMPTY_BOOK, log), opp, run.made)
    ensures Attended(run, if error.Some? then error.value.OpenLeg() else None, BookFrom(EMPTY_BOOK, log))
  {
    var view, from := BookFrom(EMPTY_BOOK, log), run.rest.view.next;
    FinishedIsEnded(opp, s, error, run.rest, run.Chased(), log, lockWasFree);
    GoneAreCancelled(log);
    ReplacementsGone(run.Chased(), from, Side.Long, view.cancelled);
    ReplacementsGone(run.Chased(), from, Side.Short, view.cancelled);
    RetiredAreDone(run.rest.orders.long, run.rest.Chain(LongLeg, run.Chased()), view);
    RetiredAreDone(run.rest.orders.short, run.rest.Chain(ShortLeg, run.Chased()), view);
  }

  /**
   Every run from two resting orders, against any backend: it succeeds with both legs filled and accounted
   for and the exits placed; or it fails with no report of a full fill in the whole run, no market order and
   both current orders cancelled; or its last calls are the emergency close of the leg this run knows filled,
   whose own failure halts trading. A leg is left naked and unclosed only when the hedge lock was already
   taken. The lock set is left as it was.
   */
  method RunFromResting(b: Backend, locks: HedgeLocks, halt: TradingHalt, opp: Opportunity, cfg: Config, budget: nat,
                        long: Order, short: Order)
    returns (r: Result<Trade, EntryError>, s: EntryState, ghost run: RunRecord)
    requires locks.Valid() && opp.prices.long != 0.0 && BothRest(long, short, b.View())
    modifies b, locks, halt
    ensures locks.Valid() && locks.held == old(locks.held) && locks.guards == old(locks.guards)
    ensures run.rest == Rest(Pair(long, short), old(b.View()))
    ensures RunIsOver(run, opp, cfg, budget, s, r.Failure(), BeforeExits(r, b.log), opp.symbol !in old(locks.held))
    ensures r.Ok? ==> r.value.orders == s.orders && ExitsPlaced(opp, r.value, b.log)
    ensures r.Err? ==> !r.error.ShouldNotHappen?
    ensures opp.symbol !in old(locks.held) && r.Err? ==> !r.error.LockBusy?
    ensures halt.halted == (old(halt.halted) || (r.Err? && r.error.CloseFailed()))
    ensures ChasedWithin(s, cfg.maxReprices)
    ensures b.View().Extends(old(b.View()))
  {
    var error;
    s, error, run := RunBeforeExits(b, locks, halt, opp, cfg, budget, long, short);
    if error.Some? {
      r := Err(error.value);
      return;
    }
    if !s.BothFilled() {
      r := Err(ShouldNotHappen);
      return;
    }
    var trade := PlaceExits(b, opp, s.orders);
    r := Ok(trade);
  }

  // The run up to its exits: the poll loop and what follows it.
  method RunBeforeExits(b: Backend, locks: HedgeLocks, halt: TradingHalt, opp: Opportunity, cfg: Config, budget: nat,
                        long: Order, short: Order)
    returns (s: EntryState, error: Option<EntryError>, ghost run: RunRecord)
    requires locks.Valid() && opp.prices.long != 0.0 && BothRest(long, short, b.View())
    modifies b, locks, halt
    ensures locks.Valid() && locks.held == old(locks.held) && locks.guards == old(locks.guards)
    ensures run.rest == Rest(Pair(long, short), old(b.View()))
    ensures RunIsOver(run, opp, cfg, budget, s, error, b.log, opp.symbol !in old(locks.held))
    ensures error.Some? ==> !error.value.ShouldNotHappen?
    ensures halt.halted == (old(halt.halted) || (error.Some? && error.value.CloseFailed()))
    ensures ChasedWithin(s, cfg.maxReprices)
    ensures b.View().Extends(old(b.View()))
  {
    ghost var rest := Rest(Pair(long, short), b.View());
    s := EntryState(Pair(long, short), Pair(false, false), Pair(0, 0),
                    Pair(Metrics(0, long.price, long.price, []), Metrics(0, short.price, short.price, [])));
    RestIsChasing(s, rest, b.log);
    s, error := PollLoop(b, locks, halt, opp, cfg, budget, s, rest);
    run := RunRecord(rest, b.log, None, None);
    if error.None? && !s.BothFilled() {
      ghost var check, made;
      s, error, check, made := AfterLoop(b, locks, halt, opp, s, rest);
      run := run.(check := Some(check), made := made);
    }
    OverIsAttended(run, opp, cfg.maxReprices, s, error, b.log, opp.symbol !in old(locks.held));
  }

  /** How the final check and the hedge after it end, from the log `before` on. */
  ghost predicate CheckEnds(check: Answers, made: Option<FinalMade>, error: Option<EntryError>, opp: Opportunity,
                            s: EntryState, s': EntryState, start: Book, before: History<Event>, log: History<Event>) {
    var checked := RaceAsked(before, s, check.long, check.short);
    var long, short := SaysFilled(check.long), SaysFilled(check.short);
    if long && short then error.None? && made.None? && log == checked
    else if !long && !short then error == Some(EntryError.NeitherFilled) && made.None? && BothCancelled(s', checked, log)
    else
      && made.Some? && made.value.leg == (if long then LongLeg else ShortLeg)
      && made.value.quantity == (if long then check.long else check.short).value.filled
      && MadeBy(made.value, error, opp, s', start, checked, log)
  }

  /** The final check and, when it finds one leg filled, the hedge of the other one. */
  method AfterLoop(b: Backend, locks: HedgeLocks, halt: TradingHalt, opp: Opportunity, s: EntryState, ghost rest: Rest)
    returns (s': EntryState, error: Option<EntryError>, ghost check: Answers, ghost made: Option<FinalMade>)
    requires locks.Valid() && Chasing(s, b.View(), rest)
    modifies b, locks, halt
    ensures locks.Valid() && locks.held == old(locks.held) && locks.guards == old(locks.guards)
    ensures Finished(opp, s', error, rest, old(b.View()).limits, b.log, opp.symbol !in old(locks.held))
    ensures error.Some? ==> !error.value.ShouldNotHappen?
    ensures AfterChase(old(b.View()), b.View(), opp, made)
    ensures CheckEnds(check, made, error, opp, s, s', rest.view, old(b.log), b.log)
    ensures halt.halted == (old(halt.halted) || (error.Some? && error.value.CloseFailed()))
    ensures s'.reprices == s.reprices && s'.metrics == s.metrics
    ensures b.View().Extends(old(b.View()))
  {
    made := None;
    ghost var l, sh;
    s', error, l, sh := FinalCheck(b, s, opp, rest);
    check := Answers(l, sh);
    if error.Some? {
      return;
    }
    if s'.OnlyFilled(LongLeg) {
      s', error, made := HedgeOther(b, locks, halt, opp, LongLeg, s', rest);
      return;
    }
    if s'.OnlyFilled(ShortLeg) {
      s', error, made := HedgeOther(b, locks, halt, opp, ShortLeg, s', rest);
      return;
    }
    assert Covered(opp, s', LongLeg, BothReported, rest.view, b.log);
    assert FromChase(s', LongLeg, BothReported, rest, old(b.View()).limits, b.log);
  }

  // The final hedge, which leaves no leg to hedge behind it.
  method HedgeOther(b: Backend, locks: HedgeLocks, halt: TradingHalt, opp: Opportunity, leg: Leg, s: EntryState,
                    ghost rest: Rest)
    returns (s': EntryState, error: Option<EntryError>, ghost made: Option<FinalMade>)
    requires locks.Valid() && KnownFilled(leg, s, rest.view, b.View()) && OwnOrders(s, rest, b.View().limits)
    modifies b, locks, halt
    ensures locks.Valid() && locks.held == old(locks.held) && locks.guards == old(locks.guards)
    ensures Finished(opp, s', error, rest, old(b.View()).limits, b.log, opp.symbol !in old(locks.held))
    ensures error.Some? ==> !error.value.ShouldNotHappen?
    ensures made.Some? && made.value.leg == leg && made.value.quantity == s.orders.At(leg).size
    ensures MadeBy(made.value, error, opp, s', rest.view, old(b.log), b.log)
    ensures AfterChase(old(b.View()), b.View(), opp, made)
    ensures halt.halted == (old(halt.halted) || (error.Some? && error.value.CloseFailed()))
    ensures s'.reprices == s.reprices && s'.metrics == s.metrics
    ensures b.View().Extends(old(b.View()))
  {
    ghost var chased, base, other := b.View().limits, b.log, s.orders.At(leg.Other());
    ghost var run, c;
    s', error, run, c := HedgeFinally(b, locks, halt, opp, leg, s, rest.view);
    made := Some(FinalMade(leg, s.orders.At(leg).size, run));
    if error.None? {
      assert Covered(opp, s', leg, FinalCover(base, run, other), rest.view, b.log);
      assert FromChase(s', leg, FinalCover(base, run, other), rest, chased, b.log);
    } else {
      assert FailedCalls(error.value, run, c, opp, leg, s', base, b.log);
    }
  }

  method PlaceExits(b: Backend, opp: Opportunity, orders: Pair<Order>) returns (t: Trade)
    modifies b
    ensures t.orders == orders && ExitsPlaced(opp, t, b.log) && b.log.before.before == old(b.log)
    ensures b.View().saidFilled == old(b.View()).saidFilled && b.View().Extends(old(b.View()))
  {
    var long := b.Place(ExitTemplate(opp, LongLeg, orders.long.size));
    var short := b.Place(ExitTemplate(opp, ShortLeg, orders.short.size));
    t := Trade(orders, Pair(if long.Ok? then Some(long.value) else None, if short.Ok? then Some(short.value) else None));
  }

  // ---- From the checks to the resting orders ----

  // What the exchanges answer before any order is placed.
  datatype Preflight = Preflight(steps: Pair<Option<real>>, balances: Pair<Option<real>>, depthCritical: Pair<Option<bool>>)

  datatype Mode = UltraFast | Balanced | Safe

  /** The presets differ only in their mode. */
  const REPRICING := Config(5.0, 5, 50.0)

  function ModeFor(confidence: int): Mode {
    if confidence >= 90 then UltraFast else if confidence >= 75 then Balanced else Safe
  }

  datatype EntryFailure =
    | TradingHalted
    | BadPositionSize
    | ExceedsCapital
    | QuantityTooSmall
    | BalanceUnknown(leg: Leg)
    | BalanceTooLow(leg: Leg)
    | DepthUnknown(leg: Leg)
    | DepthTooLow
    | LongRefused
    | ShortRefused
    | RunFailed(error: EntryError)
  {
    predicate BeforeOrders() { !LongRefused? && !ShortRefused? && !RunFailed? }
  }

  const DEFAULT_STEP: real := 0.1

  function StepOf(step: Option<real>): real { if step.Some? then step.value else DEFAULT_STEP }

  // Floating point turns a division by zero into an infinity and the product with the zero step into no number at all.
  predicate Divides(opp: Opportunity, p: Preflight) {
    && opp.prices.long != 0.0 && Max(opp.prices.long, opp.prices.short) != 0.0
    && StepOf(p.steps.long) != 0.0 && StepOf(p.steps.short) != 0.0
  }

  predicate PositiveSteps(p: Preflight) { StepOf(p.steps.long) > 0.0 && StepOf(p.steps.short) > 0.0 }

  function QuantityFor(opp: Opportunity, positionSize: real, p: Preflight): real
    requires Divides(opp, p)
  {
    Sizing.ContractQuantity(positionSize / Max(opp.prices.long, opp.prices.short),
                            StepOf(p.steps.long), StepOf(p.steps.short))
  }

  /** The checks made before any order, in their order; None lets the entry go on. */
  function Check(halted: bool, opp: Opportunity, available: real, positionSize: real, p: Preflight, mode: Mode)
    : Option<EntryFailure>
    requires Divides(opp, p)
  {
    var margin := positionSize * 1.2;
    if halted then Some(TradingHalted)
    else if positionSize <= 0.0 then Some(BadPositionSize)
    else if positionSize > available then Some(ExceedsCapital)
    else if QuantityFor(opp, positionSize, p) <= 0.0 then Some(QuantityTooSmall)
    else if p.balances.long.None? then Some(BalanceUnknown(LongLeg))
    else if p.balances.short.None? then Some(BalanceUnknown(ShortLeg))
    else if p.balances.long.value < margin then Some(BalanceTooLow(LongLeg))
    else if p.balances.short.value < margin then Some(BalanceTooLow(ShortLeg))
    else if mode.UltraFast? then None
    else if p.depthCritical.long.None? then Some(DepthUnknown(LongLeg))
    else if p.depthCritical.short.None? then Some(DepthUnknown(ShortLeg))
    else if p.depthCritical.long.value || p.depthCritical.short.value then Some(DepthTooLow)
    else None
  }

  /**
   Orders only go out for a positive quantity whose notional is within the position size on either
   leg, with both balances covering the position and its 20% margin, and never once trading is halted.
   */
  lemma ChecksProtect(halted: bool, opp: Opportunity, available: real, positionSize: real, p: Preflight, mode: Mode)
    requires opp.prices.long > 0.0 && opp.prices.short > 0.0 && PositiveSteps(p)
    requires Check(halted, opp, available, positionSize, p, mode).None?
    ensures !halted && 0.0 < positionSize <= available
    ensures var q := QuantityFor(opp, positionSize, p);
            0.0 < q && q * opp.prices.long <= positionSize && q * opp.prices.short <= positionSize
    ensures p.balances.long.value >= positionSize * 1.2 && p.balances.short.value >= positionSize * 1.2
    ensures !mode.UltraFast? ==> p.depthCritical == Pair(Some(false), Some(false))
  {
    Sizing.NotionalWithinPosition(positionSize, opp.prices.long, opp.prices.short, StepOf(p.steps.long), StepOf(p.steps.short));
  }

  /** The failure of a check names a reason that holds. */
  lemma CheckTells(halted: bool, opp: Opportunity, available: real, positionSize: real, p: Preflight, mode: Mode)
    requires opp.prices.long > 0.0 && opp.prices.short > 0.0 && PositiveSteps(p)
    requires Check(halted, opp, available, positionSize, p, mode).Some?
    ensures var failure := Check(halted, opp, available, positionSize, p, mode).value;
            match failure
            case TradingHalted => halted
            case BadPositionSize => positionSize <= 0.0
            case ExceedsCapital => positionSize > available
            case QuantityTooSmall => QuantityFor(opp, positionSize, p) <= 0.0
            case BalanceUnknown(leg) => p.balances.At(leg).None?
            case BalanceTooLow(leg) => p.balances.At(leg).Some? && p.balances.At(leg).value * 10.0 < positionSize * 12.0
            case DepthUnknown(leg) => !mode.UltraFast? && p.depthCritical.At(leg).None?
            case DepthTooLow => !mode.UltraFast? && (p.depthCritical.long == Some(true) || p.depthCritical.short == Some(true))
            case _ => false
  {
  }

  // The step an exchange rounds to, a tenth when it is not known.
  function KnownStep(step: Option<real>): real { if step.Some? then step.value else 0.1 }

  /**
   What a leg must offer: a step that the position buys at the higher price, 120% of the position in its balance,
   and below a confidence of 90 enough depth.
   */
  predicate LegAllows(raw: real, p: Preflight, leg: Leg, positionSize: real, confidence: int) {
    && raw >= KnownStep(p.steps.At(leg))
    && p.balances.At(leg).Some? && p.balances.At(leg).value * 10.0 >= positionSize * 12.0
    && (confidence >= 90 || p.depthCritical.At(leg) == Some(false))
  }

  /**
   An entry goes out if and only if trading is not halted, the position is within the available capital, and
   both legs allow it.
   */
  lemma ChecksPassIff(halted: bool, opp: Opportunity, available: real, positionSize: real, p: Preflight, confidence: int)
    requires opp.prices.long > 0.0 && opp.prices.short > 0.0 && PositiveSteps(p)
    ensures var higher := if opp.prices.long < opp.prices.short then opp.prices.short else opp.prices.long;
            var raw := positionSize / higher;
            Check(halted, opp, available, positionSize, p, ModeFor(confidence)).None? <==>
            && !halted && 0.0 < positionSize <= available
            && LegAllows(raw, p, LongLeg, positionSize, confidence) && LegAllows(raw, p, ShortLeg, positionSize, confidence)
  {
    Sizing.PositiveIff(positionSize / Max(opp.prices.long, opp.prices.short), StepOf(p.steps.long), StepOf(p.steps.short));
  }

  function EntryTemplate(opp: Opportunity, leg: Leg, quantity: real): Order {
    Order(0, opp.exchanges.At(leg), leg.EntrySide(), Limit, opp.prices.At(leg), quantity, Pending)
  }

  /** The log after both entry orders have been accepted. */
  function EntryCalls(log: History<Event>, opp: Opportunity, quantity: real, longId: nat, shortId: nat): History<Event> {
    Then(Then(log, Submitted(EntryTemplate(opp, LongLeg, quantity), Some(longId))),
         Submitted(EntryTemplate(opp, ShortLeg, quantity), Some(shortId)))
  }

  /** The two orders rest that were sent and accepted, the long one first, after `before`. */
  ghost predicate BothAccepted(rest: Rest, before: History<Event>, opp: Opportunity, quantity: real) {
    var long, short := rest.orders.long, rest.orders.short;
    && long == EntryTemplate(opp, LongLeg, quantity).(id := long.id)
    && short == EntryTemplate(opp, ShortLeg, quantity).(id := short.id)
    && long.size == quantity == short.size && BookFrom(EMPTY_BOOK, before).next <= long.id < short.id
    && rest.view == BookFrom(EMPTY_BOOK, EntryCalls(before, opp, quantity, long.id, short.id))
  }

  /**
   Both limit orders are sent before either answer is looked at. A refused short leg cancels the long
   one; a refused long leg leaves an accepted short one live, uncancelled.
   */
  method PlaceBothLegs(b: Backend, opp: Opportunity, quantity: real) returns (r: Result<Pair<Order>, EntryFailure>)
    modifies b
    ensures r.Ok? ==> BothRest(r.value.long, r.value.short, b.View())
    ensures r.Ok? ==> BothAccepted(Rest(r.value, b.View()), old(b.log), opp, quantity)
    ensures {EntryTemplate(opp, LongLeg, quantity), EntryTemplate(opp, ShortLeg, quantity)} <= b.View().submitted
    ensures b.View().saidFilled == old(b.View()).saidFilled
    ensures r.Err? ==> r.error == LongRefused || r.error == ShortRefused
    ensures r.Err? && r.error == LongRefused ==>
              exists short :: b.log == Then(Then(old(b.log), Submitted(EntryTemplate(opp, LongLeg, quantity), None)),
                                            Submitted(EntryTemplate(opp, ShortLeg, quantity), short))
                && b.View().live == old(b.View()).live + (if short.Some? then {short.value} else {})
    ensures r.Err? && r.error == ShortRefused ==>
              exists long, acked ::
                && b.log == Then(Then(Then(old(b.log), Submitted(EntryTemplate(opp, LongLeg, quantity), Some(long))),
                                      Submitted(EntryTemplate(opp, ShortLeg, quantity), None)), CancelSent(long, acked))
                && long !in old(b.View()).live
                && b.View().live == old(b.View()).live + (if acked then {} else {long})
  {
    var long := b.Place(EntryTemplate(opp, LongLeg, quantity));
    ghost var afterLong := b.log;
    var short := b.Place(EntryTemplate(opp, ShortLeg, quantity));
    if long.Err? {
      ghost var accepted := if short.Ok? then Some(short.value.id) else None;
      assert b.log == Then(afterLong, Submitted(EntryTemplate(opp, ShortLeg, quantity), accepted));
      return Err(LongRefused);
    }
    if short.Err? {
      ghost var sent := b.log;
      var acked := b.Cancel(long.value.id);
      assert b.log == Then(sent, CancelSent(long.value.id, acked));
      return Err(ShortRefused);
    }
    r := Ok(Pair(long.value, short.value));
  }

  /** execute_atomic_entry_real. */
  method ExecuteAtomicEntryReal(b: Backend, locks: HedgeLocks, halt: TradingHalt, opp: Opportunity, confidence: int,
                                available: real, positionSize: real, p: Preflight, budget: nat)
    returns (r: Result<Trade, EntryFailure>, s: Option<EntryState>, ghost run: Option<RunRecord>)
    requires locks.Valid() && Divides(opp, p)
    modifies b, locks, halt
    ensures locks.Valid() && locks.held == old(locks.held) && locks.guards == old(locks.guards)
    ensures var refused := Check(old(halt.halted), opp, available, positionSize, p, ModeFor(confidence));
            if refused.Some? then r == Err(refused.value) && b.log == old(b.log) && halt.halted == old(halt.halted)
            else
              var quantity := QuantityFor(opp, positionSize, p);
              && (r.Err? ==> !r.error.BeforeOrders())
              && {EntryTemplate(opp, LongLeg, quantity), EntryTemplate(opp, ShortLeg, quantity)} <= b.View().submitted
              && (run.Some? ==> BothAccepted(run.value.rest, old(b.log), opp, quantity))
    ensures r.Ok? || r.error.RunFailed? <==> run.Some?
    ensures r.Ok? || r.error.RunFailed? ==>
              var error := if r.Ok? then None else Some(r.error.error);
              var log := BeforeExits(r, b.log);
              && s.Some? && (r.Ok? ==> r.value.orders == s.value.orders && ExitsPlaced(opp, r.value, b.log))
              && (r.Err? ==> !r.error.error.ShouldNotHappen?)
              && RunIsOver(run.value, opp, Config(5.0, 5, 50.0), budget, s.value, error, log, opp.symbol !in old(locks.held))
    ensures halt.halted == (old(halt.halted) || (r.Err? && r.error.RunFailed? && r.error.error.CloseFailed()))
  {
    s, run := None, None;
    var refused := Check(halt.halted, opp, available, positionSize, p, ModeFor(confidence));
    if refused.Some? {
      return Err(refused.value), None, None;
    }
    var legs := PlaceBothLegs(b, opp, QuantityFor(opp, positionSize, p));
    if legs.Err? {
      return Err(legs.error), None, None;
    }
    var result, final;
    ghost var made;
    result, final, made := RunFromResting(b, locks, halt, opp, REPRICING, budget, legs.value.long, legs.value.short);
    s, run := Some(final), Some(made);
    r := match result
         case Ok(t) => Ok(t)
         case Err(e) => Err(RunFailed(e));
  }
}
