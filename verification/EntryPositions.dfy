/**
 The positions an entry leaves on the exchanges, from the fills of all its orders: after its two entry
 orders, after its run, after its exits, and after an emergency close.
 */
module EntryPositions {
  import opened Wrappers
  import opened Exchange
  import opened Positions
  import opened MarketRetry
  import opened EmergencyClose
  import opened PriceChaser
  import opened RaceGuard
  import opened AtomicEntry
  import opened FinalHedge
  import opened EntryRun
  import opened EntryExecutor

  /** A position of `long` bought on the long exchange and `short` sold on the short one, as one exchange sees it. */
  function Net(opp: Opportunity, exchange: string, long: real, short: real): real {
    (if exchange == opp.exchanges.long then long else 0.0) - (if exchange == opp.exchanges.short then short else 0.0)
  }

  /**
   Fills of the entry orders are bought on the long exchange at the long price and sold on the short one at the
   short price, and no other exchange sees them.
   */
  lemma EntryPosition(log: History<Event>, opp: Opportunity, quantity: real, longId: nat, shortId: nat, from: nat,
                      exchange: string, fills: nat -> real)
    requires from <= longId && from <= shortId
    ensures var after := EntryCalls(log, opp, quantity, longId, shortId);
            && Position(after, from, exchange, fills) ==
               Position(log, from, exchange, fills) + Net(opp, exchange, fills(longId), fills(shortId))
            && Cost(after, from, fills) ==
               Cost(log, from, fills) + opp.prices.long * fills(longId) - opp.prices.short * fills(shortId)
  {
    var long := EntryTemplate(opp, LongLeg, quantity).(id := longId);
    var short := EntryTemplate(opp, ShortLeg, quantity).(id := shortId);
    var first := Then(log, Submitted(EntryTemplate(opp, LongLeg, quantity), Some(longId)));
    assert Sum(first, from, Traded(exchange, fills)) == Sum(log, from, Traded(exchange, fills)) + Traded(exchange, fills)(long);
    assert Sum(first, from, Paid(fills)) == Sum(log, from, Paid(fills)) + Paid(fills)(long);
    assert long.price == opp.prices.long && short.price == opp.prices.short;
    assert Paid(fills)(long) == Payment(long, fills(longId)) && Paid(fills)(short) == Payment(short, fills(shortId));
  }

  /** Before the entry nothing of it has traded. */
  lemma NothingYet(rest: Rest, before: History<Event>, opp: Opportunity, quantity: real, value: Order -> real)
    requires BothAccepted(rest, before, opp, quantity)
    ensures var from := BookFrom(EMPTY_BOOK, before).next;
            && SumPlaced(rest.view.limits, from, value) == value(rest.orders.long) + value(rest.orders.short)
            && Sum(rest.view.markets, from, value) == 0.0
            && from <= rest.orders.long.id && from <= rest.orders.short.id && from <= rest.view.next
  {
    NothingNewer(before, BookFrom(EMPTY_BOOK, before).next, value);
    var long := Submitted(EntryTemplate(opp, LongLeg, quantity), Some(rest.orders.long.id));
    var short := Submitted(EntryTemplate(opp, ShortLeg, quantity), Some(rest.orders.short.id));
    var b0 := BookFrom(EMPTY_BOOK, before);
    assert BookFrom(EMPTY_BOOK, Then(before, long)) == b0.Apply(long);
    assert rest.view == b0.Apply(long).Apply(short);
  }

  /** What all limit orders of a chase have traded, each leg's on its own exchange and side. */
  lemma ChasePlaced(chased: History<Placement>, rest: Rest, max: nat, before: History<Event>, opp: Opportunity,
                    quantity: real, exchange: string, fills: nat -> real)
    requires BothAccepted(rest, before, opp, quantity) && Disciplined(chased, rest, max)
    ensures SumPlaced(chased, BookFrom(EMPTY_BOOK, before).next, Traded(exchange, fills)) ==
            Net(opp, exchange, LegTraded(LongLeg, rest, chased, fills), LegTraded(ShortLeg, rest, chased, fills))
  {
    var from, value := BookFrom(EMPTY_BOOK, before).next, Traded(exchange, fills);
    NothingYet(rest, before, opp, quantity, value);
    PlacedSplits(chased, from, rest.view.next, value);
    ChainPosition(rest.orders.long, rest.Chain(LongLeg, chased), from, exchange, fills);
    ChainPosition(rest.orders.short, rest.Chain(ShortLeg, chased), from, exchange, fills);
  }

  /** The positions while no market order has been sent and no limit order but those of the chase. */
  lemma ChasePosition(log: History<Event>, chased: History<Placement>, rest: Rest, max: nat, before: History<Event>,
                      opp: Opportunity, quantity: real, exchange: string, fills: nat -> real)
    requires BothAccepted(rest, before, opp, quantity) && Disciplined(chased, rest, max)
    requires var view := BookFrom(EMPTY_BOOK, log); view.limits == chased && view.markets == rest.view.markets
    ensures Position(log, BookFrom(EMPTY_BOOK, before).next, exchange, fills) ==
            Net(opp, exchange, LegTraded(LongLeg, rest, chased, fills), LegTraded(ShortLeg, rest, chased, fills))
  {
    var from, value := BookFrom(EMPTY_BOOK, before).next, Traded(exchange, fills);
    SumByBook(log, from, value);
    NothingYet(rest, before, opp, quantity, value);
    ChasePlaced(chased, rest, max, before, opp, quantity, exchange, fills);
  }

  // ---- Runs that settled ----

  /** What the orders after the chase have added to a leg: market orders, the aggressive one, less a race's cut. */
  function Added(cover: Cover, leg: Leg, l: Leg, fills: nat -> real): real {
    match cover
    case BothReported => 0.0
    case InLoop(_, _, how) =>
      if how.Raced() then
        if how.accepted.Some? && (how.Qty().At(l) > how.Qty().At(l.Other())) then -fills(how.accepted.value) else 0.0
      else if l == leg then 0.0 else Exposure(how.hedging.hedge, fills)
    case FinalCover(_, run, _) =>
      if l == leg then 0.0
      else run.Moved(fills)
  }

  /** What a leg has traded in all before the exits. */
  function Held(cover: Cover, leg: Leg, l: Leg, rest: Rest, chased: History<Placement>, fills: nat -> real): real {
    LegTraded(l, rest, chased, fills) + Added(cover, leg, l, fills)
  }

  // Queries, cancels and depth checks move no position and place nothing.
  lemma QuietBeforeHedge(before: History<Event>, polled: EntryState, leg: Leg, l: Option<StatusInfo>, sh: Option<StatusInfo>,
                         depth: Option<bool>, acked: bool, from: nat, exchange: string, fills: nat -> real)
    ensures var asked := RaceAsked(before, polled, l, sh);
            var base := CancelCalls(asked, polled, leg, depth, acked);
            && Position(base, from, exchange, fills) == Position(asked, from, exchange, fills) ==
               Position(before, from, exchange, fills)
            && BookFrom(EMPTY_BOOK, base).markets == BookFrom(EMPTY_BOOK, asked).markets == BookFrom(EMPTY_BOOK, before).markets
            && BookFrom(EMPTY_BOOK, base).limits == BookFrom(EMPTY_BOOK, asked).limits == BookFrom(EMPTY_BOOK, before).limits
  {
    var asked := RaceAsked(before, polled, l, sh);
    assert BookFrom(EMPTY_BOOK, asked.before).markets == BookFrom(EMPTY_BOOK, before).markets;
    assert BookFrom(EMPTY_BOOK, asked.before).limits == BookFrom(EMPTY_BOOK, before).limits;
    var depthAsked := DepthCall(asked, polled, leg, depth);
    assert BookFrom(EMPTY_BOOK, depthAsked) == BookFrom(EMPTY_BOOK, asked);
    assert Position(asked.before, from, exchange, fills) == Position(before, from, exchange, fills);
    assert Position(depthAsked, from, exchange, fills) == Position(asked, from, exchange, fills);
  }

  /** A run's start: the two entry orders, accepted after `before`, and their chase. */
  ghost predicate Entered(rest: Rest, chased: History<Placement>, max: nat, before: History<Event>, opp: Opportunity,
                          quantity: real) {
    BothAccepted(rest, before, opp, quantity) && Disciplined(chased, rest, max)
  }

  lemma RacedPosition(opp: Opportunity, s: EntryState, leg: Leg, cover: Cover, rest: Rest, chased: History<Placement>,
                      max: nat, before: History<Event>, quantity: real, log: History<Event>, exchange: string,
                      fills: nat -> real)
    requires Entered(rest, chased, max, before, opp, quantity) && cover.InLoop? && cover.how.Raced()
    requires Covered(opp, s, leg, cover, rest.view, log) && FromChase(s, leg, cover, rest, chased, log)
    ensures Position(log, BookFrom(EMPTY_BOOK, before).next, exchange, fills) ==
            Net(opp, exchange, Held(cover, leg, LongLeg, rest, chased, fills), Held(cover, leg, ShortLeg, rest, chased, fills))
  {
    var from, how := BookFrom(EMPTY_BOOK, before).next, cover.how;
    var asked := RaceAsked(cover.before, cover.polled, how.l, how.sh);
    NothingYet(rest, before, opp, quantity, Traded(exchange, fills));
    QuietBeforeHedge(cover.before, cover.polled, leg, how.l, how.sh, None, false, from, exchange, fills);
    ChasePosition(asked, chased, rest, max, before, opp, quantity, exchange, fills);
    CutPosition(asked, opp, how.Qty(), how.accepted, from, exchange, fills);
    HeldAfterRace(cover, leg, rest, chased, opp, exchange, fills);
  }

  // What the cut of a race takes off the larger leg.
  lemma HeldAfterRace(cover: Cover, leg: Leg, rest: Rest, chased: History<Placement>, opp: Opportunity, exchange: string,
                      fills: nat -> real)
    requires cover.InLoop? && cover.how.Raced()
    ensures var how := cover.how;
            var cut := if how.accepted.Some? then fills(how.accepted.value) else 0.0;
            Net(opp, exchange, LegTraded(LongLeg, rest, chased, fills), LegTraded(ShortLeg, rest, chased, fills)) -
            Net(opp, exchange, if how.Qty().long > how.Qty().short then cut else 0.0,
                if how.Qty().short > how.Qty().long then cut else 0.0) ==
            Net(opp, exchange, Held(cover, leg, LongLeg, rest, chased, fills), Held(cover, leg, ShortLeg, rest, chased, fills))
  {
  }

  /** The balancing order sells the larger leg's surplus, or buys it back for a short leg. */
  lemma CutPosition(log: History<Event>, opp: Opportunity, qty: Pair<real>, accepted: Option<nat>, from: nat,
                    exchange: string, fills: nat -> real)
    requires accepted.Some? ==> MustBalance(qty) && accepted.value >= from
    ensures var cut := if accepted.Some? then fills(accepted.value) else 0.0;
            Position(RaceCalls(log, opp, qty, accepted), from, exchange, fills) ==
            Position(log, from, exchange, fills) -
            Net(opp, exchange, if qty.long > qty.short then cut else 0.0, if qty.short > qty.long then cut else 0.0)
  {
  }

  lemma LoopHedgePosition(opp: Opportunity, s: EntryState, leg: Leg, cover: Cover, rest: Rest, chased: History<Placement>,
                          max: nat, before: History<Event>, quantity: real, log: History<Event>, exchange: string,
                          fills: nat -> real)
    requires Entered(rest, chased, max, before, opp, quantity) && cover.InLoop? && !cover.how.Raced()
    requires Covered(opp, s, leg, cover, rest.view, log) && FromChase(s, leg, cover, rest, chased, log)
    ensures Position(log, BookFrom(EMPTY_BOOK, before).next, exchange, fills) ==
            Net(opp, exchange, Held(cover, leg, LongLeg, rest, chased, fills), Held(cover, leg, ShortLeg, rest, chased, fills))
  {
    var from, how, h := BookFrom(EMPTY_BOOK, before).next, cover.how, cover.how.hedging;
    var base := CancelCalls(RaceAsked(cover.before, cover.polled, how.l, how.sh), cover.polled, leg, h.depth, h.acked);
    NothingYet(rest, before, opp, quantity, Traded(exchange, fills));
    QuietBeforeHedge(cover.before, cover.polled, leg, how.l, how.sh, h.depth, h.acked, from, exchange, fills);
    ChasePosition(base, chased, rest, max, before, opp, quantity, exchange, fills);
    HedgePosition(base, h.hedge, opp, leg, s.orders.At(leg).size, from, BookFrom(EMPTY_BOOK, base).next,
                  BookFrom(EMPTY_BOOK, log).next, exchange, fills);
  }

  /** Market orders for the other leg move its position alone, towards its entry side. */
  lemma HedgePosition(log: History<Event>, hedge: Attempts, opp: Opportunity, leg: Leg, size: real, from: nat, lo: nat,
                      hi: nat, exchange: string, fills: nat -> real)
    requires Increasing(hedge, lo, hi) && from <= lo
    ensures var bought := Exposure(hedge, fills);
            var template := MarketTemplate(opp, leg.Other(), leg.Other().EntrySide(), size);
            Position(Trace(log, hedge, template), from, exchange, fills) ==
            Position(log, from, exchange, fills) +
            Net(opp, exchange, if leg.LongLeg? then 0.0 else bought, if leg.LongLeg? then bought else 0.0)
  {
    IncreasingIsDistinct(hedge, lo, hi);
    TracePosition(log, hedge, MarketTemplate(opp, leg.Other(), leg.Other().EntrySide(), size), from, exchange, fills);
  }

  /** The final hedge's calls before its market orders: only the aggressive order, if accepted, moves a position. */
  lemma LimitPosition(run: FinalHedgeRun, base: History<Event>, opp: Opportunity, leg: Leg, other: Order, size: real,
                      from: nat, exchange: string, fills: nat -> real)
    requires run.limit.Placed? ==> run.limit.id >= from
    ensures var added := run.limit.Moved(fills);
            Position(run.BeforeHedge(base, opp, leg, other, size), from, exchange, fills) ==
            Position(base, from, exchange, fills) +
            Net(opp, exchange, if leg.LongLeg? then 0.0 else added, if leg.LongLeg? then added else 0.0)
  {
    var cancelled := run.Cancelled(base, other, size);
    assert Position(cancelled.before.before, from, exchange, fills) == Position(base, from, exchange, fills);
    assert Position(cancelled, from, exchange, fills) == Position(cancelled.before, from, exchange, fills);
    TryPosition(run.limit, cancelled, opp, leg, size - run.FromCancelled(), from, exchange, fills);
  }

  lemma TryPosition(limit: LimitTry, log: History<Event>, opp: Opportunity, leg: Leg, remaining: real, from: nat,
                    exchange: string, fills: nat -> real)
    requires limit.Placed? ==> limit.id >= from
    ensures var added := limit.Moved(fills);
            Position(LimitCalls(log, opp, leg, remaining, limit), from, exchange, fills) ==
            Position(log, from, exchange, fills) +
            Net(opp, exchange, if leg.LongLeg? then 0.0 else added, if leg.LongLeg? then added else 0.0)
  {
    var template := MarketTemplate(opp, leg.Other(), leg.Other().EntrySide(), 0.0).(kind := Limit);
    match limit
    case Untried =>
    case NoPrice =>
    case Refused(p) =>
      var quoted := Then(log, Quoted(template.exchange, CrossOf(template.side), Some(p)));
      assert Position(quoted, from, exchange, fills) == Position(log, from, exchange, fills);
    case Placed(p, id, report, acked) =>
      var quoted := Then(log, Quoted(template.exchange, CrossOf(template.side), Some(p)));
      var placed := Then(quoted, Submitted(template.(price := p, size := remaining), Some(id)));
      assert Position(quoted, from, exchange, fills) == Position(log, from, exchange, fills);
      assert Position(Then(placed, Queried(id, report)), from, exchange, fills) == Position(placed, from, exchange, fills);
  }

  lemma BeforeHedgeNext(run: FinalHedgeRun, base: History<Event>, opp: Opportunity, leg: Leg, other: Order, size: real)
    ensures BookFrom(EMPTY_BOOK, base).next <= BookFrom(EMPTY_BOOK, run.BeforeHedge(base, opp, leg, other, size)).next
  {
    var asked := Then(base, DepthAsked(other.exchange, size, run.depth));
    var cancel := Then(asked, CancelSent(other.id, run.acked));
    assert BookFrom(EMPTY_BOOK, asked).next == BookFrom(EMPTY_BOOK, base).next;
    assert BookFrom(EMPTY_BOOK, cancel).next == BookFrom(EMPTY_BOOK, asked).next;
    var cancelled := run.Cancelled(base, other, size);
    assert cancelled == Then(cancel, Queried(other.id, run.report));
    LimitNext(run.limit, cancelled, opp, leg, size - run.FromCancelled());
  }

  lemma LimitNext(limit: LimitTry, log: History<Event>, opp: Opportunity, leg: Leg, remaining: real)
    ensures BookFrom(EMPTY_BOOK, log).next <= BookFrom(EMPTY_BOOK, LimitCalls(log, opp, leg, remaining, limit)).next
  {
    var template := MarketTemplate(opp, leg.Other(), leg.Other().EntrySide(), 0.0).(kind := Limit);
    if limit.Refused? || limit.Placed? {
      var quoted := Then(log, Quoted(template.exchange, CrossOf(template.side), Some(limit.price)));
      assert BookFrom(EMPTY_BOOK, quoted) == BookFrom(EMPTY_BOOK, log);
      if limit.Placed? {
        var placed := Then(quoted, Submitted(template.(price := limit.price, size := remaining), Some(limit.id)));
        var queried := Then(placed, Queried(limit.id, limit.report));
        assert BookFrom(EMPTY_BOOK, placed).next >= BookFrom(EMPTY_BOOK, quoted).next;
        assert BookFrom(EMPTY_BOOK, queried).next == BookFrom(EMPTY_BOOK, placed).next;
      }
    }
  }

  lemma FinalHedgePosition(opp: Opportunity, s: EntryState, leg: Leg, cover: Cover, rest: Rest, chased: History<Placement>,
                           max: nat, before: History<Event>, quantity: real, log: History<Event>, exchange: string,
                           fills: nat -> real)
    requires Entered(rest, chased, max, before, opp, quantity) && cover.FinalCover?
    requires Covered(opp, s, leg, cover, rest.view, log) && FromChase(s, leg, cover, rest, chased, log)
    ensures Position(log, BookFrom(EMPTY_BOOK, before).next, exchange, fills) ==
            Net(opp, exchange, Held(cover, leg, LongLeg, rest, chased, fills), Held(cover, leg, ShortLeg, rest, chased, fills))
  {
    var from, run := BookFrom(EMPTY_BOOK, before).next, cover.run;
    NothingYet(rest, before, opp, quantity, Traded(exchange, fills));
    ChasePosition(cover.base, chased, rest, max, before, opp, quantity, exchange, fills);
    CompletedPosition(cover.base, run, cover.cancelled, s, leg, opp, rest.view, log, from, exchange, fills);
    HeldAfterHedge(cover, leg, rest, chased, run.Moved(fills), opp, exchange, fills);
  }

  lemma CompletedPosition(base: History<Event>, run: FinalHedgeRun, cancelled: Order, s: EntryState, leg: Leg, opp: Opportunity,
                          start: Book, log: History<Event>, from: nat, exchange: string, fills: nat -> real)
    requires CompletedFrom(base, run, cancelled, s, leg, opp, start, log) && from <= start.next
    ensures var added := run.Moved(fills);
            Position(log, from, exchange, fills) ==
            Position(base, from, exchange, fills) +
            Net(opp, exchange, if leg.LongLeg? then 0.0 else added, if leg.LongLeg? then added else 0.0)
  {
    FinalCallsPosition(run, base, opp, leg, cancelled, s.orders.At(leg).size, from, BookFrom(EMPTY_BOOK, log).next, exchange,
                       fills);
  }

  // What a hedge bought adds to the leg it stood in for.
  lemma HeldAfterHedge(cover: Cover, leg: Leg, rest: Rest, chased: History<Placement>, added: real, opp: Opportunity,
                       exchange: string, fills: nat -> real)
    requires Added(cover, leg, leg, fills) == 0.0 && Added(cover, leg, leg.Other(), fills) == added
    ensures Net(opp, exchange, LegTraded(LongLeg, rest, chased, fills), LegTraded(ShortLeg, rest, chased, fills)) +
            Net(opp, exchange, if leg.LongLeg? then 0.0 else added, if leg.LongLeg? then added else 0.0) ==
            Net(opp, exchange, Held(cover, leg, LongLeg, rest, chased, fills), Held(cover, leg, ShortLeg, rest, chased, fills))
  {
  }

  lemma FinalCallsPosition(run: FinalHedgeRun, base: History<Event>, opp: Opportunity, leg: Leg, other: Order, size: real,
                           from: nat, hi: nat, exchange: string, fills: nat -> real)
    requires from <= BookFrom(EMPTY_BOOK, base).next && (run.limit.Placed? ==> run.limit.id >= from)
    requires Increasing(run.hedge, BookFrom(EMPTY_BOOK, run.BeforeHedge(base, opp, leg, other, size)).next, hi)
    ensures var added := run.Moved(fills);
            Position(run.Calls(base, opp, leg, other, size), from, exchange, fills) ==
            Position(base, from, exchange, fills) +
            Net(opp, exchange, if leg.LongLeg? then 0.0 else added, if leg.LongLeg? then added else 0.0)
  {
    var hedged := run.BeforeHedge(base, opp, leg, other, size);
    LimitPosition(run, base, opp, leg, other, size, from, exchange, fills);
    BeforeHedgeNext(run, base, opp, leg, other, size);
    HedgePosition(hedged, run.hedge, opp, leg, size - run.FromCancelled() - run.limit.Filled(), from,
                  BookFrom(EMPTY_BOOK, hedged).next, hi, exchange, fills);
  }

  /** Every settled run leaves on each leg's exchange, in its direction, exactly what the leg holds, and nothing elsewhere. */
  lemma SettledPosition(opp: Opportunity, s: EntryState, leg: Leg, cover: Cover, rest: Rest, chased: History<Placement>,
                        max: nat, before: History<Event>, quantity: real, log: History<Event>, exchange: string,
                        fills: nat -> real)
    requires Entered(rest, chased, max, before, opp, quantity)
    requires Covered(opp, s, leg, cover, rest.view, log) && FromChase(s, leg, cover, rest, chased, log)
    ensures Position(log, BookFrom(EMPTY_BOOK, before).next, exchange, fills) ==
            Net(opp, exchange, Held(cover, leg, LongLeg, rest, chased, fills), Held(cover, leg, ShortLeg, rest, chased, fills))
  {
    match cover
    case BothReported => ChasePosition(log, chased, rest, max, before, opp, quantity, exchange, fills);
    case InLoop(_, _, how) =>
      if how.Raced() {
        RacedPosition(opp, s, leg, cover, rest, chased, max, before, quantity, log, exchange, fills);
      } else {
        LoopHedgePosition(opp, s, leg, cover, rest, chased, max, before, quantity, log, exchange, fills);
      }
    case FinalCover(_, _, _) =>
      FinalHedgePosition(opp, s, leg, cover, rest, chased, max, before, quantity, log, exchange, fills);
  }

  // ---- The exits ----

  /** Accepted exits move every position back by what they fill, at nine tenths of the spread from either entry price. */
  lemma ExitPosition(log: History<Event>, t: Trade, opp: Opportunity, from: nat, exchange: string, fills: nat -> real)
    requires ExitsPlaced(opp, t, log) && t.exits.long.Some? && t.exits.short.Some?
    requires from <= BookFrom(EMPTY_BOOK, log.before.before).next
    ensures var long, short := t.exits.long.value, t.exits.short.value;
            var target := (opp.prices.short - opp.prices.long) * 0.9;
            && Position(log, from, exchange, fills) ==
               Position(log.before.before, from, exchange, fills) - Net(opp, exchange, fills(long.id), fills(short.id))
            && Cost(log, from, fills) ==
               Cost(log.before.before, from, fills) + Payment(long, fills(long.id)) + Payment(short, fills(short.id))
            && long.side == Side.Short && long.price == opp.prices.long + target
            && short.side == Side.Long && short.price == opp.prices.short - target
  {
    var long, short := t.exits.long.value, t.exits.short.value;
    assert Sum(log.before, from, Traded(exchange, fills)) ==
           Sum(log.before.before, from, Traded(exchange, fills)) + Traded(exchange, fills)(long);
    assert Sum(log.before, from, Paid(fills)) == Sum(log.before.before, from, Paid(fills)) + Paid(fills)(long);
    assert Paid(fills)(long) == Payment(long, fills(long.id)) && Paid(fills)(short) == Payment(short, fills(short.id));
    assert Sum(log, from, Paid(fills)) == Sum(log.before, from, Paid(fills)) + Paid(fills)(short);
  }

  /** The exits of a trade are accepted and fill in full. */
  ghost predicate ExitsFill(t: Trade, fills: nat -> real) {
    && t.exits.long.Some? && fills(t.exits.long.value.id) == t.exits.long.value.size
    && t.exits.short.Some? && fills(t.exits.short.value.id) == t.exits.short.value.size
  }

  lemma AfterExits(opp: Opportunity, s: EntryState, t: Trade, leg: Leg, cover: Cover, rest: Rest, chased: History<Placement>,
                   max: nat, before: History<Event>, quantity: real, log: History<Event>, exchange: string, fills: nat -> real)
    requires Entered(rest, chased, max, before, opp, quantity)
    requires ExitsPlaced(opp, t, log) && t.orders == s.orders && ExitsFill(t, fills)
    requires Covered(opp, s, leg, cover, rest.view, log.before.before)
    requires FromChase(s, leg, cover, rest, chased, log.before.before)
    ensures Position(log, BookFrom(EMPTY_BOOK, before).next, exchange, fills) ==
            Net(opp, exchange, Held(cover, leg, LongLeg, rest, chased, fills) - s.orders.long.size,
                Held(cover, leg, ShortLeg, rest, chased, fills) - s.orders.short.size)
  {
    NothingYet(rest, before, opp, quantity, Traded(exchange, fills));
    SettledPosition(opp, s, leg, cover, rest, chased, max, before, quantity, log.before.before, exchange, fills);
    ExitPosition(log, t, opp, BookFrom(EMPTY_BOOK, before).next, exchange, fills);
  }

  /** Some cover stands behind a run that is Ok. */
  lemma CoverOf(run: RunRecord, opp: Opportunity, cfg: Config, budget: nat, s: EntryState, log: History<Event>,
                lockWasFree: bool) returns (leg: Leg, cover: Cover)
    requires opp.prices.long != 0.0 && RunIsOver(run, opp, cfg, budget, s, None, log, lockWasFree)
    ensures Covered(opp, s, leg, cover, run.rest.view, log) && FromChase(s, leg, cover, run.rest, run.Chased(), log)
    ensures Disciplined(run.Chased(), run.rest, cfg.maxReprices)
  {
    leg, cover :| Covered(opp, s, leg, cover, run.rest.view, log) && FromChase(s, leg, cover, run.rest, run.Chased(), log);
  }

  /**
   After a run that is Ok and whose exits fill, the position on every exchange is back where it was before the
   entry if and only if each leg held exactly the size recorded for it.
   */
  lemma RoundTripIsFlatIff(run: RunRecord, opp: Opportunity, cfg: Config, budget: nat, s: EntryState, t: Trade,
                           before: History<Event>, quantity: real, log: History<Event>, lockWasFree: bool, fills: nat -> real)
    returns (leg: Leg, cover: Cover)
    requires opp.prices.long != 0.0 && opp.exchanges.long != opp.exchanges.short
    requires BothAccepted(run.rest, before, opp, quantity)
    requires ExitsPlaced(opp, t, log) && t.orders == s.orders && ExitsFill(t, fills)
    requires RunIsOver(run, opp, cfg, budget, s, None, log.before.before, lockWasFree)
    ensures Covered(opp, s, leg, cover, run.rest.view, log.before.before)
    ensures FromChase(s, leg, cover, run.rest, run.Chased(), log.before.before)
    ensures (forall exchange :: Position(log, BookFrom(EMPTY_BOOK, before).next, exchange, fills) == 0.0) <==>
            && Held(cover, leg, LongLeg, run.rest, run.Chased(), fills) == s.orders.long.size
            && Held(cover, leg, ShortLeg, run.rest, run.Chased(), fills) == s.orders.short.size
  {
    leg, cover := CoverOf(run, opp, cfg, budget, s, log.before.before, lockWasFree);
    FlatIff(opp, s, t, leg, cover, run.rest, run.Chased(), cfg.maxReprices, before, quantity, log, fills);
  }

  lemma FlatIff(opp: Opportunity, s: EntryState, t: Trade, leg: Leg, cover: Cover, rest: Rest, chased: History<Placement>,
                max: nat, before: History<Event>, quantity: real, log: History<Event>, fills: nat -> real)
    requires opp.exchanges.long != opp.exchanges.short && Entered(rest, chased, max, before, opp, quantity)
    requires ExitsPlaced(opp, t, log) && t.orders == s.orders && ExitsFill(t, fills)
    requires Covered(opp, s, leg, cover, rest.view, log.before.before)
    requires FromChase(s, leg, cover, rest, chased, log.before.before)
    ensures (forall exchange :: Position(log, BookFrom(EMPTY_BOOK, before).next, exchange, fills) == 0.0) <==>
            && Held(cover, leg, LongLeg, rest, chased, fills) == s.orders.long.size
            && Held(cover, leg, ShortLeg, rest, chased, fills) == s.orders.short.size
  {
    var long := Held(cover, leg, LongLeg, rest, chased, fills) - s.orders.long.size;
    var short := Held(cover, leg, ShortLeg, rest, chased, fills) - s.orders.short.size;
    forall exchange
      ensures Position(log, BookFrom(EMPTY_BOOK, before).next, exchange, fills) == Net(opp, exchange, long, short)
    {
      AfterExits(opp, s, t, leg, cover, rest, chased, max, before, quantity, log, exchange, fills);
    }
    assert Position(log, BookFrom(EMPTY_BOOK, before).next, opp.exchanges.long, fills) == long;
    assert Position(log, BookFrom(EMPTY_BOOK, before).next, opp.exchanges.short, fills) == -short;
  }

  /** The two entry orders are all there is when neither was replaced. */
  lemma FirstOrdersSum(log: History<Event>, rest: Rest, chased: History<Placement>, max: nat, before: History<Event>,
                       opp: Opportunity, quantity: real, value: Order -> real)
    requires Entered(rest, chased, max, before, opp, quantity)
    requires rest.Chain(LongLeg, chased) == rest.Chain(ShortLeg, chased) == Start
    requires var view := BookFrom(EMPTY_BOOK, log); view.limits == chased && view.markets == rest.view.markets
    ensures Sum(log, BookFrom(EMPTY_BOOK, before).next, value) == value(rest.orders.long) + value(rest.orders.short)
  {
    NothingYet(rest, before, opp, quantity, value);
    SumByBook(log, BookFrom(EMPTY_BOOK, before).next, value);
    PlacedSplits(chased, BookFrom(EMPTY_BOOK, before).next, rest.view.next, value);
  }

  lemma RoundTripCost(opp: Opportunity, t: Trade, rest: Rest, chased: History<Placement>, max: nat,
                      before: History<Event>, quantity: real, log: History<Event>, q: real, fills: nat -> real)
    requires Entered(rest, chased, max, before, opp, quantity)
    requires ExitsPlaced(opp, t, log) && t.exits.long.Some? && t.exits.short.Some?
    requires var end := BookFrom(EMPTY_BOOK, log.before.before);
             end.limits == chased && end.markets == rest.view.markets && BookFrom(EMPTY_BOOK, before).next <= end.next
    requires rest.Chain(LongLeg, chased) == rest.Chain(ShortLeg, chased) == Start
    requires fills(rest.orders.long.id) == q == fills(rest.orders.short.id)
    requires fills(t.exits.long.value.id) == q == fills(t.exits.short.value.id)
    ensures Cost(log, BookFrom(EMPTY_BOOK, before).next, fills) == -Gain(opp.prices.long, opp.prices.short, q)
  {
    var from, long, short := BookFrom(EMPTY_BOOK, before).next, t.exits.long.value, t.exits.short.value;
    FirstOrdersSum(log.before.before, rest, chased, max, before, opp, quantity, Paid(fills));
    assert Paid(fills)(rest.orders.long) == Payment(rest.orders.long, q);
    assert Paid(fills)(rest.orders.short) == Payment(rest.orders.short, q);
    ExitPosition(log, t, opp, from, "", fills);
    assert rest.orders.long.price == opp.prices.long && rest.orders.short.price == opp.prices.short;
    Earnings(rest.orders.long, rest.orders.short, long, short, q, Cost(log, from, fills));
  }

  /**
   A round trip in which neither leg was repriced and both entry orders and both exits fill for the recorded size
   leaves no position and earns 1.8 times the spread for each contract.
   */
  lemma RoundTripEarns(opp: Opportunity, s: EntryState, t: Trade, leg: Leg, rest: Rest, chased: History<Placement>, max: nat,
                       before: History<Event>, quantity: real, log: History<Event>, q: real, fills: nat -> real)
    requires Entered(rest, chased, max, before, opp, quantity)
    requires ExitsPlaced(opp, t, log) && t.orders == s.orders && ExitsFill(t, fills)
    requires Covered(opp, s, leg, BothReported, rest.view, log.before.before)
    requires FromChase(s, leg, BothReported, rest, chased, log.before.before)
    requires rest.Chain(LongLeg, chased) == rest.Chain(ShortLeg, chased) == Start
    requires fills(rest.orders.long.id) == q == fills(rest.orders.short.id)
    requires s.orders.long.size == q == s.orders.short.size
    ensures forall exchange :: Position(log, BookFrom(EMPTY_BOOK, before).next, exchange, fills) == 0.0
    ensures Cost(log, BookFrom(EMPTY_BOOK, before).next, fills) == -Gain(opp.prices.long, opp.prices.short, q)
  {
    var from := BookFrom(EMPTY_BOOK, before).next;
    forall exchange ensures Position(log, from, exchange, fills) == 0.0 {
      AfterExits(opp, s, t, leg, BothReported, rest, chased, max, before, quantity, log, exchange, fills);
    }
    NothingYet(rest, before, opp, quantity, Paid(fills));
    RoundTripCost(opp, t, rest, chased, max, before, quantity, log, q, fills);
  }

  /** Nine tenths of the spread for each leg. */
  function Gain(long: real, short: real, q: real): real { 1.8 * (short - long) * q }

  // Bought at the long price and sold at the short one, and each closed at nine tenths of the spread from there.
  lemma Earnings(long: Order, short: Order, longExit: Order, shortExit: Order, q: real, cost: real)
    requires long.side == shortExit.side == Side.Long && short.side == longExit.side == Side.Short
    requires var target := (short.price - long.price) * 0.9;
             longExit.price == long.price + target && shortExit.price == short.price - target
    requires cost == Payment(long, q) + Payment(short, q) + Payment(longExit, q) + Payment(shortExit, q)
    ensures cost == -Gain(long.price, short.price, q)
  {
    var target := (short.price - long.price) * 0.9;
    assert (long.price + target) * q == long.price * q + target * q;
    assert (short.price - target) * q == short.price * q - target * q;
    assert target * q == 0.9 * (short.price - long.price) * q;
  }

  // ---- Equal legs after a hedge ----

  /**
   Let the orders before a hedge of the other leg have left the two exchanges apart by `gap` towards the filled
   leg's side. They are sure to be level after it if and only if every accepted market order was verified and the
   reports sum to the gap.
   */
  lemma LevelIff(log: History<Event>, hedge: Attempts, opp: Opportunity, leg: Leg, size: real, from: nat, hi: nat,
                 known: nat -> real, gap: real)
    requires opp.exchanges.long != opp.exchanges.short && from <= BookFrom(EMPTY_BOOK, log).next
    requires Increasing(hedge, BookFrom(EMPTY_BOOK, log).next, hi) && ReportsWithin(hedge) && PositiveSizes(hedge)
    requires Position(log, from, opp.exchanges.long, known) + Position(log, from, opp.exchanges.short, known) ==
             Towards(leg.EntrySide(), gap)
    ensures var after := Trace(log, hedge, MarketTemplate(opp, leg.Other(), leg.Other().EntrySide(), size));
            SurelyLevel(log, after, hedge, from, opp, known) <==> UnverifiedCount(hedge) == 0 && Counted(hedge) == gap
  {
    var next := BookFrom(EMPTY_BOOK, log).next;
    JoinedExactIff(hedge, next, hi, known, gap);
    forall fills: nat -> real | MayHaveTraded(hedge, next, known, fills)
      ensures Level(Trace(log, hedge, MarketTemplate(opp, leg.Other(), leg.Other().EntrySide(), size)), from, opp, fills) <==>
              Exposure(hedge, fills) == gap
    {
      PositionAgrees(log, from, opp.exchanges.long, fills, known);
      PositionAgrees(log, from, opp.exchanges.short, fills, known);
      HedgePosition(log, hedge, opp, leg, size, from, next, hi, opp.exchanges.long, fills);
      HedgePosition(log, hedge, opp, leg, size, from, next, hi, opp.exchanges.short, fills);
    }
  }

  /** What was bought on one exchange was sold on the other. */
  ghost predicate Level(log: History<Event>, from: nat, opp: Opportunity, fills: nat -> real) {
    Position(log, from, opp.exchanges.long, fills) + Position(log, from, opp.exchanges.short, fills) == 0.0
  }

  /** They are level whatever the hedge after `base` traded, with the fills of all earlier orders known. */
  ghost predicate SurelyLevel(base: History<Event>, log: History<Event>, hedge: Attempts, from: nat, opp: Opportunity,
                              known: nat -> real) {
    forall fills: nat -> real ::
      MayHaveTraded(hedge, BookFrom(EMPTY_BOOK, base).next, known, fills) ==> Level(log, from, opp, fills)
  }

  /**
   After an in-loop hedge the two exchanges are sure to be level, whatever the unverified hedge orders traded, if
   and only if every accepted one was verified and the hedged leg's limit orders traded just what the filled
   leg's replaced ones did: nobody asks again about any of them.
   */
  lemma LoopHedgeLevelIff(opp: Opportunity, s: EntryState, leg: Leg, cover: Cover, rest: Rest, chased: History<Placement>,
                          max: nat, before: History<Event>, quantity: real, log: History<Event>, known: nat -> real)
    requires opp.exchanges.long != opp.exchanges.short && Entered(rest, chased, max, before, opp, quantity)
    requires cover.InLoop? && !cover.how.Raced() && s.orders.At(leg).size > 0.0 && ReportsWithin(cover.how.hedging.hedge)
    requires Covered(opp, s, leg, cover, rest.view, log) && FromChase(s, leg, cover, rest, chased, log)
    ensures var own, hedged := LegTraded(leg, rest, chased, known), LegTraded(leg.Other(), rest, chased, known);
            var hedge := cover.how.hedging.hedge;
            SurelyLevel(HedgeBase(cover, leg), log, hedge, BookFrom(EMPTY_BOOK, before).next, opp, known)
            <==> UnverifiedCount(hedge) == 0 && hedged == own - s.orders.At(leg).size
  {
    var from, how, h := BookFrom(EMPTY_BOOK, before).next, cover.how, cover.how.hedging;
    var base, own := HedgeBase(cover, leg), LegTraded(leg, rest, chased, known);
    NothingYet(rest, before, opp, quantity, Traded("", known));
    QuietBeforeHedge(cover.before, cover.polled, leg, how.l, how.sh, h.depth, h.acked, from, "", known);
    ChasePosition(base, chased, rest, max, before, opp, quantity, opp.exchanges.long, known);
    ChasePosition(base, chased, rest, max, before, opp, quantity, opp.exchanges.short, known);
    SizedIsPositive(s.orders.At(leg).size, h.hedge);
    CountsExactly(s.orders.At(leg).size, h.hedge, BookFrom(EMPTY_BOOK, base).next, BookFrom(EMPTY_BOOK, log).next);
    LevelIff(base, h.hedge, opp, leg, s.orders.At(leg).size, from, BookFrom(EMPTY_BOOK, log).next, known,
             own - LegTraded(leg.Other(), rest, chased, known));
  }

  /** The log before the market orders of an in-loop hedge. */
  function HedgeBase(cover: Cover, leg: Leg): History<Event>
    requires cover.InLoop?
  {
    CancelCalls(RaceAsked(cover.before, cover.polled, cover.how.l, cover.how.sh), cover.polled, leg,
                cover.how.hedging.depth, cover.how.hedging.acked)
  }

  lemma CountsExactly(target: real, hedge: Attempts, lo: nat, hi: nat)
    requires target > 0.0 && SizedAtRemainder(target, hedge) && hedge.Length() <= MAX_HEDGE_RETRIES
    requires Counted(hedge) >= target && Increasing(hedge, lo, hi) && ReportsWithin(hedge)
    ensures Counted(hedge) == target
  {
    IncreasingIsDistinct(hedge, lo, hi);
    SizedIsPositive(target, hedge);
    FillsAreHonest(hedge, false);
    HedgeExposure(target, hedge, Fills(hedge, false));
  }

  /**
   After a final hedge whose reports stay within their orders the exchanges are sure to be level if and only if
   every accepted market order was verified and the hedged leg's limit orders, the aggressive one included, traded
   beyond what the filled leg's replaced ones did just what they were counted for.
   */
  lemma FinalHedgeLevelIff(opp: Opportunity, s: EntryState, leg: Leg, cover: Cover, rest: Rest, chased: History<Placement>,
                           max: nat, before: History<Event>, quantity: real, log: History<Event>, known: nat -> real)
    requires opp.exchanges.long != opp.exchanges.short && Entered(rest, chased, max, before, opp, quantity)
    requires cover.FinalCover? && s.orders.At(leg).size > 0.0 && ReportsWithin(cover.run.hedge)
    requires Covered(opp, s, leg, cover, rest.view, log) && FromChase(s, leg, cover, rest, chased, log)
    requires 0.0 <= cover.run.FromCancelled() <= s.orders.At(leg).size
    requires 0.0 <= cover.run.limit.Filled() <= s.orders.At(leg).size - cover.run.FromCancelled()
    ensures var run, own := cover.run, LegTraded(leg, rest, chased, known);
            var hedged := LegTraded(leg.Other(), rest, chased, known) + run.limit.Moved(known);
            var base := run.BeforeHedge(cover.base, opp, leg, cover.cancelled, s.orders.At(leg).size);
            SurelyLevel(base, log, run.hedge, BookFrom(EMPTY_BOOK, before).next, opp, known)
            <==> UnverifiedCount(run.hedge) == 0 && hedged - run.BeforeMarket() == own - s.orders.At(leg).size
  {
    FinalGap(opp, s, leg, cover, rest, chased, max, before, quantity, log, known);
    CompletedLevel(cover.base, cover.run, cover.cancelled, s, leg, opp, rest.view, log, BookFrom(EMPTY_BOOK, before).next,
                   known,
                   LegTraded(leg, rest, chased, known) -
                   (LegTraded(leg.Other(), rest, chased, known) + cover.run.limit.Moved(known)));
  }

  lemma CompletedLevel(start: History<Event>, run: FinalHedgeRun, cancelled: Order, s: EntryState, leg: Leg, opp: Opportunity,
                       resting: Book, log: History<Event>, from: nat, known: nat -> real, gap: real)
    requires CompletedFrom(start, run, cancelled, s, leg, opp, resting, log) && opp.exchanges.long != opp.exchanges.short
    requires var size := s.orders.At(leg).size;
             && ReportsWithin(run.hedge) && 0.0 <= run.FromCancelled() <= size
             && 0.0 <= run.limit.Filled() <= size - run.FromCancelled()
    requires var base := run.BeforeHedge(start, opp, leg, cancelled, s.orders.At(leg).size);
             && from <= BookFrom(EMPTY_BOOK, base).next
             && Position(base, from, opp.exchanges.long, known) + Position(base, from, opp.exchanges.short, known) ==
                Towards(leg.EntrySide(), gap)
    ensures var base := run.BeforeHedge(start, opp, leg, cancelled, s.orders.At(leg).size);
            SurelyLevel(base, log, run.hedge, from, opp, known)
            <==> UnverifiedCount(run.hedge) == 0 && s.orders.At(leg).size - run.BeforeMarket() == gap
  {
    var size := s.orders.At(leg).size;
    var base := run.BeforeHedge(start, opp, leg, cancelled, size);
    FinalCountsExactly(run, size, BookFrom(EMPTY_BOOK, base).next, BookFrom(EMPTY_BOOK, log).next);
    FinalLevel(base, log, run, size, opp, leg, from, known, gap);
  }

  lemma FinalLevel(base: History<Event>, log: History<Event>, run: FinalHedgeRun, size: real, opp: Opportunity, leg: Leg,
                   from: nat, known: nat -> real, gap: real)
    requires opp.exchanges.long != opp.exchanges.short && from <= BookFrom(EMPTY_BOOK, base).next
    requires Increasing(run.hedge, BookFrom(EMPTY_BOOK, base).next, BookFrom(EMPTY_BOOK, log).next)
    requires ReportsWithin(run.hedge) && PositiveSizes(run.hedge) && run.Total() == size
    requires var left := size - run.FromCancelled() - run.limit.Filled();
             log == Trace(base, run.hedge, MarketTemplate(opp, leg.Other(), leg.Other().EntrySide(), left))
    requires Position(base, from, opp.exchanges.long, known) + Position(base, from, opp.exchanges.short, known) ==
             Towards(leg.EntrySide(), gap)
    ensures SurelyLevel(base, log, run.hedge, from, opp, known)
            <==> UnverifiedCount(run.hedge) == 0 && size - run.BeforeMarket() == gap
  {
    LevelIff(base, run.hedge, opp, leg, size - run.FromCancelled() - run.limit.Filled(), from, BookFrom(EMPTY_BOOK, log).next,
             known, gap);
  }

  // How far the exchanges are apart before the market orders of a final hedge.
  lemma FinalGap(opp: Opportunity, s: EntryState, leg: Leg, cover: Cover, rest: Rest, chased: History<Placement>, max: nat,
                 before: History<Event>, quantity: real, log: History<Event>, known: nat -> real)
    requires opp.exchanges.long != opp.exchanges.short && Entered(rest, chased, max, before, opp, quantity)
    requires cover.FinalCover? && Covered(opp, s, leg, cover, rest.view, log) && FromChase(s, leg, cover, rest, chased, log)
    ensures var run, from := cover.run, BookFrom(EMPTY_BOOK, before).next;
            var base := run.BeforeHedge(cover.base, opp, leg, cover.cancelled, s.orders.At(leg).size);
            var hedged := LegTraded(leg.Other(), rest, chased, known) + run.limit.Moved(known);
            && Position(base, from, opp.exchanges.long, known) + Position(base, from, opp.exchanges.short, known) ==
               Towards(leg.EntrySide(), LegTraded(leg, rest, chased, known) - hedged)
            && from <= BookFrom(EMPTY_BOOK, base).next
  {
    var from, run, size := BookFrom(EMPTY_BOOK, before).next, cover.run, s.orders.At(leg).size;
    NothingYet(rest, before, opp, quantity, Traded("", known));
    ChasePosition(cover.base, chased, rest, max, before, opp, quantity, opp.exchanges.long, known);
    ChasePosition(cover.base, chased, rest, max, before, opp, quantity, opp.exchanges.short, known);
    LimitPosition(run, cover.base, opp, leg, cover.cancelled, size, from, opp.exchanges.long, known);
    LimitPosition(run, cover.base, opp, leg, cover.cancelled, size, from, opp.exchanges.short, known);
    BeforeHedgeNext(run, cover.base, opp, leg, cover.cancelled, size);
  }

  lemma FinalCountsExactly(run: FinalHedgeRun, size: real, lo: nat, hi: nat)
    requires run.Accounts(size) && run.Total() >= size && Increasing(run.hedge, lo, hi) && ReportsWithin(run.hedge)
    requires 0.0 <= run.FromCancelled() <= size && 0.0 <= run.limit.Filled() <= size - run.FromCancelled()
    ensures run.Total() == size && PositiveSizes(run.hedge)
  {
    IncreasingIsDistinct(run.hedge, lo, hi);
    SizedIsPositive(size - run.BeforeMarket(), run.hedge);
    FillsAreHonest(run.hedge, false);
    FinalHedgeAccounting(run, size, Fills(run.hedge, false));
  }

  // ---- Runs that failed ----

  /** The limit orders are those of the chase and at most one more on another exchange. */
  ghost predicate AsideFrom(limits: History<Placement>, chased: History<Placement>, exchange: string) {
    limits == chased || (limits.Then? && limits.before == chased && limits.last.order.exchange == exchange)
  }

  lemma FailedLimits(run: RunRecord, opp: Opportunity, cfg: Config, budget: nat, s: EntryState, e: EntryError,
                     log: History<Event>, lockWasFree: bool)
    requires opp.prices.long != 0.0 && RunIsOver(run, opp, cfg, budget, s, Some(e), log, lockWasFree) && e.AfterClose()
    ensures AsideFrom(BookFrom(EMPTY_BOOK, log).limits, run.Chased(), opp.exchanges.At(e.leg.Other()))
    ensures Disciplined(run.Chased(), run.rest, cfg.maxReprices) && OwnOrders(s, run.rest, run.Chased())
  {
    if run.made.Some? {
      var c :| FailedCalls(e, run.made.value.run, c, opp, run.made.value.leg, s, run.CheckCalls(), log);
    }
  }

  /** Replacements stay on their first order's exchange and side. */
  lemma CurrentKeeps(first: Order, chain: History<Placement>)
    requires Replaces(first, chain)
    ensures CurrentOrder(first, chain).exchange == first.exchange && CurrentOrder(first, chain).side == first.side
  {
  }

  /** The filled leg's position when its close begins: what its limit orders have traded. */
  lemma OpenPosition(base: History<Event>, rest: Rest, chased: History<Placement>, max: nat, before: History<Event>,
                     opp: Opportunity, quantity: real, leg: Leg, most: nat, fills: nat -> real)
    requires opp.exchanges.long != opp.exchanges.short && Entered(rest, chased, max, before, opp, quantity)
    requires var view, other := BookFrom(EMPTY_BOOK, base), opp.exchanges.At(leg.Other());
             && AsideFrom(view.limits, chased, other)
             && OrdersSince(view.markets, rest.view.markets, other, leg.Other().EntrySide(), most)
    ensures Position(base, BookFrom(EMPTY_BOOK, before).next, opp.exchanges.At(leg), fills) ==
            Towards(leg.EntrySide(), LegTraded(leg, rest, chased, fills))
  {
    var from, exchange := BookFrom(EMPTY_BOOK, before).next, opp.exchanges.At(leg);
    var view := BookFrom(EMPTY_BOOK, base);
    SumByBook(base, from, Traded(exchange, fills));
    NothingYet(rest, before, opp, quantity, Traded(exchange, fills));
    OrdersElsewhere(view.markets, rest.view.markets, opp.exchanges.At(leg.Other()), leg.Other().EntrySide(), most, from,
                    exchange, fills);
    ChasePlaced(chased, rest, max, before, opp, quantity, exchange, fills);
  }

  /**
   A run that failed after a fill ends with its filled leg's close. Its position on that leg's exchange is sure to
   be zero, whatever the unverified close orders traded, if and only if every accepted one was verified and the
   reports sum to what the leg's limit orders had traded.
   */
  lemma FailedRunIsFlatIff(run: RunRecord, opp: Opportunity, cfg: Config, budget: nat, s: EntryState, e: EntryError,
                           before: History<Event>, quantity: real, log: History<Event>, lockWasFree: bool, known: nat -> real)
    returns (base: History<Event>, c: Closing)
    requires opp.prices.long != 0.0 && opp.exchanges.long != opp.exchanges.short
    requires BothAccepted(run.rest, before, opp, quantity)
    requires RunIsOver(run, opp, cfg, budget, s, Some(e), log, lockWasFree) && e.AfterClose()
    requires s.orders.At(e.leg).size > 0.0
    ensures ClosedBy(e, base, c, s, opp, run.rest.view, log)
    ensures ReportsWithin(c.All()) ==>
              ((forall fills: nat -> real :: MayHaveTraded(c.All(), BookFrom(EMPTY_BOOK, base).next, known, fills) ==>
                  Position(log, BookFrom(EMPTY_BOOK, before).next, opp.exchanges.At(e.leg), fills) == 0.0)
               <==> UnverifiedCount(c.All()) == 0 && Counted(c.All()) == LegTraded(e.leg, run.rest, run.Chased(), known))
  {
    FailedLimits(run, opp, cfg, budget, s, e, log, lockWasFree);
    base, c :| ClosedBy(e, base, c, s, opp, run.rest.view, log);
    if ReportsWithin(c.All()) {
      ClosedRunIsFlatIff(e, base, c, s, opp, run.rest, run.Chased(), cfg.maxReprices, before, quantity, log, known);
    }
  }

  lemma ClosedRunIsFlatIff(e: EntryError, base: History<Event>, c: Closing, s: EntryState, opp: Opportunity, rest: Rest,
                           chased: History<Placement>, max: nat, before: History<Event>, quantity: real, log: History<Event>,
                           known: nat -> real)
    requires opp.exchanges.long != opp.exchanges.short && Entered(rest, chased, max, before, opp, quantity)
    requires e.AfterClose() && ClosedBy(e, base, c, s, opp, rest.view, log) && OwnOrders(s, rest, chased)
    requires AsideFrom(BookFrom(EMPTY_BOOK, log).limits, chased, opp.exchanges.At(e.leg.Other()))
    requires s.orders.At(e.leg).size > 0.0 && ReportsWithin(c.All())
    ensures (forall fills: nat -> real :: MayHaveTraded(c.All(), BookFrom(EMPTY_BOOK, base).next, known, fills) ==>
               Position(log, BookFrom(EMPTY_BOOK, before).next, opp.exchanges.At(e.leg), fills) == 0.0)
            <==> UnverifiedCount(c.All()) == 0 && Counted(c.All()) == LegTraded(e.leg, rest, chased, known)
  {
    var from, own := BookFrom(EMPTY_BOOK, before).next, s.orders.At(e.leg);
    ClosedIsKnown(e, base, c, s, opp, rest.view, log);
    OpenPosition(base, rest, chased, max, before, opp, quantity, e.leg, e.HedgesTried(), known);
    CurrentKeeps(rest.orders.At(e.leg), rest.Chain(e.leg, chased));
    NothingYet(rest, before, opp, quantity, Traded("", known));
    ClosingIsFlatIff(own, c, !e.CloseFailed(), base, from, known, LegTraded(e.leg, rest, chased, known),
                     BookFrom(EMPTY_BOOK, log).next);
  }

  /** A run that gave up, or was left alone with its lock taken, holds what its two legs' limit orders have traded. */
  lemma GivenUpPosition(run: RunRecord, opp: Opportunity, cfg: Config, budget: nat, s: EntryState, e: EntryError,
                        before: History<Event>, quantity: real, log: History<Event>, lockWasFree: bool, exchange: string,
                        fills: nat -> real)
    requires opp.prices.long != 0.0 && BothAccepted(run.rest, before, opp, quantity)
    requires RunIsOver(run, opp, cfg, budget, s, Some(e), log, lockWasFree) && (e.NothingFilled() || e.LockBusy?)
    ensures Position(log, BookFrom(EMPTY_BOOK, before).next, exchange, fills) ==
            Net(opp, exchange, LegTraded(LongLeg, run.rest, run.Chased(), fills),
                LegTraded(ShortLeg, run.rest, run.Chased(), fills))
  {
    if run.made.Some? {
      var c :| FailedCalls(e, run.made.value.run, c, opp, run.made.value.leg, s, run.CheckCalls(), log);
    }
    ChasePosition(log, run.Chased(), run.rest, cfg.maxReprices, before, opp, quantity, exchange, fills);
  }
}
