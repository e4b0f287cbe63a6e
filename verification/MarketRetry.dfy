/**
 Market orders that are verified and retried: the remainder-sized retry used for hedges and the
 full-size retry used for emergency closes. A run is a history of attempts; the calls it makes are
 exactly the calls of those attempts.
 */
module MarketRetry {
  import opened Wrappers
  import opened Exchange
  import opened Numbers
  import opened Positions

  datatype Attempt =
    | Rejected(size: real, error: ApiError)
    | Unverified(id: nat, size: real)
    | Verified(id: nat, size: real, info: StatusInfo)
  {
    // The log after the calls this attempt makes.
    function Extend(log: History<Event>, template: Order): History<Event> {
      match this
      case Rejected(s, _) => Then(log, Submitted(template.(size := s), None))
      case Unverified(id, s) => Then(Then(log, Submitted(template.(size := s), Some(id))), Queried(id, None))
      case Verified(id, s, info) => Then(Then(log, Submitted(template.(size := s), Some(id))), Queried(id, Some(info)))
    }

    // What the report says was filled; an attempt without a report counts for nothing.
    function Reported(): real { if Verified? then info.filled else 0.0 }

    // What really traded, given the final fill of each accepted order.
    function Actual(fills: nat -> real): real { if Rejected? then 0.0 else fills(id) }

    predicate Confirmed() { Verified? && info.status == Filled }
  }

  type Attempts = History<Attempt>

  /** The log after a whole run, every order made from the same template. */
  function Trace(log: History<Event>, attempts: Attempts, template: Order): History<Event> {
    match attempts
    case Start => log
    case Then(before, a) => a.Extend(Trace(log, before, template), template)
  }

  function Counted(attempts: Attempts): real {
    match attempts
    case Start => 0.0
    case Then(before, a) => Counted(before) + a.Reported()
  }

  function Exposure(attempts: Attempts, fills: nat -> real): real {
    match attempts
    case Start => 0.0
    case Then(before, a) => Exposure(before, fills) + a.Actual(fills)
  }

  /** The ids of the accepted orders. */
  function Ids(attempts: Attempts): set<nat> {
    match attempts
    case Start => {}
    case Then(before, a) => if a.Rejected? then Ids(before) else Ids(before) + {a.id}
  }

  predicate Distinct(attempts: Attempts) {
    attempts.Then? ==> Distinct(attempts.before) && (attempts.last.Rejected? || attempts.last.id !in Ids(attempts.before))
  }

  /** The accepted ids rise from `lo` to below `hi`. */
  predicate Increasing(attempts: Attempts, lo: nat, hi: nat) {
    match attempts
    case Start => lo <= hi
    case Then(before, a) => if a.Rejected? then Increasing(before, lo, hi) else a.id < hi && Increasing(before, lo, a.id)
  }

  lemma {:induction false} IncreasingWidens(attempts: Attempts, lo: nat, hi: nat, lo': nat, hi': nat)
    requires Increasing(attempts, lo, hi) && lo' <= lo && hi <= hi'
    ensures Increasing(attempts, lo', hi')
  {
    match attempts
    case Start =>
    case Then(before, a) =>
      IncreasingWidens(before, lo, if a.Rejected? then hi else a.id, lo', if a.Rejected? then hi' else a.id);
  }

  lemma {:induction false} IncreasingPlus(a: Attempts, b: Attempts, lo: nat, mid: nat, hi: nat)
    requires Increasing(a, lo, mid) && Increasing(b, mid, hi)
    ensures Increasing(a.Plus(b), lo, hi)
  {
    match b
    case Start => IncreasingWidens(a, lo, mid, lo, hi);
    case Then(before, x) => IncreasingPlus(a, before, lo, mid, if x.Rejected? then hi else x.id);
  }

  lemma {:induction false} IncreasingIsDistinct(attempts: Attempts, lo: nat, hi: nat)
    requires Increasing(attempts, lo, hi)
    ensures Distinct(attempts) && forall id :: id in Ids(attempts) ==> lo <= id < hi
    ensures lo <= hi
  {
    match attempts
    case Start =>
    case Then(before, a) => IncreasingIsDistinct(before, lo, if a.Rejected? then hi else a.id);
  }

  function UnverifiedCount(attempts: Attempts): nat {
    match attempts
    case Start => 0
    case Then(before, a) => UnverifiedCount(before) + (if a.Unverified? then 1 else 0)
  }

  // The order an attempt sends, and whether it was accepted.
  function Sending(a: Attempt, template: Order): Event {
    Submitted(template.(size := a.size), if a.Rejected? then None else Some(a.id))
  }

  lemma AttemptRests(log: History<Event>, a: Attempt, template: Order)
    requires template.kind == Market
    ensures var before, after := BookFrom(EMPTY_BOOK, log), BookFrom(EMPTY_BOOK, a.Extend(log, template));
            after.SameResting(before) && after.markets == Then(before.markets, Sending(a, template))
  {
    var sent := Then(log, Sending(a, template));
    assert BookFrom(EMPTY_BOOK, sent).SameResting(BookFrom(EMPTY_BOOK, log));
    assert BookFrom(EMPTY_BOOK, sent).markets == Then(BookFrom(EMPTY_BOOK, log).markets, Sending(a, template));
  }

  /** Market attempts rest nothing and cancel nothing. */
  lemma {:induction false} TraceRests(log: History<Event>, attempts: Attempts, template: Order)
    requires template.kind == Market
    ensures BookFrom(EMPTY_BOOK, Trace(log, attempts, template)).SameResting(BookFrom(EMPTY_BOOK, log))
  {
    if attempts.Then? {
      TraceRests(log, attempts.before, template);
      AttemptRests(Trace(log, attempts.before, template), attempts.last, template);
    }
  }

  /** Each attempt sends one order, on the template's exchange and side. */
  lemma {:induction false} TraceSends(log: History<Event>, attempts: Attempts, template: Order, most: nat)
    requires template.kind == Market && attempts.Length() <= most
    ensures OrdersSince(BookFrom(EMPTY_BOOK, Trace(log, attempts, template)).markets, BookFrom(EMPTY_BOOK, log).markets,
                        template.exchange, template.side, most)
  {
    if attempts.Then? {
      TraceSends(log, attempts.before, template, most - 1);
      AttemptRests(Trace(log, attempts.before, template), attempts.last, template);
    }
  }

  /** A run moves the position on its exchange by all it traded, towards its side, and no other position. */
  lemma {:induction false} TracePosition(log: History<Event>, attempts: Attempts, template: Order, from: nat,
                                         exchange: string, fills: nat -> real)
    requires forall id :: id in Ids(attempts) ==> from <= id
    ensures Position(Trace(log, attempts, template), from, exchange, fills) ==
            Position(log, from, exchange, fills) +
            (if template.exchange == exchange then Towards(template.side, Exposure(attempts, fills)) else 0.0)
  {
    if attempts.Then? {
      assert Ids(attempts.before) <= Ids(attempts);
      TracePosition(log, attempts.before, template, from, exchange, fills);
      assert !attempts.last.Rejected? ==> attempts.last.id in Ids(attempts);
      AttemptPosition(Trace(log, attempts.before, template), attempts.last, template, from, exchange, fills);
    }
  }

  lemma AttemptPosition(log: History<Event>, a: Attempt, template: Order, from: nat, exchange: string, fills: nat -> real)
    requires !a.Rejected? ==> from <= a.id
    ensures Position(a.Extend(log, template), from, exchange, fills) ==
            Position(log, from, exchange, fills) +
            (if template.exchange == exchange then Towards(template.side, a.Actual(fills)) else 0.0)
  {
    assert Position(Then(log, Sending(a, template)), from, exchange, fills) ==
           Position(a.Extend(log, template), from, exchange, fills);
  }

  /** One attempt: submit at the given size and, once accepted, ask for its status. */
  method SubmitAndVerify(b: Backend, template: Order, size: real)
    returns (placed: Result<Order, ApiError>, answer: Option<StatusInfo>, ghost a: Attempt)
    requires template.kind == Market
    modifies b
    ensures b.log == a.Extend(old(b.log), template)
    ensures a == match placed
                 case Err(e) => Rejected(size, e)
                 case Ok(o) => if answer.Some? then Verified(o.id, size, answer.value) else Unverified(o.id, size)
    ensures placed.Ok? ==> placed.value == template.(id := placed.value.id, size := size)
    ensures !a.Rejected? ==> old(b.View()).next <= a.id < b.View().next
    ensures old(b.View()).next <= b.View().next
  {
    placed := b.Place(template.(size := size));
    answer := None;
    if placed.Ok? {
      answer := b.Query(placed.value.id);
      a := if answer.Some? then Verified(placed.value.id, size, answer.value) else Unverified(placed.value.id, size);
    } else {
      a := Rejected(size, placed.error);
    }
  }

  const MAX_HEDGE_RETRIES: nat := 3

  /** Every order is sized at exactly what the reports so far leave over, and something is left over. */
  ghost predicate SizedAtRemainder(target: real, attempts: Attempts) {
    match attempts
    case Start => true
    case Then(before, a) => SizedAtRemainder(target, before) && a.size == target - Counted(before) && a.size > 0.0
  }

  /** place_market_order_with_retry. */
  method PlaceMarketOrderWithRetry(b: Backend, template: Order, target: real)
    returns (r: Result<Order, ApiError>, ghost attempts: Attempts)
    requires template.kind == Market
    modifies b
    ensures b.log == Trace(old(b.log), attempts, template)
    ensures SizedAtRemainder(target, attempts)
    ensures attempts.Length() <= MAX_HEDGE_RETRIES
    ensures r.Ok? <==> Counted(attempts) >= target
    ensures r.Err? ==> attempts.Length() == MAX_HEDGE_RETRIES
    ensures r.Ok? ==> r.value == template.(id := r.value.id, size := Counted(attempts))
    ensures r.Ok? && attempts.Then? ==> attempts.last.Verified? && attempts.last.id == r.value.id
    ensures b.View().SameResting(old(b.View()))
    ensures Increasing(attempts, old(b.View()).next, b.View().next)
  {
    var totalFilled := 0.0;
    var lastOrder := template;
    attempts := Start;
    var attempt := 1;
    while attempt <= MAX_HEDGE_RETRIES
      invariant 1 <= attempt <= MAX_HEDGE_RETRIES + 1
      invariant attempts.Length() == attempt - 1
      invariant b.log == Trace(old(b.log), attempts, template)
      invariant SizedAtRemainder(target, attempts)
      invariant totalFilled == Counted(attempts)
      invariant attempts.Then? ==> totalFilled < target
      invariant attempts.Start? ==> lastOrder == template
      invariant Increasing(attempts, old(b.View()).next, b.View().next)
    {
      var remaining := target - totalFilled;
      if remaining <= 0.0 {
        r := Ok(lastOrder.(size := totalFilled));
        TraceRests(old(b.log), attempts, template);
        return;
      }
      ghost var next := b.View().next;
      var placed, answer, a := SubmitAndVerify(b, template, remaining);
      IncreasingWidens(attempts, old(b.View()).next, next, old(b.View()).next, if a.Rejected? then b.View().next else a.id);
      attempts := Then(attempts, a);
      match placed {
        case Err(e) =>
          if attempt == MAX_HEDGE_RETRIES {
            r := Err(e);
            TraceRests(old(b.log), attempts, template);
            return;
          }
        case Ok(filledOrder) =>
          lastOrder := filledOrder;
          match answer {
            case Some(info) =>
              totalFilled := totalFilled + info.filled;
              if totalFilled >= target {
                r := Ok(lastOrder.(size := totalFilled));
                TraceRests(old(b.log), attempts, template);
                return;
              }
            case None =>
              if attempt >= MAX_HEDGE_RETRIES {
                r := Err(OtherError);
                TraceRests(old(b.log), attempts, template);
                return;
              }
          }
      }
      attempt := attempt + 1;
    }
    r := Err(OtherError);
    TraceRests(old(b.log), attempts, template);
  }

  /** No order trades more than its size, and a report that arrives tells the final fill. */
  ghost predicate HonestFills(attempts: Attempts, fills: nat -> real) {
    match attempts
    case Start => true
    case Then(before, a) =>
      && HonestFills(before, fills)
      && (!a.Rejected? ==> 0.0 <= fills(a.id) <= a.size)
      && (a.Verified? ==> a.info.filled == fills(a.id))
  }

  lemma {:induction false} ExposureSplit(target: real, attempts: Attempts, fills: nat -> real)
    requires SizedAtRemainder(target, attempts) && HonestFills(attempts, fills)
    ensures 0.0 <= Counted(attempts) <= Exposure(attempts, fills)
    ensures attempts.Then? ==> Counted(attempts) <= target
    ensures Exposure(attempts, fills) <= Counted(attempts) + Multiple(UnverifiedCount(attempts), target)
    ensures UnverifiedCount(attempts) <= attempts.Length()
  {
    match attempts
    case Start =>
    case Then(before, a) =>
      ExposureSplit(target, before, fills);
      assert a.size <= target;
  }

  /**
   A hedge that returns Ok has counted exactly its target; what really traded is the target plus
   whatever the unverified orders traded, at most two targets more, and nothing more when every
   verification came through.
   */
  lemma HedgeExposure(target: real, attempts: Attempts, fills: nat -> real)
    requires target > 0.0 && attempts.Length() <= MAX_HEDGE_RETRIES
    requires SizedAtRemainder(target, attempts) && HonestFills(attempts, fills)
    requires Counted(attempts) >= target
    ensures Counted(attempts) == target
    ensures target <= Exposure(attempts, fills) <= 3.0 * target
    ensures UnverifiedCount(attempts) == 0 ==> Exposure(attempts, fills) == target
  {
    ExposureSplit(target, attempts, fills);
    ExposureSplit(target, attempts.before, fills);
    // The last attempt must be the one whose report completed the count.
    assert Counted(attempts.before) < target && attempts.last.Verified?;
    assert UnverifiedCount(attempts) <= 2;
    MultipleIsProduct(1, target);
    MultipleIsProduct(2, target);
  }

  // ---- What a run's reports settle ----

  predicate ReportsWithin(attempts: Attempts) {
    attempts.Then? ==>
      && ReportsWithin(attempts.before)
      && (attempts.last.Verified? ==> 0.0 <= attempts.last.info.filled <= attempts.last.size)
  }

  predicate PositiveSizes(attempts: Attempts) {
    attempts.Then? ==> attempts.last.size > 0.0 && PositiveSizes(attempts.before)
  }

  /** The fills in which every report is the truth and the unreported orders traded all or nothing. */
  function FillOf(attempts: Attempts, unseen: bool, id: nat): real {
    match attempts
    case Start => 0.0
    case Then(before, a) =>
      if a.Rejected? || a.id != id then FillOf(before, unseen, id)
      else if a.Verified? then a.info.filled
      else if unseen then a.size else 0.0
  }

  function Fills(attempts: Attempts, unseen: bool): nat -> real { (id: nat) => FillOf(attempts, unseen, id) }

  lemma {:induction false} FillsAgree(attempts: Attempts, f: nat -> real, g: nat -> real)
    requires HonestFills(attempts, f) && forall id :: id in Ids(attempts) ==> f(id) == g(id)
    ensures HonestFills(attempts, g) && Exposure(attempts, f) == Exposure(attempts, g)
  {
    if attempts.Then? { FillsAgree(attempts.before, f, g); }
  }

  lemma {:induction false} FillsAreHonest(attempts: Attempts, unseen: bool)
    requires Distinct(attempts) && ReportsWithin(attempts) && PositiveSizes(attempts)
    ensures var fills := Fills(attempts, unseen);
            && HonestFills(attempts, fills)
            && Exposure(attempts, fills) >= Counted(attempts)
            && (Exposure(attempts, fills) == Counted(attempts) <==> !unseen || UnverifiedCount(attempts) == 0)
  {
    match attempts
    case Start =>
    case Then(before, a) =>
      FillsAreHonest(before, unseen);
      FillsAgree(before, Fills(before, unseen), Fills(attempts, unseen));
  }

  lemma {:induction false} VerifiedIsExact(attempts: Attempts, fills: nat -> real)
    requires HonestFills(attempts, fills) && UnverifiedCount(attempts) == 0
    ensures Exposure(attempts, fills) == Counted(attempts)
  {
    if attempts.Then? { VerifiedIsExact(attempts.before, fills); }
  }

  /**
   A run is known to have traded exactly `x`, whatever its unreported orders did, if and only if every
   accepted order was verified and the reports sum to `x`.
   */
  lemma ExactIff(attempts: Attempts, x: real)
    requires Distinct(attempts) && ReportsWithin(attempts) && PositiveSizes(attempts)
    ensures (forall fills: nat -> real :: HonestFills(attempts, fills) ==> Exposure(attempts, fills) == x)
            <==> UnverifiedCount(attempts) == 0 && Counted(attempts) == x
  {
    FillsAreHonest(attempts, true);
    FillsAreHonest(attempts, false);
    forall fills: nat -> real | HonestFills(attempts, fills) && UnverifiedCount(attempts) == 0
      ensures Exposure(attempts, fills) == Counted(attempts)
    {
      VerifiedIsExact(attempts, fills);
    }
  }

  /** The fills a run may have had, with those of all orders before `bound` known. */
  ghost predicate MayHaveTraded(attempts: Attempts, bound: nat, known: nat -> real, fills: nat -> real) {
    HonestFills(attempts, fills) && forall id: nat :: id < bound ==> fills(id) == known(id)
  }

  /** The same with the fills of earlier orders known. */
  lemma JoinedExactIff(attempts: Attempts, lo: nat, hi: nat, known: nat -> real, x: real)
    requires Increasing(attempts, lo, hi) && ReportsWithin(attempts) && PositiveSizes(attempts)
    ensures (forall fills: nat -> real :: MayHaveTraded(attempts, lo, known, fills) ==> Exposure(attempts, fills) == x)
            <==> UnverifiedCount(attempts) == 0 && Counted(attempts) == x
  {
    IncreasingIsDistinct(attempts, lo, hi);
    ExactIff(attempts, x);
    forall f: nat -> real | HonestFills(attempts, f)
      ensures MayHaveTraded(attempts, lo, known, Joined(known, lo, f))
      ensures Exposure(attempts, Joined(known, lo, f)) == Exposure(attempts, f)
    {
      FillsAgree(attempts, f, Joined(known, lo, f));
    }
  }

  /** A hedge that returns Ok is sure to have traded exactly its target if and only if every accepted order was verified. */
  lemma HedgeExactIff(target: real, attempts: Attempts, lo: nat, hi: nat)
    requires target > 0.0 && attempts.Length() <= MAX_HEDGE_RETRIES
    requires SizedAtRemainder(target, attempts) && Counted(attempts) >= target
    requires Increasing(attempts, lo, hi) && ReportsWithin(attempts)
    ensures (forall fills: nat -> real :: HonestFills(attempts, fills) ==> Exposure(attempts, fills) == target)
            <==> UnverifiedCount(attempts) == 0
  {
    IncreasingIsDistinct(attempts, lo, hi);
    SizedIsPositive(target, attempts);
    FillsAreHonest(attempts, false);
    HedgeExposure(target, attempts, Fills(attempts, false));
    ExactIff(attempts, target);
  }

  lemma {:induction false} SizedIsPositive(target: real, attempts: Attempts)
    requires SizedAtRemainder(target, attempts)
    ensures PositiveSizes(attempts)
  {
    if attempts.Then? { SizedIsPositive(target, attempts.before); }
  }

  /** The factor three is reached: two orders fill unseen and the third one is reported. */
  lemma TripleExposureHappens(target: real) returns (attempts: Attempts, fills: nat -> real)
    requires target > 0.0
    ensures SizedAtRemainder(target, attempts) && HonestFills(attempts, fills)
    ensures attempts.Length() == MAX_HEDGE_RETRIES && Counted(attempts) >= target
    ensures Exposure(attempts, fills) == 3.0 * target && Increasing(attempts, 1, 4)
  {
    var seen := Verified(3, target, StatusInfo(Filled, target, target));
    var unseen := Then(One(Unverified(1, target)), Unverified(2, target));
    attempts := Then(unseen, seen);
    fills := id => target;
    var first := unseen.before;
    assert Counted(first) == 0.0 && first.Length() == 1;
    assert Counted(unseen) == 0.0 && unseen.Length() == 2;
    assert SizedAtRemainder(target, unseen) && HonestFills(unseen, fills);
    assert Exposure(first, fills) == target;
    assert Increasing(first, 1, 2) && Increasing(unseen, 1, 3);
  }

  /** A full-size run stops at the first confirmed fill, or when the attempts are used up. */
  ghost predicate FullSizeRun(size: real, max: nat, attempts: Attempts) {
    && attempts.Length() <= max
    && AllSized(size, attempts)
    && (attempts.Then? ==> NoneConfirmed(attempts.before))
    && (attempts.Length() < max ==> attempts.Then? && attempts.last.Confirmed())
  }

  predicate AllSized(size: real, attempts: Attempts) {
    attempts.Then? ==> attempts.last.size == size && AllSized(size, attempts.before)
  }

  predicate NoneConfirmed(attempts: Attempts) {
    attempts.Then? ==> !attempts.last.Confirmed() && NoneConfirmed(attempts.before)
  }

  /** MarketOrderPlacer::place_with_retry, called with the order's own size as its target. */
  method PlaceWithRetry(b: Backend, order: Order, max: nat)
    returns (r: Result<Order, ApiError>, ghost attempts: Attempts)
    requires order.kind == Market
    modifies b
    ensures b.log == Trace(old(b.log), attempts, order)
    ensures FullSizeRun(order.size, max, attempts)
    ensures r.Ok? <==> attempts.Then? && !attempts.last.Rejected?
    ensures r.Ok? ==> r.value == order.(id := attempts.last.id)
    // It only stops early on a report of a fill.
    ensures attempts.Length() < max ==> r.Ok? && attempts.last.Verified? && attempts.last.info.status == Filled
    ensures r.Err? && attempts.Then? ==> r.error == attempts.last.error
    ensures Increasing(attempts, old(b.View()).next, b.View().next)
  {
    attempts := Start;
    var made := 0;
    while made < max
      invariant made == attempts.Length() <= max
      invariant b.log == Trace(old(b.log), attempts, order)
      invariant AllSized(order.size, attempts) && NoneConfirmed(attempts)
      invariant made == max ==> max == 0
      invariant Increasing(attempts, old(b.View()).next, b.View().next)
    {
      made := made + 1;
      ghost var next := b.View().next;
      var result, answer, a := SubmitAndVerify(b, order, order.size);
      IncreasingWidens(attempts, old(b.View()).next, next, old(b.View()).next, if a.Rejected? then b.View().next else a.id);
      attempts := Then(attempts, a);
      match result {
        case Ok(placed) =>
          if answer.Some? && answer.value.status == Filled {
            r := Ok(placed);
            return;
          }
          if made >= max {
            r := Ok(placed);
            return;
          }
        case Err(e) =>
          if made >= max {
            r := Err(e);
            return;
          }
      }
    }
    r := Err(OtherError);
  }

  /** The first order of a run, and so the position's size and side, reaches the exchange. */
  lemma {:induction false} RunSubmits(size: real, log: History<Event>, attempts: Attempts, order: Order)
    requires order.size == size && AllSized(size, attempts) && attempts.Then?
    ensures order in BookFrom(EMPTY_BOOK, Trace(log, attempts, order)).submitted
  {
    assert order.(size := attempts.last.size) == order;
  }

  lemma {:induction false} FullSizeExposure(size: real, attempts: Attempts, fills: nat -> real)
    requires size >= 0.0 && HonestFills(attempts, fills) && AllSized(size, attempts)
    ensures 0.0 <= Exposure(attempts, fills) <= Multiple(attempts.Length(), size)
  {
    match attempts
    case Start =>
    case Then(before, a) =>
      FullSizeExposure(size, before, fills);
  }

  lemma {:induction false} FullSizeIsPositive(size: real, attempts: Attempts)
    requires size > 0.0 && AllSized(size, attempts)
    ensures PositiveSizes(attempts)
  {
    if attempts.Then? { FullSizeIsPositive(size, attempts.before); }
  }

  /**
   A full-size run, whatever it returned, is sure to have closed exactly the position if and only if every
   accepted order was verified and the reports sum to the size.
   */
  lemma CloseIsFlatIff(size: real, max: nat, attempts: Attempts, lo: nat, hi: nat)
    requires size > 0.0 && FullSizeRun(size, max, attempts) && Increasing(attempts, lo, hi) && ReportsWithin(attempts)
    ensures (forall fills: nat -> real :: HonestFills(attempts, fills) ==> Exposure(attempts, fills) == size)
            <==> UnverifiedCount(attempts) == 0 && Counted(attempts) == size
  {
    IncreasingIsDistinct(attempts, lo, hi);
    FullSizeIsPositive(size, attempts);
    ExactIff(attempts, size);
  }

  /** Ok is not flat: accepted orders that are never reported and never fill end in Ok. */
  lemma {:induction false} OkMayCloseNothing(size: real, max: nat, fills: nat -> real) returns (attempts: Attempts)
    requires size > 0.0 && max > 0 && forall id :: fills(id) == 0.0
    ensures FullSizeRun(size, max, attempts) && HonestFills(attempts, fills) && NoneConfirmed(attempts)
    ensures attempts.Then? && !attempts.last.Rejected?
    ensures Exposure(attempts, fills) == 0.0
    ensures attempts.Length() == max && Increasing(attempts, 1, max + 1)
  {
    if max == 1 {
      attempts := One(Unverified(1, size));
    } else {
      attempts := OkMayCloseNothing(size, max - 1, fills);
      attempts := Then(attempts, Unverified(max, size));
    }
  }
}
