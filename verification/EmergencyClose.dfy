/** The emergency close of a naked leg and the trading-halt flag it raises when it fails. */
module EmergencyClose {
  import opened Wrappers
  import opened Exchange
  import opened MarketRetry
  import opened Numbers
  import opened Positions

  const FULL_CLOSE_RETRIES: nat := 10
  const HALF_CLOSE_RETRIES: nat := 5

  class TradingHalt {
    var halted: bool

    constructor ()
      ensures !halted
    {
      halted := false;
    }
  }

  /** The opposite market order of the whole position. */
  function CloseOrder(filled: Order): Order {
    Order(0, filled.exchange, filled.side.Opposite(), Market, filled.price, filled.size, Pending)
  }

  /** The runs of an emergency close: the whole size, then at most twice half of it. */
  datatype Closing = Closing(full: Attempts, first: Attempts, second: Attempts) {
    function All(): Attempts { full.Plus(first).Plus(second) }

    // The log after all the calls.
    function Calls(log: History<Event>, close: Order): History<Event> {
      var half := close.(size := close.size / 2.0);
      Trace(Trace(Trace(log, full, close), first, half), second, half)
    }
  }

  lemma CloseKeepsBook(log: History<Event>, c: Closing, close: Order)
    requires close.kind == Market
    ensures BookFrom(EMPTY_BOOK, c.Calls(log, close)).SameResting(BookFrom(EMPTY_BOOK, log))
  {
    var half := close.(size := close.size / 2.0);
    var full := Trace(log, c.full, close);
    TraceRests(log, c.full, close);
    TraceRests(full, c.first, half);
    TraceRests(Trace(full, c.first, half), c.second, half);
  }

  predicate Accepted(attempts: Attempts) { attempts.Then? && !attempts.last.Rejected? }

  /**
   The full-size run comes first; it is split in halves exactly when its last order was refused for its
   quantity, and the second half is tried exactly when the first one was accepted.
   */
  ghost predicate CloseRun(size: real, c: Closing, closed: bool) {
    && c.full.Then? && FullSizeRun(size, FULL_CLOSE_RETRIES, c.full)
    && (c.first.Then? <==> c.full.last.Rejected? && c.full.last.error == QuantityLimit)
    && (c.first.Then? ==> FullSizeRun(size / 2.0, HALF_CLOSE_RETRIES, c.first))
    && (c.second.Then? <==> Accepted(c.first))
    && (c.second.Then? ==> FullSizeRun(size / 2.0, HALF_CLOSE_RETRIES, c.second))
    && (closed <==> Accepted(c.full) || Accepted(c.second))
  }

  lemma {:induction false} PlusAdds(a: Attempts, b: Attempts, fills: nat -> real)
    ensures Exposure(a.Plus(b), fills) == Exposure(a, fills) + Exposure(b, fills)
    ensures HonestFills(a.Plus(b), fills) <==> HonestFills(a, fills) && HonestFills(b, fills)
    ensures PositiveSizes(a.Plus(b)) <==> PositiveSizes(a) && PositiveSizes(b)
    ensures Ids(a.Plus(b)) == Ids(a) + Ids(b)
  {
    if b.Then? { PlusAdds(a, b.before, fills); }
  }

  lemma ClosingIsPositive(size: real, c: Closing, closed: bool)
    requires size > 0.0 && CloseRun(size, c, closed)
    ensures PositiveSizes(c.All())
  {
    FullSizeIsPositive(size, c.full);
    if c.first.Then? { FullSizeIsPositive(size / 2.0, c.first); }
    if c.second.Then? { FullSizeIsPositive(size / 2.0, c.second); }
    PlusAdds(c.full, c.first, (id: nat) => 0.0);
    PlusAdds(c.full.Plus(c.first), c.second, (id: nat) => 0.0);
  }

  /** An emergency close of a position trades at most ten times its size, or, when the whole size was refused last, fourteen. */
  lemma ClosingExposure(size: real, c: Closing, closed: bool, fills: nat -> real)
    requires size > 0.0 && CloseRun(size, c, closed) && HonestFills(c.All(), fills)
    ensures 0.0 <= Exposure(c.All(), fills) <= (if c.first.Start? then 10.0 * size else 14.0 * size)
  {
    PlusAdds(c.full, c.first, fills);
    PlusAdds(c.full.Plus(c.first), c.second, fills);
    RunExposure(size, FULL_CLOSE_RETRIES, c.full, fills);
    if c.first.Then? { RunExposure(size / 2.0, HALF_CLOSE_RETRIES, c.first, fills); }
    if c.second.Then? { RunExposure(size / 2.0, HALF_CLOSE_RETRIES, c.second, fills); }
    MultipleIsProduct(9, size);
    MultipleIsProduct(10, size);
    MultipleIsProduct(5, size / 2.0);
  }

  lemma RunExposure(size: real, max: nat, attempts: Attempts, fills: nat -> real)
    requires size > 0.0 && max > 0 && FullSizeRun(size, max, attempts) && attempts.Then? && HonestFills(attempts, fills)
    ensures 0.0 <= Exposure(attempts, fills) <= Multiple(max, size)
    ensures attempts.last.Rejected? ==> Exposure(attempts, fills) <= Multiple(max - 1, size)
  {
    FullSizeExposure(size, attempts, fills);
    MultipleGrows(attempts.Length(), max, size);
    FullSizeExposure(size, attempts.before, fills);
    MultipleGrows(attempts.before.Length(), max - 1, size);
  }

  /** A run whose orders are all accepted, never reported, and traded: each at its whole size. */
  lemma {:induction false} UnseenRun(size: real, n: nat, first: nat, fills: nat -> real) returns (attempts: Attempts)
    requires size > 0.0 && forall id :: first <= id < first + n ==> fills(id) == size
    ensures attempts.Length() == n && AllSized(size, attempts) && NoneConfirmed(attempts)
    ensures HonestFills(attempts, fills) && Exposure(attempts, fills) == Multiple(n, size)
    ensures Increasing(attempts, first, first + n) && (attempts.Then? ==> attempts.last.Unverified?)
  {
    if n == 0 {
      attempts := Start;
    } else {
      attempts := UnseenRun(size, n - 1, first, fills);
      attempts := Then(attempts, Unverified(first + n - 1, size));
    }
  }

  /** Both bounds are reached: ten unseen fills of the whole size, and nine of them followed by ten halves after a split. */
  lemma ClosingExposureHappens(size: real) returns (c: Closing, split: Closing, fills: nat -> real, fills': nat -> real)
    requires size > 0.0
    ensures CloseRun(size, c, true) && HonestFills(c.All(), fills) && Increasing(c.All(), 1, 11)
    ensures c.first.Start? && Exposure(c.All(), fills) == 10.0 * size
    ensures CloseRun(size, split, true) && HonestFills(split.All(), fills') && Increasing(split.All(), 1, 20)
    ensures split.first.Then? && Exposure(split.All(), fills') == 14.0 * size
  {
    fills, fills' := id => size, id => if id < 10 then size else size / 2.0;
    var ten := UnseenRun(size, 10, 1, fills);
    c := Closing(ten, Start, Start);
    var nine := UnseenRun(size, 9, 1, fills');
    var first := UnseenRun(size / 2.0, 5, 10, fills');
    var second := UnseenRun(size / 2.0, 5, 15, fills');
    split := Closing(Then(nine, Rejected(size, QuantityLimit)), first, second);
    IncreasingPlus(split.full, first, 1, 10, 15);
    IncreasingPlus(split.full.Plus(first), second, 1, 15, 20);
    PlusAdds(split.full, first, fills');
    PlusAdds(split.full.Plus(first), second, fills');
    MultipleIsProduct(10, size);
    MultipleIsProduct(9, size);
    MultipleIsProduct(5, size / 2.0);
  }

  /** The orders of a close are market orders on the position's own exchange, and they move its position back. */
  lemma ClosePosition(log: History<Event>, c: Closing, o: Order, from: nat, exchange: string, fills: nat -> real)
    requires forall id :: id in Ids(c.All()) ==> from <= id
    ensures Position(c.Calls(log, CloseOrder(o)), from, exchange, fills) ==
            Position(log, from, exchange, fills) -
            (if exchange == o.exchange then Towards(o.side, Exposure(c.All(), fills)) else 0.0)
  {
    var close := CloseOrder(o);
    var half := close.(size := close.size / 2.0);
    PlusAdds(c.full, c.first, fills);
    PlusAdds(c.full.Plus(c.first), c.second, fills);
    TracePosition(log, c.full, close, from, exchange, fills);
    TracePosition(Trace(log, c.full, close), c.first, half, from, exchange, fills);
    TracePosition(Trace(Trace(log, c.full, close), c.first, half), c.second, half, from, exchange, fills);
  }

  /**
   Let the orders before a close have left the position `held` on the closed order's exchange. Whatever the
   close returned, that position is sure to be zero after it if and only if every accepted order of its runs
   was verified and the reports sum to what was held in the order's direction.
   */
  lemma ClosingIsFlatIff(o: Order, c: Closing, closed: bool, log: History<Event>, from: nat, known: nat -> real, held: real,
                         hi: nat)
    requires o.size > 0.0 && CloseRun(o.size, c, closed) && ReportsWithin(c.All())
    requires from <= BookFrom(EMPTY_BOOK, log).next && Increasing(c.All(), BookFrom(EMPTY_BOOK, log).next, hi)
    requires Position(log, from, o.exchange, known) == Towards(o.side, held)
    ensures (forall fills: nat -> real :: MayHaveTraded(c.All(), BookFrom(EMPTY_BOOK, log).next, known, fills) ==>
               Position(c.Calls(log, CloseOrder(o)), from, o.exchange, fills) == 0.0)
            <==> UnverifiedCount(c.All()) == 0 && Counted(c.All()) == held
  {
    IncreasingIsDistinct(c.All(), BookFrom(EMPTY_BOOK, log).next, hi);
    ClosingIsPositive(o.size, c, closed);
    JoinedExactIff(c.All(), BookFrom(EMPTY_BOOK, log).next, hi, known, held);
    forall fills: nat -> real | MayHaveTraded(c.All(), BookFrom(EMPTY_BOOK, log).next, known, fills)
      ensures Position(c.Calls(log, CloseOrder(o)), from, o.exchange, fills) ==
              Towards(o.side, held) - Towards(o.side, Exposure(c.All(), fills))
    {
      PositionAgrees(log, from, o.exchange, fills, known);
      ClosePosition(log, c, o, from, o.exchange, fills);
    }
  }

  /** The split into two orders of half the size, tried after a quantity-limit refusal. */
  method CloseInHalves(b: Backend, half: Order)
    returns (closed: bool, ghost first: Attempts, ghost second: Attempts)
    requires half.kind == Market
    modifies b
    ensures first.Then? && FullSizeRun(half.size, HALF_CLOSE_RETRIES, first)
    ensures second.Then? <==> Accepted(first)
    ensures second.Then? ==> FullSizeRun(half.size, HALF_CLOSE_RETRIES, second)
    ensures closed <==> Accepted(second)
    ensures b.log == Trace(Trace(old(b.log), first, half), second, half)
    ensures Increasing(first.Plus(second), old(b.View()).next, b.View().next)
  {
    second := Start;
    var r1;
    r1, first := PlaceWithRetry(b, half, HALF_CLOSE_RETRIES);
    if r1.Err? {
      return false, first, second;
    }
    ghost var next := b.View().next;
    var r2;
    r2, second := PlaceWithRetry(b, half, HALF_CLOSE_RETRIES);
    closed := r2.Ok?;
    IncreasingPlus(first, second, old(b.View()).next, next, b.View().next);
  }

  /** emergency_close_position: it fails exactly when it raises the halt flag. */
  method EmergencyClosePosition(b: Backend, halt: TradingHalt, filled: Order) returns (closed: bool, ghost c: Closing)
    modifies b, halt
    ensures CloseRun(filled.size, c, closed) && b.log == c.Calls(old(b.log), CloseOrder(filled))
    ensures Increasing(c.All(), old(b.View()).next, b.View().next)
    ensures halt.halted == (old(halt.halted) || !closed)
    ensures CloseOrder(filled) in b.View().submitted
    ensures b.View().SameResting(old(b.View()))
  {
    var close := CloseOrder(filled);
    var half := close.(size := close.size / 2.0);
    ghost var full;
    var r;
    r, full := PlaceWithRetry(b, close, FULL_CLOSE_RETRIES);
    c := Closing(full, Start, Start);
    RunSubmits(close.size, old(b.log), full, close);
    TraceRests(old(b.log), full, close);
    if r.Ok? {
      closed := true;
      return;
    }
    if r.error == QuantityLimit {
      label split:
      ghost var first, second, next := Start, Start, b.View().next;
      closed, first, second := CloseInHalves(b, half);
      c := Closing(full, first, second);
      TraceRests(old@split(b.log), first, half);
      TraceRests(Trace(old@split(b.log), first, half), second, half);
      IncreasingPlus(full, first.Plus(second), old(b.View()).next, next, b.View().next);
      PlusAssociates(full, first, second);
      if closed {
        return;
      }
    }
    halt.halted := true;
    closed := false;
  }
}
