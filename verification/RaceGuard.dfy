/** The process-wide hedge lock set with its scope guards, and the race check over both legs. */
module RaceGuard {
  import opened Wrappers
  import opened Exchange

  class HedgeLocks {
    var held: set<string>
    // One entry for each guard that is in scope somewhere.
    ghost var guards: multiset<string>

    /** The lock set is exactly the symbols of the live guards, each guarded once. */
    ghost predicate Valid()
      reads this
    {
      forall s :: guards[s] == if s in held then 1 else 0
    }

    constructor ()
      ensures Valid() && held == {}
    {
      held, guards := {}, multiset{};
    }

    /** try_acquire_hedge_lock. */
    method TryAcquire(symbol: string) returns (acquired: bool)
      requires Valid()
      modifies this
      ensures Valid()
      ensures acquired <==> symbol !in old(held)
      ensures held == old(held) + {symbol}
      ensures guards == if acquired then old(guards) + multiset{symbol} else old(guards)
    {
      acquired := symbol !in held;
      if acquired {
        held := held + {symbol};
        guards := guards + multiset{symbol};
      } else {
        assert held + {symbol} == held;
      }
    }

    /** The guard going out of scope. */
    method Drop(symbol: string)
      requires Valid() && symbol in guards
      modifies this
      ensures Valid() && held == old(held) - {symbol}
      ensures guards == old(guards) - multiset{symbol}
    {
      held := held - {symbol};
      guards := guards - multiset{symbol};
    }
  }

  datatype BothLegsStatus =
    | BothFilled(longQty: real, shortQty: real)
    | OnlyLongFilled(longQty: real)
    | OnlyShortFilled(shortQty: real)
    | NeitherFilled

  /** The log after both orders have been queried, the long one first. */
  function Asked(log: History<Event>, longId: nat, shortId: nat, l: Option<StatusInfo>, s: Option<StatusInfo>): History<Event> {
    Then(Then(log, Queried(longId, l)), Queried(shortId, s))
  }

  /** Each verdict is given exactly when the two reports say so, with the quantities they report. */
  ghost predicate Classifies(l: Option<StatusInfo>, s: Option<StatusInfo>, r: Option<BothLegsStatus>) {
    && (r.None? <==> l.None? || s.None?)
    && (r.Some? ==>
          var lf, sf := l.value.IsFullyFilled(), s.value.IsFullyFilled();
          && (r.value.BothFilled? <==> lf && sf)
          && (r.value.NeitherFilled? <==> !lf && !sf)
          && (r.value.OnlyLongFilled? <==> lf && !sf)
          && (lf ==> r.value.longQty == l.value.filled)
          && (sf ==> r.value.shortQty == s.value.filled))
  }

  /** check_both_legs_status: both orders are queried; one missing answer is an error. */
  method CheckBothLegs(b: Backend, longId: nat, shortId: nat)
    returns (r: Option<BothLegsStatus>, ghost l: Option<StatusInfo>, ghost s: Option<StatusInfo>)
    modifies b
    ensures b.log == Asked(old(b.log), longId, shortId, l, s) && Classifies(l, s, r)
    ensures r.Some? && r.value.BothFilled? ==> {(longId, r.value.longQty), (shortId, r.value.shortQty)} <= b.View().saidFilled
    ensures b.View().SameResting(old(b.View()))
    ensures b.View().submitted == old(b.View()).submitted && b.View().markets == old(b.View()).markets
  {
    var long := b.Query(longId);
    var short := b.Query(shortId);
    l, s := long, short;
    if long.None? || short.None? {
      return None, l, s;
    }
    match (long.value.IsFullyFilled(), short.value.IsFullyFilled()) {
      case (true, true) => r := Some(BothFilled(long.value.filled, short.value.filled));
      case (true, false) => r := Some(OnlyLongFilled(long.value.filled));
      case (false, true) => r := Some(OnlyShortFilled(short.value.filled));
      case (false, false) => r := Some(NeitherFilled);
    }
  }
}
