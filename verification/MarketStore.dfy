/** The struct-of-arrays quote store: the last applied update of each id below 256. */
module MarketStore {
  import opened Wrappers

  const MAX_SYMBOLS: nat := 256

  datatype MarketUpdate = MarketUpdate(symbolId: nat, bid: real, ask: real, timestamp: nat)

  /** The last update of an id in a history of updates. */
  function Newest(applied: History<MarketUpdate>, id: nat): Option<MarketUpdate> {
    match applied
    case Start => None
    case Then(before, u) => if u.symbolId == id then Some(u) else Newest(before, id)
  }

  /** One more than the largest id below the limit. */
  function CountOf(applied: History<MarketUpdate>): nat {
    match applied
    case Start => 0
    case Then(before, u) =>
      if CountOf(before) <= u.symbolId < MAX_SYMBOLS then u.symbolId + 1 else CountOf(before)
  }

  // What a slot that was never updated holds.
  function RowOf(applied: History<MarketUpdate>, id: nat): MarketUpdate {
    var u := Newest(applied, id);
    if u.Some? then u.value else MarketUpdate(0, 0.0, 0.0, 0)
  }

  lemma {:induction false} CountCoversUpdates(applied: History<MarketUpdate>, id: nat)
    requires id < MAX_SYMBOLS && Newest(applied, id).Some?
    ensures id < CountOf(applied)
  {
    if applied.last.symbolId != id { CountCoversUpdates(applied.before, id); }
  }

  /** The count ends at an updated id; nothing above it has been updated. */
  lemma {:induction false} CountIsTight(applied: History<MarketUpdate>)
    ensures CountOf(applied) <= 256 && (CountOf(applied) > 0 ==> Newest(applied, CountOf(applied) - 1).Some?)
    ensures forall id :: CountOf(applied) <= id < 256 ==> Newest(applied, id).None?
  {
    if applied.Then? { CountIsTight(applied.before); }
  }

  /** In basis points of the bid. */
  lemma SpreadTimesBid(bid: real, ask: real)
    requires bid > 0.0
    ensures SpreadBps(bid, ask) * bid == (ask - bid) * 10000.0
  {
    var ratio := (ask - bid) / bid;
    assert ratio * bid == ask - bid;
    assert ratio * 10000.0 * bid == ratio * bid * 10000.0;
  }

  function SpreadBps(bid: real, ask: real): real
    requires bid > 0.0
  {
    (ask - bid) / bid * 10000.0
  }

  class MarketDataStore {
    const bids: array<real>
    const asks: array<real>
    const timestamps: array<nat>
    const symbolIds: array<nat>
    var count: nat
    ghost var applied: History<MarketUpdate>

    /** Each slot holds exactly the newest update applied for its id. */
    ghost predicate Valid()
      reads this, bids, asks, timestamps, symbolIds
    {
      && bids.Length == asks.Length == timestamps.Length == symbolIds.Length == MAX_SYMBOLS
      && bids != asks && timestamps != symbolIds
      && count == CountOf(applied) <= MAX_SYMBOLS
      && forall id :: 0 <= id < MAX_SYMBOLS ==>
           MarketUpdate(symbolIds[id], bids[id], asks[id], timestamps[id]) == RowOf(applied, id)
    }

    constructor ()
      ensures Valid() && applied == Start
      ensures fresh(bids) && fresh(asks) && fresh(timestamps) && fresh(symbolIds)
    {
      bids := new real[MAX_SYMBOLS](_ => 0.0);
      asks := new real[MAX_SYMBOLS](_ => 0.0);
      timestamps := new nat[MAX_SYMBOLS](_ => 0);
      symbolIds := new nat[MAX_SYMBOLS](_ => 0);
      count, applied := 0, Start;
    }

    method Update(symbolId: nat, bid: real, ask: real, timestamp: nat)
      requires Valid()
      modifies this, bids, asks, timestamps, symbolIds
      ensures Valid() && applied == Then(old(applied), MarketUpdate(symbolId, bid, ask, timestamp))
      // An id outside the store changes no slot.
      ensures symbolId >= MAX_SYMBOLS ==> bids[..] == old(bids[..]) && asks[..] == old(asks[..]) && count == old(count)
    {
      if symbolId < MAX_SYMBOLS {
        bids[symbolId] := bid;
        asks[symbolId] := ask;
        timestamps[symbolId] := timestamp;
        symbolIds[symbolId] := symbolId;
        if symbolId >= count {
          count := symbolId + 1;
        }
      }
      applied := Then(applied, MarketUpdate(symbolId, bid, ask, timestamp));
    }

    /** A quote is known once its slot is below the highest updated one; never updated slots read zero. */
    method GetBid(symbolId: nat) returns (bid: Option<real>)
      requires Valid()
      ensures bid.Some? <==> symbolId < CountOf(applied)
      ensures bid.Some? ==> bid.value == RowOf(applied, symbolId).bid
    {
      bid := if symbolId < count then Some(bids[symbolId]) else None;
    }

    method GetAsk(symbolId: nat) returns (ask: Option<real>)
      requires Valid()
      ensures ask.Some? <==> symbolId < CountOf(applied)
      ensures ask.Some? ==> ask.value == RowOf(applied, symbolId).ask
    {
      ask := if symbolId < count then Some(asks[symbolId]) else None;
    }

    method GetSpreadBps(symbolId: nat) returns (spread: real)
      requires Valid()
      ensures var u := Newest(applied, symbolId);
              if symbolId < MAX_SYMBOLS && u.Some? && u.value.bid > 0.0
              then spread == SpreadBps(u.value.bid, u.value.ask) else spread == 0.0
    {
      if symbolId < MAX_SYMBOLS && Newest(applied, symbolId).Some? {
        CountCoversUpdates(applied, symbolId);
      }
      if symbolId < count && bids[symbolId] > 0.0 {
        spread := SpreadBps(bids[symbolId], asks[symbolId]);
      } else {
        spread := 0.0;
      }
    }

    /** iter_spreads: one entry for each slot below the count, the same spread get_spread_bps gives. */
    method Spreads() returns (spreads: seq<(nat, real)>)
      requires Valid()
      ensures |spreads| == CountOf(applied)
      ensures forall id :: 0 <= id < |spreads| ==>
                var u := RowOf(applied, id);
                spreads[id] == (u.symbolId, if u.bid > 0.0 then SpreadBps(u.bid, u.ask) else 0.0)
    {
      spreads := [];
      var id := 0;
      while id < count
        invariant id == |spreads| <= count
        invariant forall j :: 0 <= j < id ==>
                    var u := RowOf(applied, j);
                    spreads[j] == (u.symbolId, if u.bid > 0.0 then SpreadBps(u.bid, u.ask) else 0.0)
      {
        spreads := spreads + [(symbolIds[id], if bids[id] > 0.0 then SpreadBps(bids[id], asks[id]) else 0.0)];
        id := id + 1;
      }
    }

    method Clear()
      requires Valid()
      modifies this, bids, asks, timestamps, symbolIds
      ensures Valid() && applied == Start
    {
      forall i | 0 <= i < MAX_SYMBOLS { bids[i] := 0.0; }
      forall i | 0 <= i < MAX_SYMBOLS { asks[i] := 0.0; }
      forall i | 0 <= i < MAX_SYMBOLS { timestamps[i] := 0; }
      forall i | 0 <= i < MAX_SYMBOLS { symbolIds[i] := 0; }
      count, applied := 0, Start;
    }
  }
}
