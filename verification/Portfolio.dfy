/** The portfolio's accounts: what opening and closing trades does to them, and what every run keeps. */
module Portfolio {
  import opened Numbers
  import opened Wrappers

  datatype Status = Active | Exiting | Closed

  datatype Trade = Trade(id: string, symbol: string, size: real, legOut: bool, status: Status, profit: real)

  datatype Books = Books(
    starting: real, available: real, totalOpen: real, pnl: real,
    active: seq<Trade>, closed: seq<Trade>,
    wins: nat, losses: nat, legOuts: nat, legOutLoss: real)

  function NewBooks(starting: real): Books { Books(starting, starting, 0.0, 0.0, [], [], 0, 0, 0, 0.0) }

  // The first active trade with an id, or the number of active trades.
  function Position(active: seq<Trade>, id: string): (i: nat)
    ensures i <= |active| && (i < |active| ==> active[i].id == id)
    ensures forall j :: 0 <= j < i ==> active[j].id != id
    ensures i == |active| <==> forall t :: t in active ==> t.id != id
  {
    if active == [] then 0
    else if active[0].id == id then 0
    else Position(active[1..], id) + 1
  }

  /** A trade larger than the available capital is rejected. */
  function Open(b: Books, t: Trade): Books {
    if t.size > b.available then b
    else b.(available := b.available - t.size, totalOpen := b.totalOpen + t.size, active := b.active + [t])
  }

  predicate Losing(t: Trade) { t.legOut && t.profit < 0.0 }

  /** An unknown id changes nothing. */
  function Close(b: Books, id: string, profit: real): Books {
    var i := Position(b.active, id);
    if i == |b.active| then b else CloseAt(b, i, profit)
  }

  function CloseAt(b: Books, i: nat, profit: real): Books
    requires i < |b.active|
  {
    var t := b.active[i].(status := Closed, profit := profit);
    b.(available := b.available + (t.size + profit), totalOpen := b.totalOpen - t.size, pnl := b.pnl + profit,
       active := Without(b.active, i), closed := b.closed + [t],
       wins := b.wins + (if profit > 0.0 then 1 else 0), losses := b.losses + (if profit > 0.0 then 0 else 1),
       legOuts := b.legOuts + (if Losing(t) then 1 else 0),
       legOutLoss := b.legOutLoss + (if Losing(t) then -profit else 0.0))
  }

  // ---- Conservation ----

  datatype Measure = Size | Profit | Won | Lost | LegOuts | LegOutLoss

  function Of(m: Measure, t: Trade): real {
    match m
    case Size => t.size
    case Profit => t.profit
    case Won => if t.profit > 0.0 then 1.0 else 0.0
    case Lost => if t.profit > 0.0 then 0.0 else 1.0
    case LegOuts => if Losing(t) then 1.0 else 0.0
    case LegOutLoss => if Losing(t) then -t.profit else 0.0
  }

  function Total(m: Measure, trades: seq<Trade>): real {
    if trades == [] then 0.0 else Total(m, trades[..|trades| - 1]) + Of(m, trades[|trades| - 1])
  }

  lemma TotalOneMore(m: Measure, trades: seq<Trade>, t: Trade)
    ensures Total(m, trades + [t]) == Total(m, trades) + Of(m, t)
  {
    assert (trades + [t])[..|trades|] == trades;
  }

  function Without(trades: seq<Trade>, i: nat): seq<Trade>
    requires i < |trades|
  {
    trades[..i] + trades[i + 1..]
  }

  lemma WithoutKeepsLast(trades: seq<Trade>, i: nat)
    requires i < |trades| - 1
    ensures Without(trades, i) == Without(trades[..|trades| - 1], i) + [trades[|trades| - 1]]
  {
  }

  lemma {:induction false} TotalWithout(m: Measure, trades: seq<Trade>, i: nat)
    requires i < |trades|
    ensures Total(m, trades) == Total(m, Without(trades, i)) + Of(m, trades[i])
  {
    var n := |trades|;
    if i < n - 1 {
      TotalWithout(m, trades[..n - 1], i);
      WithoutKeepsLast(trades, i);
      TotalOneMore(m, Without(trades[..n - 1], i), trades[n - 1]);
    } else {
      assert Without(trades, i) == trades[..n - 1];
    }
  }

  /** Capital is conserved, and every total and counter is what the trade lists say. */
  ghost predicate Conserved(b: Books) {
    && b.available + b.totalOpen == b.starting + b.pnl
    && b.totalOpen == Total(Size, b.active)
    && b.pnl == Total(Profit, b.closed)
    && b.wins + b.losses == |b.closed|
    && b.wins as real == Total(Won, b.closed) && b.losses as real == Total(Lost, b.closed)
    && b.legOuts as real == Total(LegOuts, b.closed) && b.legOutLoss == Total(LegOutLoss, b.closed)
  }

  lemma OpenConserves(b: Books, t: Trade)
    requires Conserved(b)
    ensures Conserved(Open(b, t))
  {
    TotalOneMore(Size, b.active, t);
  }

  lemma CloseConserves(b: Books, id: string, profit: real)
    requires Conserved(b)
    ensures Conserved(Close(b, id, profit))
  {
    var i := Position(b.active, id);
    if i < |b.active| {
      var t := b.active[i].(status := Closed, profit := profit);
      TotalWithout(Size, b.active, i);
      forall m: Measure ensures Total(m, b.closed + [t]) == Total(m, b.closed) + Of(m, t) { TotalOneMore(m, b.closed, t); }
      assert Close(b, id, profit).closed == b.closed + [t];
    }
  }

  datatype Op = OpenTrade(trade: Trade) | CloseTrade(id: string, profit: real)

  function Run(b: Books, ops: History<Op>): Books {
    match ops
    case Start => b
    case Then(before, OpenTrade(t)) => Open(Run(b, before), t)
    case Then(before, CloseTrade(id, profit)) => Close(Run(b, before), id, profit)
  }

  /** Over every sequence of opens and closes, rejected opens and unknown ids included. */
  lemma {:induction false} RunConserves(starting: real, ops: History<Op>)
    ensures Conserved(Run(NewBooks(starting), ops)) && Run(NewBooks(starting), ops).starting == starting
  {
    match ops
    case Start =>
    case Then(before, op) =>
      RunConserves(starting, before);
      match op
      case OpenTrade(t) => OpenConserves(Run(NewBooks(starting), before), t);
      case CloseTrade(id, profit) => CloseConserves(Run(NewBooks(starting), before), id, profit);
  }

  // The two writes that follow an update; the first failure is returned.
  function Written(logged: bool, persisted: bool): Result<(), string> {
    if !logged then Err("trade log") else if !persisted then Err("state") else Ok(())
  }

  // Rates on a starting capital of zero are no finite numbers.
  datatype Metrics = Metrics(totalTrades: nat, winRate: real, legOutLossPct: real, utilizationPct: Option<real>,
                             pnlPct: Option<real>, apr: Option<real>)

  class PortfolioManager {
    var starting: real
    var available: real
    var totalOpen: real
    var pnl: real
    var active: seq<Trade>
    var closed: seq<Trade>
    var wins: nat
    var losses: nat
    var legOuts: nat
    var legOutLoss: real

    ghost function Contents(): Books reads this {
      Books(starting, available, totalOpen, pnl, active, closed, wins, losses, legOuts, legOutLoss)
    }

    ghost predicate Valid() reads this { Conserved(Contents()) }

    constructor (starting: real)
      ensures Valid() && Contents() == NewBooks(starting)
    {
      this.starting, available, totalOpen, pnl := starting, starting, 0.0, 0.0;
      active, closed, wins, losses, legOuts, legOutLoss := [], [], 0, 0, 0, 0.0;
    }

    // The critical section of an open.
    method AddActive(trade: Trade)
      requires trade.size <= available
      modifies this
      ensures Contents() == Open(old(Contents()), trade)
    {
      available := available - trade.size;
      totalOpen := totalOpen + trade.size;
      active := active + [trade];
    }

    /**
     `logged` and `persisted` tell whether the two writes after the update succeed. When they fail the
     call fails, with the trade already open.
     */
    method OpenTrade(trade: Trade, logged: bool, persisted: bool) returns (r: Result<(), string>)
      requires Valid()
      modifies this
      ensures Valid() && Contents() == Open(old(Contents()), trade)
      ensures r.Ok? <==> trade.size <= old(available) && logged && persisted
    {
      OpenConserves(Contents(), trade);
      if trade.size > available { return Err("Position size exceeds available capital"); }
      AddActive(trade);
      r := Written(logged, persisted);
    }

    method FindActive(tradeId: string) returns (pos: nat)
      ensures pos == Position(active, tradeId)
    {
      pos := 0;
      while pos < |active| && active[pos].id != tradeId
        invariant pos <= |active| && Position(active, tradeId) >= pos
      {
        assert Position(active, tradeId) != pos;
        pos := pos + 1;
      }
    }

    // The critical section of a close: the trade moves to the closed ones and the accounts follow.
    method SettleAt(pos: nat, actualProfit: real)
      requires pos < |active|
      modifies this
      ensures Contents() == CloseAt(old(Contents()), pos, actualProfit)
    {
      var trade := active[pos].(status := Closed, profit := actualProfit);
      active := active[..pos] + active[pos + 1..];
      totalOpen := totalOpen - trade.size;
      available := available + (trade.size + actualProfit);
      pnl := pnl + actualProfit;
      if trade.legOut && actualProfit < 0.0 { legOutLoss := legOutLoss + -actualProfit; }
      closed := closed + [trade];
      if actualProfit > 0.0 { wins := wins + 1; } else { losses := losses + 1; }
      if trade.legOut && actualProfit < 0.0 { legOuts := legOuts + 1; }
    }

    method CloseTrade(tradeId: string, actualProfit: real, logged: bool, persisted: bool) returns (r: Result<(), string>)
      requires Valid()
      modifies this
      ensures Valid() && Contents() == Close(old(Contents()), tradeId, actualProfit)
      ensures r.Ok? <==> Position(old(active), tradeId) == |old(active)| || (logged && persisted)
      // A gain is a win; a loss on a leg-out counts as one.
      ensures old(Position(active, tradeId) < |active|) ==>
                var trade := old(active[Position(active, tradeId)]);
                && wins == old(wins) + (if actualProfit > 0.0 then 1 else 0)
                && losses == old(losses) + (if actualProfit > 0.0 then 0 else 1)
                && legOuts == old(legOuts) + (if trade.legOut && actualProfit < 0.0 then 1 else 0)
                && available == old(available) + trade.size + actualProfit
    {
      CloseConserves(Contents(), tradeId, actualProfit);
      var pos := FindActive(tradeId);
      if pos == |active| { return Ok(()); }
      SettleAt(pos, actualProfit);
      r := Written(logged, persisted);
    }

    /** The metrics in terms of the trade lists; a fresh portfolio reports zero rates. */
    method GetPortfolioMetrics(daysElapsed: real) returns (m: Metrics)
      requires Valid()
      ensures m.totalTrades == |closed|
      ensures m.winRate * |closed| as real == 100.0 * Total(Won, closed)
      ensures closed == [] ==> m.winRate == 0.0
      ensures m.legOutLossPct * Abs(Total(Profit, closed)) ==
              if Total(Profit, closed) != 0.0 then 100.0 * Total(LegOutLoss, closed) else 0.0
      ensures (m.utilizationPct.Some? <==> starting != 0.0) && (m.pnlPct.Some? <==> starting != 0.0)
      ensures m.utilizationPct.Some? ==> m.utilizationPct.value * starting == 100.0 * Total(Size, active)
      ensures m.pnlPct.Some? ==> m.pnlPct.value * starting == 100.0 * Total(Profit, closed)
      ensures daysElapsed <= 0.0 ==> m.apr == Some(0.0)
      ensures daysElapsed > 0.0 ==> (m.apr.Some? <==> starting != 0.0)
      ensures daysElapsed > 0.0 && m.apr.Some? ==> m.apr.value * (starting * daysElapsed) == 36500.0 * Total(Profit, closed)
    {
      m := Rates(daysElapsed);
    }

    // The computation, in terms of the running totals.
    method Rates(daysElapsed: real) returns (m: Metrics)
      ensures m.totalTrades == wins + losses && (m.totalTrades == 0 ==> m.winRate == 0.0)
      ensures m.winRate * m.totalTrades as real == 100.0 * wins as real
      ensures m.legOutLossPct * Abs(pnl) == if pnl != 0.0 then 100.0 * legOutLoss else 0.0
      ensures (m.utilizationPct.Some? <==> starting != 0.0) && (m.pnlPct.Some? <==> starting != 0.0)
      ensures m.utilizationPct.Some? ==> m.utilizationPct.value * starting == 100.0 * totalOpen
      ensures m.pnlPct.Some? ==> m.pnlPct.value * starting == 100.0 * pnl
      ensures daysElapsed <= 0.0 ==> m.apr == Some(0.0)
      ensures daysElapsed > 0.0 ==> (m.apr.Some? <==> starting != 0.0)
      ensures daysElapsed > 0.0 && m.apr.Some? ==> m.apr.value * (starting * daysElapsed) == 36500.0 * pnl
    {
      var total := wins + losses;
      var winRate, legOutLossPct := 0.0, 0.0;
      if total > 0 {
        var won := Percentage(wins as real, total as real);
        winRate := won.value;
      }
      if pnl != 0.0 {
        var lost := Percentage(legOutLoss, Abs(pnl));
        legOutLossPct := lost.value;
      }
      var utilization := Percentage(totalOpen, starting);
      var pnlPct := Percentage(pnl, starting);
      var apr := Annualized(pnl, starting, daysElapsed);
      m := Metrics(total, winRate, legOutLossPct, utilization, pnlPct, apr);
    }
  }

  method Percentage(part: real, whole: real) returns (p: Option<real>)
    ensures if whole == 0.0 then p.None? else p.Some? && p.value * whole == 100.0 * part
  {
    if whole == 0.0 { return None; }
    p := Some(part / whole * 100.0);
    assert part / whole * whole == part;
  }

  /** The gain as a yearly percentage of the capital, zero before any time has passed. */
  method Annualized(pnl: real, capital: real, days: real) returns (apr: Option<real>)
    ensures days <= 0.0 ==> apr == Some(0.0)
    ensures days > 0.0 ==> (apr.Some? <==> capital != 0.0)
    ensures days > 0.0 && apr.Some? ==> apr.value * (capital * days) == 36500.0 * pnl
  {
    if days <= 0.0 { return Some(0.0); }
    if capital == 0.0 { return None; }
    var gain, years := pnl / capital, days / 365.0;
    apr := Some(gain / years * 100.0);
    AnnualizedIs(pnl, capital, gain, years, gain / years);
  }

  lemma AnnualizedIs(pnl: real, capital: real, gain: real, years: real, yearly: real)
    requires gain * capital == pnl && yearly * years == gain
    ensures yearly * 100.0 * (capital * (years * 365.0)) == 36500.0 * pnl
  {
    assert yearly * (capital * years) == yearly * years * capital == pnl;
  }
}
