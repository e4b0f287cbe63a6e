/**
 Admission of opportunities: the duplicate check, the placeholder that reserves the symbol, the chain
 of decisions, the entry, and the exit that closes a trade. Calls run one at a time.
 */
module Admission {
  import opened Numbers
  import opened Wrappers
  import opened Portfolio

  datatype Opportunity = Opportunity(
    symbol: string, depthLong: real, depthShort: real,
    depthSufficient: bool, latencyOk: bool, fundingSubstantial: bool, confidence: int)

  datatype Mode = Paper | Demo | Live

  // How the entry ends: the timeout drops it, it fails, or it yields a trade under a new id.
  datatype Entry = TimedOut | Refused | Executed(id: string, legOut: bool)

  // What the outside answers during one call. A failed balance query is None; a failed tradeable query
  // counts as not tradeable. In demo mode the one balance asked for, the primary exchange's, is `longBalance`.
  datatype Answers = Answers(
    mode: Mode, prices: Option<(real, real)>, feesBps: real,
    longBalance: Option<real>, shortBalance: Option<real>, longTradeable: bool, shortTradeable: bool,
    entry: Entry, logged: bool, persisted: bool)

  datatype Skip =
    | Duplicate | NoPrices | NoDepth | HighLatency | NoFundingDelta | NoSpread | NoProfit | NoCapital
    | BalanceCheckFailed | LowBalance | NoSize | OverCapital | LowConfidence | NotTradeable

  datatype Outcome = Skipped(why: Skip) | EntryTimedOut | EntryRefused | Entered(trade: Trade)

  /** A tenth of the starting capital, or what is available, but not below ten dollars. */
  function PositionSize(available: real, starting: real): real {
    var size := if starting * 0.10 <= available then starting * 0.10 else available;
    if size < 10.0 then 0.0 else size
  }

  function SpreadBps(long: real, short: real): real {
    if long == 0.0 then 0.0 else (short - long) / long * 10000.0
  }

  predicate Funded(a: Answers) {
    match a.mode
    case Paper => true
    case Demo => a.longBalance.Some? && a.longBalance.value >= 10.0
    case Live => a.longBalance.Some? && a.shortBalance.Some? && a.longBalance.value >= 10.0 && a.shortBalance.value >= 10.0
  }

  /** What an opportunity must meet, besides its symbol being free, for an entry to be attempted. */
  predicate Passes(o: Opportunity, a: Answers, available: real, starting: real) {
    && a.prices.Some? && SpreadBps(a.prices.value.0, a.prices.value.1) > 0.0
    && SpreadBps(a.prices.value.0, a.prices.value.1) > a.feesBps
    && o.depthSufficient && o.latencyOk && o.fundingSubstantial && o.confidence >= 70
    && o.depthLong >= 2.0 && o.depthShort >= 2.0
    && Funded(a) && (a.mode.Paper? || (a.longTradeable && a.shortTradeable))
    && PositionSize(available, starting) > 0.0
  }

  /**
   With positive prices: an entry is attempted if and only if the prices are known and the short one is above the
   long one by more than the fees, every constraint of the opportunity holds, at least ten dollars are available
   and a tenth of the capital, and, except on paper, both exchanges can be traded and hold ten dollars; a demo
   only asks the primary one.
   */
  lemma PassesIff(o: Opportunity, a: Answers, available: real, starting: real)
    requires a.prices.Some? ==> a.prices.value.0 > 0.0
    ensures Passes(o, a, available, starting) <==>
            && a.prices.Some? && a.prices.value.1 > a.prices.value.0
            && (a.prices.value.1 - a.prices.value.0) * 10000.0 > a.feesBps * a.prices.value.0
            && o.depthSufficient && o.latencyOk && o.fundingSubstantial && o.confidence >= 70
            && o.depthLong >= 2.0 && o.depthShort >= 2.0 && available >= 10.0 && starting >= 100.0
            && (a.mode != Paper ==> a.longTradeable && a.shortTradeable && a.longBalance.Some? && a.longBalance.value >= 10.0)
            && (a.mode == Live ==> a.shortBalance.Some? && a.shortBalance.value >= 10.0)
  {
    if a.prices.Some? { SpreadAbove(a.prices.value.0, a.prices.value.1, a.feesBps); }
  }

  lemma SpreadAbove(long: real, short: real, bps: real)
    requires long > 0.0
    ensures SpreadBps(long, short) > bps <==> (short - long) * 10000.0 > bps * long
    ensures SpreadBps(long, short) > 0.0 <==> short > long
  {
    var gap := (short - long) / long * 10000.0 - bps;
    var ratio := (short - long) / long;
    assert ratio * long == short - long;
    assert gap * long == ratio * long * 10000.0 - bps * long;
    if gap > 0.0 { assert gap * long > 0.0; } else { assert gap * long <= 0.0; }
    if ratio > 0.0 { assert ratio * long > 0.0; } else { assert ratio * long <= 0.0; }
  }

  /** A position is the smaller of a tenth of the capital and what is available, or nothing below ten dollars. */
  lemma PositionIs(available: real, starting: real)
    ensures var size := PositionSize(available, starting);
            if available >= 10.0 && starting >= 100.0
            then size * 10.0 <= starting && size <= available && (size * 10.0 == starting || size == available)
            else size == 0.0
  {
  }

  // ---- The system's states ----

  datatype System = System(trades: map<string, Trade>, books: Books)

  predicate Taken(trades: map<string, Trade>, symbol: string) {
    exists id :: id in trades && trades[id].symbol == symbol && (trades[id].status.Active? || trades[id].status.Exiting?)
  }

  function NewTrade(s: System, o: Opportunity, e: Entry): Trade
    requires e.Executed?
  {
    Trade(e.id, o.symbol, PositionSize(s.books.available, s.books.starting), e.legOut, Status.Active, 0.0)
  }

  /** A call past its duplicate check. */
  function Attempt(s: System, o: Opportunity, a: Answers): System {
    if Passes(o, a, s.books.available, s.books.starting) && a.entry.Executed?
    then System(s.trades[a.entry.id := NewTrade(s, o, a.entry)], Open(s.books, NewTrade(s, o, a.entry)))
    else s
  }

  function Admit(s: System, o: Opportunity, a: Answers): System {
    if Taken(s.trades, o.symbol) then s else Attempt(s, o, a)
  }

  function TriggerExit(s: System, id: string): System {
    if id in s.trades then s.(trades := s.trades[id := s.trades[id].(status := Exiting)]) else s
  }

  /**
   The exit loop's close of an exiting trade. A failed write makes the call return before the trade is
   removed from the map, although the portfolio has closed it.
   */
  function CompleteExit(s: System, id: string, profit: real, written: bool): System {
    if !(id in s.trades && s.trades[id].status.Exiting?) then s else
    var known := Position(s.books.active, id) < |s.books.active|;
    System(if known && !written then s.trades else s.trades - {id}, Close(s.books, id, profit))
  }

  datatype Op =
    | Execute(o: Opportunity, a: Answers)
    | Trigger(id: string)
    | Complete(id: string, profit: real, written: bool)

  function Apply(s: System, op: Op): System {
    match op
    case Execute(o, a) => Admit(s, o, a)
    case Trigger(id) => TriggerExit(s, id)
    case Complete(id, profit, written) => CompleteExit(s, id, profit, written)
  }

  function Run(s: System, ops: History<Op>): System {
    match ops
    case Start => s
    case Then(before, op) => Apply(Run(s, before), op)
  }

  function NewSystem(starting: real): System { System(map[], NewBooks(starting)) }

  // ---- What every run keeps ----

  function Ids(trades: seq<Trade>): set<string> { set t | t in trades :: t.id }

  // Trade ids are UUIDs: each new one has never been used.
  ghost predicate Plausible(s: System, op: Op) {
    match op
    case Execute(_, a) =>
      a.entry.Executed? ==> a.entry.id !in s.trades && a.entry.id !in Ids(s.books.active) && a.entry.id !in Ids(s.books.closed)
    case _ => true
  }

  ghost predicate PlausibleRun(s: System, ops: History<Op>) {
    ops.Then? ==> PlausibleRun(s, ops.before) && Plausible(Run(s, ops.before), ops.last)
  }

  ghost predicate DistinctIds(trades: seq<Trade>) { forall i, j :: 0 <= i < j < |trades| ==> trades[i].id != trades[j].id }

  /** The trade map: keyed by id, only live trades, and at most one of them for each symbol. */
  ghost predicate OnePerSymbol(trades: map<string, Trade>) {
    && (forall id :: id in trades ==> trades[id].id == id && !trades[id].status.Closed?)
    && (forall id, id' :: id in trades && id' in trades && trades[id].symbol == trades[id'].symbol ==> id == id')
  }

  /** Every trade active in the portfolio is in the map; what else is in the map was closed, its write failed. */
  ghost predicate Agree(s: System) {
    && DistinctIds(s.books.active)
    && (forall t :: t in s.books.active ==>
          t.id in s.trades && s.trades[t.id].symbol == t.symbol && s.trades[t.id].size == t.size)
    && (forall id :: id in s.trades ==> id in Ids(s.books.active) || id in Ids(s.books.closed))
  }

  ghost predicate Sound(s: System) {
    OnePerSymbol(s.trades) && Agree(s) && Conserved(s.books)
  }

  lemma SizeFits(available: real, starting: real)
    ensures PositionSize(available, starting) > 0.0 ==> 10.0 <= PositionSize(available, starting) <= available
  {
  }

  lemma OpenAppends(b: Books, t: Trade)
    requires t.size <= b.available
    ensures Open(b, t).active == b.active + [t] && Open(b, t).closed == b.closed
    ensures Ids(Open(b, t).active) == Ids(b.active) + {t.id}
  {
    IdsOneMore(b.active, t);
  }

  lemma AdmitKeepsSound(s: System, o: Opportunity, a: Answers)
    requires Sound(s) && Plausible(s, Execute(o, a))
    ensures Sound(Admit(s, o, a))
  {
    if Admit(s, o, a) != s {
      SizeFits(s.books.available, s.books.starting);
      OpenConserves(s.books, NewTrade(s, o, a.entry));
      AddKeepsAgree(s, NewTrade(s, o, a.entry));
      AddKeepsOnePerSymbol(s.trades, NewTrade(s, o, a.entry));
    }
  }

  lemma AddKeepsOnePerSymbol(trades: map<string, Trade>, t: Trade)
    requires OnePerSymbol(trades) && !Taken(trades, t.symbol) && !t.status.Closed?
    ensures OnePerSymbol(trades[t.id := t])
  {
    forall id | id in trades ensures trades[id].symbol != t.symbol {
      assert trades[id].status.Active? || trades[id].status.Exiting?;
    }
  }

  lemma AddKeepsAgree(s: System, t: Trade)
    requires Agree(s) && t.id !in s.trades && t.size <= s.books.available
    ensures Agree(System(s.trades[t.id := t], Open(s.books, t)))
  {
    OpenAppends(s.books, t);
  }

  lemma TriggerKeepsSound(s: System, id: string)
    requires Sound(s)
    ensures Sound(TriggerExit(s, id))
  {
  }

  lemma IdsWithout(trades: seq<Trade>, i: nat)
    requires i < |trades| && DistinctIds(trades)
    ensures var rest := trades[..i] + trades[i + 1..];
            && DistinctIds(rest) && Ids(rest) == Ids(trades) - {trades[i].id}
            && forall t :: t in rest ==> t in trades
  {
    var rest := trades[..i] + trades[i + 1..];
    forall t ensures t in rest <==> t in trades && t.id != trades[i].id {
      if t in trades && t.id != trades[i].id {
        var j :| 0 <= j < |trades| && trades[j] == t;
        assert rest[if j < i then j else j - 1] == t;
      }
    }
  }

  lemma IdsOneMore(trades: seq<Trade>, t: Trade)
    ensures Ids(trades + [t]) == Ids(trades) + {t.id}
  {
    assert forall x :: x in trades + [t] <==> x in trades || x == t;
  }

  lemma CloseMoves(b: Books, id: string, profit: real)
    requires DistinctIds(b.active)
    ensures var b' := Close(b, id, profit);
            && DistinctIds(b'.active)
            && Ids(b'.active) == Ids(b.active) - {id}
            && (forall t :: t in b'.active ==> t in b.active)
            && Ids(b'.closed) == Ids(b.closed) + (if id in Ids(b.active) then {id} else {})
            && (id in Ids(b.active) <==> Position(b.active, id) < |b.active|)
  {
    var i := Position(b.active, id);
    if i < |b.active| {
      IdsWithout(b.active, i);
      IdsOneMore(b.closed, b.active[i].(status := Closed, profit := profit));
      assert b.active[i] in b.active;
    }
  }

  lemma CompleteKeepsSound(s: System, id: string, profit: real, written: bool)
    requires Sound(s)
    ensures Sound(CompleteExit(s, id, profit, written))
  {
    CloseConserves(s.books, id, profit);
    CompleteKeepsAgree(s, id, profit, written);
    assert OnePerSymbol(CompleteExit(s, id, profit, written).trades);
  }

  lemma CompleteKeepsAgree(s: System, id: string, profit: real, written: bool)
    requires Agree(s)
    ensures Agree(CompleteExit(s, id, profit, written))
  {
    CloseMoves(s.books, id, profit);
    var s' := CompleteExit(s, id, profit, written);
    if s' != s {
      forall t | t in s'.books.active ensures t in s.books.active && t.id != id {
        assert t.id in Ids(s'.books.active);
      }
    }
  }

  /** Over every sequence of calls and exits, whatever the exits earn or lose. */
  lemma {:induction false} RunIsSound(starting: real, ops: History<Op>)
    requires PlausibleRun(NewSystem(starting), ops)
    ensures Sound(Run(NewSystem(starting), ops))
  {
    match ops
    case Start =>
    case Then(before, op) =>
      RunIsSound(starting, before);
      var s := Run(NewSystem(starting), before);
      match op
      case Execute(o, a) => AdmitKeepsSound(s, o, a);
      case Trigger(id) => TriggerKeepsSound(s, id);
      case Complete(id, profit, written) => CompleteKeepsSound(s, id, profit, written);
  }

  predicate AllWritten(ops: History<Op>) {
    ops.Then? ==> AllWritten(ops.before) && (ops.last.Complete? ==> ops.last.written)
  }

  /** As long as no close fails to write, the trade map holds exactly the portfolio's active trades. */
  lemma {:induction false} MapIsActive(starting: real, ops: History<Op>)
    requires PlausibleRun(NewSystem(starting), ops) && AllWritten(ops)
    ensures var s := Run(NewSystem(starting), ops); s.trades.Keys == Ids(s.books.active)
  {
    match ops
    case Start =>
    case Then(before, op) =>
      MapIsActive(starting, before);
      RunIsSound(starting, before);
      StepKeepsMapActive(Run(NewSystem(starting), before), op);
  }

  lemma StepKeepsMapActive(s: System, op: Op)
    requires Sound(s) && Plausible(s, op) && (op.Complete? ==> op.written) && s.trades.Keys == Ids(s.books.active)
    ensures Apply(s, op).trades.Keys == Ids(Apply(s, op).books.active)
  {
    match op
    case Execute(o, a) =>
      if Admit(s, o, a) != s {
        SizeFits(s.books.available, s.books.starting);
        OpenAppends(s.books, NewTrade(s, o, a.entry));
      }
    case Trigger(_) =>
    case Complete(id, profit, _) => CloseMoves(s.books, id, profit);
  }

  /** A close whose write fails leaves its trade in the map though the portfolio closed it; the next round removes it. */
  lemma FailedWriteHeals(s: System, id: string, profit: real, again: real, written: bool)
    requires Sound(s) && id in s.trades && s.trades[id].status.Exiting? && id in Ids(s.books.active)
    ensures var s' := CompleteExit(s, id, profit, false);
            && id in s'.trades && id !in Ids(s'.books.active)
            && CompleteExit(s', id, again, written) == CompleteExit(s, id, profit, true)
  {
    CloseMoves(s.books, id, profit);
    var s' := CompleteExit(s, id, profit, false);
    CloseMoves(s'.books, id, again);
  }

  // ---- How many entries fit before a close ----

  predicate NoClose(ops: History<Op>) { ops.Then? ==> NoClose(ops.before) && !ops.last.Complete? }

  /**
   At most ten trades are open, and the tenths they do not take are what is available; none is open when a
   tenth is below ten dollars.
   */
  ghost predicate Tenths(b: Books, starting: real) {
    && b.starting == starting && |b.active| <= 10
    && (starting < 100.0 ==> b.active == [])
    && b.available == Multiple(10 - |b.active|, starting * 0.10)
  }

  /** Every entry takes a tenth of the starting capital, so from a fresh portfolio at most ten succeed before a close. */
  lemma {:induction false} TenEntries(starting: real, ops: History<Op>)
    requires starting >= 0.0 && NoClose(ops)
    ensures Tenths(Run(NewSystem(starting), ops).books, starting)
  {
    match ops
    case Start => MultipleIsProduct(10, starting * 0.10);
    case Then(before, op) =>
      TenEntries(starting, before);
      EntryTakesTenth(Run(NewSystem(starting), before), op, starting);
  }

  lemma EntryTakesTenth(s: System, op: Op, starting: real)
    requires !op.Complete? && starting >= 0.0 && Tenths(s.books, starting)
    ensures Tenths(Apply(s, op).books, starting)
  {
    if Apply(s, op).books != s.books {
      var left, tenth := 10 - |s.books.active|, starting * 0.10;
      assert left > 0 by { assert Multiple(0, tenth) == 0.0; }
      MultipleGrows(1, left, tenth);
      assert Multiple(1, tenth) == tenth;
      assert PositionSize(s.books.available, starting) == tenth;
    }
  }

  predicate Enters(s: System, o: Opportunity, a: Answers) {
    Passes(o, a, s.books.available, s.books.starting) && a.entry.Executed?
  }

  /**
   The duplicate check and the reservation are two operations. Of two calls for one symbol that both pass
   the check before either reserves, the symbol ends with two active trades if and only if both enter.
   */
  lemma OverlapDoublesIff(s: System, o: Opportunity, o': Opportunity, a: Answers, a': Answers)
    requires OnePerSymbol(s.trades) && !Taken(s.trades, o.symbol) && o'.symbol == o.symbol
    requires a.entry.Executed? ==> a.entry.id !in s.trades
    requires a'.entry.Executed? ==> a'.entry.id !in Attempt(s, o, a).trades
    ensures !OnePerSymbol(Attempt(Attempt(s, o, a), o', a').trades) <==>
            Enters(s, o, a) && Enters(Attempt(s, o, a), o', a')
  {
    var s1 := Attempt(s, o, a);
    var s2 := Attempt(s1, o', a');
    if Enters(s, o, a) {
      AddKeepsOnePerSymbol(s.trades, NewTrade(s, o, a.entry));
      if Enters(s1, o', a') {
        assert a.entry.id in s2.trades && a'.entry.id in s2.trades;
        assert s2.trades[a.entry.id].symbol == s2.trades[a'.entry.id].symbol;
      }
    } else if Enters(s1, o', a') {
      AddKeepsOnePerSymbol(s.trades, NewTrade(s1, o', a'.entry));
    }
  }

  /** It happens on a fresh system of a thousand dollars. */
  lemma OverlapDoubles() returns (o: Opportunity, a: Answers, a': Answers)
    ensures var s := NewSystem(1000.0);
            && !Taken(s.trades, o.symbol) && Plausible(s, Execute(o, a)) && Plausible(s, Execute(o, a'))
            && !OnePerSymbol(Attempt(Attempt(s, o, a), o, a').trades)
  {
    var s := NewSystem(1000.0);
    o := Opportunity("BTCUSDT", 15000.0, 15000.0, true, true, true, 75);
    a := Answers(Paper, Some((100.0, 101.0)), 10.0, None, None, true, true, Executed("a", false), true, true);
    a' := a.(entry := Executed("b", false));
    assert "a" != "b" by { assert "a"[0] != "b"[0]; }
    assert Enters(s, o, a) && Attempt(s, o, a).books.available == 900.0;
    assert Enters(Attempt(s, o, a), o, a');
    OverlapDoublesIff(s, o, o, a, a');
  }

  /** What an exit earns: the narrowing of the spread less the fees, on the position. */
  function ExitProfit(entrySpreadBps: real, exitSpreadBps: real, feesBps: real, size: real): real {
    (entrySpreadBps - exitSpreadBps - feesBps) / 10000.0 * size
  }

  /**
   An exit loses no more than the whole position if and only if the spread has not widened, fees included,
   by more than 10000 bps.
   */
  lemma ExitWithinPosition(entrySpreadBps: real, exitSpreadBps: real, feesBps: real, size: real)
    requires size > 0.0
    ensures size + ExitProfit(entrySpreadBps, exitSpreadBps, feesBps, size) >= 0.0 <==>
            exitSpreadBps + feesBps - entrySpreadBps <= 10000.0
  {
    var kept := 1.0 + (entrySpreadBps - exitSpreadBps - feesBps) / 10000.0;
    assert size + ExitProfit(entrySpreadBps, exitSpreadBps, feesBps, size) == kept * size;
    assert kept >= 0.0 ==> kept * size >= 0.0;
    assert kept < 0.0 ==> kept * size < 0.0;
  }

  /** An exit breaks even exactly when the spread has narrowed by the fees; each basis point moves it by a ten-thousandth. */
  lemma ExitBreaksEven(entrySpreadBps: real, exitSpreadBps: real, exitSpreadBps': real, feesBps: real, size: real)
    requires size > 0.0
    ensures ExitProfit(entrySpreadBps, exitSpreadBps, feesBps, size) == 0.0 <==> exitSpreadBps == entrySpreadBps - feesBps
    ensures (ExitProfit(entrySpreadBps, exitSpreadBps, feesBps, size) -
             ExitProfit(entrySpreadBps, exitSpreadBps', feesBps, size)) * 10000.0 == (exitSpreadBps' - exitSpreadBps) * size
  {
    var net, net' := entrySpreadBps - exitSpreadBps - feesBps, entrySpreadBps - exitSpreadBps' - feesBps;
    TenThousandths(net, size);
    TenThousandths(net', size);
    Difference(net, net', size);
    assert net - net' == exitSpreadBps' - exitSpreadBps;
  }

  lemma Difference(net: real, net': real, size: real)
    ensures (net - net') * size == net * size - net' * size
  {
  }

  lemma TenThousandths(net: real, size: real)
    requires size > 0.0
    ensures net / 10000.0 * size * 10000.0 == net * size
    ensures net / 10000.0 * size == 0.0 <==> net == 0.0
  {
    assert net / 10000.0 * 10000.0 == net;
    if net > 0.0 { assert net / 10000.0 * size > 0.0; } else if net < 0.0 { assert net / 10000.0 * size < 0.0; }
  }

  // ---- When the available capital stays non-negative ----

  /** The available capital covers what an exit loses beyond its position. */
  predicate Affordable(s: System, op: Op) {
    op.Complete? && op.id in s.trades && s.trades[op.id].status.Exiting? ==>
      var i := Position(s.books.active, op.id);
      i < |s.books.active| ==> s.books.available + (s.books.active[i].size + op.profit) >= 0.0
  }

  predicate AffordableRun(s: System, ops: History<Op>) {
    ops.Then? ==> AffordableRun(s, ops.before) && Affordable(Run(s, ops.before), ops.last)
  }

  predicate NeverNegative(s: System, ops: History<Op>) {
    Run(s, ops).books.available >= 0.0 && (ops.Then? ==> NeverNegative(s, ops.before))
  }

  lemma StepCapitalIff(s: System, op: Op)
    requires s.books.available >= 0.0
    ensures Apply(s, op).books.available >= 0.0 <==> Affordable(s, op)
  {
    if op.Execute? { SizeFits(s.books.available, s.books.starting); }
  }

  /** The available capital is never negative in a run if and only if every exit could be afforded when it was made. */
  lemma {:induction false} CapitalIff(starting: real, ops: History<Op>)
    requires starting >= 0.0
    ensures NeverNegative(NewSystem(starting), ops) <==> AffordableRun(NewSystem(starting), ops)
  {
    if ops.Then? {
      CapitalIff(starting, ops.before);
      var s := Run(NewSystem(starting), ops.before);
      if s.books.available >= 0.0 { StepCapitalIff(s, ops.last); }
    }
  }

  ghost predicate WithinPositions(s: System, ops: History<Op>) {
    ops.Then? ==>
      && WithinPositions(s, ops.before)
      && (ops.last.Complete? ==>
            forall t :: t in Run(s, ops.before).books.active && t.id == ops.last.id ==> t.size + ops.last.profit >= 0.0)
  }

  /** So it is never negative as long as no exit loses more than its position. */
  lemma {:induction false} CapitalStays(starting: real, ops: History<Op>)
    requires starting >= 0.0 && WithinPositions(NewSystem(starting), ops)
    ensures NeverNegative(NewSystem(starting), ops)
  {
    if ops.Then? {
      CapitalStays(starting, ops.before);
      StepCapitalIff(Run(NewSystem(starting), ops.before), ops.last);
    }
  }

  /**
   Nothing in the exit path enforces that: of a thousand dollars one trade takes a hundred, and when its spread
   has widened from 100 to 200000 bps its exit leaves the available capital negative.
   */
  lemma ExitOverdraws() returns (ops: History<Op>)
    ensures var s := NewSystem(1000.0);
            && ops.Then? && ops.last.Complete? && PlausibleRun(s, ops)
            && ops.last.profit == ExitProfit(100.0, 200000.0, 10.0, 100.0)
            && NeverNegative(s, ops.before) && Run(s, ops).books.available < 0.0
  {
    var s := NewSystem(1000.0);
    var o := Opportunity("BTCUSDT", 15000.0, 15000.0, true, true, true, 75);
    var a := Answers(Paper, Some((100.0, 101.0)), 10.0, None, None, true, true, Executed("a", false), true, true);
    var entered := Then(Start, Execute(o, a));
    assert Enters(s, o, a) && Run(s, entered.before) == s;
    var s1 := Run(s, entered);
    assert s1 == Attempt(s, o, a) && s1.books.available == 900.0 && s1.books.active == [NewTrade(s, o, a.entry)];
    var triggered := Then(entered, Trigger("a"));
    assert Run(s, triggered) == TriggerExit(s1, "a");
    ops := Then(triggered, Complete("a", ExitProfit(100.0, 200000.0, 10.0, 100.0), true));
    assert Run(s, ops) == CompleteExit(Run(s, triggered), "a", ops.last.profit, true);
    assert Position(s1.books.active, "a") == 0;
  }

  // ---- The runner ----

  /** The reason a decision names holds; two of them are never given. */
  predicate Tells(why: Skip, o: Opportunity, a: Answers, available: real) {
    match why
    case NoPrices => a.prices.None?
    case NoDepth => o.depthLong < 2.0 || o.depthShort < 2.0
    case HighLatency => !o.latencyOk
    case NoFundingDelta => !o.fundingSubstantial
    case NoSpread => a.prices.Some? && SpreadBps(a.prices.value.0, a.prices.value.1) <= 0.0
    case NoProfit => a.prices.Some? && SpreadBps(a.prices.value.0, a.prices.value.1) <= a.feesBps
    case NoCapital => available <= 0.0
    case BalanceCheckFailed => !a.mode.Paper? && (a.longBalance.None? || (a.mode.Live? && a.shortBalance.None?))
    case LowBalance =>
      && !a.mode.Paper? && a.longBalance.Some?
      && (a.longBalance.value < 10.0 || (a.mode.Live? && a.shortBalance.Some? && a.shortBalance.value < 10.0))
    case NoSize => available > 0.0
    case LowConfidence => o.confidence < 70 || !o.depthSufficient
    case NotTradeable => !a.mode.Paper? && !(a.longTradeable && a.shortTradeable)
    case Duplicate => false
    case OverCapital => false
  }

  class StrategyRunner {
    var activeTrades: map<string, Trade>
    const portfolio: PortfolioManager

    ghost function Contents(): System reads this, portfolio { System(activeTrades, portfolio.Contents()) }

    constructor (portfolio: PortfolioManager)
      ensures this.portfolio == portfolio && activeTrades == map[]
    {
      this.portfolio := portfolio;
      activeTrades := map[];
    }

    /** The chain of decisions between the reservation and the entry. */
    method Decide(o: Opportunity, a: Answers) returns (size: Result<real, Skip>)
      ensures size.Ok? <==> Passes(o, a, portfolio.available, portfolio.starting)
      ensures size.Ok? ==> size.value == PositionSize(portfolio.available, portfolio.starting)
      ensures size.Err? ==> Tells(size.error, o, a, portfolio.available)
    {
      if a.prices.None? { return Err(NoPrices); }
      var needed := if o.depthSufficient then 2.0 else 0.0;
      if !(o.depthLong >= needed && o.depthShort >= needed) { return Err(NoDepth); }
      if !o.latencyOk { return Err(HighLatency); }
      if !o.fundingSubstantial { return Err(NoFundingDelta); }
      var spread := SpreadBps(a.prices.value.0, a.prices.value.1);
      if spread <= 0.0 { return Err(NoSpread); }
      if spread - a.feesBps <= 0.0 { return Err(NoProfit); }
      var available := portfolio.available;
      if available <= 0.0 { return Err(NoCapital); }
      match a.mode {
        case Paper =>
        case Demo =>
          if a.longBalance.None? { return Err(BalanceCheckFailed); }
          if a.longBalance.value < 10.0 { return Err(LowBalance); }
        case Live =>
          if a.longBalance.None? || a.shortBalance.None? { return Err(BalanceCheckFailed); }
          if a.longBalance.value < 10.0 || a.shortBalance.value < 10.0 { return Err(LowBalance); }
      }
      var position := PositionSize(available, portfolio.starting);
      if position <= 0.0 { return Err(NoSize); }
      if position > available { return Err(OverCapital); }
      var confidence := if o.depthSufficient && o.latencyOk && o.fundingSubstantial then o.confidence else 0;
      if confidence < 70 { return Err(LowConfidence); }
      if !a.mode.Paper? && !(a.longTradeable && a.shortTradeable) { return Err(NotTradeable); }
      size := Ok(position);
    }

    /**
     Enters exactly when the symbol is free, every decision passes and the entry yields a trade; on every
     other path map and portfolio are what they were, with no placeholder left.
     */
    method ExecuteOpportunity(o: Opportunity, a: Answers, placeholderId: string) returns (r: Outcome)
      requires portfolio.Valid() && placeholderId !in activeTrades
      requires a.entry.Executed? ==> a.entry.id != placeholderId
      modifies this, portfolio
      ensures portfolio.Valid() && Contents() == Admit(old(Contents()), o, a)
      ensures r.Entered? <==> !old(Taken(activeTrades, o.symbol)) && a.entry.Executed? &&
                              old(Passes(o, a, portfolio.available, portfolio.starting))
      ensures !r.Entered? ==> activeTrades == old(activeTrades) && portfolio.Contents() == old(portfolio.Contents())
    {
      var taken := HasActiveOrExiting(o.symbol);
      if taken { return Skipped(Duplicate); }
      var placeholder := Trade(placeholderId, o.symbol, 0.0, false, Status.Active, 0.0);
      activeTrades := activeTrades[placeholderId := placeholder];
      assert activeTrades - {placeholderId} == old(activeTrades);
      SizeFits(portfolio.available, portfolio.starting);
      var decision := Decide(o, a);
      if decision.Err? {
        activeTrades := activeTrades - {placeholderId};
        return Skipped(decision.error);
      }
      r := Enter(o, a, decision.value, placeholderId);
    }

    // The entry and what follows it: the placeholder goes on every path.
    method Enter(o: Opportunity, a: Answers, size: real, placeholderId: string) returns (r: Outcome)
      requires portfolio.Valid() && placeholderId in activeTrades && size <= portfolio.available
      requires a.entry.Executed? ==> a.entry.id != placeholderId
      modifies this, portfolio
      ensures portfolio.Valid() && r.Entered? == a.entry.Executed?
      ensures if r.Entered?
              then && r.trade == Trade(a.entry.id, o.symbol, size, a.entry.legOut, Status.Active, 0.0)
                   && activeTrades == (old(activeTrades) - {placeholderId})[a.entry.id := r.trade]
                   && portfolio.Contents() == Open(old(portfolio.Contents()), r.trade)
              else activeTrades == old(activeTrades) - {placeholderId} && portfolio.Contents() == old(portfolio.Contents())
    {
      match a.entry
      case TimedOut =>
        activeTrades := activeTrades - {placeholderId};
        r := EntryTimedOut;
      case Refused =>
        activeTrades := activeTrades - {placeholderId};
        r := EntryRefused;
      case Executed(id, legOut) =>
        var trade := Trade(id, o.symbol, size, legOut, Status.Active, 0.0);
        activeTrades := activeTrades - {placeholderId};
        activeTrades := activeTrades[id := trade];
        var _ := portfolio.OpenTrade(trade, a.logged, a.persisted);
        r := Entered(trade);
    }

    method HasActiveOrExiting(symbol: string) returns (taken: bool)
      ensures taken == Taken(activeTrades, symbol)
    {
      taken := exists id :: id in activeTrades && activeTrades[id].symbol == symbol
                            && (activeTrades[id].status.Active? || activeTrades[id].status.Exiting?);
    }

    // The close of an exiting trade; a failed write returns early and leaves the trade in the map.
    method CloseExit(id: string, profit: real, logged: bool, persisted: bool) returns (r: Result<(), string>)
      requires portfolio.Valid() && id in activeTrades && activeTrades[id].status.Exiting?
      modifies this, portfolio
      ensures portfolio.Valid() && Contents() == CompleteExit(old(Contents()), id, profit, logged && persisted)
    {
      r := portfolio.CloseTrade(id, profit, logged, persisted);
      if r.Err? { return r; }
      activeTrades := activeTrades - {id};
    }

    /** One trade of the exit loop. An exit spread that was not captured counts as zero. */
    method CheckExit(id: string, entrySpreadBps: real, exitSpreadBps: Option<real>, feesBps: real,
                     logged: bool, persisted: bool)
      returns (r: Result<(), string>)
      requires portfolio.Valid()
      modifies this, portfolio
      ensures portfolio.Valid()
      ensures Contents() == if id !in old(activeTrades) then old(Contents()) else
                var exit := if exitSpreadBps.Some? then exitSpreadBps.value else 0.0;
                var profit := ExitProfit(entrySpreadBps, exit, feesBps, old(activeTrades)[id].size);
                CompleteExit(old(Contents()), id, profit, logged && persisted)
    {
      if id !in activeTrades || !activeTrades[id].status.Exiting? { return Ok(()); }
      var exit := if exitSpreadBps.Some? then exitSpreadBps.value else 0.0;
      r := CloseExit(id, ExitProfit(entrySpreadBps, exit, feesBps, activeTrades[id].size), logged, persisted);
    }
  }
}
