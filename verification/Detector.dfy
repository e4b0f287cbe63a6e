/**
 The opportunity detector: every update is stored, and then every pair of exchanges that quote its
 symbol is checked in both directions.
 */
module Detector {
  import opened Wrappers
  import opened MarketStore
  import opened Numbers
  import opened Queues
  import SymbolMap

  const KNOWN: seq<string> := ["binance", "bybit", "okx", "kucoin", "bitget", "gateio", "hyperliquid", "paradex"]

  const EXCHANGES: nat := 8

  type Exchange = e: nat | e < EXCHANGES

  datatype Quote = Quote(bid: real, ask: real)

  // One direction of a pair: buy at the first exchange's ask, sell at the second one's bid.
  datatype Check = Check(long: Exchange, short: Exchange)

  datatype Thresholds = Thresholds(minSpreadBps: real, minFundingDelta: real, minConfidence: int)

  const DEFAULT := Thresholds(10.0, 0.0001, 70)

  const FUNDING_DELTA: real := 0.0002

  datatype Opportunity = Opportunity(
    symbol: string, longExchange: Exchange, shortExchange: Exchange, longPrice: real, shortPrice: real,
    spreadBps: real, confidence: int, profitUsd: real, profitBps: real)

  datatype Verdict = SpreadTooSmall | FundingTooSmall | NotConfident | Unprofitable | Found(opportunity: Opportunity)

  function TakerFeeBps(e: Exchange): real {
    match e
    case 0 => 4.0
    case 1 => 5.5
    case 6 => 4.5
    case 2 => 5.0
    case 7 => 5.0
    case _ => 6.0
  }

  // The cast to u8 truncates.
  function Confidence(spreadBps: real, fundingDelta: real): int {
    var score := Min(spreadBps / 50.0, 1.0) * 50.0 + Min(Abs(fundingDelta) / 0.01, 1.0) * 30.0 + 20.0;
    (if score < 0.0 then 0.0 else Min(score, 100.0)).Floor
  }

  function PairSpreadBps(ask: real, bid: real): real
    requires ask > 0.0
  {
    (bid - ask) / ask * 10000.0
  }

  function Judge(t: Thresholds, symbol: string, c: Check, ask: real, bid: real): Verdict
    requires ask > 0.0
  {
    var spread := PairSpreadBps(ask, bid);
    var confidence := Confidence(spread, FUNDING_DELTA);
    var profit := spread - (TakerFeeBps(c.long) + TakerFeeBps(c.short)) - 3.0 - 10.0;
    if spread <= t.minSpreadBps then SpreadTooSmall
    else if Abs(FUNDING_DELTA) < t.minFundingDelta then FundingTooSmall
    else if confidence < t.minConfidence then NotConfident
    else if profit <= 0.0 then Unprofitable
    else Found(Opportunity(symbol, c.long, c.short, ask, bid, spread, confidence, profit / 10000.0 * 1000.0, profit))
  }

  /**
   Under the default thresholds an opportunity is found exactly from a spread of 49.4 bps on: the
   confidence filter decides, and the funding and profit filters never reject anything.
   */
  lemma FoundIffSpread(symbol: string, c: Check, ask: real, bid: real)
    requires ask > 0.0
    ensures var v := Judge(DEFAULT, symbol, c, ask, bid);
            && (v.Found? <==> PairSpreadBps(ask, bid) >= 49.4)
            && !v.FundingTooSmall? && !v.Unprofitable?
            && (v.Found? ==> v.opportunity.profitBps >= 24.4)
  {
    var spread := PairSpreadBps(ask, bid);
    assert Min(Abs(FUNDING_DELTA) / 0.01, 1.0) * 30.0 == 0.6;
    assert Min(spread / 50.0, 1.0) * 50.0 == Min(spread, 50.0);
    assert Confidence(spread, FUNDING_DELTA) >= 70 <==> spread >= 49.4;
  }

  /** With the constant funding delta the score is the spread plus 20.6, capped at 70. */
  lemma ConfidenceIs(spread: real)
    ensures Confidence(spread, FUNDING_DELTA) ==
            if spread >= 50.0 then 70 else if spread <= -20.6 then 0 else (spread + 20.6).Floor
  {
    assert Min(Abs(FUNDING_DELTA) / 0.01, 1.0) * 30.0 == 0.6;
    assert Min(spread / 50.0, 1.0) * 50.0 == Min(spread, 50.0);
  }

  // The taker fees by the exchanges' names, in basis points.
  predicate FeeOf(name: string, fee: real) {
    && (name == "binance" ==> fee == 4.0) && (name == "bybit" ==> fee == 5.5) && (name == "hyperliquid" ==> fee == 4.5)
    && (name == "okx" || name == "paradex" ==> fee == 5.0)
    && (name == "kucoin" || name == "bitget" || name == "gateio" ==> fee == 6.0)
  }

  lemma SpreadTimesAsk(ask: real, bid: real)
    requires ask > 0.0
    ensures PairSpreadBps(ask, bid) * ask == (bid - ask) * 10000.0
    ensures PairSpreadBps(ask, bid) > 0.0 <==> bid > ask
  {
    var ratio := (bid - ask) / ask;
    assert ratio * ask == bid - ask;
    assert ratio * 10000.0 * ask == ratio * ask * 10000.0;
    if ratio > 0.0 { assert ratio * ask > 0.0; } else { assert ratio * ask <= 0.0; }
  }

  lemma SpreadAsRatio(ask: real, bid: real)
    requires ask > 0.0
    ensures PairSpreadBps(ask, bid) >= 49.4 <==> bid >= 1.00494 * ask
  {
    var ratio := (bid - ask) / ask;
    assert ratio * ask == bid - ask;
    if ratio >= 0.00494 {
      assert ratio * ask >= 0.00494 * ask;
    } else {
      assert ratio * ask < 0.00494 * ask;
    }
  }

  // ---- The published relation ----

  // A quote the detector accepts has its bid below its ask.
  ghost predicate Proper(q: Option<Quote>) { Valid(q) ==> q.value.bid < q.value.ask }

  ghost predicate Market(quotes: seq<Option<Quote>>) {
    |quotes| == EXCHANGES && forall e :: 0 <= e < EXCHANGES ==> Proper(quotes[e])
  }

  /** Both exchanges quote, and the detector finds the opportunity to buy at `long` and sell at `short`. */
  ghost predicate Published(quotes: seq<Option<Quote>>, symbol: string, long: Exchange, short: Exchange)
    requires |quotes| == EXCHANGES
  {
    && long != short && Valid(quotes[long]) && Valid(quotes[short])
    && Judge(DEFAULT, symbol, Check(long, short), quotes[long].value.ask, quotes[short].value.bid).Found?
  }

  predicate Valid(q: Option<Quote>) { q.Some? && q.value.bid > 0.0 && q.value.ask > 0.0 }

  lemma PublishedIsAbove(quotes: seq<Option<Quote>>, symbol: string, long: Exchange, short: Exchange)
    requires Market(quotes) && long != short && Valid(quotes[long]) && Valid(quotes[short])
    ensures Published(quotes, symbol, long, short) <==> quotes[short].value.bid >= 1.00494 * quotes[long].value.ask
  {
    FoundIffSpread(symbol, Check(long, short), quotes[long].value.ask, quotes[short].value.bid);
    SpreadAsRatio(quotes[long].value.ask, quotes[short].value.bid);
  }

  ghost predicate Path(quotes: seq<Option<Quote>>, symbol: string, path: seq<Exchange>)
    requires |quotes| == EXCHANGES
  {
    forall i :: 0 <= i < |path| - 1 ==> Published(quotes, symbol, path[i], path[i + 1])
  }

  /**
   With proper quotes the published relation of a symbol is a strict partial order: any chain of
   published opportunities has distinct ends and is itself published end to end. So no pair is
   published both ways, there is no cycle through any number of exchanges, and it is transitive.
   */
  lemma {:induction false} PublishedIsStrictOrder(quotes: seq<Option<Quote>>, symbol: string, path: seq<Exchange>)
    requires Market(quotes) && |path| >= 2 && Path(quotes, symbol, path)
    ensures path[0] != path[|path| - 1] && Published(quotes, symbol, path[0], path[|path| - 1])
  {
    var front, last := path[..|path| - 1], path[|path| - 1];
    var middle := path[|path| - 2];
    assert Published(quotes, symbol, path[|path| - 2], path[|path| - 1]);
    PublishedIsAbove(quotes, symbol, middle, last);
    if |path| > 2 {
      assert Path(quotes, symbol, front) by {
        forall i | 0 <= i < |front| - 1 ensures Published(quotes, symbol, front[i], front[i + 1]) {
          assert Published(quotes, symbol, path[i], path[i + 1]);
        }
      }
      PublishedIsStrictOrder(quotes, symbol, front);
      PublishedIsAbove(quotes, symbol, path[0], middle);
      assert quotes[last].value.bid > quotes[path[0]].value.ask;
      PublishedIsAbove(quotes, symbol, path[0], last);
    }
  }

  // ---- What the store quotes for a symbol ----

  function Keys(symbol: string, e: Exchange): SymbolMap.Key { (KNOWN[e], symbol) }

  /** The detector's lookups intern the symbol for every known exchange. */
  function InternAll(m: SymbolMap.Maps, symbol: string, n: nat): (r: SymbolMap.Maps)
    requires n <= EXCHANGES
    ensures forall e :: 0 <= e < n ==> Keys(symbol, e) in r.toId
    ensures forall k :: k in m.toId ==> k in r.toId && r.toId[k] == m.toId[k]
  {
    if n == 0 then m else SymbolMap.Intern(InternAll(m, symbol, n - 1), Keys(symbol, n - 1))
  }

  lemma {:induction false} LaterKeepsIds(m: SymbolMap.Maps, symbol: string, n: nat, e: Exchange)
    requires e < n <= EXCHANGES
    ensures InternAll(m, symbol, n).toId[Keys(symbol, e)] == InternAll(m, symbol, e + 1).toId[Keys(symbol, e)]
  {
    if e + 1 < n { LaterKeepsIds(m, symbol, n - 1, e); }
  }

  /** A slot quotes once it is below the highest updated one; it may still be all zero. */
  function StoredQuote(applied: History<MarketUpdate>, id: nat): Option<Quote> {
    if id < CountOf(applied) then Some(Quote(RowOf(applied, id).bid, RowOf(applied, id).ask)) else None
  }

  ghost function Quotes(m: SymbolMap.Maps, applied: History<MarketUpdate>, symbol: string): (quotes: seq<Option<Quote>>)
    requires forall e :: 0 <= e < EXCHANGES ==> Keys(symbol, e) in m.toId
    ensures |quotes| == EXCHANGES
  {
    seq(EXCHANGES, e requires 0 <= e < EXCHANGES => StoredQuote(applied, m.toId[Keys(symbol, e)]))
  }

  predicate Ingested(applied: History<MarketUpdate>) {
    applied.Then? ==> 0.0 < applied.last.bid < applied.last.ask && Ingested(applied.before)
  }

  /** Valid quotes come from the newest update of an id below 256; they are proper when ingestion only lets proper prices in. */
  lemma {:induction false} ValidQuoteIsNewest(applied: History<MarketUpdate>, id: nat)
    ensures Valid(StoredQuote(applied, id)) ==>
              id < 256 && Newest(applied, id).Some? &&
              StoredQuote(applied, id) == Some(Quote(Newest(applied, id).value.bid, Newest(applied, id).value.ask))
    ensures Ingested(applied) ==> Proper(StoredQuote(applied, id))
  {
    CountIsTight(applied);
    if applied.Then? && applied.last.symbolId != id { NewestIsProper(applied.before, id); }
  }

  lemma {:induction false} NewestIsProper(applied: History<MarketUpdate>, id: nat)
    ensures Ingested(applied) && Newest(applied, id).Some? ==>
              0.0 < Newest(applied, id).value.bid < Newest(applied, id).value.ask
  {
    if applied.Then? && applied.last.symbolId != id { NewestIsProper(applied.before, id); }
  }

  /** When ingestion only lets proper prices in, the detector's view of a symbol is a proper market. */
  lemma IngestedMarket(m: SymbolMap.Maps, applied: History<MarketUpdate>, symbol: string)
    requires Ingested(applied) && forall e :: 0 <= e < EXCHANGES ==> Keys(symbol, e) in m.toId
    ensures Market(Quotes(m, applied, symbol))
  {
    forall e: Exchange ensures Proper(Quotes(m, applied, symbol)[e]) {
      ValidQuoteIsNewest(applied, m.toId[Keys(symbol, e)]);
    }
  }

  // ---- The pair loops ----

  // Which directions the loops should check: distinct exchanges that both quote valid prices.
  ghost predicate Expected(quotes: seq<Option<Quote>>, c: Check)
    requires |quotes| == EXCHANGES
  {
    c.long != c.short && Valid(quotes[c.long]) && Valid(quotes[c.short])
  }

  function CheckVerdict(t: Thresholds, symbol: string, quotes: seq<Option<Quote>>, c: Check): Verdict
    requires |quotes| == EXCHANGES && Valid(quotes[c.long]) && Valid(quotes[c.short])
  {
    Judge(t, symbol, c, quotes[c.long].value.ask, quotes[c.short].value.bid)
  }

  ghost predicate AllExpected(quotes: seq<Option<Quote>>, checks: seq<Check>)
    requires |quotes| == EXCHANGES
  {
    forall k :: 0 <= k < |checks| ==> Expected(quotes, checks[k])
  }

  /** The opportunities a sequence of checks finds, in order. */
  ghost function Founds(t: Thresholds, symbol: string, quotes: seq<Option<Quote>>, checks: seq<Check>): seq<Opportunity>
    requires |quotes| == EXCHANGES && AllExpected(quotes, checks)
  {
    if checks == [] then [] else
    var v := CheckVerdict(t, symbol, quotes, checks[|checks| - 1]);
    Founds(t, symbol, quotes, checks[..|checks| - 1]) + (if v.Found? then [v.opportunity] else [])
  }

  lemma {:induction false} FoundsAreTheFound(t: Thresholds, symbol: string, quotes: seq<Option<Quote>>,
                                             checks: seq<Check>, o: Opportunity)
    requires |quotes| == EXCHANGES && AllExpected(quotes, checks)
    ensures o in Founds(t, symbol, quotes, checks) <==>
            exists k :: 0 <= k < |checks| && CheckVerdict(t, symbol, quotes, checks[k]) == Found(o)
  {
    if checks != [] {
      var front := checks[..|checks| - 1];
      FoundsAreTheFound(t, symbol, quotes, front, o);
      if o in Founds(t, symbol, quotes, front) {
        var k :| 0 <= k < |front| && CheckVerdict(t, symbol, quotes, front[k]) == Found(o);
        assert checks[k] == front[k];
      }
      if k :| 0 <= k < |checks| && CheckVerdict(t, symbol, quotes, checks[k]) == Found(o) {
        assert k < |front| ==> front[k] == checks[k];
      }
    }
  }

  ghost predicate NoRepeats(checks: seq<Check>) { forall i, j :: 0 <= i < j < |checks| ==> checks[i] != checks[j] }

  /** The checks made once the loops stand at the pair of bounds: every smaller pair, both directions, once. */
  ghost predicate Visited(c: Check, i: nat, j: nat) {
    var lo, hi := if c.long < c.short then c.long else c.short, if c.long < c.short then c.short else c.long;
    lo < i || (lo == i && hi < j)
  }

  ghost predicate Progress(quotes: seq<Option<Quote>>, checks: seq<Check>, i: nat, j: nat)
    requires |quotes| == EXCHANGES
  {
    && AllExpected(quotes, checks) && NoRepeats(checks)
    && forall c: Check :: c in checks <==> Expected(quotes, c) && Visited(c, i, j)
  }

  lemma BothDirections(quotes: seq<Option<Quote>>, checks: seq<Check>, i: Exchange, j: Exchange)
    requires |quotes| == EXCHANGES && Progress(quotes, checks, i, j) && i < j
    requires Valid(quotes[i]) && Valid(quotes[j])
    ensures Progress(quotes, checks + [Check(i, j), Check(j, i)], i, j + 1)
  {
    var more := checks + [Check(i, j), Check(j, i)];
    assert !Visited(Check(i, j), i, j) && !Visited(Check(j, i), i, j);
    forall c: Check ensures c in more <==> Expected(quotes, c) && Visited(c, i, j + 1) {
      assert c in more <==> c in checks || c == Check(i, j) || c == Check(j, i);
    }
  }

  /** The first `n` exchanges that have a positive bid, in the order of the known list. */
  ghost predicate ListedBelow(quotes: seq<Option<Quote>>, exchanges: seq<Exchange>, n: nat)
    requires |quotes| == EXCHANGES
  {
    && (forall a, b :: 0 <= a < b < |exchanges| ==> exchanges[a] < exchanges[b])
    && (forall e: Exchange :: e in exchanges <==> e < n && quotes[e].Some? && quotes[e].value.bid > 0.0)
  }

  ghost predicate Listed(quotes: seq<Option<Quote>>, exchanges: seq<Exchange>)
    requires |quotes| == EXCHANGES
  {
    ListedBelow(quotes, exchanges, EXCHANGES)
  }

  lemma ListNext(quotes: seq<Option<Quote>>, exchanges: seq<Exchange>, n: Exchange)
    requires |quotes| == EXCHANGES && ListedBelow(quotes, exchanges, n)
    ensures var more := if quotes[n].Some? && quotes[n].value.bid > 0.0 then exchanges + [n] else exchanges;
            ListedBelow(quotes, more, n as int + 1)
  {
    var listed := quotes[n].Some? && quotes[n].value.bid > 0.0;
    var more := if listed then exchanges + [n] else exchanges;
    forall a | 0 <= a < |exchanges| ensures exchanges[a] < n { assert exchanges[a] in exchanges; }
    forall e: Exchange ensures e in more <==> e in exchanges || (listed && e == n) {
    }
  }

  function Bound(exchanges: seq<Exchange>, k: nat): nat { if k < |exchanges| then exchanges[k] else EXCHANGES }

  lemma NextBound(quotes: seq<Option<Quote>>, exchanges: seq<Exchange>, k: nat, e: Exchange)
    requires |quotes| == EXCHANGES && Listed(quotes, exchanges) && k < |exchanges| && Valid(quotes[e])
    ensures e < Bound(exchanges, k + 1) <==> e <= exchanges[k]
  {
    assert e in exchanges;
  }

  // Moving to the next exchange of the list passes over nothing that should be checked.
  lemma NextInner(quotes: seq<Option<Quote>>, exchanges: seq<Exchange>, checks: seq<Check>, i: Exchange, j: nat)
    requires |quotes| == EXCHANGES && Listed(quotes, exchanges) && j < |exchanges|
    requires || Progress(quotes, checks, i, exchanges[j] as int + 1)
             || (Progress(quotes, checks, i, exchanges[j]) && !(Valid(quotes[i]) && Valid(quotes[exchanges[j]])))
    ensures Progress(quotes, checks, i, Bound(exchanges, j + 1))
  {
    forall c: Check | Expected(quotes, c)
      ensures Visited(c, i, exchanges[j] as int + 1) <==> Visited(c, i, Bound(exchanges, j + 1))
    {
      NextBound(quotes, exchanges, j, c.long);
      NextBound(quotes, exchanges, j, c.short);
    }
  }

  lemma EnterInner(quotes: seq<Option<Quote>>, exchanges: seq<Exchange>, checks: seq<Check>, i: nat)
    requires |quotes| == EXCHANGES && Listed(quotes, exchanges) && i < |exchanges|
    requires Progress(quotes, checks, exchanges[i], 0)
    ensures Progress(quotes, checks, exchanges[i], Bound(exchanges, i + 1))
  {
    forall c: Check | Expected(quotes, c)
      ensures Visited(c, exchanges[i], 0) <==> Visited(c, exchanges[i], Bound(exchanges, i + 1))
    {
      NextBound(quotes, exchanges, i, c.long);
      NextBound(quotes, exchanges, i, c.short);
    }
  }

  lemma LeaveInner(quotes: seq<Option<Quote>>, exchanges: seq<Exchange>, checks: seq<Check>, i: nat)
    requires |quotes| == EXCHANGES && Listed(quotes, exchanges) && i < |exchanges|
    requires Progress(quotes, checks, exchanges[i], EXCHANGES)
    ensures Progress(quotes, checks, Bound(exchanges, i + 1), 0)
  {
    forall c: Check | Expected(quotes, c)
      ensures Visited(c, exchanges[i], EXCHANGES) <==> Visited(c, Bound(exchanges, i + 1), 0)
    {
      NextBound(quotes, exchanges, i, c.long);
      NextBound(quotes, exchanges, i, c.short);
    }
  }

  /** Every ordered pair of distinct exchanges with valid quotes is checked, and exactly once. */
  ghost predicate Complete(quotes: seq<Option<Quote>>, checks: seq<Check>)
    requires |quotes| == EXCHANGES
  {
    AllExpected(quotes, checks) && NoRepeats(checks) && forall c: Check :: c in checks <==> Expected(quotes, c)
  }

  lemma AtTheStart(quotes: seq<Option<Quote>>, exchanges: seq<Exchange>)
    requires |quotes| == EXCHANGES && Listed(quotes, exchanges)
    ensures Progress(quotes, [], Bound(exchanges, 0), 0)
  {
    forall c: Check | Expected(quotes, c) ensures !Visited(c, Bound(exchanges, 0), 0) {
      assert c.long in exchanges && c.short in exchanges;
    }
  }

  lemma AtTheEnd(quotes: seq<Option<Quote>>, exchanges: seq<Exchange>, checks: seq<Check>, k: nat)
    requires |quotes| == EXCHANGES && Listed(quotes, exchanges) && |exchanges| <= k + 1
    requires Progress(quotes, checks, Bound(exchanges, k), 0)
    ensures Complete(quotes, checks)
  {
    forall c: Check | Expected(quotes, c) ensures Visited(c, Bound(exchanges, k), 0) {
      assert c.long in exchanges && c.short in exchanges;
    }
  }

  /**
   When the checks are complete, an opportunity is found exactly when it is the verdict on some pair of
   distinct exchanges with valid quotes.
   */
  lemma FoundIffExpected(t: Thresholds, symbol: string, quotes: seq<Option<Quote>>, checks: seq<Check>, o: Opportunity)
    requires |quotes| == EXCHANGES && Complete(quotes, checks)
    ensures o in Founds(t, symbol, quotes, checks) <==>
            var c := Check(o.longExchange, o.shortExchange);
            Expected(quotes, c) && CheckVerdict(t, symbol, quotes, c) == Found(o)
  {
    FoundsAreTheFound(t, symbol, quotes, checks, o);
    var c := Check(o.longExchange, o.shortExchange);
    if c in checks {
      var k :| 0 <= k < |checks| && checks[k] == c;
    }
  }

  /** A found opportunity buys at the ask of its long exchange and sells at the bid of its short one. */
  ghost predicate QuotedBy(o: Opportunity, symbol: string, quotes: seq<Option<Quote>>)
    requires |quotes| == EXCHANGES
  {
    && o.symbol == symbol && o.longExchange != o.shortExchange
    && Valid(quotes[o.longExchange]) && Valid(quotes[o.shortExchange])
    && o.longPrice == quotes[o.longExchange].value.ask && o.shortPrice == quotes[o.shortExchange].value.bid
  }

  /** Its profit is the spread, on its long price, less both taker fees, three for slippage and ten for funding. */
  ghost predicate Accounted(o: Opportunity) {
    && o.spreadBps * o.longPrice == (o.shortPrice - o.longPrice) * 10000.0
    && (exists longFee, shortFee ::
          FeeOf(KNOWN[o.longExchange], longFee) && FeeOf(KNOWN[o.shortExchange], shortFee)
          && o.profitBps == o.spreadBps - longFee - shortFee - 13.0)
    && o.profitUsd * 10.0 == o.profitBps && o.profitBps > 0.0
  }

  /**
   Every opportunity that complete checks find carries the quotes it was found by, in order, and its accounts.
   Under the default thresholds its score is always exactly 70.
   */
  lemma FoundCarriesQuotes(t: Thresholds, symbol: string, quotes: seq<Option<Quote>>, checks: seq<Check>, o: Opportunity)
    requires |quotes| == EXCHANGES && Complete(quotes, checks) && o in Founds(t, symbol, quotes, checks)
    ensures QuotedBy(o, symbol, quotes) && Accounted(o) && o.spreadBps > t.minSpreadBps && o.confidence >= t.minConfidence
    ensures t.minSpreadBps >= 0.0 ==> 0.0 < o.longPrice < o.shortPrice
    ensures t == DEFAULT ==> o.confidence == 70 && o.spreadBps >= 49.4 && o.profitBps >= 24.4
  {
    FoundIffExpected(t, symbol, quotes, checks, o);
    var c := Check(o.longExchange, o.shortExchange);
    JudgedFound(t, symbol, c, quotes[c.long].value.ask, quotes[c.short].value.bid, o);
  }

  lemma JudgedFound(t: Thresholds, symbol: string, c: Check, ask: real, bid: real, o: Opportunity)
    requires ask > 0.0 && Judge(t, symbol, c, ask, bid) == Found(o)
    ensures o.symbol == symbol && o.longPrice == ask && o.shortPrice == bid && Accounted(o)
    ensures o.spreadBps > t.minSpreadBps && o.confidence >= t.minConfidence
    ensures t.minSpreadBps >= 0.0 ==> bid > ask
    ensures t == DEFAULT ==> o.confidence == 70 && o.spreadBps >= 49.4 && o.profitBps >= 24.4
  {
    SpreadTimesAsk(ask, bid);
    FeesByName(c.long);
    FeesByName(c.short);
    ProfitIs(o.profitBps);
    if t == DEFAULT {
      FoundIffSpread(symbol, c, ask, bid);
      ConfidenceIs(o.spreadBps);
    }
  }

  lemma ProfitIs(profit: real)
    ensures profit / 10000.0 * 1000.0 * 10.0 == profit
  {
  }

  lemma FeesByName(e: Exchange)
    ensures FeeOf(KNOWN[e], TakerFeeBps(e))
  {
    var name := KNOWN[e];
    assert |name| > 2;
  }

  /**
   So, under the default thresholds, what the checks of a symbol find is exactly its published relation,
   the strict order.
   */
  lemma PublishedExactly(symbol: string, quotes: seq<Option<Quote>>, checks: seq<Check>, long: Exchange, short: Exchange)
    requires |quotes| == EXCHANGES && Complete(quotes, checks)
    ensures Published(quotes, symbol, long, short) <==>
            exists o :: o in Founds(DEFAULT, symbol, quotes, checks) && o.longExchange == long && o.shortExchange == short
  {
    if Published(quotes, symbol, long, short) {
      FoundIffExpected(DEFAULT, symbol, quotes, checks, CheckVerdict(DEFAULT, symbol, quotes, Check(long, short)).opportunity);
    }
    forall o | o in Founds(DEFAULT, symbol, quotes, checks) && o.longExchange == long && o.shortExchange == short
      ensures Published(quotes, symbol, long, short)
    {
      FoundIffExpected(DEFAULT, symbol, quotes, checks, o);
    }
  }

  lemma FoundsOneMore(t: Thresholds, symbol: string, quotes: seq<Option<Quote>>, checks: seq<Check>, c: Check)
    requires |quotes| == EXCHANGES && AllExpected(quotes, checks) && Expected(quotes, c)
    ensures AllExpected(quotes, checks + [c])
    ensures var v := CheckVerdict(t, symbol, quotes, c);
            Founds(t, symbol, quotes, checks + [c]) ==
            if v.Found? then Founds(t, symbol, quotes, checks) + [v.opportunity] else Founds(t, symbol, quotes, checks)
  {
    assert (checks + [c])[..|checks|] == checks;
  }

  class OpportunityDetector {
    const thresholds: Thresholds
    const consumer: MarketPipeline<MarketUpdate>
    const store: MarketDataStore
    const symbolMap: SymbolMap.Interner
    const opportunities: OpportunityQueue<Opportunity>
    var spreadFiltered: nat
    var fundingFiltered: nat
    var confidenceFiltered: nat
    var profitFiltered: nat

    ghost predicate Ready()
      reads this, consumer, consumer.queue, store, store.bids, store.asks, store.timestamps, store.symbolIds
      reads opportunities, opportunities.queue
    {
      && consumer.Valid() && store.Valid() && opportunities.Valid()
      && consumer.queue as object != opportunities.queue as object
    }

    constructor (consumer: MarketPipeline<MarketUpdate>, symbolMap: SymbolMap.Interner,
                 opportunities: OpportunityQueue<Opportunity>)
      requires consumer.Valid() && opportunities.Valid() && consumer.queue as object != opportunities.queue as object
      ensures Ready() && thresholds == DEFAULT && store.applied == Start
      ensures this.consumer == consumer && this.symbolMap == symbolMap && this.opportunities == opportunities
    {
      thresholds := DEFAULT;
      this.consumer, this.symbolMap, this.opportunities := consumer, symbolMap, opportunities;
      store := new MarketDataStore();
      spreadFiltered, fundingFiltered, confidenceFiltered, profitFiltered := 0, 0, 0, 0;
    }

    ghost function Rejected(): nat reads this { spreadFiltered + fundingFiltered + confidenceFiltered + profitFiltered }

    method CheckOpportunity(symbol: string, c: Check, ask: real, bid: real)
      requires opportunities.Valid() && ask > 0.0
      modifies this, opportunities, opportunities.queue
      ensures opportunities.Valid()
      ensures var v := Judge(thresholds, symbol, c, ask, bid);
              && opportunities.queue.items ==
                 (if v.Found? then DropOldest(old(opportunities.queue.items), v.opportunity, opportunities.queue.capacity)
                  else old(opportunities.queue.items))
              && Rejected() == old(Rejected()) + (if v.Found? then 0 else 1)
              && spreadFiltered == old(spreadFiltered) + (if v.SpreadTooSmall? then 1 else 0)
              && fundingFiltered == old(fundingFiltered) + (if v.FundingTooSmall? then 1 else 0)
              && confidenceFiltered == old(confidenceFiltered) + (if v.NotConfident? then 1 else 0)
    {
      var spreadBps := (bid - ask) / ask * 10000.0;
      if spreadBps <= thresholds.minSpreadBps {
        spreadFiltered := spreadFiltered + 1;
        return;
      }
      var fundingDelta := FUNDING_DELTA;
      if Abs(fundingDelta) < thresholds.minFundingDelta {
        fundingFiltered := fundingFiltered + 1;
        return;
      }
      var confidence := Confidence(spreadBps, fundingDelta);
      if confidence < thresholds.minConfidence {
        confidenceFiltered := confidenceFiltered + 1;
        return;
      }
      var totalFees := TakerFeeBps(c.long) + TakerFeeBps(c.short);
      var profitBps := spreadBps - totalFees - 3.0 - 10.0;
      if profitBps <= 0.0 {
        profitFiltered := profitFiltered + 1;
        return;
      }
      opportunities.Push(Opportunity(symbol, c.long, c.short, ask, bid, spreadBps, confidence,
                                     profitBps / 10000.0 * 1000.0, profitBps));
    }

    method GetExchangesForSymbol(symbol: string) returns (exchanges: seq<Exchange>)
      requires store.Valid()
      modifies symbolMap
      ensures symbolMap.Contents() == InternAll(old(symbolMap.Contents()), symbol, EXCHANGES)
      ensures Listed(Quotes(symbolMap.Contents(), store.applied, symbol), exchanges)
    {
      exchanges := [];
      ghost var m := symbolMap.Contents();
      ghost var quotes := Quotes(InternAll(m, symbol, EXCHANGES), store.applied, symbol);
      for e := 0 to EXCHANGES
        invariant symbolMap.Contents() == InternAll(m, symbol, e)
        invariant ListedBelow(quotes, exchanges, e)
      {
        ListNext(quotes, exchanges, e);
        LaterKeepsIds(m, symbol, EXCHANGES, e);
        var bid := GetBidOf(e, symbol);
        if bid.Some? && bid.value > 0.0 { exchanges := exchanges + [e]; }
      }
    }

    method GetBidOf(e: Exchange, symbol: string) returns (bid: Option<real>)
      requires store.Valid()
      modifies symbolMap
      ensures symbolMap.Contents() == SymbolMap.Intern(old(symbolMap.Contents()), Keys(symbol, e))
      ensures var q := StoredQuote(store.applied, symbolMap.Contents().toId[Keys(symbol, e)]);
              bid == if q.Some? then Some(q.value.bid) else None
    {
      var id := symbolMap.GetOrInsert(KNOWN[e], symbol);
      bid := store.GetBid(id);
    }

    method GetPrices(e: Exchange, symbol: string) returns (prices: Option<Quote>)
      requires store.Valid()
      modifies symbolMap
      ensures symbolMap.Contents() == SymbolMap.Intern(old(symbolMap.Contents()), Keys(symbol, e))
      ensures var q := StoredQuote(store.applied, symbolMap.Contents().toId[Keys(symbol, e)]);
              prices == if Valid(q) then q else None
    {
      var id := symbolMap.GetOrInsert(KNOWN[e], symbol);
      var bid := store.GetBid(id);
      if bid.None? { return None; }
      var ask := store.GetAsk(id);
      if ask.None? { return None; }
      if bid.value <= 0.0 || ask.value <= 0.0 { return None; }
      prices := Some(Quote(bid.value, ask.value));
    }

    /**
     What the checks of one symbol have done so far: each found opportunity was pushed, in order, and
     each other check counted by exactly one filter.
     */
    ghost predicate Tally(symbol: string, quotes: seq<Option<Quote>>, checks: seq<Check>,
                          items: seq<Opportunity>, rejected: nat)
      requires |quotes| == EXCHANGES
      reads this, opportunities, opportunities.queue
    {
      && opportunities.Valid() && AllExpected(quotes, checks)
      && var founds := Founds(thresholds, symbol, quotes, checks);
         && opportunities.queue.items == DropOldestAll(items, founds, opportunities.queue.capacity)
         && Rejected() + |founds| == rejected + |checks|
    }

    // One direction of a pair, with the bookkeeping of the checks made.
    method CheckDirection(symbol: string, c: Check, ask: real, bid: real, ghost quotes: seq<Option<Quote>>,
                          ghost checks: seq<Check>, ghost items: seq<Opportunity>, ghost rejected: nat)
      requires |quotes| == EXCHANGES && Tally(symbol, quotes, checks, items, rejected)
      requires Expected(quotes, c) && ask == quotes[c.long].value.ask && bid == quotes[c.short].value.bid
      modifies this, opportunities, opportunities.queue
      ensures Tally(symbol, quotes, checks + [c], items, rejected)
    {
      FoundsOneMore(thresholds, symbol, quotes, checks, c);
      var v := CheckVerdict(thresholds, symbol, quotes, c);
      if v.Found? {
        DropOldestOneMore(items, Founds(thresholds, symbol, quotes, checks), v.opportunity, opportunities.queue.capacity);
      }
      CheckOpportunity(symbol, c, ask, bid);
    }

    ghost predicate Interned(symbol: string, quotes: seq<Option<Quote>>)
      reads symbolMap, store
    {
      && (forall e: Exchange :: Keys(symbol, e) in symbolMap.toId)
      && quotes == Quotes(symbolMap.Contents(), store.applied, symbol)
    }

    // One pair of the list, in both directions when both exchanges quote valid prices.
    method CheckPair(symbol: string, exchanges: seq<Exchange>, a: nat, b: nat, ghost quotes: seq<Option<Quote>>,
                     ghost checks: seq<Check>, ghost items: seq<Opportunity>, ghost rejected: nat)
      returns (ghost more: seq<Check>)
      requires store.Valid() && Interned(symbol, quotes) && Listed(quotes, exchanges) && a < b < |exchanges|
      requires Tally(symbol, quotes, checks, items, rejected) && Progress(quotes, checks, exchanges[a], exchanges[b])
      modifies this, symbolMap, opportunities, opportunities.queue
      ensures symbolMap.Contents() == old(symbolMap.Contents()) && Interned(symbol, quotes)
      ensures Tally(symbol, quotes, more, items, rejected)
      ensures Progress(quotes, more, exchanges[a], Bound(exchanges, b + 1))
    {
      more := checks;
      var i, j := exchanges[a], exchanges[b];
      assert Keys(symbol, i) in symbolMap.toId && Keys(symbol, j) in symbolMap.toId;
      var first := GetPrices(i, symbol);
      var second := GetPrices(j, symbol);
      if first.Some? && second.Some? {
        BothDirections(quotes, checks, i, j);
        more := checks + [Check(i, j)];
        assert more + [Check(j, i)] == checks + [Check(i, j), Check(j, i)];
        CheckDirection(symbol, Check(i, j), first.value.ask, second.value.bid, quotes, checks, items, rejected);
        CheckDirection(symbol, Check(j, i), second.value.ask, first.value.bid, quotes, more, items, rejected);
        more := more + [Check(j, i)];
      }
      NextInner(quotes, exchanges, more, i, b);
    }

    // The inner loop: one exchange against all later ones.
    method CheckRow(symbol: string, exchanges: seq<Exchange>, i: nat, ghost quotes: seq<Option<Quote>>,
                    ghost checks: seq<Check>, ghost items: seq<Opportunity>, ghost rejected: nat)
      returns (ghost more: seq<Check>)
      requires store.Valid() && Interned(symbol, quotes) && Listed(quotes, exchanges) && i < |exchanges|
      requires Tally(symbol, quotes, checks, items, rejected) && Progress(quotes, checks, Bound(exchanges, i), 0)
      modifies this, symbolMap, opportunities, opportunities.queue
      ensures symbolMap.Contents() == old(symbolMap.Contents()) && Interned(symbol, quotes)
      ensures Tally(symbol, quotes, more, items, rejected) && Progress(quotes, more, Bound(exchanges, i + 1), 0)
    {
      more := checks;
      ghost var row := exchanges[i];
      assert Bound(exchanges, i) == row;
      EnterInner(quotes, exchanges, more, i);
      for j := i + 1 to |exchanges|
        invariant symbolMap.Contents() == old(symbolMap.Contents()) && Interned(symbol, quotes)
        invariant Tally(symbol, quotes, more, items, rejected)
        invariant Progress(quotes, more, row, Bound(exchanges, j))
      {
        more := CheckPair(symbol, exchanges, i, j, quotes, more, items, rejected);
      }
      assert Bound(exchanges, |exchanges|) == EXCHANGES;
      LeaveInner(quotes, exchanges, more, i);
    }

    /**
     Every ordered pair of distinct exchanges with valid quotes is checked exactly once, every check that
     passes the filters is pushed, and every other one is counted by one filter.
     */
    method DetectOpportunitiesForSymbol(symbol: string) returns (ghost checks: seq<Check>)
      requires Ready()
      modifies this, symbolMap, opportunities, opportunities.queue
      ensures Ready()
      ensures symbolMap.Contents() == InternAll(old(symbolMap.Contents()), symbol, EXCHANGES)
      ensures var quotes := Quotes(symbolMap.Contents(), store.applied, symbol);
              && Complete(quotes, checks)
              && Tally(symbol, quotes, checks, old(opportunities.queue.items), old(Rejected()))
    {
      ghost var items, rejected := opportunities.queue.items, Rejected();
      var exchanges := GetExchangesForSymbol(symbol);
      ghost var quotes := Quotes(symbolMap.Contents(), store.applied, symbol);
      ghost var m := symbolMap.Contents();
      checks := [];
      AtTheStart(quotes, exchanges);
      assert Tally(symbol, quotes, checks, items, rejected) && Interned(symbol, quotes);
      if |exchanges| < 2 {
        AtTheEnd(quotes, exchanges, checks, 0);
        return;
      }
      for i := 0 to |exchanges|
        invariant symbolMap.Contents() == m && Interned(symbol, quotes)
        invariant Tally(symbol, quotes, checks, items, rejected) && Progress(quotes, checks, Bound(exchanges, i), 0)
      {
        checks := CheckRow(symbol, exchanges, i, quotes, checks, items, rejected);
      }
      AtTheEnd(quotes, exchanges, checks, |exchanges|);
    }

    /**
     One round of the detection loop: the oldest queued update goes into the store, and its symbol, when
     its id is mapped, is searched for opportunities.
     */
    method HandleNext() returns (update: Option<MarketUpdate>, ghost checks: seq<Check>)
      requires Ready()
      modifies this, consumer, consumer.queue, store, store.bids, store.asks, store.timestamps, store.symbolIds
      modifies symbolMap, opportunities, opportunities.queue
      ensures Ready()
      ensures update == if old(consumer.queue.items) == [] then None else Some(old(consumer.queue.items)[0])
      ensures store.applied == if update.Some? then Then(old(store.applied), update.value) else old(store.applied)
      ensures match (if update.Some? && update.value.symbolId in old(symbolMap.fromId)
                     then Some(old(symbolMap.fromId)[update.value.symbolId].1) else None)
              case Some(symbol) =>
                && symbolMap.Contents() == InternAll(old(symbolMap.Contents()), symbol, EXCHANGES)
                && var quotes := Quotes(symbolMap.Contents(), store.applied, symbol);
                   Complete(quotes, checks) && Tally(symbol, quotes, checks, old(opportunities.queue.items), old(Rejected()))
              case None =>
                && symbolMap.Contents() == old(symbolMap.Contents())
                && opportunities.queue.items == old(opportunities.queue.items) && Rejected() == old(Rejected())
    {
      checks := [];
      update := consumer.Pop();
      if update.Some? {
        var u := update.value;
        store.Update(u.symbolId, u.bid, u.ask, u.timestamp);
        var key := symbolMap.Get(u.symbolId);
        if key.Some? { checks := DetectOpportunitiesForSymbol(key.value.1); }
      }
    }
  }
}
