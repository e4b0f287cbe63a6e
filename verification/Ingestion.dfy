/**
 From a raw feed message to a market update: the key names the symbol, both prices are parsed, and only a
 positive bid below its ask is let in.
 */
module Ingestion {
  import opened Wrappers
  import opened MarketStore
  import opened SymbolKeys
  import PriceParser
  import SymbolMap
  import Detector

  // The price strings the exchange's parser finds in the message; None when it is not JSON or lacks the field.
  datatype Fields = Fields(bid: Option<seq<PriceParser.Byte>>, ask: Option<seq<PriceParser.Byte>>)

  function Price(field: Option<seq<PriceParser.Byte>>, std: seq<PriceParser.Byte> -> Option<real>): Option<real> {
    if field.None? || field.value == [] then None else PriceParser.Parse(field.value, std)
  }

  predicate Acceptable(bid: Option<real>, ask: Option<real>) {
    bid.Some? && ask.Some? && 0.0 < bid.value < ask.value
  }

  method ParsePriceSimd(s: seq<PriceParser.Byte>, avx512: bool, std: seq<PriceParser.Byte> -> Option<real>)
    returns (r: Option<real>)
    ensures r == Price(Some(s), std) == if s == [] then None else PriceParser.Parse(s, std)
  {
    if s == [] { return None; }
    if avx512 { r := PriceParser.ParsePriceAvx512(s, std); } else { r := PriceParser.ParsePriceFast(s, std); }
  }

  /**
   An update comes out exactly when the key names a symbol and the prices are acceptable, on either
   instruction set; it carries the id of the named symbol. A rejected message interns nothing.
   */
  method ParseToMarketUpdate(key: string, fields: Fields, avx512: bool, now: nat, symbolMap: SymbolMap.Interner,
                             std: seq<PriceParser.Byte> -> Option<real>) returns (update: Option<MarketUpdate>)
    modifies symbolMap
    ensures update.Some? <==> Decode(key).Some? && Acceptable(Price(fields.bid, std), Price(fields.ask, std))
    ensures update.None? ==> symbolMap.Contents() == old(symbolMap.Contents())
    ensures update.Some? ==>
              && symbolMap.Contents() == SymbolMap.Intern(old(symbolMap.Contents()), Decode(key).value)
              && update == Some(MarketUpdate(symbolMap.toId[Decode(key).value],
                                             Price(fields.bid, std).value, Price(fields.ask, std).value, now))
    // What ingestion lets in keeps the detector's market proper.
    ensures forall applied :: Detector.Ingested(applied) && update.Some? ==> Detector.Ingested(Then(applied, update.value))
  {
    var parts := Split(key);
    if |parts| < 3 { return None; }
    var symbol := NormalizeSymbol(parts[|parts| - 1]);
    if fields.bid.None? || fields.ask.None? { return None; }
    var bid := ParsePriceSimd(fields.bid.value, avx512, std);
    if bid.None? { return None; }
    var ask := ParsePriceSimd(fields.ask.value, avx512, std);
    if ask.None? { return None; }
    if bid.value <= 0.0 || ask.value <= 0.0 || bid.value >= ask.value { return None; }
    var id := symbolMap.GetOrInsert(parts[0], symbol);
    update := Some(MarketUpdate(id, bid.value, ask.value, now));
  }

  lemma PrintedPrice(n: nat, k: nat, std: seq<PriceParser.Byte> -> Option<real>)
    requires |PriceParser.Print(false, n, k)| <= 32
    ensures Price(Some(PriceParser.Print(false, n, k)), std) == Some(PriceParser.Scaled(n, k))
  {
    PriceParser.PrintThenParse(false, n, k, std);
  }

  /**
   A message on a key built for a base, with two prices printed with k decimals, is let in under the
   base's standard name and with exactly those prices, if and only if they are positive and in order.
   */
  lemma PrintedMessage(exchange: string, base: string, key: string, bid: nat, ask: nat, k: nat, fields: Fields,
                       std: seq<PriceParser.Byte> -> Option<real>)
    requires NoColon(exchange) && Base(base) && !Marked(base) && key in GetRedisKeyPatterns(exchange, base + USDT)
    requires |PriceParser.Print(false, bid, k)| <= 32 && |PriceParser.Print(false, ask, k)| <= 32
    requires fields == Fields(Some(PriceParser.Print(false, bid, k)), Some(PriceParser.Print(false, ask, k)))
    ensures Decode(key) == Some((exchange, base + USDT))
    ensures Price(fields.bid, std) == Some(PriceParser.Scaled(bid, k))
    ensures Price(fields.ask, std) == Some(PriceParser.Scaled(ask, k))
    ensures Acceptable(Price(fields.bid, std), Price(fields.ask, std)) <==> 0 < bid < ask
  {
    KeysDecode(exchange, base, key);
    PrintedPrice(bid, k, std);
    PrintedPrice(ask, k, std);
    ScaleKeepsOrder(bid, ask, k);
  }

  lemma {:induction false} ScaleKeepsOrder(bid: nat, ask: nat, k: nat)
    ensures 0.0 < PriceParser.Scaled(bid, k) < PriceParser.Scaled(ask, k) <==> 0 < bid < ask
  {
    if k > 0 { ScaleKeepsOrder(bid, ask, k - 1); }
  }
}
