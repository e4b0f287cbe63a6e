/**
 Redis keys of a symbol on each exchange, and the way back: the last field of a key, normalized, and the
 exchange in its first field. Letters are ASCII.
 */
module SymbolKeys {
  import opened Wrappers

  const USDT: string := "USDT"

  function Lower(c: char): char { if 'A' <= c <= 'Z' then (c as int + 32) as char else c }

  function Upper(c: char): char { if 'a' <= c <= 'z' then (c as int - 32) as char else c }

  function ToLower(s: string): string { seq(|s|, i requires 0 <= i < |s| => Lower(s[i])) }

  function ToUpper(s: string): string { seq(|s|, i requires 0 <= i < |s| => Upper(s[i])) }

  predicate EndsWith(s: string, suffix: string) { |suffix| <= |s| && s[|s| - |suffix|..] == suffix }

  predicate OccursAt(s: string, part: string, i: nat) { i + |part| <= |s| && s[i..i + |part|] == part }

  predicate Contains(s: string, part: string) { exists i :: 0 <= i <= |s| && OccursAt(s, part, i) }

  function RemoveDashes(s: string): string {
    if s == "" then "" else (if s[0] == '-' then "" else [s[0]]) + RemoveDashes(s[1..])
  }

  function DropEnd(s: string, n: nat): string
    requires n <= |s|
  {
    s[..|s| - n]
  }

  /** Every occurrence of USD, from the left. */
  function UsdToUsdt(s: string): string {
    if |s| < 3 then s
    else if s[..3] == "USD" then USDT + UsdToUsdt(s[3..])
    else [s[0]] + UsdToUsdt(s[1..])
  }

  // trim_end_matches strips the suffix as often as it is there.
  function TrimUsdt(s: string): string {
    if EndsWith(s, USDT) then TrimUsdt(DropEnd(s, 4)) else s
  }

  function WithoutSuffix(s: string, suffix: string, n: nat): string
    requires n <= |suffix|
  {
    if EndsWith(s, suffix) then DropEnd(s, n) else s
  }

  function Bare(plain: string): string {
    WithoutSuffix(WithoutSuffix(WithoutSuffix(plain, "SWAP", 4), "PERP", 4), "USDTM", 1)
  }

  function WithUsdt(bare: string): string {
    var usdt := if Contains(bare, "USD") && !Contains(bare, USDT) then UsdToUsdt(bare) else bare;
    if Contains(usdt, USDT) then usdt else usdt + USDT
  }

  function Plain(upper: string): string { WithUsdt(Bare(RemoveDashes(upper))) }

  /** The standard name of a symbol. */
  function Normalize(symbol: string): string { Plain(ToUpper(symbol)) }

  method NormalizeSymbol(symbol: string) returns (normalized: string)
    ensures normalized == Normalize(symbol)
  {
    normalized := ToUpper(symbol);
    normalized := RemoveDashes(normalized);
    if EndsWith(normalized, "SWAP") { normalized := DropEnd(normalized, 4); }
    if EndsWith(normalized, "PERP") { normalized := DropEnd(normalized, 4); }
    if EndsWith(normalized, "USDTM") { normalized := DropEnd(normalized, 1); }
    if Contains(normalized, "USD") && !Contains(normalized, USDT) { normalized := UsdToUsdt(normalized); }
    if !Contains(normalized, USDT) { normalized := normalized + USDT; }
  }

  function Key(exchange: string, market: string, channel: string, name: string): string {
    exchange + ":" + (market + ":" + (channel + ":" + name))
  }

  // -USDT-SWAP on OKX, -USD-PERP on Paradex.
  function Dashed(quote: string, contract: string): string { "-" + (quote + ("-" + contract)) }

  function GetRedisKeyPatterns(exchange: string, symbol: string): seq<string> {
    var e := ToLower(exchange);
    if e == "bybit" then [Key(exchange, "linear", "tickers", symbol)]
    else if e == "bitget" then [Key(exchange, "usdt", "tickers", symbol)]
    else if e == "binance" then [Key(exchange, "linear", "tickers", symbol), Key(exchange, "usdm", "book", symbol)]
    else if e == "okx" then
      [Key(exchange, "usdt", "tickers", TrimUsdt(symbol) + Dashed(USDT, "SWAP")), Key(exchange, "usdt", "tickers", symbol)]
    else if e == "kucoin" then
      [Key(exchange, "futures", "tickerV2", symbol + "M"), Key(exchange, "futures", "tickerV2", symbol)]
    else if e == "hyperliquid" then
      [Key(exchange, "usdc", "ctx", TrimUsdt(symbol)), Key(exchange, "usdc", "bbo", TrimUsdt(symbol))]
    else if e == "gateio" then [Key(exchange, "usdt", "tickers", symbol)]
    else if e == "paradex" then
      [Key(exchange, "usdt", "bbo", TrimUsdt(symbol) + Dashed("USD", "PERP")), Key(exchange, "usdt", "tickers", symbol)]
    else if e == "lighter" then [Key(exchange, "usdt", "data", symbol)]
    else [Key(exchange, "linear", "tickers", symbol)]
  }

  /** The fields of a key. */
  function Split(s: string): (fields: seq<string>)
    ensures |fields| > 0
  {
    if s == "" then [""]
    else
      var rest := Split(s[1..]);
      if s[0] == ':' then [""] + rest else [[s[0]] + rest[0]] + rest[1..]
  }

  /** A key with fewer than three fields names nothing. */
  function Decode(key: string): Option<(string, string)> {
    var fields := Split(key);
    if |fields| < 3 then None else Some((fields[0], Normalize(fields[|fields| - 1])))
  }

  // ---- The way back ----

  predicate NoColon(s: string) { forall i :: 0 <= i < |s| ==> s[i] != ':' }

  lemma {:induction false} SplitField(field: string, rest: string)
    requires NoColon(field)
    ensures Split(field + ":" + rest) == [field] + Split(rest)
    ensures Split(field) == [field]
  {
    if field == "" {
      assert field + ":" + rest == ":" + rest;
      assert (":" + rest)[1..] == rest;
    } else {
      SplitField(field[1..], rest);
      assert (field + ":" + rest)[1..] == field[1..] + ":" + rest;
      assert field == [field[0]] + field[1..];
    }
  }

  lemma DecodeKey(exchange: string, market: string, channel: string, name: string)
    requires NoColon(exchange) && NoColon(market) && NoColon(channel) && NoColon(name)
    ensures Decode(Key(exchange, market, channel, name)) == Some((exchange, Normalize(name)))
  {
    KeyFields(exchange, market, channel, name);
  }

  /** Upper and lower case name the same symbol. */
  lemma NormalizeFoldsCase(s: string)
    ensures Normalize(ToLower(s)) == Normalize(s)
  {
    UpperOfLower(s);
  }

  lemma UpperOfLower(s: string)
    ensures ToUpper(ToLower(s)) == ToUpper(s)
    ensures forall i :: 0 <= i < |s| && 'A' <= s[i] <= 'Z' ==> ToLower(s)[i] as int - 'a' as int == s[i] as int - 'A' as int
  {
  }

  /** Two fields name nothing. */
  lemma TwoFieldsNameNothing(first: string, second: string)
    requires NoColon(first) && NoColon(second)
    ensures Decode(first + ":" + second) == None
  {
    SplitField(first, second);
    SplitField(second, "");
  }

  /** Three fields or more name their first and their last one. */
  lemma DecodesFrom(key: string, first: string, second: string, tail: seq<string>)
    requires Split(key) == [first, second] + tail && |tail| > 0
    ensures Decode(key) == Some((first, Normalize(tail[|tail| - 1])))
  {
  }

  predicate UpperAlnum(s: string) { forall i :: 0 <= i < |s| ==> '0' <= s[i] <= '9' || 'A' <= s[i] <= 'Z' }

  /** Upper-case alphanumeric, without USD inside. */
  predicate Base(s: string) { UpperAlnum(s) && !Contains(s, "USD") }

  predicate Marked(s: string) { EndsWith(s, "SWAP") || EndsWith(s, "PERP") }

  lemma {:induction false} PlainAlready(s: string)
    requires forall i :: 0 <= i < |s| ==> s[i] != '-'
    ensures RemoveDashes(s) == s
  {
    if s != "" {
      PlainAlready(s[1..]);
      assert s == [s[0]] + s[1..];
    }
  }

  lemma {:induction false} RemoveDashesConcat(a: string, b: string)
    ensures RemoveDashes(a + b) == RemoveDashes(a) + RemoveDashes(b)
  {
    if a == "" {
      assert a + b == b;
    } else {
      RemoveDashesConcat(a[1..], b);
      assert (a + b)[0] == a[0] && (a + b)[1..] == a[1..] + b;
      if a[0] != '-' { Regroup([a[0]], RemoveDashes(a[1..]), RemoveDashes(b)); }
    }
  }

  lemma Regroup(a: string, b: string, c: string)
    ensures a + (b + c) == a + b + c
  {
  }

  predicate Shouting(s: string) { forall i :: 0 <= i < |s| ==> s[i] == '-' || '0' <= s[i] <= '9' || 'A' <= s[i] <= 'Z' }

  /** No USD starts inside a base followed by something that starts with U. */
  lemma NoneInBase(base: string, tail: string, i: nat)
    requires Base(base) && tail != "" && tail[0] == 'U' && i < |base|
    ensures !OccursAt(base + tail, "USD", i)
  {
    var s := base + tail;
    if i + 3 <= |base| {
      assert !OccursAt(base, "USD", i);
      assert base[i..i + 3] == s[i..i + 3];
    } else {
      assert s[|base|] == 'U';
      assert i + 3 <= |s| ==> s[i..i + 3][|base| - i] == 'U';
    }
  }

  lemma BaseTail(base: string)
    requires Base(base) && base != ""
    ensures Base(base[1..])
  {
    if i :| 0 <= i <= |base[1..]| && OccursAt(base[1..], "USD", i) {
      assert base[1..][i..i + 3] == base[i + 1..i + 1 + 3];
      assert OccursAt(base, "USD", i + 1);
    }
  }

  lemma {:induction false} UsdBecomesUsdt(base: string)
    requires Base(base)
    ensures UsdToUsdt(base + "USD") == base + USDT
  {
    var s := base + "USD";
    if base == "" {
      assert s == "USD" && s[3..] == "";
      assert UsdToUsdt(s) == USDT + UsdToUsdt("");
    } else {
      BaseTail(base);
      UsdBecomesUsdt(base[1..]);
      NoneInBase(base, "USD", 0);
      assert s[0] == base[0] && s[1..] == base[1..] + "USD";
      Regroup([base[0]], base[1..], USDT);
      assert base == [base[0]] + base[1..];
    }
  }

  // ---- Normalizing each form of name ----

  lemma CleanName(name: string, plain: string)
    requires Shouting(name) && RemoveDashes(name) == plain
    ensures Normalize(name) == WithUsdt(Bare(plain))
  {
    assert ToUpper(name) == name;
  }

  lemma Strip(s: string, suffix: string)
    ensures EndsWith(s + suffix, suffix) && DropEnd(s + suffix, |suffix|) == s
  {
  }

  lemma OtherLast(s: string, suffix: string)
    requires s != "" && suffix != "" && s[|s| - 1] != suffix[|suffix| - 1]
    ensures !EndsWith(s, suffix)
  {
    assert |suffix| <= |s| ==> s[|s| - |suffix|..][|suffix| - 1] == s[|s| - 1];
  }

  lemma UsdtStays(base: string)
    ensures Bare(base + USDT) == base + USDT == WithUsdt(base + USDT)
  {
    var s := base + USDT;
    OtherLast(s, "SWAP");
    OtherLast(s, "PERP");
    OtherLast(s, "USDTM");
    assert s[|base|..] == USDT;
    assert OccursAt(s, USDT, |base|);
  }

  lemma SwapGoes(base: string)
    ensures Bare(base + USDT + "SWAP") == base + USDT
  {
    Strip(base + USDT, "SWAP");
    UsdtStays(base);
    OtherLast(base + USDT, "PERP");
    OtherLast(base + USDT, "USDTM");
  }

  lemma PerpGoes(base: string)
    ensures Bare(base + "USD" + "PERP") == base + "USD"
  {
    OtherLast4(base + "USD" + "PERP");
    Strip(base + "USD", "PERP");
    OtherLast(base + "USD", "USDTM");
  }

  // SWAP and PERP share their last letter.
  lemma OtherLast4(s: string)
    requires EndsWith(s, "PERP")
    ensures !EndsWith(s, "SWAP")
  {
    assert s[|s| - 4..][0] == 'P';
  }

  lemma MGoes(base: string)
    ensures Bare(base + USDT + "M") == base + USDT
  {
    var s := base + USDT + "M";
    OtherLast(s, "SWAP");
    OtherLast(s, "PERP");
    assert s == base + "USDTM";
    Strip(base, "USDTM");
    Strip(base + USDT, "M");
  }

  lemma BareBase(base: string)
    requires Base(base) && !Marked(base)
    ensures Bare(base) == base
  {
    if EndsWith(base, "USDTM") {
      assert base[|base| - 5..][..3] == base[|base| - 5..|base| - 2];
      assert OccursAt(base, "USD", |base| - 5);
    }
  }

  lemma BaseGetsUsdt(base: string)
    requires !Contains(base, "USD")
    ensures WithUsdt(base) == base + USDT
  {
    if i :| 0 <= i <= |base| && OccursAt(base, USDT, i) {
      assert base[i..i + 4][..3] == base[i..i + 3];
      assert OccursAt(base, "USD", i);
    }
  }

  lemma UsdtHasUsd(s: string, i: nat)
    requires OccursAt(s, USDT, i)
    ensures OccursAt(s, "USD", i)
  {
    assert s[i..i + 4][..3] == s[i..i + 3];
  }

  lemma NoUsdtAfterBase(base: string)
    requires Base(base)
    ensures !Contains(base + "USD", USDT)
  {
    var s := base + "USD";
    forall i: nat | i <= |s| ensures !OccursAt(s, USDT, i) {
      if i < |base| {
        NoneInBase(base, "USD", i);
        if OccursAt(s, USDT, i) { UsdtHasUsd(s, i); }
      }
    }
  }

  lemma TailOccurs(a: string, b: string)
    ensures Contains(a + b, b)
  {
    assert (a + b)[|a|..] == b;
    assert OccursAt(a + b, b, |a|);
  }

  lemma UsdGetsT(base: string)
    requires Base(base)
    ensures WithUsdt(base + "USD") == base + USDT
  {
    TailOccurs(base, "USD");
    TailOccurs(base, USDT);
    NoUsdtAfterBase(base);
    UsdBecomesUsdt(base);
  }

  lemma DashGoes(s: string)
    ensures RemoveDashes("-" + s) == RemoveDashes(s)
  {
    assert ("-" + s)[1..] == s;
  }

  lemma Undashed(base: string, quote: string, contract: string)
    requires RemoveDashes(base) == base && RemoveDashes(quote) == quote && RemoveDashes(contract) == contract
    ensures RemoveDashes(base + Dashed(quote, contract)) == base + quote + contract
  {
    DashGoes(contract);
    RemoveDashesConcat(quote, "-" + contract);
    DashGoes(quote + ("-" + contract));
    RemoveDashesConcat(base, Dashed(quote, contract));
    Regroup(base, quote, contract);
  }

  lemma StillShouting(base: string, quote: string, contract: string)
    requires Shouting(base + quote + contract)
    ensures Shouting(base + Dashed(quote, contract))
  {
    var all, s := base + quote + contract, base + Dashed(quote, contract);
    forall i | 0 <= i < |s| ensures s[i] == '-' || '0' <= s[i] <= '9' || 'A' <= s[i] <= 'Z' {
      if i < |base| { assert s[i] == all[i]; }
      else if |base| < i <= |base| + |quote| { assert s[i] == all[i - 1]; }
      else if i > |base| + |quote| + 1 { assert s[i] == all[i - 2]; }
    }
  }

  lemma DashedNormalizes(base: string, quote: string, contract: string)
    requires Base(base) && UpperAlnum(quote) && UpperAlnum(contract)
    ensures Normalize(base + Dashed(quote, contract)) == WithUsdt(Bare(base + quote + contract))
  {
    PlainAlready(base);
    PlainAlready(quote);
    PlainAlready(contract);
    Undashed(base, quote, contract);
    StillShouting(base, quote, contract);
    CleanName(base + Dashed(quote, contract), base + quote + contract);
  }

  lemma OkxNormalizes(base: string)
    requires Base(base)
    ensures Normalize(base + Dashed(USDT, "SWAP")) == base + USDT
  {
    DashedNormalizes(base, USDT, "SWAP");
    SwapGoes(base);
    UsdtStays(base);
  }

  lemma ParadexNormalizes(base: string)
    requires Base(base)
    ensures Normalize(base + Dashed("USD", "PERP")) == base + USDT
  {
    DashedNormalizes(base, "USD", "PERP");
    PerpGoes(base);
    UsdGetsT(base);
  }

  lemma KucoinNormalizes(base: string)
    requires Base(base)
    ensures Normalize(base + USDT + "M") == base + USDT
  {
    PlainAlready(base + USDT + "M");
    CleanName(base + USDT + "M", base + USDT + "M");
    MGoes(base);
    UsdtStays(base);
  }

  lemma StandardNormalizes(base: string)
    requires Base(base)
    ensures Normalize(base + USDT) == base + USDT
  {
    PlainAlready(base + USDT);
    CleanName(base + USDT, base + USDT);
    UsdtStays(base);
  }

  /** A bare base, Hyperliquid's form, comes back exactly when it does not end in SWAP or PERP. */
  lemma BaseNormalizesIff(base: string)
    requires Base(base)
    ensures Normalize(base) == base + USDT <==> !Marked(base)
  {
    PlainAlready(base);
    CleanName(base, base);
    if Marked(base) {
      MarkedShrinks(base);
    } else {
      BareBase(base);
      BaseGetsUsdt(base);
    }
  }

  lemma {:induction false} PrefixIsBase(base: string, n: nat)
    requires Base(base) && n <= |base|
    ensures Base(base[..n])
  {
    if i :| 0 <= i <= n && OccursAt(base[..n], "USD", i) {
      assert base[..n][i..i + 3] == base[i..i + 3];
      assert OccursAt(base, "USD", i);
    }
  }

  lemma MarkedShrinks(base: string)
    requires Base(base) && Marked(base)
    ensures |WithUsdt(Bare(base))| < |base| + 4
  {
    var swapless := WithoutSuffix(base, "SWAP", 4);
    PrefixIsBase(base, |swapless|);
    var perpless := WithoutSuffix(swapless, "PERP", 4);
    PrefixIsBase(base, |perpless|);
    assert perpless == base[..|perpless|];
    if !Marked(perpless) {
      BareBase(perpless);
    }
    var bare := WithoutSuffix(perpless, "USDTM", 1);
    PrefixIsBase(base, |bare|);
    assert bare == base[..|bare|];
    BaseGetsUsdt(bare);
  }

  lemma Trimmed(base: string)
    requires Base(base)
    ensures TrimUsdt(base + USDT) == base
  {
    Strip(base, USDT);
    if EndsWith(base, USDT) { UsdtHasUsd(base, |base| - 4); }
  }

  /**
   The round trip: for every exchange name without a colon and every base, each key built for base + USDT
   decodes to that exchange and base + USDT, except that the keys that carry the bare base do so exactly
   when it does not end in SWAP or PERP.
   */
  lemma KeysDecode(exchange: string, base: string, key: string)
    requires NoColon(exchange) && Base(base) && key in GetRedisKeyPatterns(exchange, base + USDT)
    ensures Decode(key) == Some((exchange, base + USDT)) <==> (ToLower(exchange) != "hyperliquid" || !Marked(base))
  {
    Trimmed(base);
    var market, channel, form := PatternForm(exchange, base, key);
    NameHasNoColon(base, form);
    DecodeKey(exchange, market, channel, Name(base, form));
    FormNormalizes(base, form);
  }

  /** The keys of base + USDT on an exchange, as their market, channel and name. */
  function Listed(exchange: string, base: string): seq<(string, string, string)> {
    match exchange
    case "bybit" => [("linear", "tickers", base + "USDT")]
    case "bitget" => [("usdt", "tickers", base + "USDT")]
    case "binance" => [("linear", "tickers", base + "USDT"), ("usdm", "book", base + "USDT")]
    case "okx" => [("usdt", "tickers", base + "-USDT-SWAP"), ("usdt", "tickers", base + "USDT")]
    case "kucoin" => [("futures", "tickerV2", base + "USDT" + "M"), ("futures", "tickerV2", base + "USDT")]
    case "hyperliquid" => [("usdc", "ctx", base), ("usdc", "bbo", base)]
    case "gateio" => [("usdt", "tickers", base + "USDT")]
    case "paradex" => [("usdt", "bbo", base + "-USD-PERP"), ("usdt", "tickers", base + "USDT")]
    case "lighter" => [("usdt", "data", base + "USDT")]
    case _ => [("linear", "tickers", base + "USDT")]
  }

  /** Every listed key is built, in order, and its fields are the exchange as it was given, market, channel and name. */
  lemma KeysAreListed(exchange: string, base: string, k: nat)
    requires NoColon(exchange) && Base(base)
    ensures |GetRedisKeyPatterns(exchange, base + USDT)| == |Listed(ToLower(exchange), base)|
    ensures k < |Listed(ToLower(exchange), base)| ==>
              var (market, channel, name) := Listed(ToLower(exchange), base)[k];
              Split(GetRedisKeyPatterns(exchange, base + USDT)[k]) == [exchange, market, channel, name]
  {
    Trimmed(base);
    if k < |Listed(ToLower(exchange), base)| {
      var (market, channel, name) := Listed(ToLower(exchange), base)[k];
      assert Dashed(USDT, "SWAP") == "-USDT-SWAP" && Dashed("USD", "PERP") == "-USD-PERP";
      ListedHasNoColon(ToLower(exchange), base, k);
      KeyFields(exchange, market, channel, name);
    }
  }

  lemma ListedHasNoColon(exchange: string, base: string, k: nat)
    requires Base(base) && k < |Listed(exchange, base)|
    ensures var (market, channel, name) := Listed(exchange, base)[k]; NoColon(market) && NoColon(channel) && NoColon(name)
  {
  }

  lemma KeyFields(exchange: string, market: string, channel: string, name: string)
    requires NoColon(exchange) && NoColon(market) && NoColon(channel) && NoColon(name)
    ensures Split(Key(exchange, market, channel, name)) == [exchange, market, channel, name]
  {
    SplitField(exchange, market + ":" + (channel + ":" + name));
    SplitField(market, channel + ":" + name);
    SplitField(channel, name);
    SplitField(name, "");
  }

  /** The forms a base's name takes in the keys. */
  datatype Form = Standard | OkxSwap | KucoinM | ParadexPerp | BaseOnly

  function Name(base: string, form: Form): string {
    match form
    case Standard => base + USDT
    case OkxSwap => base + Dashed(USDT, "SWAP")
    case KucoinM => base + USDT + "M"
    case ParadexPerp => base + Dashed("USD", "PERP")
    case BaseOnly => base
  }

  lemma NameHasNoColon(base: string, form: Form)
    requires Base(base)
    ensures NoColon(Name(base, form))
  {
  }

  lemma FormNormalizes(base: string, form: Form)
    requires Base(base)
    ensures Normalize(Name(base, form)) == base + USDT <==> !form.BaseOnly? || !Marked(base)
  {
    match form
    case Standard => StandardNormalizes(base);
    case OkxSwap => OkxNormalizes(base);
    case KucoinM => KucoinNormalizes(base);
    case ParadexPerp => ParadexNormalizes(base);
    case BaseOnly => BaseNormalizesIff(base);
  }

  lemma PatternForm(exchange: string, base: string, key: string) returns (market: string, channel: string, form: Form)
    requires TrimUsdt(base + USDT) == base && key in GetRedisKeyPatterns(exchange, base + USDT)
    ensures NoColon(market) && NoColon(channel) && key == Key(exchange, market, channel, Name(base, form))
    ensures form.BaseOnly? <==> ToLower(exchange) == "hyperliquid"
  {
    var e := ToLower(exchange);
    market, channel, form := "usdt", "tickers", Standard;
    if e == "binance" {
      if key == Key(exchange, "linear", "tickers", base + USDT) {
        market := "linear";
      } else {
        market, channel := "usdm", "book";
      }
    } else if e == "okx" {
      if key == Key(exchange, "usdt", "tickers", base + Dashed(USDT, "SWAP")) { form := OkxSwap; }
    } else if e == "kucoin" {
      market, channel := "futures", "tickerV2";
      if key == Key(exchange, market, channel, base + USDT + "M") { form := KucoinM; }
    } else if e == "hyperliquid" {
      market, form := "usdc", BaseOnly;
      channel := if key == Key(exchange, "usdc", "ctx", base) then "ctx" else "bbo";
    } else if e == "paradex" {
      if key == Key(exchange, "usdt", "bbo", base + Dashed("USD", "PERP")) { channel, form := "bbo", ParadexPerp; }
    } else if e == "lighter" {
      channel := "data";
    } else if e != "bitget" && e != "gateio" {
      market := "linear";
    }
  }

  /** Keys of different exchanges or different bases never collide. */
  lemma KeysNeverCollide(exchange: string, base: string, exchange': string, base': string, key: string)
    requires NoColon(exchange) && NoColon(exchange') && Base(base) && Base(base') && !Marked(base) && !Marked(base')
    requires key in GetRedisKeyPatterns(exchange, base + USDT) && key in GetRedisKeyPatterns(exchange', base' + USDT)
    ensures exchange == exchange' && base == base'
  {
    KeysDecode(exchange, base, key);
    KeysDecode(exchange', base', key);
    assert base == DropEnd(base + USDT, 4) == DropEnd(base' + USDT, 4) == base';
  }
}
