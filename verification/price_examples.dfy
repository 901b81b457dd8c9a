/** Price resolution and the on-demand price refresh on the inputs of the
    repository's unit tests. */
module PriceExamples {
  import opened Wrappers
  import opened Models
  import opened Text
  import opened Samples
  import opened PortfolioStore
  import opened PriceUpdate
  import PriceResolver

  /** The index of the price examples. */
  const TwoIds: SymbolMap := map["BTC" := 1, "ETH" := 2]

  /** The ids of the two symbols print as "1" and "2". */
  lemma TwoIdsRequested()
    ensures PriceResolver.RequestedIds(["BTC", "ETH"], TwoIds) == ["1", "2"]
  {
    assert IsUpperCase("BTC") && IsUpperCase("ETH");
    assert IntText(1) == "1" && IntText(2) == "2";
    var symbols := ["BTC", "ETH"];
    assert symbols[1..] == ["ETH"] && symbols[1..][1..] == [];
    assert !IsBlank("1") by { assert !IsWhiteSpace("1"[0]); }
    assert !IsBlank("2") by { assert !IsWhiteSpace("2"[0]); }
  }

  /** Two priced tickers with different keys give a two-key price map. */
  lemma ProcessTwo(a: Option<Ticker>, b: Option<Ticker>, parseDecimal: DecimalParser)
    requires PriceResolver.Priced(a) && PriceResolver.Priced(b)
    requires PriceResolver.PriceKey(a) != PriceResolver.PriceKey(b)
    ensures PriceResolver.ProcessTickers([a, b], parseDecimal)
      == map[PriceResolver.PriceKey(a) := PriceResolver.PriceValue(a, parseDecimal),
             PriceResolver.PriceKey(b) := PriceResolver.PriceValue(b, parseDecimal)]
  {
    var ts := [a, b];
    var prices := PriceResolver.ProcessTickers(ts, parseDecimal);
    assert PriceResolver.IsLastPriced(ts, 0) && PriceResolver.IsLastPriced(ts, 1);
    assert prices.Keys == {PriceResolver.PriceKey(a), PriceResolver.PriceKey(b)} by {
      assert forall t :: t in ts ==> t == a || t == b;
      assert a in ts && b in ts;
    }
    TwoKeys(prices, PriceResolver.PriceKey(a), PriceResolver.PriceValue(a, parseDecimal),
            PriceResolver.PriceKey(b), PriceResolver.PriceValue(b, parseDecimal));
  }

  /** A ticker with a letters-only symbol and a price text is priced under its symbol. */
  lemma PlainQuote(symbol: string, price: string)
    requires Letters(symbol) && price != [] && !IsWhiteSpace(price[0])
    ensures PriceResolver.Priced(PriceTicker(symbol, price))
    ensures PriceResolver.PriceKey(PriceTicker(symbol, price)) == symbol
  {
    assert !IsWhiteSpace(symbol[0]);
  }

  /** The price service of the price examples: it answers the ids 1 and 2 with the
      given quotes. */
  function Quotes(btc: string, eth: string): PriceResolver.TickerSource {
    ids => if ids == ["1", "2"] then Ok(Some([PriceTicker("BTC", btc), PriceTicker("ETH", eth)])) else Ok(None)
  }

  /** The number texts of the price examples. */
  const Prices: DecimalParser := Decimals(map["34000.50" := 34000.50, "2000.00" := 2000.0])

  /** Resolving symbols whose ids the price service answers with two priced tickers
      of different keys. */
  lemma ResolveTwo(symbols: seq<string>, index: SymbolMap, ids: seq<string>,
                   fetch: PriceResolver.TickerSource, parseDecimal: DecimalParser,
                   a: Option<Ticker>, b: Option<Ticker>)
    requires |index| != 0 && PriceResolver.RequestedIds(symbols, index) == ids && ids != []
    requires fetch(ids) == Ok(Some([a, b]))
    requires PriceResolver.Priced(a) && PriceResolver.Priced(b)
    requires PriceResolver.PriceKey(a) != PriceResolver.PriceKey(b)
    ensures PriceResolver.GetCurrentPrices(symbols, Ok(Some(index)), fetch, parseDecimal)
      == PriceResolver.Lookup(Some(ids), Ok(map[PriceResolver.PriceKey(a) := PriceResolver.PriceValue(a, parseDecimal),
                                                PriceResolver.PriceKey(b) := PriceResolver.PriceValue(b, parseDecimal)]))
  {
    ProcessTwo(a, b, parseDecimal);
  }

  /** Known symbols are requested by id in one call and priced by symbol. */
  lemma PricesForKnownSymbols(btc: string, eth: string)
    requires btc == "34000.50" && eth == "2000.00"
    ensures PriceResolver.GetCurrentPrices(["BTC", "ETH"], Ok(Some(TwoIds)), Quotes(btc, eth), Prices)
      == PriceResolver.Lookup(Some(["1", "2"]), Ok(map["BTC" := 34000.50, "ETH" := 2000.0]))
  {
    var a, b := PriceTicker("BTC", btc), PriceTicker("ETH", eth);
    TwoIdsRequested();
    KnownLetters();
    PlainQuote("BTC", btc);
    PlainQuote("ETH", eth);
    assert PriceResolver.PriceValue(a, Prices) == 34000.50;
    assert PriceResolver.PriceValue(b, Prices) == 2000.0;
    ResolveTwo(["BTC", "ETH"], TwoIds, ["1", "2"], Quotes(btc, eth), Prices, a, b);
  }

  /** A price text that is not a number is recorded as 0 and the others as usual. */
  lemma UnreadablePriceIsZero(btc: string, eth: string)
    requires btc == "invalid_price" && eth == "2000.00"
    ensures PriceResolver.GetCurrentPrices(["BTC", "ETH"], Ok(Some(TwoIds)), Quotes(btc, eth), Prices)
      == PriceResolver.Lookup(Some(["1", "2"]), Ok(map["BTC" := 0.0, "ETH" := 2000.0]))
  {
    var a, b := PriceTicker("BTC", btc), PriceTicker("ETH", eth);
    TwoIdsRequested();
    KnownLetters();
    PlainQuote("BTC", btc);
    PlainQuote("ETH", eth);
    assert Prices(btc) == None by {
      assert btc[0] != "34000.50"[0] && btc[0] != "2000.00"[0];
    }
    assert PriceResolver.PriceValue(a, Prices) == 0.0;
    assert PriceResolver.PriceValue(b, Prices) == 2000.0;
    ResolveTwo(["BTC", "ETH"], TwoIds, ["1", "2"], Quotes(btc, eth), Prices, a, b);
  }

  /** Symbols the index does not know cause no call and an empty answer. */
  lemma UnknownSymbolsNoCall(fetch: PriceResolver.TickerSource)
    ensures PriceResolver.GetCurrentPrices(["INVALID1", "INVALID2"], Ok(Some(TwoIds)), fetch, Prices)
      == PriceResolver.Lookup(None, Ok(map[]))
  {
    assert IsUpperCase("INVALID1") && IsUpperCase("INVALID2");
    var symbols := ["INVALID1", "INVALID2"];
    assert forall i :: 0 <= i < |symbols| ==> !PriceResolver.Known(TwoIds, symbols[i]);
    PriceResolver.NoKnownSymbolNoCall(symbols, TwoIds, fetch, Prices);
  }

  /** A store holding BTC and ETH, with no price recorded yet. */
  const Held: Store := Store(map["BTC" := PortfolioItem(0, 1.0, "BTC", 30000.0),
                                 "ETH" := PortfolioItem(0, 2.0, "ETH", 2000.0)], map[])

  /** The store lists its coins as BTC, ETH. */
  lemma HeldOrder()
    ensures Enumerates(["BTC", "ETH"], Held.holdings.Keys)
  {
    assert "BTC" != "ETH" by { assert "BTC"[0] != "ETH"[0]; }
  }

  /** The price service of the refresh examples: a fixed reply to the two coins. */
  function Answer(prices: PriceMap): PriceQuery {
    coins => if coins == ["BTC", "ETH"] then Ok(Some(prices)) else Ok(None)
  }

  /** Each held coin is written the price the service quotes for it. */
  lemma RefreshWritesQuotes()
    ensures Enumerates(["BTC", "ETH"], Held.holdings.Keys)
    ensures var t := UpdatePrices(Held, ["BTC", "ETH"], Answer(map["BTC" := 35000.0, "ETH" := 2500.0]));
      && t.queried == Some(["BTC", "ETH"]) && t.outcome == Pass
      && t.store.holdings == Held.holdings
      && CurrentPrice(t.store, "BTC") == 35000.0 && CurrentPrice(t.store, "ETH") == 2500.0
  {
    HeldOrder();
  }

  /** A held coin the service does not quote is written 0. */
  lemma RefreshZeroesUnquoted()
    ensures Enumerates(["BTC", "ETH"], Held.holdings.Keys)
    ensures var t := UpdatePrices(Held, ["BTC", "ETH"], Answer(map["BTC" := 35000.0]));
      && t.outcome == Pass
      && CurrentPrice(t.store, "BTC") == 35000.0 && CurrentPrice(t.store, "ETH") == 0.0
  {
    HeldOrder();
    assert "ETH" !in map["BTC" := 35000.0] by { assert "BTC"[0] != "ETH"[0]; }
  }

  /** With nothing held, the price service is not asked and nothing is written. */
  lemma RefreshWithNothingHeld(query: PriceQuery)
    ensures UpdatePrices(Empty, [], query) == Tick(Empty, None, Pass)
  {
  }
}
