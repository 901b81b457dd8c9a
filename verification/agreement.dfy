/** How the pieces fit together: the two index builders, the builders and the loaders,
    the price resolver and the two refresh paths. */
module Agreement {
  import opened Wrappers
  import opened Models
  import opened Paging
  import opened TickerGroups
  import opened PortfolioStore
  import opened PriceUpdate
  import opened BackgroundRefresh
  import CoinLoreMapping
  import LegacyMapping
  import CoinLoreIndex
  import LegacyIndex
  import PriceResolver

  /** On a readable catalogue the older merge computes the same index as the current
      one, repeated symbols included: the differences (blank filter, `TryParse` against
      `Parse`) never bite, and both keep the first ticker of each symbol. */
  lemma MergesAgree(coins: seq<Option<Ticker>>, parseLong: LongParser)
    requires CoinLoreMapping.Readable(coins, parseLong)
    ensures LegacyMapping.Merge(coins, parseLong) == CoinLoreMapping.Merge(coins, parseLong)
  {
    LegacyReadable(coins, parseLong);
    CurrentReadable(coins, parseLong);
    ReadableTickers(coins, parseLong);
    var ts := LegacyMapping.Unwrap(coins);
    SameMaps(LegacyMapping.Merge(coins, parseLong).value, CoinLoreMapping.Merge(coins, parseLong).value, ts, parseLong);
  }

  /** A ticker the current filter keeps and whose id is a number. */
  predicate ReadableTicker(t: Ticker, parseLong: LongParser) {
    CoinLoreMapping.Usable(t) && parseLong(t.id.value).Some?
  }

  /** The tickers of a readable catalogue are each readable. */
  lemma ReadableTickers(coins: seq<Option<Ticker>>, parseLong: LongParser)
    requires CoinLoreMapping.Readable(coins, parseLong)
    ensures LegacyMapping.SymbolsPresent(coins)
    ensures forall i :: 0 <= i < |coins| ==> ReadableTicker(LegacyMapping.Unwrap(coins)[i], parseLong)
  {
  }

  /** What the older merge records for a readable catalogue, group by group. */
  lemma LegacyReadable(coins: seq<Option<Ticker>>, parseLong: LongParser)
    requires CoinLoreMapping.Readable(coins, parseLong)
    ensures LegacyMapping.SymbolsPresent(coins)
    ensures var ts := LegacyMapping.Unwrap(coins);
      var r := LegacyMapping.Merge(coins, parseLong);
      && r.Ok?
      && r.value.Keys == KeySet(ts, LegacyMapping.KeepAll)
      && forall i :: 0 <= i < |ts| && IsFirstKept(ts, LegacyMapping.KeepAll, i) ==>
           r.value[SymbolKey(ts[i])] == parseLong(ts[i].id.value).value
  {
    ReadableTickers(coins, parseLong);
    var ts := LegacyMapping.Unwrap(coins);
    FirstIdsRead(ts, parseLong);
  }

  /** What the current merge records for a readable catalogue, group by group. */
  lemma CurrentReadable(coins: seq<Option<Ticker>>, parseLong: LongParser)
    requires CoinLoreMapping.Readable(coins, parseLong)
    ensures LegacyMapping.SymbolsPresent(coins)
    ensures var ts := LegacyMapping.Unwrap(coins);
      var r := CoinLoreMapping.Merge(coins, parseLong);
      && r.Ok?
      && r.value.Keys == KeySet(ts, LegacyMapping.KeepAll)
      && forall i :: 0 <= i < |ts| && IsFirstKept(ts, LegacyMapping.KeepAll, i) ==>
           r.value[SymbolKey(ts[i])] == parseLong(ts[i].id.value).value
  {
    ReadableTickers(coins, parseLong);
    var ts := LegacyMapping.Unwrap(coins);
    assert CoinLoreMapping.Unwrap(coins) == ts;
    AllUsable(ts);
  }

  /** On readable tickers every group's first id parses. */
  lemma FirstIdsRead(ts: seq<Ticker>, parseLong: LongParser)
    requires forall i :: 0 <= i < |ts| ==> ReadableTicker(ts[i], parseLong)
    ensures LegacyMapping.FirstIdsParse(ts, parseLong)
  {
    forall i | 0 <= i < |ts| && IsFirstKept(ts, LegacyMapping.KeepAll, i)
      ensures LegacyMapping.ParseId(parseLong, ts[i].id).Ok?
    {
      assert ReadableTicker(ts[i], parseLong);
    }
  }

  /** Two indexes over the same keys that both record, for each group, the parsed id
      of its first ticker are the same index. */
  lemma SameMaps(older: SymbolMap, current: SymbolMap, ts: seq<Ticker>, parseLong: LongParser)
    requires forall i :: 0 <= i < |ts| ==> ts[i].id.Some? && parseLong(ts[i].id.value).Some?
    requires older.Keys == KeySet(ts, LegacyMapping.KeepAll) == current.Keys
    requires forall i :: 0 <= i < |ts| && IsFirstKept(ts, LegacyMapping.KeepAll, i) ==>
      older[SymbolKey(ts[i])] == parseLong(ts[i].id.value).value
    requires forall i :: 0 <= i < |ts| && IsFirstKept(ts, LegacyMapping.KeepAll, i) ==>
      current[SymbolKey(ts[i])] == parseLong(ts[i].id.value).value
    ensures older == current
  {
    forall k | k in older ensures older[k] == current[k] {
      var i := FirstWithKey(ts, k);
    }
  }

  /** When every ticker is usable, the current builder's filter keeps the same first
      tickers and keys as the older builder's keep-all. */
  lemma AllUsable(ts: seq<Ticker>)
    requires forall i :: 0 <= i < |ts| ==> CoinLoreMapping.Usable(ts[i])
    ensures forall i :: 0 <= i < |ts| ==>
      (IsFirstKept(ts, CoinLoreMapping.Usable, i) <==> IsFirstKept(ts, LegacyMapping.KeepAll, i))
    ensures KeySet(ts, CoinLoreMapping.Usable) == KeySet(ts, LegacyMapping.KeepAll)
  {
  }

  /** Every key is opened by a first ticker. */
  lemma FirstWithKey(ts: seq<Ticker>, k: string) returns (i: int)
    requires k in KeySet(ts, LegacyMapping.KeepAll)
    ensures 0 <= i < |ts| && IsFirstKept(ts, LegacyMapping.KeepAll, i) && SymbolKey(ts[i]) == k
  {
    var reps := Firsts(ts, LegacyMapping.KeepAll);
    assert k in Keys(reps);
    var t :| t in reps && SymbolKey(t) == k;
    LegacyMapping.FirstOf(ts, t);
    i :| 0 <= i < |ts| && IsFirstKept(ts, LegacyMapping.KeepAll, i) && ts[i] == t;
  }

  /** What the older merge computes on a catalogue without surprises. */
  lemma LegacyMergeWellFormed(coins: seq<Option<Ticker>>, parseLong: LongParser)
    requires CoinLoreMapping.WellFormed(coins, parseLong)
    ensures LegacyMapping.Merge(coins, parseLong).Ok?
    ensures LegacyMapping.Merge(coins, parseLong).value.Keys == (set t | t in coins :: SymbolKey(t.value))
    ensures forall t :: t in coins ==>
      LegacyMapping.Merge(coins, parseLong).value[SymbolKey(t.value)] == parseLong(t.value.id.value).value
  {
    assert LegacyMapping.SymbolsPresent(coins);
    var ts := LegacyMapping.Unwrap(coins);
    forall i | 0 <= i < |ts| && IsFirstKept(ts, LegacyMapping.KeepAll, i)
      ensures LegacyMapping.ParseId(parseLong, ts[i].id).Ok?
    {
      assert parseLong(coins[i].value.id.value).Some?;
    }
    var older := LegacyMapping.Merge(coins, parseLong);
    assert older.Ok?;
    LegacyKeys(coins, ts);
    forall t | t in coins
      ensures older.value[SymbolKey(t.value)] == parseLong(t.value.id.value).value
    {
      var i :| 0 <= i < |coins| && coins[i] == t;
      assert IsFirstKept(ts, LegacyMapping.KeepAll, i);
    }
  }

  lemma LegacyKeys(coins: seq<Option<Ticker>>, ts: seq<Ticker>)
    requires LegacyMapping.SymbolsPresent(coins) && ts == LegacyMapping.Unwrap(coins)
    ensures KeySet(ts, LegacyMapping.KeepAll) == (set t | t in coins :: SymbolKey(t.value))
  {
    forall k ensures k in KeySet(ts, LegacyMapping.KeepAll) <==> k in (set t | t in coins :: SymbolKey(t.value)) {
      if k in KeySet(ts, LegacyMapping.KeepAll) {
        var t :| t in ts && SymbolKey(t) == k;
        var i :| 0 <= i < |ts| && ts[i] == t;
        assert coins[i] in coins;
      }
      if k in (set t | t in coins :: SymbolKey(t.value)) {
        var t :| t in coins && SymbolKey(t.value) == k;
        var i :| 0 <= i < |coins| && coins[i] == t;
        assert ts[i] in ts && LegacyMapping.KeepAll(ts[i]);
      }
    }
  }

  /** Both builders rebuild the same file, with the same requests and the same outcome,
      whenever the older one does not trip over a negative page count and every
      complete fetch returns a readable catalogue. */
  lemma BuildersAgree(file: IndexFile, global: Reply<GlobalData>, limit: int,
                      source: PageSource, parseLong: LongParser)
    requires limit > 0
    requires global.Ok? && global.value.Some? ==> global.value.value.coinsCount > -limit
    requires global.Ok? && global.value.Some? && global.value.value.coinsCount > 0 ==>
      var plan := Plan(CallCount(global.value.value.coinsCount, limit), limit);
      (forall i :: 0 <= i < |plan| ==> source(plan[i]).Ok?) ==>
        CoinLoreMapping.Readable(Returned(source, plan), parseLong)
    ensures LegacyMapping.UpdateCoinMapping(file, global, limit, source, parseLong) ==
            CoinLoreMapping.UpdateCoinMapping(file, global, limit, source, parseLong)
  {
    if global.Ok? && global.value.Some? && global.value.value.coinsCount > 0 {
      var count := global.value.value.coinsCount;
      CallCountSign(count, limit);
      var plan := Plan(CallCount(count, limit), limit);
      var fetched := FetchAll(source, plan);
      if fetched.Ok? {
        FetchAllReturns(source, plan);
        MergesAgree(Returned(source, plan), parseLong);
      }
    }
  }

  /** A successful rebuild is what the next load sees: the current loader (on a first
      call) returns the saved index, and so does the older loader. */
  lemma RebuildThenLoad(file: IndexFile, global: Reply<GlobalData>, limit: int,
                        source: PageSource, parseLong: LongParser)
    requires limit > 0
    ensures var run := CoinLoreMapping.UpdateCoinMapping(file, global, limit, source, parseLong);
      run.outcome.Pass? ==>
        && CoinLoreIndex.Get(CoinLoreIndex.Initial, run.file).result == Ok(run.file.contents)
        && LegacyIndex.Load(run.file) == Ok(Some(run.file.contents))
    ensures var run := CoinLoreMapping.UpdateCoinMapping(file, global, limit, source, parseLong);
      run.outcome.Fail? ==> run.file == file
  {
  }

  /** The price resolver seen as the price query of a refresh. */
  function ResolverQuery(index: Res<Option<SymbolMap>>, fetch: PriceResolver.TickerSource,
                         parseDecimal: DecimalParser): PriceQuery
  {
    symbols =>
      match PriceResolver.GetCurrentPrices(symbols, index, fetch, parseDecimal).result
      case Err(e) => Err(e)
      case Ok(prices) => Ok(Some(prices))
  }

  /** Wired to the resolver, the periodic refresh fails only when the resolver throws:
      the resolver never answers null. */
  lemma ResolverNeverNull(s: Store, order: seq<string>, index: Res<Option<SymbolMap>>,
                          fetch: PriceResolver.TickerSource, parseDecimal: DecimalParser)
    requires Enumerates(order, s.holdings.Keys)
    ensures var query := ResolverQuery(index, fetch, parseDecimal);
      Refresh(s, order, query).outcome.Fail? <==> order != [] && query(order).Err?
  {
  }

  /** When the price service is the resolver and the index knows none of the held
      coins, an on-demand refresh writes nothing, while a periodic one sets every held
      coin's price to 0. */
  lemma UnknownHoldings(s: Store, order: seq<string>, index: SymbolMap,
                        fetch: PriceResolver.TickerSource, parseDecimal: DecimalParser)
    requires Enumerates(order, s.holdings.Keys)
    requires forall i :: 0 <= i < |order| ==> !PriceResolver.Known(index, order[i])
    ensures var query := ResolverQuery(Ok(Some(index)), fetch, parseDecimal);
      && UpdatePrices(s, order, query).store == s
      && forall c :: c in s.holdings ==> CurrentPrice(Refresh(s, order, query).store, c) == 0.0
  {
    PriceResolver.NoKnownSymbolNoCall(order, index, fetch, parseDecimal);
  }

  /** The two refresh paths agree on a non-empty reply without negative quotes for held
      coins. */
  lemma RefreshesAgree(s: Store, order: seq<string>, query: PriceQuery)
    requires Enumerates(order, s.holdings.Keys)
    requires query(order).Ok? && query(order).value.Some? && query(order).value.value != map[]
    requires forall c :: c in s.holdings && c in query(order).value.value ==> query(order).value.value[c] >= 0.0
    ensures UpdatePrices(s, order, query) == Refresh(s, order, query)
  {
    if order != [] {
      var prices := query(order).value.value;
      assert |prices| != 0;
      SameWrites(s, order, prices);
    } else {
      assert s.holdings.Keys == {};
    }
  }

  /** Without negative quotes for the listed coins, both write rules write the same. */
  lemma SameWrites(s: Store, order: seq<string>, prices: PriceMap)
    requires forall c :: c in order && c in prices ==> prices[c] >= 0.0
    ensures WriteEach(s, order, Decide(prices)) == WriteEach(s, order, Quote(prices))
  {
    WriteEachOverlays(s, order, Decide(prices));
    WriteEachOverlays(s, order, Quote(prices));
    SameDecisions(order, prices);
  }

  /** Without negative quotes for the listed coins, both rules decide the same prices. */
  lemma SameDecisions(order: seq<string>, prices: PriceMap)
    requires forall c :: c in order && c in prices ==> prices[c] >= 0.0
    ensures Decided(order, Decide(prices)) == Decided(order, Quote(prices))
  {
    forall c | c in order ensures Decide(prices)(c) == Quote(prices)(c) {
    }
  }

  /** Where they part: on an empty reply the on-demand refresh keeps the stored
      prices and the periodic one zeroes them; on a null reply the on-demand refresh
      passes and the periodic one fails; a negative quote is skipped by the first and
      stored by the second. */
  lemma RefreshesDiffer(s: Store, order: seq<string>, query: PriceQuery, c: string)
    requires Enumerates(order, s.holdings.Keys) && c in s.holdings
    ensures query(order) == Ok(Some(map[])) ==>
      UpdatePrices(s, order, query).store == s && CurrentPrice(Refresh(s, order, query).store, c) == 0.0
    ensures query(order) == Ok(None) ==>
      UpdatePrices(s, order, query).outcome == Pass && Refresh(s, order, query).outcome == Fail(NullReference)
    ensures query(order).Ok? && query(order).value.Some? && c in query(order).value.value && query(order).value.value[c] < 0.0 ==>
      && CurrentPrice(UpdatePrices(s, order, query).store, c) == CurrentPrice(s, c)
      && CurrentPrice(Refresh(s, order, query).store, c) == query(order).value.value[c]
  {
    assert order != [] by {
      assert c in order;
    }
  }
}
