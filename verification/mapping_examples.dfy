/** The index builders and loaders on the inputs of the repository's unit tests. */
module MappingExamples {
  import opened Wrappers
  import opened Models
  import opened Text
  import opened Paging
  import opened Samples
  import TickerGroups
  import CoinLoreMapping
  import LegacyMapping
  import CoinLoreIndex
  import LegacyIndex

  /** The price service of the three-page example. */
  function ThreePages(req: PageRequest): Reply<seq<Option<Ticker>>> {
    if req == PageRequest(0, 100) then Ok(Some([Coin("BTC", "1"), Coin("ETH", "2")]))
    else if req == PageRequest(100, 100) then Ok(Some([Coin("XRP", "3"), Coin("LTC", "4")]))
    else if req == PageRequest(200, 100) then Ok(Some([Coin("ADA", "5"), Coin("DOT", "6")]))
    else Ok(None)
  }

  const SixCoins: seq<Option<Ticker>> :=
    [Coin("BTC", "1"), Coin("ETH", "2"), Coin("XRP", "3"), Coin("LTC", "4"), Coin("ADA", "5"), Coin("DOT", "6")]

  /** 250 coins at 100 per page are three pages, which return six coins in all. */
  lemma ThreePagesReturn()
    ensures CallCount(250, 100) == 3
    ensures Plan(3, 100) == [PageRequest(0, 100), PageRequest(100, 100), PageRequest(200, 100)]
    ensures Returned(ThreePages, Plan(3, 100)) == SixCoins
  {
    var plan := Plan(3, 100);
    assert plan == [PageRequest(0, 100), PageRequest(100, 100), PageRequest(200, 100)];
    var pages := seq(|plan|, i requires 0 <= i < |plan| => PageOf(ThreePages, plan[i]));
    assert pages[0] == [Coin("BTC", "1"), Coin("ETH", "2")];
    assert pages[1] == [Coin("XRP", "3"), Coin("LTC", "4")];
    assert pages[2] == [Coin("ADA", "5"), Coin("DOT", "6")];
    assert pages[1..][1..][1..] == [];
    assert Flatten(pages[1..][1..]) == pages[2] + [];
    assert Flatten(pages[1..]) == pages[1] + pages[2];
    assert Flatten(pages) == pages[0] + (pages[1] + pages[2]);
  }

  /** The symbols and the id texts of the six coins. */
  const SixSymbols: seq<string> := ["BTC", "ETH", "XRP", "LTC", "ADA", "DOT"]
  const SixIdTexts: seq<string> := ["1", "2", "3", "4", "5", "6"]

  /** The six coins are a catalogue without surprises. */
  lemma SixCoinsWellFormed()
    ensures PlainCoins(SixCoins, SixSymbols, SixIdTexts)
    ensures CoinLoreMapping.WellFormed(SixCoins, ParseDigits)
    ensures (set t | t in SixCoins :: TickerGroups.SymbolKey(t.value)) == set s | s in SixSymbols
  {
    SixCoinsPlain();
    PlainCatalogue(SixCoins, SixSymbols, SixIdTexts);
  }

  /** The six coins have letter symbols with different first letters and one-digit ids. */
  lemma SixCoinsPlain()
    ensures PlainCoins(SixCoins, SixSymbols, SixIdTexts)
  {
    var symbols, ids := SixSymbols, SixIdTexts;
    assert forall i :: 0 <= i < |SixCoins| ==> SixCoins[i] == Coin(symbols[i], ids[i]);
    assert forall i :: 0 <= i < |symbols| ==> Letters(symbols[i]) && |ids[i]| == 1 && '0' <= ids[i][0] <= '9';
    assert forall i, j :: 0 <= i < j < |symbols| ==> symbols[i][0] != symbols[j][0];
  }

  /** The index of the six coins. */
  const SixIds: SymbolMap := map["BTC" := 1, "ETH" := 2, "XRP" := 3, "LTC" := 4, "ADA" := 5, "DOT" := 6]

  /** A map keyed by the six symbols, holding id `i + 1` under the `i`-th, is the index. */
  lemma SixIdsOnly(m: SymbolMap)
    requires m.Keys == set s | s in SixSymbols
    requires forall i :: 0 <= i < |SixSymbols| ==> m[SixSymbols[i]] == SixIdTexts[i][0] as int - '0' as int
    ensures m == SixIds
  {
    var symbols := SixSymbols;
    assert forall s :: s in symbols <==> s in SixIds.Keys;
    assert m[symbols[0]] == 1 && m[symbols[1]] == 2 && m[symbols[2]] == 3;
    assert m[symbols[3]] == 4 && m[symbols[4]] == 5 && m[symbols[5]] == 6;
  }

  /** A catalogue of 250 coins is fetched in three pages of 100 starting at 0, 100 and
      200, and the saved index maps each symbol to its id. */
  lemma RebuildThreePages()
    ensures var run := CoinLoreMapping.UpdateCoinMapping(Missing, Ok(Some(GlobalData(250))), 100, ThreePages, ParseDigits);
      && run.requests == [PageRequest(0, 100), PageRequest(100, 100), PageRequest(200, 100)]
      && run.outcome == Pass
      && run.file == Valid(SixIds)
  {
    ThreePagesReturn();
    SixCoinsWellFormed();
    CoinLoreMapping.RebuildSavesUnion(Missing, 250, 100, ThreePages, ParseDigits);
    var run := CoinLoreMapping.UpdateCoinMapping(Missing, Ok(Some(GlobalData(250))), 100, ThreePages, ParseDigits);
    PlainIndex(run.file.contents, SixCoins, SixSymbols, SixIdTexts);
    SixIdsOnly(run.file.contents);
  }

  /** A ticker whose id is not a number. */
  function OddIdPage(req: PageRequest): Reply<seq<Option<Ticker>>> {
    if req == PageRequest(0, 100) then Ok(Some([Coin("BTC", "abc"), Coin("ETH", "2")])) else Ok(None)
  }

  /** Texts that are not numbers. */
  lemma NotDigits()
    ensures ParseDigits("abc") == None
    ensures ParseDigits("2") == Some(2)
  {
    assert !('0' <= "abc"[0] <= '9');
    PlainCoin("ETH", "2");
  }

  /** A two-coin catalogue is one page starting at 0. */
  lemma OnePage()
    ensures CallCount(2, 100) == 1
    ensures Plan(1, 100) == [PageRequest(0, 100)]
    ensures Returned(OddIdPage, Plan(1, 100)) == [Coin("BTC", "abc"), Coin("ETH", "2")]
  {
    var plan := Plan(1, 100);
    assert plan == [PageRequest(0, 100)];
    var pages := seq(|plan|, i requires 0 <= i < |plan| => PageOf(OddIdPage, plan[i]));
    assert pages[1..] == [];
    assert Flatten(pages) == pages[0] + [];
  }

  /** Two usable tickers with different keys: both are the first of their group. */
  lemma TwoGroups(a: Ticker, b: Ticker, parseLong: LongParser)
    requires CoinLoreMapping.Usable(a) && CoinLoreMapping.Usable(b)
    requires TickerGroups.SymbolKey(a) != TickerGroups.SymbolKey(b)
    ensures var r := CoinLoreMapping.Merge([Some(a), Some(b)], parseLong);
      && r.Ok?
      && r.value.Keys == {TickerGroups.SymbolKey(a), TickerGroups.SymbolKey(b)}
      && r.value[TickerGroups.SymbolKey(a)] == TickerGroups.IdOrZero(parseLong, a)
      && r.value[TickerGroups.SymbolKey(b)] == TickerGroups.IdOrZero(parseLong, b)
  {
    var coins := [Some(a), Some(b)];
    assert CoinLoreMapping.NoNulls(coins);
    var ts := CoinLoreMapping.Unwrap(coins);
    assert ts == [a, b];
    assert TickerGroups.IsFirstKept(ts, CoinLoreMapping.Usable, 0);
    assert TickerGroups.IsFirstKept(ts, CoinLoreMapping.Usable, 1);
    assert TickerGroups.KeySet(ts, CoinLoreMapping.Usable) == {TickerGroups.SymbolKey(a), TickerGroups.SymbolKey(b)} by {
      assert forall t :: t in ts ==> t == a || t == b;
      assert a in ts && b in ts;
    }
  }

  /** Two usable tickers with different keys merge into a two-key map. */
  lemma MergeTwo(a: Ticker, b: Ticker, parseLong: LongParser)
    requires CoinLoreMapping.Usable(a) && CoinLoreMapping.Usable(b)
    requires TickerGroups.SymbolKey(a) != TickerGroups.SymbolKey(b)
    ensures CoinLoreMapping.Merge([Some(a), Some(b)], parseLong)
      == Ok(map[TickerGroups.SymbolKey(a) := TickerGroups.IdOrZero(parseLong, a),
                TickerGroups.SymbolKey(b) := TickerGroups.IdOrZero(parseLong, b)])
  {
    TwoGroups(a, b, parseLong);
    var r := CoinLoreMapping.Merge([Some(a), Some(b)], parseLong);
    TwoKeys(r.value, TickerGroups.SymbolKey(a), TickerGroups.IdOrZero(parseLong, a),
            TickerGroups.SymbolKey(b), TickerGroups.IdOrZero(parseLong, b));
  }

  /** The merge keeps the coin whose id is not a number, with the id 0. */
  lemma MergeOddId()
    ensures CoinLoreMapping.Merge([Coin("BTC", "abc"), Coin("ETH", "2")], ParseDigits) == Ok(map["BTC" := 0, "ETH" := 2])
  {
    NotDigits();
    PlainCoin("ETH", "2");
    var a := Ticker(Some("abc"), Some("BTC"), None);
    assert CoinLoreMapping.Usable(a) by {
      assert !IsWhiteSpace("BTC"[0]) && !IsWhiteSpace("abc"[0]);
    }
    assert TickerGroups.SymbolKey(a) == "BTC" by {
      assert IsUpperCase("BTC");
    }
    MergeTwo(a, Coin("ETH", "2").value, ParseDigits);
  }

  /** The current builder saves a coin whose id is not a number under the id 0, and
      the other coins as usual. */
  lemma CurrentBuilderZeroesOddId()
    ensures CoinLoreMapping.UpdateCoinMapping(Missing, Ok(Some(GlobalData(2))), 100, OddIdPage, ParseDigits)
      == Rebuild([PageRequest(0, 100)], Valid(map["BTC" := 0, "ETH" := 2]), Pass)
  {
    OnePage();
    MergeOddId();
  }

  /** The legacy merge fails the whole catalogue on the first id that is not a number. */
  lemma LegacyMergeRejects(a: Ticker, b: Ticker, parseLong: LongParser)
    requires a.symbol.Some? && b.symbol.Some?
    requires a.id.Some? && parseLong(a.id.value).None?
    requires b.id.Some? && parseLong(b.id.value).Some?
    ensures LegacyMapping.Merge([Some(a), Some(b)], parseLong) == Err(BadNumber)
  {
    var coins := [Some(a), Some(b)];
    assert LegacyMapping.SymbolsPresent(coins);
    var ts := LegacyMapping.Unwrap(coins);
    assert ts == [a, b];
    assert TickerGroups.IsFirstKept(ts, LegacyMapping.KeepAll, 0);
    assert !LegacyMapping.FirstIdsParse(ts, parseLong);
  }

  /** The legacy builder saves nothing when one id is not a number. */
  lemma LegacyBuilderRejectsOddId()
    ensures LegacyMapping.UpdateCoinMapping(Missing, Ok(Some(GlobalData(2))), 100, OddIdPage, ParseDigits)
      == Rebuild([PageRequest(0, 100)], Missing, Fail(BadNumber))
  {
    OnePage();
    NotDigits();
    LegacyMergeRejects(Coin("BTC", "abc").value, Coin("ETH", "2").value, ParseDigits);
    FetchAllReturns(OddIdPage, [PageRequest(0, 100)]);
  }

  /** The index file written by the three-page rebuild is loaded as it stands, and a
      missing file reads as an empty index for the current loader but throws for the
      legacy one. */
  lemma LoadersOnSavedAndMissingFile()
    ensures CoinLoreIndex.Get(CoinLoreIndex.Initial, Valid(SixIds)).result == Ok(SixIds)
    ensures CoinLoreIndex.Get(CoinLoreIndex.Initial, Missing).result == Ok(map[])
    ensures LegacyIndex.Get(LegacyIndex.Unforced, Valid(SixIds)).result == Ok(Some(SixIds))
    ensures LegacyIndex.Get(LegacyIndex.Unforced, Missing).result == Err(FileNotFound)
  {
  }

  /** A catalogue size of -100 with pages of 100: the legacy builder asks
      `Enumerable.Range` for -1 pages and throws, keeping the old file, while the
      current builder treats every size up to 0 as an empty catalogue and saves an
      empty index. */
  lemma NegativeCountThrows(file: IndexFile, count: int, limit: int, source: PageSource, parseLong: LongParser)
    requires count == -100 && limit == 100
    ensures CallCount(count, limit) == -1
    ensures LegacyMapping.UpdateCoinMapping(file, Ok(Some(GlobalData(count))), limit, source, parseLong)
      == Rebuild([], file, Fail(ArgumentOutOfRange))
    ensures CoinLoreMapping.UpdateCoinMapping(file, Ok(Some(GlobalData(count))), limit, source, parseLong)
      == Rebuild([], Valid(map[]), Pass)
  {
  }
}
