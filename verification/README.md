# CoinLore portfolio tracker — a Dafny model of its core

The system is an ASP.NET service that tracks a cryptocurrency portfolio against CoinLore prices. This project models its core as pure Dafny functions and proves properties about them.

Two generations of the services sit side by side in the repository. The older one is under `Services/` and the current one under `CoinLore/Services/`. Both are modelled wherever they differ.

The pipeline has four stages:

1. **Index builders** (`CoinMappingService`). Each reads the catalogue size, then asks the price service for every page of `limit` tickers at once. It merges the pages into a symbol → id index, grouping by upper-cased symbol and keeping the first ticker of each group, and writes the index file.
   - The current builder skips blank symbols and ids, and records an unparsable id as 0.
   - The older builder throws on an unparsable id, and on a catalogue size at or below `-limit`.
   - Modules: `Paging`, `TickerGroups`, `CoinLoreMapping`, `LegacyMapping`.
2. **Index loaders** (`SymbolToIdMappingService`).
   - The current loader caches the first non-empty map it reads, and reads a missing file as an empty map.
   - The older loader reads the file once through a `Lazy` task, and a missing file throws.
   - Modules: `CoinLoreIndex`, `LegacyIndex`.
3. **Price resolver** (`CoinPriceService`). It turns symbols into ids through the index and asks for those ids' tickers. Each ticker's price is stored under its upper-cased symbol, and an unreadable price becomes 0. Module: `PriceResolver`.
4. **Portfolio**:
   - the in-memory repository (`PortfolioStore`);
   - the upload parser for `quantity|coin|initialPrice` lines and the summary with its percentage rule (`PortfolioService`, `CoinChanges`);
   - the on-demand price refresh (`PriceUpdate`);
   - the periodic refresh loop (`BackgroundRefresh`).

`Agreement` relates these pieces to one another:
- where the two builders agree and where they part;
- a rebuild followed by a load;
- the resolver used as the refresh's price query;
- the two refresh rules.

The `*_examples.dfy` modules replay the inputs of the repository's unit tests. They are proved for all inputs where the test's data allows it.

Modelling conventions:
- A C# `null` is `Option.None`. A thrown exception is `Result.Err` carrying a `Models.Error`.
- A price-service reply is `Reply<T> = Result<Option<T>, Error>`: it throws, returns null, or returns a value.
- `long.TryParse` and `decimal.TryParse` are function parameters (`LongParser`, `DecimalParser`). `decimal` is modelled as exact `real`.
- The index file is an abstract state: `Missing`, `Valid(map)`, `NullJson` or `Corrupt`.
- The order in which a dictionary enumerates its keys is a parameter `order`, constrained by `PortfolioStore.Enumerates`.
- `Task.WhenAll` over the page requests is modelled as fetching the pages in plan order. The first failing page's exception is the one that propagates.

## Model

| member | source | states |
|---|---|---|
| Text.ToUpper | Services/PortfolioService.cs:51 | The result has the input's length and no lower-case letter, leaves upper-case text unchanged, and keeps white space and the `\|` separator exactly where they were |
| Text.TrimStart | Services/PortfolioService.cs:51 | The result is a suffix of the input, obtained by dropping only white space, and does not start with white space |
| Text.TrimEnd | Services/PortfolioService.cs:51 | The result is a prefix of the input, obtained by dropping only white space, and does not end with white space |
| Text.Trim | Services/PortfolioService.cs:51 | The result sits inside the input with only white space around it, and neither starts nor ends with white space |
| Text.TrimFixesTrimmed | Services/PortfolioService.cs:51 | Trimming text that has no white space at either end gives it back unchanged |
| Text.Split | Services/PortfolioService.cs:38-39 | The fields contain no separator, joining them with the separator gives the line back, and there is one more field than separator occurrences |
| Text.SplitJoin | Services/PortfolioService.cs:38-39 | Splitting separator-free fields joined by the separator returns exactly those fields (the inverse of `Split`) |
| CoinChanges.Percentage | Services/PortfolioService.cs:101 | Zero for a zero base; otherwise the result times the base equals 100 times the difference, so there is never a division by zero |
| CoinChanges.PercentageSign | Services/PortfolioService.cs:101 | For a positive base, the change is positive, negative or zero exactly when the value rose, fell or stayed the same, and it is never below -100 % for a non-negative value |
| CoinChanges.CoinChange.ChangePercentage | CoinLore/Models/CoinChange.cs:17 | Zero for a zero initial price; otherwise the result times the initial price equals 100 times the price difference. For a positive initial price its sign follows the price movement and it is at least -100 % |
| CoinChanges.ChangeIsPerUnit | CoinLore/Models/CoinChange.cs:13-17 | The change percentage does not depend on the quantity held, and for a non-zero quantity it equals the value change in percent |
| Paging.CallCount | Services/CoinMappingService.cs:35 | The number of page calls is the exact ceiling of count/limit: n-1 pages fall short of the count and n pages reach it |
| Paging.CallCountSign | Services/CoinMappingService.cs:35-40 | The call count is negative exactly for sizes at or below `-limit`, and zero exactly for sizes in (-limit, 0] |
| Paging.PlanCoversCatalogue | CoinLore/Services/CoinMappingService.cs:57-62 | For a positive size, page `i` is `(i*limit, limit)`, every page starts inside the catalogue, and every catalogue position lies in page `position/limit` |
| Paging.FetchAll | CoinLore/Services/CoinMappingService.cs:64 | Succeeds exactly when every page request succeeds, returning one page per request with a null page read as empty; otherwise it throws the first failing request's exception |
| Paging.FetchAllReturns | CoinLore/Services/CoinMappingService.cs:64-67 | When every request succeeds, the fetched pages are the replies in request order, nulls as empty |
| Paging.FetchAllFirstFailure | CoinLore/Services/CoinMappingService.cs:64 | Whenever page `i` is the first request in plan order that throws, the fan-out throws exactly that request's exception |
| Paging.Flatten | CoinLore/Services/CoinMappingService.cs:67-68 | A ticker is in the flattened list exactly when it is on one of the pages; page order and repeats are stated by `FlattenAppend` and `FlattenSnoc` |
| Paging.FlattenAppend | CoinLore/Services/CoinMappingService.cs:67-68 | Flattening keeps page order and repeats: the flattening of two page lists joined is the flattening of the first followed by that of the second |
| Paging.FlattenSnoc | CoinLore/Services/CoinMappingService.cs:67-68 | The last page's items come last, after the flattening of all earlier pages |
| TickerGroups.Firsts | CoinLore/Services/CoinMappingService.cs:69-72 | One ticker per upper-cased symbol among the kept tickers: exactly the first kept ticker of every group, and no two of them share a key. The groups are listed in order of first appearance: the groups opened before a group's first ticker are listed before it |
| TickerGroups.FirstsInOrder | CoinLore/Services/CoinMappingService.cs:69-72 | For every group's first ticker, the groups of the listing before it, followed by that ticker, form a prefix of the whole grouping |
| TickerGroups.ToMap | CoinLore/Services/CoinMappingService.cs:73-81 | With one ticker per key, the dictionary has exactly those keys and each maps to its ticker's value |
| CoinLoreMapping.Merge | CoinLore/Services/CoinMappingService.cs:66-82 | Throws exactly when some ticker is null. Otherwise the keys are the upper-cased symbols of tickers with non-blank symbol and id, and each key maps to the first such ticker's id, or 0 when the id does not parse |
| CoinLoreMapping.FetchAndProcess | CoinLore/Services/CoinMappingService.cs:49-85 | A size at or below 0 makes no request and yields an empty map. Otherwise it requests exactly the page plan. A page request that throws aborts the run with the exception of the first such page in plan order; when every page arrives, the result is the merge of all returned tickers |
| CoinLoreMapping.UpdateCoinMapping | CoinLore/Services/CoinMappingService.cs:25-47 | A failed rebuild leaves the file as it was. Metadata that throws is rethrown, and a null catalogue yields GlobalDataMissing. A size at or below 0 saves an empty index. A positive size requests exactly the page plan: the first failing page's exception aborts it; otherwise a merge exception fails it and a successful merge is saved as the new index |
| CoinLoreMapping.MergeWellFormed | CoinLore/Services/CoinMappingService.cs:66-82 | With no null ticker and every symbol and id present and numeric, the merge succeeds and is the union of symbol → first id |
| CoinLoreMapping.RebuildSavesUnion | CoinProject.Tests/CoinMappingServiceTests.cs:41-112 | When every page of the plan returns well-formed tickers, the rebuild requests exactly the plan and saves the union of symbol → id over all pages |
| LegacyMapping.FirstBadId | Services/CoinMappingService.cs:48 | `None` exactly when every group's first id parses as a `long`; otherwise the exception that one of them raises |
| LegacyMapping.Merge | Services/CoinMappingService.cs:44-48 | A null ticker or null symbol throws NullReference. Otherwise it succeeds exactly when every group's first id parses, and then keys every upper-cased symbol (blank ones included) to its first ticker's id. A failure carries the exception of the first group, in order of appearance, whose first id does not parse |
| LegacyMapping.BadFirstId | Services/CoinMappingService.cs:47-48 | When the grouping has an unparsable first id, some group's first ticker raises that exception and every group opened before it parses |
| LegacyMapping.UpdateCoinMapping | Services/CoinMappingService.cs:25-58 | Failures leave the file as it was; a null catalogue yields GlobalDataMissing. A size at or below `-limit` throws ArgumentOutOfRange before any request, and a size in (-limit, 0] saves an empty index. A positive size requests exactly the page plan: the first failing page's exception aborts it; otherwise a merge exception fails it and a successful merge is saved as the new index |
| CoinLoreIndex.Get | CoinLore/Services/SymbolToIdMappingService.cs:25-54 | A cached non-empty map is returned without reading the file. Otherwise a valid file returns its map, a missing or null file returns an empty map, and only a corrupt file throws, without changing the cache |
| CoinLoreIndex.StickyCacheIgnoresFile | CoinLore/Services/SymbolToIdMappingService.cs:27-28 | Once a non-empty map is cached, every later call returns it whatever the file holds, and the cache never changes |
| CoinLoreIndex.EmptyCacheRereads | CoinLore/Services/SymbolToIdMappingService.cs:42-46 | An empty map read from a missing file is not kept: a later call sees the map written since |
| LegacyIndex.Load | Services/SymbolToIdMappingService.cs:24-38 | A missing file throws FileNotFound, a valid file yields its map, a JSON null yields a null map, and a corrupt file throws a JSON error, each case exactly |
| LegacyIndex.Get | Services/SymbolToIdMappingService.cs:40-43 | The first call forces the load of the file as it is then, stores that outcome and returns it; every later call returns the stored outcome and leaves it as it is |
| LegacyIndex.LoadsOnce | Services/SymbolToIdMappingService.cs:21 | Across any sequence of calls, every call returns the outcome of loading the file as it was at the first call |
| LegacyIndex.Replays | Services/SymbolToIdMappingService.cs:21 | Once forced, the lazy value replays its outcome, exception included, and never changes |
| PriceResolver.KnownSymbols | Services/CoinPriceService.cs:37-40 | Exactly the input symbols whose upper-cased form the index knows, with no more entries than the input |
| PriceResolver.RequestedIdsOfKnown | Services/CoinPriceService.cs:37-40 | The ids sent upstream are the printed index ids of exactly the known symbols, in input order |
| PriceResolver.RequestedIdsAppend | Services/CoinPriceService.cs:37-40 | The id list keeps input order: the ids for a concatenation are the concatenation of the ids |
| PriceResolver.ProcessTickers | Services/CoinPriceService.cs:69-95 | Keys are exactly the upper-cased symbols of non-null tickers with non-blank symbol and price. The last such ticker for a key decides its value: its parsed price, or 0 when the price does not parse |
| PriceResolver.GetCurrentPrices | Services/CoinPriceService.cs:25-67 | An index failure propagates; a null or empty index, or no known symbol, gives an empty result with no upstream call. Otherwise exactly the known symbols' ids are requested. The call's exception propagates, a null reply gives an empty result, and a list of tickers gives their processed prices. A non-empty result implies a call was made |
| PriceResolver.NoKnownSymbolNoCall | CoinProject.Tests/CoinPriceServiceTests.cs:64-94 | When the index knows none of the symbols, the price service is not called and the result is empty |
| PortfolioStore.Install | Services/InMemoryPortfolioRepository.cs:14-18 | The holdings have exactly the items' coins as keys, each filed under its own coin, with the last item for a coin winning |
| PortfolioStore.Upload | Services/InMemoryPortfolioRepository.cs:12-20 | An upload replaces all holdings with the new items, last one per coin, and leaves every stored price untouched |
| PortfolioStore.Items | Services/InMemoryPortfolioRepository.cs:22-25 | The listing contains one item per held coin, exactly the stored holdings, in the dictionary's order |
| PortfolioStore.UpdateCurrentPrice | Services/InMemoryPortfolioRepository.cs:27-35 | Only this coin's price changes (held or not): it now reads as the new price, every other coin's price is unchanged, and holdings are untouched |
| PortfolioStore.PricesSurviveUpload | Services/InMemoryPortfolioRepository.cs:12-35 | A fresh store reads every price as 0, and an upload never changes any coin's price |
| PortfolioStore.WriteEachOverlays | Services/PriceUpdateService.cs:41-59 | The per-symbol write loop does not depend on the listing order: it overlays the prices it decides onto the old ones and keeps the holdings |
| PortfolioService.ParseLine | Services/PortfolioService.cs:35-64 | Blank lines and lines without exactly two separators are skipped. An accepted line yields id 0, an upper-case trimmed bar-free coin, and the parsed quantity and price of its first and third fields |
| PortfolioService.ParseFields | Services/PortfolioService.cs:38-64 | Conversely, three bar-free fields give an item exactly when both numbers parse; the coin is the trimmed, upper-cased middle field |
| PortfolioService.LineRoundTrip | Services/PortfolioService.cs:38-64 | Writing an item as a `quantity\|coin\|price` line and reading it back returns the same item |
| PortfolioService.ParseLinesAppend | Services/PortfolioService.cs:32-66 | Lines are read in file order: the items of a concatenation are the items of each part in turn |
| PortfolioService.UploadPortfolio | Services/PortfolioService.cs:23-70 | Afterwards the store holds exactly the coins of the accepted lines (none when no line is accepted), each filed under its own coin, and prices are untouched |
| PortfolioService.LastLineWins | Services/PortfolioService.cs:23-70 | A coin listed on several accepted lines keeps the item of its last one |
| PortfolioService.GetPortfolioSummary | Services/PortfolioService.cs:72-112 | An empty portfolio throws PortfolioEmpty. Otherwise there is one entry per holding, valued at the stored price (0 when none). The totals are the sums of the entries' values, and the overall change is the percentage of the totals |
| PortfolioService.SummaryOrderIndependent | Services/PortfolioService.cs:83-101 | The totals and the overall change do not depend on the order the holdings are listed in |
| PriceUpdate.UpdatePrices | Services/PriceUpdateService.cs:21-68 | Nothing held: no query. A query exception propagates with the store unchanged; a null or empty reply changes nothing. Otherwise each held coin gets its non-negative quoted price, keeps its price when the quote is negative, and gets 0 when unquoted. Holdings and unheld coins never change |
| PriceUpdate.UpdateOrderIndependent | Services/PriceUpdateService.cs:41-59 | Two listings of the same holdings, given the same reply, produce the same store and outcome |
| PriceUpdate.PricedKeys | Services/PriceUpdateService.cs:41-59 | After a refresh a coin has a stored price exactly when it had one before or it is held and the refresh wrote one |
| BackgroundRefresh.Refresh | Services/PriceUpdateBackgroundService.cs:49-75 | Nothing held: no query. A query exception or a null reply fails with the store unchanged (the null reply fails with NullReference). Otherwise every held coin gets its quoted price, negative ones included, or 0 when unquoted; holdings and unheld coins never change |
| BackgroundRefresh.Execute | Services/PriceUpdateBackgroundService.cs:28-47 | Running the rounds computes the store the successive refreshes produce and counts the failed rounds (at most one per round); holdings never change |
| BackgroundRefresh.FailedRoundChangesNothing | Services/PriceUpdateBackgroundService.cs:32-41 | A round whose refresh fails is caught and leaves the store exactly as it was |
| BackgroundRefresh.LastReplyDecides | Services/PriceUpdateBackgroundService.cs:61-72 | After a round answered with a dictionary, each held coin carries that round's quote, or 0 |
| Agreement.MergesAgree | Services/CoinMappingService.cs:44-48 | On a catalogue with no null ticker and every symbol and id present, non-blank and numeric, the older merge computes the same index as the current one, repeated symbols included |
| Agreement.LegacyMergeWellFormed | Services/CoinMappingService.cs:44-48 | On such a catalogue the older merge succeeds and is the union of symbol → first id |
| Agreement.BuildersAgree | Services/CoinMappingService.cs:25-58 | Above `-limit`, and when every complete fetch returns such a readable catalogue (repeated symbols allowed), both builders issue the same requests, save the same file and end the same way |
| Agreement.RebuildThenLoad | CoinLore/Services/SymbolToIdMappingService.cs:25-54 | A successful rebuild is what the next load returns, for both the current loader (from a fresh cache) and the older one |
| Agreement.ResolverNeverNull | Services/PriceUpdateBackgroundService.cs:59-63 | With the resolver as the price query, the periodic refresh fails only when the resolver throws, because the resolver never returns null |
| Agreement.UnknownHoldings | Services/PriceUpdateService.cs:33-39 | When the index knows none of the held coins, the resolver answers an empty dictionary: the on-demand refresh then writes nothing, while the periodic refresh sets every held coin's price to 0 |
| Agreement.RefreshesAgree | Services/PriceUpdateService.cs:41-59 | On a non-empty reply without negative quotes for held coins, the on-demand and the periodic refresh produce the same result |
| Agreement.RefreshesDiffer | Services/PriceUpdateService.cs:35-49 | Where they differ: on an empty reply, or a null reply, or a negative quote, the on-demand refresh keeps the stored price while the periodic one writes 0, fails, or writes the negative quote |
| MappingExamples.RebuildThreePages | CoinProject.Tests/CoinMappingServiceTests.cs:41-112 | A catalogue of 250 coins is fetched as pages at 0, 100 and 200, and the saved index is the six symbols of the three pages mapped to their ids |
| MappingExamples.MergeOddId | CoinProject.Tests/CoinMappingServiceTests.cs:128-169 | The current merge records the unparsable id `abc` as 0 and keeps the other coin |
| MappingExamples.CurrentBuilderZeroesOddId | CoinProject.Tests/CoinMappingServiceTests.cs:128-169 | The current builder saves the index with the unparsable id as 0 |
| MappingExamples.LegacyBuilderRejectsOddId | Services/CoinMappingService.cs:48 | The older builder throws on the same input and keeps the old file |
| PriceExamples.PricesForKnownSymbols | CoinProject.Tests/CoinPriceServiceTests.cs:29-62 | BTC and ETH are requested as ids 1 and 2 and priced at 34000.50 and 2000 |
| PriceExamples.UnreadablePriceIsZero | CoinProject.Tests/CoinPriceServiceTests.cs:96-139 | A price that does not parse is recorded as 0, and the other price is kept |
| PriceExamples.UnknownSymbolsNoCall | CoinProject.Tests/CoinPriceServiceTests.cs:64-94 | Unknown symbols yield no upstream call and an empty result, whatever the price service would answer |
| PriceExamples.RefreshWritesQuotes | CoinProject.Tests/PriceUpdateServiceTests.cs:28-61 | Held BTC and ETH are queried once and take the quoted 35000 and 2500 |
| PriceExamples.RefreshZeroesUnquoted | CoinProject.Tests/PriceUpdateServiceTests.cs:90-133 | A held coin missing from the reply is set to 0 |
| PortfolioExamples.ReadLine | Services/PortfolioService.cs:35-64 | The line `2.5\|btc\|34000.50` reads as a holding of 2.5 BTC at 34000.50, with the coin upper-cased and id 0 |
| PortfolioExamples.SkipLine | Services/PortfolioService.cs:38-43 | A line without separators is skipped |
| PortfolioExamples.UploadSkipsBadLine | Services/PortfolioService.cs:32-68 | For three lines with a bad middle line and two different coins, the store holds exactly the two good items |
| PortfolioExamples.UploadFile | Services/PortfolioService.cs:23-70 | A three-line file with one malformed line uploads exactly BTC and ETH with their quantities and prices |
| PortfolioExamples.SummaryOfOneHolding | Services/PortfolioService.cs:72-112 | 2.5 BTC bought at 34000.50 and priced at 35000 gives one entry, totals of 85001.25 and 87500, and an overall change between 2.93 % and 2.94 % |

## Left out

- `limit`: every builder requires a positive page size. The source reads it from configuration and never validates it.
- Integer widths: `int` and `long` overflow are not modelled. `(int)Math.Ceiling((double)count / limit)` is modelled as the exact ceiling, which it is for 32-bit operands.
- Case mapping: `ToUpper`/`ToUpperInvariant` map only ASCII letters. Culture and non-ASCII case rules are out of the model.
- `decimal`: prices and quantities are exact reals. Decimal rounding, scale and overflow are out of the model.
- Number parsing: `long.TryParse` and `decimal.TryParse` with `NumberStyles.Any` are abstract parameters, so their exact accepted syntax is not modelled.
- JSON and files: serialisation and file reads/writes are abstract index-file states. A failing write of the saved index is not modelled.
- File upload: splitting the uploaded stream into lines (`StreamReader.ReadLineAsync`) is not modelled; the file arrives as a sequence of lines.
- Concurrency: locks, `ConcurrentDictionary`, the thread-safety of `Lazy`, and `Task.WhenAll`'s parallelism are out of the model. Requests are fetched one after the other in plan order.
- `BackgroundRefresh.Execute`: the delay between rounds and cancellation are not modelled. The loop runs over a finite sequence of rounds, each with its own price query.
- Logging: every `ILogger` call is dropped, because no branch depends on it.
- Dictionary order: the enumeration order of `Dictionary` keys is a parameter of the listing, summary and refresh operations.
- Null entries: null symbols inside the symbol lists passed to the price resolver and the refreshes are not modelled; symbols are non-null strings.
- HTTP boundary: controllers, middleware, the HTTP clients, `Program.cs`, `ServiceExtensions.cs` and configuration classes are not part of this model. `HttpStatusCodeException` is reduced to its error kind.
- Plain data: `Models/PortfolioSummary.cs` and the model records are plain datatypes with no behaviour of their own, so they get no row.
- Tests of another version: `CoinProject.Tests/PortfolioServiceTests.cs` exercises a different version of `PortfolioService` (a different constructor and exceptions on invalid files), so it is not replayed. The upload examples follow `Services/PortfolioService.cs`.

## Findings

| source | as written | input that shows it | evidently intended | confidence | as-written member | corrected member |
|---|---|---|---|---|---|---|
| Services/CoinMappingService.cs:35-40 | The call count `(int)Math.Ceiling((double)coinsCount / _limit)` is passed to `Enumerable.Range` unguarded, and a negative count throws ArgumentOutOfRange (`MappingExamples.NegativeCountThrows` exhibits it) | coinsCount = -100 with limit = 100 gives a call count of -1 | A catalogue with no coins yields an empty index, as the current builder guards at CoinLore/Services/CoinMappingService.cs:51-55 | not executed | LegacyMapping.UpdateCoinMapping | CoinLoreMapping.UpdateCoinMapping |
