/** The current index builder (`CoinLore/Services/CoinMappingService.cs`): fetch the
    catalogue size, fetch every page, keep one id per upper-cased symbol, save. */
module CoinLoreMapping {
  import opened Wrappers
  import opened Models
  import opened Text
  import opened Paging
  import opened TickerGroups

  /** The filter `!IsNullOrWhiteSpace(coin.Symbol) && !IsNullOrWhiteSpace(coin.Id)`. */
  predicate Usable(t: Ticker) {
    !IsNullOrBlank(t.symbol) && !IsNullOrBlank(t.id)
  }

  /** No ticker of the list is null. */
  predicate NoNulls(ts: seq<Option<Ticker>>) {
    forall i :: 0 <= i < |ts| ==> ts[i].Some?
  }

  function Unwrap(ts: seq<Option<Ticker>>): (r: seq<Ticker>)
    requires NoNulls(ts)
    ensures |r| == |ts| && forall i :: 0 <= i < |ts| ==> r[i] == ts[i].value
  {
    seq(|ts|, i requires 0 <= i < |ts| => ts[i].value)
  }

  /** The merge of the fetched tickers: a null ticker throws; otherwise every usable
      ticker's upper-cased symbol becomes a key, holding the id of the first usable
      ticker with that key, or 0 when that id is not a number. */
  function Merge(coins: seq<Option<Ticker>>, parseLong: LongParser): (r: Res<SymbolMap>)
    ensures r.Err? <==> !NoNulls(coins)
    ensures r.Err? ==> r.error == NullReference
    ensures r.Ok? ==> r.value.Keys == KeySet(Unwrap(coins), Usable)
    ensures r.Ok? ==> forall i :: 0 <= i < |coins| && IsFirstKept(Unwrap(coins), Usable, i) ==>
      r.value[SymbolKey(coins[i].value)] == IdOrZero(parseLong, coins[i].value)
  {
    if !NoNulls(coins) then Err(NullReference)
    else
      var ts := Unwrap(coins);
      var reps := Firsts(ts, Usable);
      var m := ToMap(reps, t => IdOrZero(parseLong, t));
      assert forall i :: 0 <= i < |ts| && IsFirstKept(ts, Usable, i) ==> ts[i] in reps;
      Ok(m)
  }

  /** `FetchAndProcessCoinsAsync`: the page requests made and the merged map. */
  function FetchAndProcess(count: int, limit: int, source: PageSource, parseLong: LongParser)
    : (r: (seq<PageRequest>, Res<SymbolMap>))
    requires limit > 0
    ensures count <= 0 ==> r == ([], Ok(map[]))
    ensures count > 0 ==> r.0 == Plan(CallCount(count, limit), limit)
    ensures count > 0 ==> forall i :: FirstFailure(source, r.0, i) ==> r.1 == Err(source(r.0[i]).error)
    ensures count > 0 && (forall i :: 0 <= i < |r.0| ==> source(r.0[i]).Ok?) ==>
      r.1 == Merge(Returned(source, r.0), parseLong)
  {
    if count <= 0 then ([], Ok(map[]))
    else
      var plan := Plan(CallCount(count, limit), limit);
      match FetchAll(source, plan)
      case Err(e) =>
        AbortsOnFirstFailure(source, plan);
        (plan, Err(e))
      case Ok(pages) =>
        FetchAllReturns(source, plan);
        (plan, Merge(Flatten(pages), parseLong))
  }

  /** `UpdateCoinMappingAsync`: rebuild the index and overwrite the file with it.
      Every failure is rethrown and leaves the file as it was. */
  function UpdateCoinMapping(file: IndexFile, global: Reply<GlobalData>, limit: int,
                             source: PageSource, parseLong: LongParser): (run: Rebuild)
    requires limit > 0
    ensures run.outcome.Fail? ==> run.file == file
    ensures run.outcome.Pass? ==> run.file.Valid?
    ensures global.Err? ==> run == Rebuild([], file, Fail(global.error))
    ensures global == Ok(None) ==> run == Rebuild([], file, Fail(GlobalDataMissing))
    ensures global.Ok? && global.value.Some? && global.value.value.coinsCount <= 0 ==>
      run == Rebuild([], Valid(map[]), Pass)
    ensures global.Ok? && global.value.Some? && global.value.value.coinsCount > 0 ==>
      run.requests == Plan(CallCount(global.value.value.coinsCount, limit), limit)
    ensures global.Ok? && global.value.Some? && global.value.value.coinsCount > 0 ==>
      var plan := Plan(CallCount(global.value.value.coinsCount, limit), limit);
      forall i :: FirstFailure(source, plan, i) ==> run == Rebuild(plan, file, Fail(source(plan[i]).error))
    ensures global.Ok? && global.value.Some? && global.value.value.coinsCount > 0 ==>
      var plan := Plan(CallCount(global.value.value.coinsCount, limit), limit);
      var merged := Merge(Returned(source, plan), parseLong);
      (forall i :: 0 <= i < |plan| ==> source(plan[i]).Ok?) ==>
        && (merged.Err? ==> run == Rebuild(plan, file, Fail(merged.error)))
        && (merged.Ok? ==> run == Rebuild(plan, Valid(merged.value), Pass))
  {
    match global
    case Err(e) => Rebuild([], file, Fail(e))
    case Ok(None) => Rebuild([], file, Fail(GlobalDataMissing))
    case Ok(Some(g)) =>
      var (requests, merged) := FetchAndProcess(g.coinsCount, limit, source, parseLong);
      match merged
      case Err(e) => Rebuild(requests, file, Fail(e))
      case Ok(m) => Rebuild(requests, Valid(m), Pass)
  }

  /** A catalogue both builders read without an exception: no null ticker, every
      symbol and id present and not blank, and every id a number. */
  predicate Readable(coins: seq<Option<Ticker>>, parseLong: LongParser) {
    && NoNulls(coins)
    && forall i :: 0 <= i < |coins| ==>
         Usable(coins[i].value) && parseLong(coins[i].value.id.value).Some?
  }

  /** A catalogue without surprises: readable, and no upper-cased symbol listed twice. */
  predicate WellFormed(coins: seq<Option<Ticker>>, parseLong: LongParser) {
    && Readable(coins, parseLong)
    && (forall i, j :: 0 <= i < j < |coins| ==>
          SymbolKey(coins[i].value) != SymbolKey(coins[j].value))
  }

  /** On a well-formed list the merge is exactly the union of symbol -> id. */
  lemma {:induction false} MergeWellFormed(coins: seq<Option<Ticker>>, parseLong: LongParser)
    requires WellFormed(coins, parseLong)
    ensures Merge(coins, parseLong).Ok?
    ensures Merge(coins, parseLong).value.Keys == (set t | t in coins :: SymbolKey(t.value))
    ensures forall t :: t in coins ==>
      Merge(coins, parseLong).value[SymbolKey(t.value)] == parseLong(t.value.id.value).value
  {
    var r := Merge(coins, parseLong);
    var ts := Unwrap(coins);
    MergeKeys(coins, ts);
    forall t | t in coins
      ensures r.value[SymbolKey(t.value)] == parseLong(t.value.id.value).value
    {
      var i :| 0 <= i < |coins| && coins[i] == t;
      assert IsFirstKept(ts, Usable, i);
    }
  }

  lemma MergeKeys(coins: seq<Option<Ticker>>, ts: seq<Ticker>)
    requires NoNulls(coins) && ts == Unwrap(coins)
    requires forall i :: 0 <= i < |coins| ==> Usable(coins[i].value)
    ensures KeySet(ts, Usable) == (set t | t in coins :: SymbolKey(t.value))
  {
    forall k ensures k in KeySet(ts, Usable) <==> k in (set t | t in coins :: SymbolKey(t.value)) {
      if k in KeySet(ts, Usable) {
        var t :| t in ts && Usable(t) && SymbolKey(t) == k;
        var i :| 0 <= i < |ts| && ts[i] == t;
        assert coins[i] in coins;
      }
      if k in (set t | t in coins :: SymbolKey(t.value)) {
        var t :| t in coins && SymbolKey(t.value) == k;
        var i :| 0 <= i < |coins| && coins[i] == t;
        assert ts[i] in ts;
      }
    }
  }

  /** On a well-formed catalogue the saved index is exactly the union of
      symbol -> id over all pages. */
  lemma {:induction false} RebuildSavesUnion(file: IndexFile, count: int, limit: int,
                                             source: PageSource, parseLong: LongParser)
    requires count > 0 && limit > 0
    requires var plan := Plan(CallCount(count, limit), limit);
      && (forall i :: 0 <= i < |plan| ==> source(plan[i]).Ok?)
      && WellFormed(Returned(source, plan), parseLong)
    ensures var plan := Plan(CallCount(count, limit), limit);
      var coins := Returned(source, plan);
      var run := UpdateCoinMapping(file, Ok(Some(GlobalData(count))), limit, source, parseLong);
      && run.outcome == Pass
      && run.file.Valid?
      && run.file.contents.Keys == (set t | t in coins :: SymbolKey(t.value))
      && forall t :: t in coins ==> run.file.contents[SymbolKey(t.value)] == parseLong(t.value.id.value).value
  {
    var plan := Plan(CallCount(count, limit), limit);
    MergeWellFormed(Returned(source, plan), parseLong);
  }
}
