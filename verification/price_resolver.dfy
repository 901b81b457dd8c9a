/** Price resolution (`Services/CoinPriceService.cs`): look the symbols up in the
    index, ask the price service for the known ids in one call, and read the prices. */
module PriceResolver {
  import opened Wrappers
  import opened Models
  import opened Text

  /** The price service's answer to a `GetTickersByIdsAsync(ids)` call. */
  type TickerSource = seq<string> -> Reply<seq<Option<Ticker>>>

  /** One resolution: the ids sent upstream (`None` when there was no call) and the
      price map returned, or the exception rethrown. */
  datatype Lookup = Lookup(requested: Option<seq<string>>, result: Res<PriceMap>)

  /** The index knows the upper-cased symbol. */
  predicate Known(index: SymbolMap, symbol: string) {
    ToUpper(symbol) in index
  }

  /** The symbols of the input the index knows, in input order. */
  function KnownSymbols(symbols: seq<string>, index: SymbolMap): (r: seq<string>)
    ensures forall s :: s in r <==> s in symbols && Known(index, s)
    ensures forall i :: 0 <= i < |r| ==> Known(index, r[i])
    ensures |r| <= |symbols|
  {
    if symbols == [] then []
    else
      var rest := KnownSymbols(symbols[1..], index);
      assert forall s :: s in symbols <==> s == symbols[0] || s in symbols[1..];
      if Known(index, symbols[0]) then [symbols[0]] + rest else rest
  }

  /** The id list of `GetCurrentPricesAsync`: each symbol is upper-cased and looked
      up, the id printed as text, and the non-null, non-blank texts are kept in order. */
  function RequestedIds(symbols: seq<string>, index: SymbolMap): (ids: seq<string>)
    decreases |symbols|
  {
    if symbols == [] then []
    else
      var key := ToUpper(symbols[0]);
      var id: Option<string> := if key in index then Some(IntText(index[key])) else None;
      var rest := RequestedIds(symbols[1..], index);
      if !IsNullOrBlank(id) then [id.value] + rest else rest
  }

  /** The requested ids are the printed ids of exactly the known symbols, in input
      order: unknown symbols are dropped and nothing else is. */
  lemma {:induction false} RequestedIdsOfKnown(symbols: seq<string>, index: SymbolMap)
    ensures var known := KnownSymbols(symbols, index);
      var ids := RequestedIds(symbols, index);
      && |ids| == |known| <= |symbols|
      && forall i :: 0 <= i < |ids| ==> ids[i] == IntText(index[ToUpper(known[i])])
    decreases |symbols|
  {
    if symbols != [] {
      RequestedIdsOfKnown(symbols[1..], index);
    }
  }

  /** The request preserves input order: the ids of a concatenation are the
      concatenation of the ids. */
  lemma {:induction false} RequestedIdsAppend(a: seq<string>, b: seq<string>, index: SymbolMap)
    ensures RequestedIds(a + b, index) == RequestedIds(a, index) + RequestedIds(b, index)
    decreases |a|
  {
    if a == [] {
      assert a + b == b;
    } else {
      assert (a + b)[0] == a[0];
      assert (a + b)[1..] == a[1..] + b;
      RequestedIdsAppend(a[1..], b, index);
    }
  }

  /** A ticker that yields a price: not null, with a non-blank symbol and price text. */
  predicate Priced(t: Option<Ticker>) {
    t.Some? && !IsNullOrBlank(t.value.symbol) && !IsNullOrBlank(t.value.priceUsd)
  }

  /** The key a priced ticker is stored under. */
  function PriceKey(t: Option<Ticker>): string
    requires Priced(t)
  {
    ToUpper(t.value.symbol.value)
  }

  /** The price a priced ticker records: its parsed price, or 0 when it does not parse. */
  function PriceValue(t: Option<Ticker>, parseDecimal: DecimalParser): real
    requires Priced(t)
  {
    parseDecimal(t.value.priceUsd.value).GetOr(0.0)
  }

  /** `ts[i]` is priced and no later priced ticker has its key, so its write survives. */
  ghost predicate IsLastPriced(ts: seq<Option<Ticker>>, i: int)
    requires 0 <= i < |ts|
  {
    Priced(ts[i]) && forall j :: i < j < |ts| && Priced(ts[j]) ==> PriceKey(ts[j]) != PriceKey(ts[i])
  }

  /** `ProcessTickers`: every priced ticker writes its price under its upper-cased
      symbol, later tickers overwriting earlier ones; the rest are skipped. */
  function ProcessTickers(ts: seq<Option<Ticker>>, parseDecimal: DecimalParser): (prices: PriceMap)
    ensures prices.Keys == set t | t in ts && Priced(t) :: PriceKey(t)
    ensures forall i :: 0 <= i < |ts| && IsLastPriced(ts, i) ==>
      prices[PriceKey(ts[i])] == PriceValue(ts[i], parseDecimal)
    decreases |ts|
  {
    if ts == [] then map[]
    else
      var init := ts[..|ts| - 1];
      var t := ts[|ts| - 1];
      var prices := ProcessTickers(init, parseDecimal);
      LastPricedInInit(ts);
      PricedKeysSnoc(init, t);
      assert ts == init + [t];
      if Priced(t) then prices[PriceKey(t) := PriceValue(t, parseDecimal)] else prices
  }

  /** A ticker whose write survives the whole list survives the list without its last
      element. */
  lemma LastPricedInInit(ts: seq<Option<Ticker>>)
    requires ts != []
    ensures forall i :: 0 <= i < |ts| - 1 && IsLastPriced(ts, i) ==> IsLastPriced(ts[..|ts| - 1], i)
  {
    var init := ts[..|ts| - 1];
    forall i | 0 <= i < |init| && IsLastPriced(ts, i) ensures IsLastPriced(init, i) {
      forall j | i < j < |init| && Priced(init[j]) ensures PriceKey(init[j]) != PriceKey(init[i]) {
        assert init[j] == ts[j];
      }
    }
  }

  /** The keys written by a list with one more ticker at its end. */
  lemma PricedKeysSnoc(init: seq<Option<Ticker>>, t: Option<Ticker>)
    ensures (set u | u in init + [t] && Priced(u) :: PriceKey(u)) ==
      (set u | u in init && Priced(u) :: PriceKey(u)) + (if Priced(t) then {PriceKey(t)} else {})
  {
    assert forall u :: u in init + [t] <==> u in init || u == t;
  }

  /** `GetCurrentPricesAsync`, given the index loader's outcome (a map, a null map, or
      an exception) and the price service. */
  function GetCurrentPrices(symbols: seq<string>, index: Res<Option<SymbolMap>>,
                            fetch: TickerSource, parseDecimal: DecimalParser): (r: Lookup)
    ensures index.Err? ==> r == Lookup(None, Err(index.error))
    ensures index.Ok? && (index.value.None? || |index.value.value| == 0) ==> r == Lookup(None, Ok(map[]))
    ensures index.Ok? && index.value.Some? && RequestedIds(symbols, index.value.value) == [] ==>
      r == Lookup(None, Ok(map[]))
    ensures r.requested.Some? ==>
      && index.Ok? && index.value.Some? && |index.value.value| != 0
      && r.requested.value == RequestedIds(symbols, index.value.value) != []
      && r.result == match fetch(r.requested.value)
                     case Err(e) => Err(e)
                     case Ok(None) => Ok(map[])
                     case Ok(Some(ts)) => Ok(ProcessTickers(ts, parseDecimal))
    ensures r.result.Ok? && r.result.value != map[] ==> r.requested.Some?
    ensures index.Ok? && index.value.Some? && |index.value.value| != 0
            && RequestedIds(symbols, index.value.value) != [] ==>
      r.requested == Some(RequestedIds(symbols, index.value.value))
  {
    match index
    case Err(e) => Lookup(None, Err(e))
    case Ok(None) => Lookup(None, Ok(map[]))
    case Ok(Some(m)) =>
      if |m| == 0 then Lookup(None, Ok(map[]))
      else
        var ids := RequestedIds(symbols, m);
        if |ids| == 0 then Lookup(None, Ok(map[]))
        else
          match fetch(ids)
          case Err(e) => Lookup(Some(ids), Err(e))
          case Ok(None) => Lookup(Some(ids), Ok(map[]))
          case Ok(Some(ts)) => Lookup(Some(ids), Ok(ProcessTickers(ts, parseDecimal)))
  }

  /** No symbol the index knows: no upstream call and an empty result. */
  lemma NoKnownSymbolNoCall(symbols: seq<string>, index: SymbolMap, fetch: TickerSource,
                            parseDecimal: DecimalParser)
    requires forall i :: 0 <= i < |symbols| ==> !Known(index, symbols[i])
    ensures GetCurrentPrices(symbols, Ok(Some(index)), fetch, parseDecimal) == Lookup(None, Ok(map[]))
  {
    NoKnownNoIds(symbols, index);
  }

  lemma {:induction false} NoKnownNoIds(symbols: seq<string>, index: SymbolMap)
    requires forall i :: 0 <= i < |symbols| ==> !Known(index, symbols[i])
    ensures RequestedIds(symbols, index) == []
    decreases |symbols|
  {
    if symbols != [] {
      NoKnownNoIds(symbols[1..], index);
    }
  }
}
