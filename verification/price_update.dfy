/** `Services/PriceUpdateService.cs`: one on-demand refresh of the stored prices of the
    held coins. */
module PriceUpdate {
  import opened Wrappers
  import opened Models
  import opened PortfolioStore

  /** The price service as the refresh sees it (`ICoinPriceService`): it may throw,
      return null, or return a dictionary. */
  type PriceQuery = seq<string> -> Reply<PriceMap>

  /** One refresh: the store afterwards, the symbols the price service was asked
      for (if it was asked), and whether the refresh threw. */
  datatype Tick = Tick(store: Store, queried: Option<seq<string>>, outcome: Outcome<Error>)

  /** What the refresh writes for a held coin: a non-negative quoted price, nothing
      for a negative one, and 0 for a coin the reply does not quote. */
  function Decide(prices: PriceMap): string -> Option<real> {
    c => if c in prices then (if prices[c] < 0.0 then None else Some(prices[c])) else Some(0.0)
  }

  /** `UpdatePricesAsync`, with `order` the order in which `GetAllSymbols` lists the held
      coins. Nothing held: no query. The query throws: rethrown, nothing written. Null
      or empty reply: nothing written. Otherwise every held coin gets its quoted price,
      keeps its old one when the quote is negative, and gets 0 when not quoted; coins
      not held and the holdings are never touched. */
  function UpdatePrices(s: Store, order: seq<string>, query: PriceQuery): (t: Tick)
    requires Enumerates(order, s.holdings.Keys)
    ensures t.store.holdings == s.holdings
    ensures t.queried.None? <==> s.holdings == map[]
    ensures t.queried.Some? ==> t.queried.value == order
    ensures t.outcome.Fail? <==> t.queried.Some? && query(order).Err?
    ensures t.outcome.Fail? ==> t.outcome.error == query(order).error && t.store == s
    ensures t.queried.None? || query(order) == Ok(None) || query(order) == Ok(Some(map[])) ==> t.store == s
    ensures forall c :: c !in s.holdings ==> CurrentPrice(t.store, c) == CurrentPrice(s, c)
    ensures t.queried.Some? && query(order).Ok? && query(order).value.Some? ==>
      var prices := query(order).value.value;
      forall c :: c in s.holdings ==>
        CurrentPrice(t.store, c) ==
          if prices == map[] then CurrentPrice(s, c)
          else if c !in prices then 0.0
          else if prices[c] < 0.0 then CurrentPrice(s, c)
          else prices[c]
  {
    if order == [] then
      assert s.holdings.Keys == {};
      Tick(s, None, Pass)
    else
      assert order[0] in s.holdings;
      match query(order)
      case Err(e) => Tick(s, Some(order), Fail(e))
      case Ok(None) => Tick(s, Some(order), Pass)
      case Ok(Some(prices)) =>
        if |prices| == 0 then
          assert prices == map[];
          Tick(s, Some(order), Pass)
        else
          WriteEachOverlays(s, order, Decide(prices));
          Tick(WriteEach(s, order, Decide(prices)), Some(order), Pass)
  }

  /** A refresh depends on the held coins, not on the order they are listed in. */
  lemma UpdateOrderIndependent(s: Store, o1: seq<string>, o2: seq<string>, query: PriceQuery)
    requires Enumerates(o1, s.holdings.Keys) && Enumerates(o2, s.holdings.Keys)
    requires query(o1) == query(o2)
    ensures UpdatePrices(s, o1, query).store == UpdatePrices(s, o2, query).store
    ensures UpdatePrices(s, o1, query).outcome == UpdatePrices(s, o2, query).outcome
  {
    var t1 := UpdatePrices(s, o1, query);
    var t2 := UpdatePrices(s, o2, query);
    assert t1.store.holdings == t2.store.holdings;
    assert t1.store.prices.Keys == t2.store.prices.Keys by {
      forall c ensures c in t1.store.prices <==> c in t2.store.prices {
        PricedKeys(s, o1, query, c);
        PricedKeys(s, o2, query, c);
      }
    }
    forall c | c in t1.store.prices ensures t1.store.prices[c] == t2.store.prices[c] {
      assert CurrentPrice(t1.store, c) == CurrentPrice(t2.store, c);
    }
    assert t1.store.prices == t2.store.prices;
  }

  /** After a refresh a coin has a stored price when it had one before, or when it is
      held and the reply was a non-empty dictionary that does not quote it negative. */
  lemma PricedKeys(s: Store, order: seq<string>, query: PriceQuery, c: string)
    requires Enumerates(order, s.holdings.Keys)
    ensures c in UpdatePrices(s, order, query).store.prices <==>
      || c in s.prices
      || (&& c in s.holdings
          && query(order).Ok? && query(order).value.Some? && query(order).value.value != map[]
          && Decide(query(order).value.value)(c).Some?)
  {
    if order != [] && query(order).Ok? && query(order).value.Some? && query(order).value.value != map[] {
      var prices := query(order).value.value;
      assert |prices| != 0;
      WriteEachOverlays(s, order, Decide(prices));
    }
  }
}
