/** `Services/PriceUpdateBackgroundService.cs`: the periodic refresh loop and its own,
    stricter-typed but less guarded, refresh step. */
module BackgroundRefresh {
  import opened Wrappers
  import opened Models
  import opened PortfolioStore
  import opened PriceUpdate

  /** What the periodic refresh writes for a held coin: the quoted price whatever its
      sign, and 0 for a coin the reply does not quote. */
  function Quote(prices: PriceMap): string -> Option<real> {
    c => Some(if c in prices then prices[c] else 0.0)
  }

  /** The refresh step fails, whatever the store holds, when the query throws or
      returns null: looking a price up in a null dictionary throws. */
  predicate Fails(order: seq<string>, query: PriceQuery) {
    order != [] && (query(order).Err? || query(order) == Ok(None))
  }

  /** The private `UpdatePricesAsync`. Nothing held: no query. The query throws: the
      exception escapes with nothing written. A null reply: a null-reference failure
      with nothing written. Otherwise every held coin gets its quoted price, negative
      ones included, or 0 when not quoted (every held coin when the reply is empty). */
  function Refresh(s: Store, order: seq<string>, query: PriceQuery): (t: Tick)
    requires Enumerates(order, s.holdings.Keys)
    ensures t.store.holdings == s.holdings
    ensures t.queried.None? <==> s.holdings == map[]
    ensures t.queried.Some? ==> t.queried.value == order
    ensures t.outcome.Fail? <==> Fails(order, query)
    ensures t.outcome.Fail? ==> t.store == s
    ensures t.outcome.Fail? && query(order).Err? ==> t.outcome.error == query(order).error
    ensures t.outcome.Fail? && query(order).Ok? ==> t.outcome.error == NullReference
    ensures forall c :: c !in s.holdings ==> CurrentPrice(t.store, c) == CurrentPrice(s, c)
    ensures t.queried.Some? && query(order).Ok? && query(order).value.Some? ==>
      var prices := query(order).value.value;
      forall c :: c in s.holdings ==> CurrentPrice(t.store, c) == if c in prices then prices[c] else 0.0
  {
    if order == [] then
      assert s.holdings.Keys == {};
      Tick(s, None, Pass)
    else
      assert order[0] in s.holdings;
      match query(order)
      case Err(e) => Tick(s, Some(order), Fail(e))
      case Ok(None) => Tick(s, Some(order), Fail(NullReference))
      case Ok(Some(prices)) =>
        WriteEachOverlays(s, order, Quote(prices));
        Tick(WriteEach(s, order, Quote(prices)), Some(order), Pass)
  }

  /** The store after the refreshes that answer `queries`, in turn. */
  function Refreshes(s: Store, order: seq<string>, queries: seq<PriceQuery>): (s': Store)
    requires Enumerates(order, s.holdings.Keys)
    ensures s'.holdings == s.holdings
    decreases |queries|
  {
    if queries == [] then s
    else Refresh(Refreshes(s, order, queries[..|queries| - 1]), order, queries[|queries| - 1]).store
  }

  /** How many of the refreshes fail. */
  function FailureCount(order: seq<string>, queries: seq<PriceQuery>): nat
    decreases |queries|
  {
    if queries == [] then 0
    else FailureCount(order, queries[..|queries| - 1]) + (if Fails(order, queries[|queries| - 1]) then 1 else 0)
  }

  /** `ExecuteAsync` until cancellation, with one price query per round: a failing round
      is logged and swallowed, so every round runs, the holdings never change, and the
      store ends as the rounds in turn leave it. */
  method Execute(s: Store, order: seq<string>, queries: seq<PriceQuery>) returns (final: Store, failures: nat)
    requires Enumerates(order, s.holdings.Keys)
    ensures final.holdings == s.holdings
    ensures final == Refreshes(s, order, queries)
    ensures failures == FailureCount(order, queries)
    ensures failures <= |queries|
  {
    final := s;
    failures := 0;
    var round := 0;
    while round < |queries|
      invariant 0 <= round <= |queries|
      invariant final.holdings == s.holdings
      invariant final == Refreshes(s, order, queries[..round])
      invariant failures == FailureCount(order, queries[..round])
      invariant failures <= round
    {
      assert queries[..round + 1][..round] == queries[..round];
      var tick := Refresh(final, order, queries[round]);
      final := tick.store;
      if tick.outcome.Fail? {
        failures := failures + 1;
      }
      round := round + 1;
    }
    assert queries[..round] == queries;
  }

  /** A failing round leaves the store exactly as it was. */
  lemma FailedRoundChangesNothing(s: Store, order: seq<string>, queries: seq<PriceQuery>, query: PriceQuery)
    requires Enumerates(order, s.holdings.Keys)
    requires Fails(order, query)
    ensures Refreshes(s, order, queries + [query]) == Refreshes(s, order, queries)
  {
    assert (queries + [query])[..|queries|] == queries;
  }

  /** After a round whose reply is a dictionary, each held coin carries that round's
      quote, or 0, whatever the earlier rounds wrote. */
  lemma LastReplyDecides(s: Store, order: seq<string>, queries: seq<PriceQuery>, query: PriceQuery, c: string)
    requires Enumerates(order, s.holdings.Keys)
    requires query(order).Ok? && query(order).value.Some?
    requires c in s.holdings
    ensures var prices := query(order).value.value;
            CurrentPrice(Refreshes(s, order, queries + [query]), c) == if c in prices then prices[c] else 0.0
  {
    assert (queries + [query])[..|queries|] == queries;
  }
}
