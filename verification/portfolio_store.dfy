/** The in-memory store (`Services/InMemoryPortfolioRepository.cs`): holdings keyed by
    coin, replaced wholesale on upload, and current prices keyed by coin, written
    independently of the holdings. */
module PortfolioStore {
  import opened Wrappers
  import opened Models

  /** The two dictionaries of the repository. */
  datatype Store = Store(holdings: map<string, PortfolioItem>, prices: PriceMap)

  /** A fresh repository. */
  const Empty: Store := Store(map[], map[])

  /** Every holding is filed under its own coin. */
  predicate Consistent(s: Store) {
    forall c :: c in s.holdings ==> s.holdings[c].coin == c
  }

  /** `order` lists every key of `keys` exactly once: the order in which a dictionary
      enumerates its keys, which the dictionary does not promise. */
  predicate Enumerates(order: seq<string>, keys: set<string>) {
    && (forall i, j :: 0 <= i < j < |order| ==> order[i] != order[j])
    && (forall c :: c in order ==> c in keys)
    && (forall c :: c in keys ==> c in order)
  }

  /** `items[i]` is the last item for its coin. */
  ghost predicate IsLastFor(items: seq<PortfolioItem>, i: int)
    requires 0 <= i < |items|
  {
    forall j :: i < j < |items| ==> items[j].coin != items[i].coin
  }

  /** The loop `_portfolioItems[item.Coin] = item` over an emptied dictionary. */
  function Install(items: seq<PortfolioItem>): (h: map<string, PortfolioItem>)
    ensures h.Keys == set it | it in items :: it.coin
    ensures forall i :: 0 <= i < |items| && IsLastFor(items, i) ==> h[items[i].coin] == items[i]
    ensures forall c :: c in h ==> h[c].coin == c
    decreases |items|
  {
    if items == [] then map[]
    else
      var init := items[..|items| - 1];
      var last := items[|items| - 1];
      assert items == init + [last];
      assert forall i :: 0 <= i < |init| && IsLastFor(items, i) ==> IsLastFor(init, i) by {
        forall i | 0 <= i < |init| && IsLastFor(items, i) ensures IsLastFor(init, i) {
          forall j | i < j < |init| ensures init[j].coin != init[i].coin {
            assert init[j] == items[j];
          }
        }
      }
      Install(init)[last.coin := last]
  }

  /** `UploadPortfolioAsync`: the holdings become exactly the items, the last item of a
      repeated coin winning; all earlier holdings are gone and prices are untouched. */
  function Upload(s: Store, items: seq<PortfolioItem>): (s': Store)
    ensures s'.prices == s.prices
    ensures s'.holdings.Keys == set it | it in items :: it.coin
    ensures forall i :: 0 <= i < |items| && IsLastFor(items, i) ==> s'.holdings[items[i].coin] == items[i]
    ensures Consistent(s')
  {
    Store(Install(items), s.prices)
  }

  /** `GetPortfolioItemsAsync`, the holdings listed in dictionary order: one item per
      held coin. */
  function Items(s: Store, order: seq<string>): (items: seq<PortfolioItem>)
    requires Enumerates(order, s.holdings.Keys)
    ensures |items| == |order|
    ensures forall i :: 0 <= i < |order| ==> items[i] == s.holdings[order[i]]
    ensures forall it :: it in items <==> it in s.holdings.Values
    ensures Consistent(s) ==> forall i :: 0 <= i < |order| ==> items[i].coin == order[i]
  {
    var items := seq(|order|, i requires 0 <= i < |order| => s.holdings[order[i]]);
    assert forall it :: it in s.holdings.Values ==> it in items by {
      forall it | it in s.holdings.Values ensures it in items {
        var c :| c in s.holdings && s.holdings[c] == it;
        var i :| 0 <= i < |order| && order[i] == c;
        assert items[i] == it;
      }
    }
    items
  }

  /** `GetCurrentPrice`: the stored price, or 0 for a coin never priced. */
  function CurrentPrice(s: Store, coin: string): real {
    if coin in s.prices then s.prices[coin] else 0.0
  }

  /** `UpdateCurrentPrice`: only this coin's price changes, held or not, and the
      holdings stay as they are. */
  function UpdateCurrentPrice(s: Store, coin: string, price: real): (s': Store)
    ensures s'.holdings == s.holdings
    ensures CurrentPrice(s', coin) == price
    ensures forall c :: c != coin ==> CurrentPrice(s', c) == CurrentPrice(s, c)
    ensures s'.prices.Keys == s.prices.Keys + {coin}
  {
    Store(s.holdings, s.prices[coin := price])
  }

  /** A fresh store reads every price as 0, and an upload never changes a price. */
  lemma PricesSurviveUpload(s: Store, items: seq<PortfolioItem>, coin: string)
    ensures CurrentPrice(Empty, coin) == 0.0
    ensures CurrentPrice(Upload(s, items), coin) == CurrentPrice(s, coin)
  {
  }

  /** The per-symbol write loop of a price refresh: for each symbol in `order`,
      `decide` says which price to write, or `None` to leave it. */
  function WriteEach(s: Store, order: seq<string>, decide: string -> Option<real>): Store
    decreases |order|
  {
    if order == [] then s
    else
      var next := match decide(order[0])
        case Some(p) => UpdateCurrentPrice(s, order[0], p)
        case None => s;
      WriteEach(next, order[1..], decide)
  }

  /** The prices `decide` writes for the symbols of `order`. */
  function Decided(order: seq<string>, decide: string -> Option<real>): PriceMap {
    map c | c in order && decide(c).Some? :: decide(c).value
  }

  /** The write loop is order-independent: it overlays the decided prices on the old
      ones and leaves the holdings alone, whatever the order of the symbols. */
  lemma {:induction false} WriteEachOverlays(s: Store, order: seq<string>, decide: string -> Option<real>)
    ensures WriteEach(s, order, decide) == Store(s.holdings, s.prices + Decided(order, decide))
    decreases |order|
  {
    if order == [] {
      assert Decided(order, decide) == map[];
      assert s.prices + map[] == s.prices;
    } else {
      var next := match decide(order[0])
        case Some(p) => UpdateCurrentPrice(s, order[0], p)
        case None => s;
      WriteEachOverlays(next, order[1..], decide);
      assert next.prices == Written(s.prices, order[0], decide);
      OverlayStep(s.prices, order, decide);
    }
  }

  /** The prices after writing what `decide` says for one symbol. */
  function Written(prices: PriceMap, c: string, decide: string -> Option<real>): PriceMap {
    match decide(c)
    case Some(p) => prices[c := p]
    case None => prices
  }

  /** Writing the first symbol and then overlaying the rest overlays them all. */
  lemma OverlayStep(prices: PriceMap, order: seq<string>, decide: string -> Option<real>)
    requires order != []
    ensures Written(prices, order[0], decide) + Decided(order[1..], decide) == prices + Decided(order, decide)
  {
    var c0 := order[0];
    var lhs := Written(prices, c0, decide) + Decided(order[1..], decide);
    var rhs := prices + Decided(order, decide);
    assert forall c :: c in order <==> c == c0 || c in order[1..];
    assert lhs.Keys == rhs.Keys;
    forall c | c in lhs ensures lhs[c] == rhs[c] {
      if c in order && decide(c).Some? {
        assert rhs[c] == decide(c).value;
      }
    }
  }
}
