/** Concrete stand-ins shared by the examples: number parsers for plain decimal
    text and ticker builders. */
module Samples {
  import opened Wrappers
  import opened Models
  import opened Text
  import TickerGroups
  import CoinLoreMapping

  /** The value of a run of decimal digits. */
  function DigitsValue(s: string): nat
    requires forall i :: 0 <= i < |s| ==> '0' <= s[i] <= '9'
    decreases |s|
  {
    if s == [] then 0 else DigitsValue(s[..|s| - 1]) * 10 + (s[|s| - 1] as int - '0' as int)
  }

  /** A `long.TryParse` for plain unsigned decimal text. */
  function ParseDigits(s: string): (r: Option<int>)
    ensures r.Some? ==> r.value >= 0
  {
    if s != [] && forall i :: 0 <= i < |s| ==> '0' <= s[i] <= '9' then Some(DigitsValue(s)) else None
  }

  /** A `decimal.TryParse` that knows the given texts and rejects all others. */
  function Decimals(known: map<string, real>): DecimalParser {
    s => if s in known then Some(known[s]) else None
  }

  function Coin(symbol: string, id: string): Option<Ticker> {
    Some(Ticker(Some(id), Some(symbol), None))
  }

  function PriceTicker(symbol: string, price: string): Option<Ticker> {
    Some(Ticker(None, Some(symbol), Some(price)))
  }

  /** Upper-case letters only. */
  predicate Letters(s: string) {
    |s| > 0 && forall i :: 0 <= i < |s| ==> 'A' <= s[i] <= 'Z'
  }

  /** The symbols the examples use are letters only. */
  lemma KnownLetters()
    ensures Letters("BTC") && Letters("ETH")
  {
  }

  /** A ticker with a letters-only symbol and a one-digit id is usable, keyed by its
      symbol, and its id parses. */
  lemma PlainCoin(symbol: string, id: string)
    requires Letters(symbol) && |id| == 1 && '0' <= id[0] <= '9'
    ensures CoinLoreMapping.Usable(Coin(symbol, id).value)
    ensures TickerGroups.SymbolKey(Coin(symbol, id).value) == symbol
    ensures ParseDigits(id) == Some(id[0] as int - '0' as int)
  {
    assert !IsWhiteSpace(symbol[0]) && !IsWhiteSpace(id[0]);
    assert forall i :: 0 <= i < |id| ==> '0' <= id[i] <= '9';
    assert id[..0] == [];
    assert DigitsValue(id) == DigitsValue(id[..0]) * 10 + (id[0] as int - '0' as int);
  }

  /** A map is determined by its keys and what it holds under them. */
  lemma TwoKeys<V>(m: map<string, V>, k1: string, v1: V, k2: string, v2: V)
    requires m.Keys == {k1, k2} && k1 != k2 && m[k1] == v1 && m[k2] == v2
    ensures m == map[k1 := v1, k2 := v2]
  {
    var expected := map[k1 := v1, k2 := v2];
    assert m.Keys == expected.Keys;
    assert forall k :: k in m ==> m[k] == expected[k];
  }

  /** `coins` are plain coins built from `symbols` and `ids`, the symbols starting
      with different letters. */
  predicate PlainCoins(coins: seq<Option<Ticker>>, symbols: seq<string>, ids: seq<string>) {
    && |coins| == |symbols| == |ids|
    && (forall i :: 0 <= i < |coins| ==> coins[i] == Coin(symbols[i], ids[i]))
    && (forall i :: 0 <= i < |symbols| ==> Letters(symbols[i]) && |ids[i]| == 1 && '0' <= ids[i][0] <= '9')
    && (forall i, j :: 0 <= i < j < |symbols| ==> symbols[i] != [] && symbols[j] != [] && symbols[i][0] != symbols[j][0])
  }

  /** A catalogue of plain coins is well formed, and each coin is keyed by its symbol. */
  lemma PlainCatalogue(coins: seq<Option<Ticker>>, symbols: seq<string>, ids: seq<string>)
    requires PlainCoins(coins, symbols, ids)
    ensures CoinLoreMapping.WellFormed(coins, ParseDigits)
    ensures forall i :: 0 <= i < |coins| ==> TickerGroups.SymbolKey(coins[i].value) == symbols[i]
    ensures (set t | t in coins :: TickerGroups.SymbolKey(t.value)) == set s | s in symbols
  {
    forall i | 0 <= i < |coins|
      ensures CoinLoreMapping.Usable(coins[i].value) && ParseDigits(coins[i].value.id.value).Some?
      ensures TickerGroups.SymbolKey(coins[i].value) == symbols[i]
    {
      PlainCoin(symbols[i], ids[i]);
    }
    var keys := set t | t in coins :: TickerGroups.SymbolKey(t.value);
    forall k | k in keys ensures k in symbols {
      var t :| t in coins && TickerGroups.SymbolKey(t.value) == k;
      var i :| 0 <= i < |coins| && coins[i] == t;
    }
    forall k | k in symbols ensures k in keys {
      var i :| 0 <= i < |symbols| && symbols[i] == k;
      assert coins[i] in coins;
    }
  }

  /** An index of a plain catalogue that keys every coin to its parsed id holds, under
      each symbol, the digit of its id. */
  lemma PlainIndex(m: map<string, int>, coins: seq<Option<Ticker>>, symbols: seq<string>, ids: seq<string>)
    requires PlainCoins(coins, symbols, ids)
    requires m.Keys == (set t | t in coins :: TickerGroups.SymbolKey(t.value))
    requires forall t :: t in coins ==> t.Some? && t.value.id.Some? && ParseDigits(t.value.id.value).Some?
    requires forall t :: t in coins ==> m[TickerGroups.SymbolKey(t.value)] == ParseDigits(t.value.id.value).value
    ensures m.Keys == set s | s in symbols
    ensures forall i :: 0 <= i < |symbols| ==> m[symbols[i]] == ids[i][0] as int - '0' as int
  {
    PlainCatalogue(coins, symbols, ids);
    forall i | 0 <= i < |symbols| ensures m[symbols[i]] == ids[i][0] as int - '0' as int {
      PlainCoin(symbols[i], ids[i]);
      assert coins[i] in coins;
    }
  }
}
