/** Reading a portfolio file and summarising the holdings, on concrete lines. */
module PortfolioExamples {
  import opened Wrappers
  import opened Models
  import opened Text
  import opened Samples
  import opened PortfolioStore
  import opened PortfolioService
  import opened CoinChanges
  import opened Seqs

  /** The number texts of the portfolio examples. */
  const Numbers: DecimalParser := Decimals(map["2.5" := 2.5, "34000.50" := 34000.50, "1" := 1.0, "2000.00" := 2000.0])

  /** What the number texts of the examples read as. */
  lemma NumbersRead()
    ensures Numbers("2.5") == Some(2.5) && Numbers("34000.50") == Some(34000.50)
    ensures Numbers("1") == Some(1.0) && Numbers("2000.00") == Some(2000.0)
  {
    assert |"2.5"| != |"34000.50"| && |"2.5"| != |"1"| && |"2.5"| != |"2000.00"|;
    assert |"34000.50"| != |"1"| && |"34000.50"| != |"2000.00"| && |"1"| != |"2000.00"|;
  }

  /** A line whose coin field has no surrounding white space reads as its numbers
      and its upper-cased coin. */
  lemma ReadTrimmed(q: string, c: string, p: string, parseDecimal: DecimalParser)
    requires Bar !in q && Bar !in c && Bar !in p
    requires parseDecimal(q).Some? && parseDecimal(p).Some?
    requires c != [] && !IsWhiteSpace(c[0]) && !IsWhiteSpace(c[|c| - 1])
    ensures ParseLine(q + [Bar] + c + [Bar] + p, parseDecimal)
      == Some(PortfolioItem(0, parseDecimal(q).value, ToUpper(c), parseDecimal(p).value))
  {
    ParseFields(q, c, p, parseDecimal);
    TrimFixesTrimmed(c);
  }

  /** Upper-casing a lower-case symbol. */
  lemma UpperBtc(c: string)
    requires c == "btc"
    ensures ToUpper(c) == "BTC"
  {
    var u := ToUpper(c);
    assert u[0] == 'B' && u[1] == 'T' && u[2] == 'C';
  }

  /** "2.5|btc|34000.50" is read into an item with id 0 and the coin upper-cased. */
  lemma ReadLine(q: string, c: string, p: string)
    requires q == "2.5" && c == "btc" && p == "34000.50"
    ensures ParseLine(q + "|" + c + "|" + p, Numbers) == Some(PortfolioItem(0, 2.5, "BTC", 34000.50))
  {
    NumbersRead();
    UpperBtc(c);
    assert "|" == [Bar];
    ReadTrimmed(q, c, p, Numbers);
  }

  /** "1|ETH|2000.00" is read as it stands. */
  lemma ReadUpperLine(q: string, c: string, p: string)
    requires q == "1" && c == "ETH" && p == "2000.00"
    ensures ParseLine(q + "|" + c + "|" + p, Numbers) == Some(PortfolioItem(0, 1.0, "ETH", 2000.0))
  {
    NumbersRead();
    assert IsUpperCase(c);
    assert "|" == [Bar];
    ReadTrimmed(q, c, p, Numbers);
  }

  /** A line without the two separators is skipped. */
  lemma SkipLine(line: string)
    requires line == "oops"
    ensures ParseLine(line, Numbers) == None
  {
    assert Bar !in line;
    NoBars(line);
  }

  /** A text without the separator has no fields to split. */
  lemma {:induction false} NoBars(s: string)
    requires Bar !in s
    ensures Occurrences(s, Bar) == 0
  {
    if s != [] {
      assert s[1..] == s[1..] && Bar !in s[1..];
      NoBars(s[1..]);
    }
  }

  /** Filtering three values of which the middle one yields nothing. */
  lemma {:induction false} FilterThree<A, B>(xs: seq<A>, f: A -> Option<B>, a: B, b: B)
    requires |xs| == 3 && f(xs[0]) == Some(a) && f(xs[1]) == None && f(xs[2]) == Some(b)
    ensures FilterMap(xs, f) == [a, b]
  {
    assert xs[1..][1..][1..] == [];
    assert FilterMap(xs[1..][1..], f) == [b];
  }

  /** Two items of different coins upload as two holdings. */
  lemma UploadTwo(s: Store, a: PortfolioItem, b: PortfolioItem)
    requires a.coin != b.coin
    ensures Upload(s, [a, b]) == Store(map[a.coin := a, b.coin := b], s.prices)
  {
    var items := [a, b];
    var s' := Upload(s, items);
    assert IsLastFor(items, 0) && IsLastFor(items, 1);
    assert s'.holdings.Keys == {a.coin, b.coin} by {
      assert forall it :: it in items ==> it == a || it == b;
      assert a in items && b in items;
    }
    TwoKeys(s'.holdings, a.coin, a, b.coin, b);
  }

  /** Three lines of which the middle one is skipped: the store holds the items of
      the other two, each under its own coin, and keeps its prices. */
  lemma UploadSkipsBadLine(s: Store, lines: seq<string>, parseDecimal: DecimalParser, a: PortfolioItem, b: PortfolioItem)
    requires |lines| == 3 && a.coin != b.coin
    requires ParseLine(lines[0], parseDecimal) == Some(a)
    requires ParseLine(lines[1], parseDecimal) == None
    requires ParseLine(lines[2], parseDecimal) == Some(b)
    ensures UploadPortfolio(s, lines, parseDecimal) == Store(map[a.coin := a, b.coin := b], s.prices)
  {
    FilterThree(lines, Reader(parseDecimal), a, b);
    UploadTwo(s, a, b);
  }

  /** The file "2.5|btc|34000.50", "oops", "1|ETH|2000.00" uploads as two holdings. */
  lemma UploadFile(s: Store, q1: string, c1: string, p1: string, bad: string, q2: string, c2: string, p2: string)
    requires q1 == "2.5" && c1 == "btc" && p1 == "34000.50" && bad == "oops"
    requires q2 == "1" && c2 == "ETH" && p2 == "2000.00"
    ensures UploadPortfolio(s, [q1 + "|" + c1 + "|" + p1, bad, q2 + "|" + c2 + "|" + p2], Numbers)
      == Store(map["BTC" := PortfolioItem(0, 2.5, "BTC", 34000.50), "ETH" := PortfolioItem(0, 1.0, "ETH", 2000.0)], s.prices)
  {
    ReadLine(q1, c1, p1);
    SkipLine(bad);
    ReadUpperLine(q2, c2, p2);
    assert "BTC" != "ETH" by { assert "BTC"[0] != "ETH"[0]; }
    UploadSkipsBadLine(s, [q1 + "|" + c1 + "|" + p1, bad, q2 + "|" + c2 + "|" + p2], Numbers,
                       PortfolioItem(0, 2.5, "BTC", 34000.50), PortfolioItem(0, 1.0, "ETH", 2000.0));
  }

  /** A single holding of 2.5 BTC bought at 34000.50 and now quoted at 35000. */
  const OneBtc: Store := Store(map["BTC" := PortfolioItem(0, 2.5, "BTC", 34000.50)], map["BTC" := 35000.0])

  /** The summary of one holding: its entry is valued at the stored price, the totals
      are 85001.25 and 87500, and the value rose by a little under 2.94%. */
  lemma SummaryOfOneHolding()
    ensures Enumerates(["BTC"], OneBtc.holdings.Keys)
    ensures var r := GetPortfolioSummary(OneBtc, ["BTC"]);
      && r.Ok?
      && r.value.coinChanges == [CoinChange("BTC", 2.5, 34000.50, 35000.0)]
      && r.value.initialValue == 85001.25
      && r.value.currentValue == 87500.0
      && 2.93 < r.value.overallChangePercentage < 2.94
  {
    var r := GetPortfolioSummary(OneBtc, ["BTC"]);
    var entry := CoinChange("BTC", 2.5, 34000.50, 35000.0);
    assert r.value.coinChanges == [entry];
    assert r.value.coinChanges[1..] == [];
    assert r.value.initialValue == 85001.25;
    assert r.value.currentValue == 87500.0;
    var p := r.value.overallChangePercentage;
    assert p * 85001.25 == 2498.75 * 100.0;
  }

  /** An empty portfolio has no summary: the request is refused. */
  lemma EmptySummary(prices: PriceMap)
    ensures Enumerates([], Store(map[], prices).holdings.Keys)
    ensures GetPortfolioSummary(Store(map[], prices), []) == Err(PortfolioEmpty)
  {
  }
}
