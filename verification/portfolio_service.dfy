/** `Services/PortfolioService.cs`: reading an uploaded portfolio file line by line,
    and valuing the holdings against the latest prices. */
module PortfolioService {
  import opened Wrappers
  import opened Models
  import opened Text
  import opened Seqs
  import opened CoinChanges
  import opened PortfolioStore

  /** The field separator of a portfolio line. */
  const Bar: char := '|'

  /** `line` is the bar-free fields `q`, `c` and `p` joined by bars, and `item` is
      what they read as: both numbers parse to its quantity and initial price, and its
      coin is `c` trimmed and upper-cased. */
  predicate ReadsAs(line: string, q: string, c: string, p: string, item: PortfolioItem, parseDecimal: DecimalParser) {
    && Bar !in q && Bar !in c && Bar !in p
    && line == q + [Bar] + c + [Bar] + p
    && parseDecimal(q) == Some(item.quantity)
    && parseDecimal(p) == Some(item.initialPrice)
    && item.coin == ToUpper(Trim(c))
  }

  /** One line of the file, `quantity|coin|initialPrice`. Blank lines, lines without
      exactly three fields and lines whose quantity or price does not parse are
      skipped (`None`); otherwise the coin is trimmed and upper-cased. */
  function ParseLine(line: string, parseDecimal: DecimalParser): (r: Option<PortfolioItem>)
    ensures IsBlank(line) ==> r == None
    ensures Occurrences(line, Bar) != 2 ==> r == None
    ensures r.Some? ==> r.value.id == 0 && IsUpperCase(r.value.coin) && Bar !in r.value.coin
    ensures r.Some? ==> r.value.coin == [] || (!IsWhiteSpace(r.value.coin[0]) && !IsWhiteSpace(r.value.coin[|r.value.coin| - 1]))
    ensures r.Some? ==> exists q, c, p :: ReadsAs(line, q, c, p, r.value, parseDecimal)
  {
    var parts := Split(line, Bar);
    if IsBlank(line) || |parts| != 3 || parseDecimal(parts[0]).None? || parseDecimal(parts[2]).None? then
      None
    else
      var item := PortfolioItem(0, parseDecimal(parts[0]).value, ToUpper(Trim(parts[1])), parseDecimal(parts[2]).value);
      ReadItem(line, parts, item, parseDecimal);
      Some(item)
  }

  /** The item built from the three fields of a line has the shape `ParseLine` promises. */
  lemma ReadItem(line: string, parts: seq<string>, item: PortfolioItem, parseDecimal: DecimalParser)
    requires parts == Split(line, Bar) && |parts| == 3
    requires item.id == 0 && item.coin == ToUpper(Trim(parts[1]))
    requires parseDecimal(parts[0]) == Some(item.quantity) && parseDecimal(parts[2]) == Some(item.initialPrice)
    ensures IsUpperCase(item.coin) && Bar !in item.coin
    ensures item.coin == [] || (!IsWhiteSpace(item.coin[0]) && !IsWhiteSpace(item.coin[|item.coin| - 1]))
    ensures ReadsAs(line, parts[0], parts[1], parts[2], item, parseDecimal)
  {
    ThreeFields(line, parts);
    CoinShape(parts[1]);
  }

  /** A line that splits into three fields is those fields joined by bars. */
  lemma ThreeFields(line: string, parts: seq<string>)
    requires parts == Split(line, Bar) && |parts| == 3
    ensures Bar !in parts[0] && Bar !in parts[1] && Bar !in parts[2]
    ensures line == parts[0] + [Bar] + parts[1] + [Bar] + parts[2]
  {
    assert parts[1..][1..] == parts[2..];
    assert Join(parts[1..], Bar) == parts[1] + [Bar] + parts[2];
  }

  /** The coin read from a field is upper case, keeps out the separator when the
      field does, and neither starts nor ends with white space. */
  lemma CoinShape(c: string)
    ensures IsUpperCase(ToUpper(Trim(c)))
    ensures Bar !in c ==> Bar !in ToUpper(Trim(c))
    ensures var coin := ToUpper(Trim(c));
      coin == [] || (!IsWhiteSpace(coin[0]) && !IsWhiteSpace(coin[|coin| - 1]))
  {
    var t := Trim(c);
    var coin := ToUpper(t);
    if Bar !in c {
      assert Bar !in t;
    }
  }

  /** The converse: any three bar-free fields whose numbers parse give an item, and the
      coin field is read trimmed and upper-cased. */
  lemma ParseFields(q: string, c: string, p: string, parseDecimal: DecimalParser)
    requires Bar !in q && Bar !in c && Bar !in p
    ensures ParseLine(q + [Bar] + c + [Bar] + p, parseDecimal) ==
      if parseDecimal(q).Some? && parseDecimal(p).Some? then
        Some(PortfolioItem(0, parseDecimal(q).value, ToUpper(Trim(c)), parseDecimal(p).value))
      else None
  {
    var line := q + [Bar] + c + [Bar] + p;
    assert line[|q|] == Bar;
    assert !IsBlank(line);
    var fields := [q, c, p];
    assert fields[1..][1..] == [p];
    assert Join(fields[1..], Bar) == c + [Bar] + p;
    assert Join(fields, Bar) == q + [Bar] + (c + [Bar] + p);
    assert Join(fields, Bar) == line;
    SplitJoin(fields, Bar);
  }

  /** An item written out as a line reads back as itself, provided its numbers are
      written in text the parser reads back exactly. */
  lemma LineRoundTrip(item: PortfolioItem, qText: string, pText: string, parseDecimal: DecimalParser)
    requires Bar !in qText && Bar !in pText
    requires parseDecimal(qText) == Some(item.quantity) && parseDecimal(pText) == Some(item.initialPrice)
    requires item.id == 0 && IsUpperCase(item.coin) && Bar !in item.coin
    requires item.coin == [] || (!IsWhiteSpace(item.coin[0]) && !IsWhiteSpace(item.coin[|item.coin| - 1]))
    ensures ParseLine(qText + [Bar] + item.coin + [Bar] + pText, parseDecimal) == Some(item)
  {
    ParseFields(qText, item.coin, pText, parseDecimal);
    TrimFixesTrimmed(item.coin);
  }

  /** The accepted lines of the file, in file order. */
  function ParseLines(lines: seq<string>, parseDecimal: DecimalParser): seq<PortfolioItem> {
    FilterMap(lines, Reader(parseDecimal))
  }

  /** `ParseLine` with the parser fixed. */
  function Reader(parseDecimal: DecimalParser): string -> Option<PortfolioItem> {
    line => ParseLine(line, parseDecimal)
  }

  /** Reading two files one after the other reads their lines in order. */
  lemma ParseLinesAppend(a: seq<string>, b: seq<string>, parseDecimal: DecimalParser)
    ensures ParseLines(a + b, parseDecimal) == ParseLines(a, parseDecimal) + ParseLines(b, parseDecimal)
  {
    FilterMapAppend(a, b, Reader(parseDecimal));
  }

  /** `UploadPortfolioAsync`: the store then holds exactly the coins of the accepted
      lines, every holding under its own coin, with prices untouched. */
  function UploadPortfolio(s: Store, lines: seq<string>, parseDecimal: DecimalParser): (s': Store)
    ensures s'.prices == s.prices
    ensures forall c :: c in s'.holdings <==> exists i :: 0 <= i < |lines| && Accepts(lines[i], parseDecimal, c)
    ensures Consistent(s')
  {
    var read := Reader(parseDecimal);
    var items := ParseLines(lines, parseDecimal);
    var s' := Upload(s, items);
    FilterMapMembers(lines, read);
    forall c ensures c in s'.holdings <==> exists i :: 0 <= i < |lines| && Accepts(lines[i], parseDecimal, c) {
      if c in s'.holdings {
        var it :| it in items && it.coin == c;
        var i :| YieldsAt(lines, read, i, it);
        assert Accepts(lines[i], parseDecimal, c);
      }
      if i :| 0 <= i < |lines| && Accepts(lines[i], parseDecimal, c) {
        assert YieldsAt(lines, read, i, ParseLine(lines[i], parseDecimal).value);
      }
    }
    s'
  }

  /** `line` is accepted and holds `coin`. */
  predicate Accepts(line: string, parseDecimal: DecimalParser, coin: string) {
    ParseLine(line, parseDecimal).Some? && ParseLine(line, parseDecimal).value.coin == coin
  }

  /** A coin listed on several lines keeps the item of its last accepted line. */
  lemma LastLineWins(s: Store, lines: seq<string>, parseDecimal: DecimalParser, i: int)
    requires 0 <= i < |lines| && ParseLine(lines[i], parseDecimal).Some?
    requires forall j :: i < j < |lines| ==> !Accepts(lines[j], parseDecimal, ParseLine(lines[i], parseDecimal).value.coin)
    ensures var it := ParseLine(lines[i], parseDecimal).value;
            UploadPortfolio(s, lines, parseDecimal).holdings[it.coin] == it
  {
    var k := LastItem(lines, parseDecimal, i);
    var items := ParseLines(lines, parseDecimal);
    assert Upload(s, items).holdings[items[k].coin] == items[k];
  }

  /** Where the item of line `i` lands among the items read, when no later line
      repeats its coin. */
  lemma LastItem(lines: seq<string>, parseDecimal: DecimalParser, i: int) returns (k: int)
    requires 0 <= i < |lines| && ParseLine(lines[i], parseDecimal).Some?
    requires forall j :: i < j < |lines| ==> !Accepts(lines[j], parseDecimal, ParseLine(lines[i], parseDecimal).value.coin)
    ensures 0 <= k < |ParseLines(lines, parseDecimal)|
    ensures ParseLines(lines, parseDecimal)[k] == ParseLine(lines[i], parseDecimal).value
    ensures IsLastFor(ParseLines(lines, parseDecimal), k)
  {
    var read := Reader(parseDecimal);
    var it := read(lines[i]).value;
    var before := FilterMap(lines[..i], read);
    var after := FilterMap(lines[i + 1..], read);
    FilterMapAround(lines, read, i);
    k := |before|;
    NoLaterCoin(lines, parseDecimal, i, it.coin);
    LastAt(before, it, after);
  }

  /** An item followed only by items of other coins is the last one for its coin. */
  lemma LastAt(before: seq<PortfolioItem>, it: PortfolioItem, after: seq<PortfolioItem>)
    requires forall y :: y in after ==> y.coin != it.coin
    ensures (before + [it] + after)[|before|] == it
    ensures IsLastFor(before + [it] + after, |before|)
  {
    var items := before + [it] + after;
    forall j | |before| < j < |items| ensures items[j].coin != it.coin {
      assert items[j] == after[j - |before| - 1];
    }
  }

  /** When no line after line `i` is accepted with `coin`, no item read from those
      lines holds it. */
  lemma NoLaterCoin(lines: seq<string>, parseDecimal: DecimalParser, i: int, coin: string)
    requires 0 <= i < |lines|
    requires forall j :: i < j < |lines| ==> !Accepts(lines[j], parseDecimal, coin)
    ensures forall y :: y in ParseLines(lines[i + 1..], parseDecimal) ==> y.coin != coin
  {
    var read := Reader(parseDecimal);
    FilterMapMembers(lines[i + 1..], read);
    forall y | y in ParseLines(lines[i + 1..], parseDecimal) ensures y.coin != coin {
      var m :| YieldsAt(lines[i + 1..], read, m, y);
      assert lines[i + 1..][m] == lines[i + 1 + m];
      assert !Accepts(lines[i + 1 + m], parseDecimal, coin);
    }
  }

  /** `PortfolioSummary`. */
  datatype Summary = Summary(initialValue: real, currentValue: real, overallChangePercentage: real, coinChanges: seq<CoinChange>)

  /** The entry of one holding, valued at the stored price (0 when none is stored). */
  function ChangeOf(s: Store, item: PortfolioItem): CoinChange {
    CoinChange(item.coin, item.quantity, item.initialPrice, CurrentPrice(s, item.coin))
  }

  function InitialValueOf(c: CoinChange): real { c.InitialValue() }

  function CurrentValueOf(c: CoinChange): real { c.CurrentValue() }

  /** `GetPortfolioSummaryAsync` over the holdings in the order `order` lists them: an
      empty portfolio is a 400; otherwise one entry per holding, valued at its stored
      price, the totals are the sums of the entries and the overall change follows the
      same percentage rule as each entry. */
  function GetPortfolioSummary(s: Store, order: seq<string>): (r: Res<Summary>)
    requires Enumerates(order, s.holdings.Keys)
    ensures r.Err? <==> s.holdings == map[]
    ensures r.Err? ==> r.error == PortfolioEmpty
    ensures r.Ok? ==> |r.value.coinChanges| == |order|
    ensures r.Ok? ==> forall i :: 0 <= i < |order| ==> r.value.coinChanges[i] == ChangeOf(s, s.holdings[order[i]])
    ensures r.Ok? ==> r.value.initialValue == Sum(r.value.coinChanges, InitialValueOf)
    ensures r.Ok? ==> r.value.currentValue == Sum(r.value.coinChanges, CurrentValueOf)
    ensures r.Ok? ==> r.value.overallChangePercentage == Percentage(r.value.initialValue, r.value.currentValue)
  {
    var items := Items(s, order);
    if |items| == 0 then
      assert s.holdings.Keys == {};
      Err(PortfolioEmpty)
    else
      assert order[0] in s.holdings;
      var changes := MapSeq(items, item => ChangeOf(s, item));
      var initialValue := Sum(changes, InitialValueOf);
      var currentValue := Sum(changes, CurrentValueOf);
      Ok(Summary(initialValue, currentValue, Percentage(initialValue, currentValue), changes))
  }

  /** The entry a held coin contributes. */
  function EntryOf(s: Store, coin: string): CoinChange {
    if coin in s.holdings then ChangeOf(s, s.holdings[coin]) else CoinChange(coin, 0.0, 0.0, 0.0)
  }

  /** The summary does not depend on the order the dictionary enumerates its holdings
      in: any two orders give the same entries, up to order, and the same figures. */
  lemma SummaryOrderIndependent(s: Store, o1: seq<string>, o2: seq<string>)
    requires Enumerates(o1, s.holdings.Keys) && Enumerates(o2, s.holdings.Keys)
    ensures GetPortfolioSummary(s, o1).Ok? == GetPortfolioSummary(s, o2).Ok?
    ensures GetPortfolioSummary(s, o1).Ok? ==>
      var a := GetPortfolioSummary(s, o1).value;
      var b := GetPortfolioSummary(s, o2).value;
      && multiset(a.coinChanges) == multiset(b.coinChanges)
      && a.initialValue == b.initialValue
      && a.currentValue == b.currentValue
      && a.overallChangePercentage == b.overallChangePercentage
  {
    SameElements(o1, o2);
    var r1 := GetPortfolioSummary(s, o1);
    var r2 := GetPortfolioSummary(s, o2);
    if r1.Ok? {
      var entry := (c: string) => EntryOf(s, c);
      assert r1.value.coinChanges == MapSeq(o1, entry);
      assert r2.value.coinChanges == MapSeq(o2, entry);
      MapPermutation(o1, o2, entry);
      SumPermutation(r1.value.coinChanges, r2.value.coinChanges, InitialValueOf);
      SumPermutation(r1.value.coinChanges, r2.value.coinChanges, CurrentValueOf);
    }
  }
}
