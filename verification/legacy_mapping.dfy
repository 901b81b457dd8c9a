/** The older index builder (`Services/CoinMappingService.cs`): no guard on the coin
    count, no blank filter, and `long.Parse`, which throws on a bad id. */
module LegacyMapping {
  import opened Wrappers
  import opened Models
  import opened Text
  import opened Paging
  import opened TickerGroups

  /** `long.Parse(id)`: `ArgumentNullException` on null, `FormatException` or
      `OverflowException` when the text is not a 64-bit integer. */
  function ParseId(parseLong: LongParser, id: NullableString): Res<int> {
    match id
    case None => Err(ArgumentNull)
    case Some(text) =>
      match parseLong(text)
      case Some(n) => Ok(n)
      case None => Err(BadNumber)
  }

  /** Every ticker and every symbol is non-null, so `coin.Symbol.ToUpper()` cannot throw. */
  predicate SymbolsPresent(coins: seq<Option<Ticker>>) {
    forall i :: 0 <= i < |coins| ==> coins[i].Some? && coins[i].value.symbol.Some?
  }

  function Unwrap(coins: seq<Option<Ticker>>): (r: seq<Ticker>)
    requires SymbolsPresent(coins)
    ensures |r| == |coins| && forall i :: 0 <= i < |coins| ==> r[i] == coins[i].value
  {
    seq(|coins|, i requires 0 <= i < |coins| => coins[i].value)
  }

  /** Every ticker is kept: this builder filters nothing. */
  predicate KeepAll(t: Ticker) {
    true
  }

  /** The first group (in order of appearance) whose first id `long.Parse` rejects. */
  function FirstBadId(reps: seq<Ticker>, parseLong: LongParser): (e: Option<Error>)
    ensures e.None? <==> forall i :: 0 <= i < |reps| ==> ParseId(parseLong, reps[i].id).Ok?
    ensures e.Some? ==> exists i :: 0 <= i < |reps| && ParseId(parseLong, reps[i].id) == Err(e.value)
                         && forall j :: 0 <= j < i ==> ParseId(parseLong, reps[j].id).Ok?
  {
    if reps == [] then None
    else
      match ParseId(parseLong, reps[0].id)
      case Err(e) => Some(e)
      case Ok(_) =>
        var rest := FirstBadId(reps[1..], parseLong);
        if rest.Some? then
          var i :| 0 <= i < |reps[1..]| && ParseId(parseLong, reps[1..][i].id) == Err(rest.value)
                   && forall j :: 0 <= j < i ==> ParseId(parseLong, reps[1..][j].id).Ok?;
          assert ParseId(parseLong, reps[i + 1].id) == Err(rest.value);
          assert forall j :: 0 <= j < i + 1 ==> ParseId(parseLong, reps[j].id).Ok? by {
            forall j | 0 <= j < i + 1 ensures ParseId(parseLong, reps[j].id).Ok? {
              if j > 0 { assert reps[j] == reps[1..][j - 1]; }
            }
          }
          rest
        else
          assert forall i :: 0 <= i < |reps| ==> ParseId(parseLong, reps[i].id).Ok? by {
            forall i | 0 <= i < |reps| ensures ParseId(parseLong, reps[i].id).Ok? {
              if i > 0 { assert reps[i] == reps[1..][i - 1]; }
            }
          }
          None
  }

  /** The merge of the fetched tickers: a null ticker or null symbol throws; otherwise
      every upper-cased symbol, blank ones included, becomes a key holding the parsed
      id of the first ticker with that key, and one unparsable first id fails it all. */
  function Merge(coins: seq<Option<Ticker>>, parseLong: LongParser): (r: Res<SymbolMap>)
    ensures !SymbolsPresent(coins) ==> r == Err(NullReference)
    ensures SymbolsPresent(coins) ==> (r.Ok? <==> FirstIdsParse(Unwrap(coins), parseLong))
    ensures SymbolsPresent(coins) && r.Err? ==>
      exists i :: 0 <= i < |coins| && IsFirstKept(Unwrap(coins), KeepAll, i)
                  && ParseId(parseLong, coins[i].value.id) == Err(r.error)
                  && forall j :: 0 <= j < i && IsFirstKept(Unwrap(coins), KeepAll, j) ==>
                       ParseId(parseLong, coins[j].value.id).Ok?
    ensures r.Ok? ==> SymbolsPresent(coins) && r.value.Keys == KeySet(Unwrap(coins), KeepAll)
    ensures r.Ok? ==> forall i :: 0 <= i < |coins| && IsFirstKept(Unwrap(coins), KeepAll, i) ==>
      Ok(r.value[SymbolKey(coins[i].value)]) == ParseId(parseLong, coins[i].value.id)
  {
    if !SymbolsPresent(coins) then Err(NullReference)
    else
      var ts := Unwrap(coins);
      var reps := Firsts(ts, KeepAll);
      match FirstBadId(reps, parseLong)
      case Some(e) =>
        BadFirstId(ts, parseLong, e);
        Err(e)
      case None =>
        GoodFirstIds(ts, parseLong);
        Ok(ToMap(reps, IdOf(parseLong)))
  }

  /** The value a group's first ticker records. */
  function IdOf(parseLong: LongParser): Ticker -> int {
    t => IdOrZero(parseLong, t)
  }

  /** A group's first id that does not parse fails the merge with its exception, and it
      is the first such group: every group opened before it has a parsable id. */
  lemma BadFirstId(ts: seq<Ticker>, parseLong: LongParser, e: Error)
    requires FirstBadId(Firsts(ts, KeepAll), parseLong) == Some(e)
    ensures !FirstIdsParse(ts, parseLong)
    ensures exists i :: 0 <= i < |ts| && IsFirstKept(ts, KeepAll, i) && ParseId(parseLong, ts[i].id) == Err(e)
                        && forall j :: 0 <= j < i && IsFirstKept(ts, KeepAll, j) ==> ParseId(parseLong, ts[j].id).Ok?
  {
    var reps := Firsts(ts, KeepAll);
    RepsAreFirsts(ts, parseLong);
    var b :| 0 <= b < |reps| && ParseId(parseLong, reps[b].id) == Err(e)
             && forall j :: 0 <= j < b ==> ParseId(parseLong, reps[j].id).Ok?;
    FirstOf(ts, reps[b]);
    var i :| 0 <= i < |ts| && IsFirstKept(ts, KeepAll, i) && ts[i] == reps[b];
    forall j | 0 <= j < i && IsFirstKept(ts, KeepAll, j) ensures ParseId(parseLong, ts[j].id).Ok? {
      EarlierGroupParses(ts, parseLong, b, i, j);
    }
  }

  /** A group opened before the group listed at `b` is listed before it. */
  lemma EarlierGroupParses(ts: seq<Ticker>, parseLong: LongParser, b: int, i: int, j: int)
    requires 0 <= b < |Firsts(ts, KeepAll)| && forall a :: 0 <= a < b ==> ParseId(parseLong, Firsts(ts, KeepAll)[a].id).Ok?
    requires 0 <= j < i < |ts| && IsFirstKept(ts, KeepAll, i) && IsFirstKept(ts, KeepAll, j)
    requires ts[i] == Firsts(ts, KeepAll)[b]
    ensures ParseId(parseLong, ts[j].id).Ok?
  {
    var reps := Firsts(ts, KeepAll);
    var a := EarlierFirst(ts, KeepAll, i, j);
    var p := |FirstsAfter(ts[..i], KeepAll, {})|;
    assert (FirstsAfter(ts[..i], KeepAll, {}) + [ts[i]])[p] == ts[i];
    assert reps[p] == reps[b];
  }

  /** When every group's first id parses, the index keys every group to that id. */
  lemma GoodFirstIds(ts: seq<Ticker>, parseLong: LongParser)
    requires FirstBadId(Firsts(ts, KeepAll), parseLong).None?
    ensures FirstIdsParse(ts, parseLong)
    ensures var m := ToMap(Firsts(ts, KeepAll), IdOf(parseLong));
      && m.Keys == KeySet(ts, KeepAll)
      && forall i :: 0 <= i < |ts| && IsFirstKept(ts, KeepAll, i) ==>
           Ok(m[SymbolKey(ts[i])]) == ParseId(parseLong, ts[i].id)
  {
    var reps := Firsts(ts, KeepAll);
    RepsAreFirsts(ts, parseLong);
    var m := ToMap(reps, IdOf(parseLong));
    forall i | 0 <= i < |ts| && IsFirstKept(ts, KeepAll, i)
      ensures Ok(m[SymbolKey(ts[i])]) == ParseId(parseLong, ts[i].id)
    {
      assert ts[i] in reps;
    }
  }

  /** Every group's first id is a number. */
  ghost predicate FirstIdsParse(ts: seq<Ticker>, parseLong: LongParser) {
    forall i :: 0 <= i < |ts| && IsFirstKept(ts, KeepAll, i) ==> ParseId(parseLong, ts[i].id).Ok?
  }

  lemma RepsAreFirsts(ts: seq<Ticker>, parseLong: LongParser)
    ensures FirstIdsParse(ts, parseLong) <==>
      forall i :: 0 <= i < |Firsts(ts, KeepAll)| ==> ParseId(parseLong, Firsts(ts, KeepAll)[i].id).Ok?
  {
    var reps := Firsts(ts, KeepAll);
    if FirstIdsParse(ts, parseLong) {
      forall i | 0 <= i < |reps| ensures ParseId(parseLong, reps[i].id).Ok? {
        FirstOf(ts, reps[i]);
      }
    }
    assert forall i :: 0 <= i < |ts| && IsFirstKept(ts, KeepAll, i) ==> ts[i] in reps;
  }

  /** A ticker that is the first of its group sits at a first-occurrence index. */
  lemma FirstOf(ts: seq<Ticker>, t: Ticker)
    requires t in Firsts(ts, KeepAll)
    ensures exists i :: 0 <= i < |ts| && IsFirstKept(ts, KeepAll, i) && ts[i] == t
  {
    var reps := Firsts(ts, KeepAll);
    var i :| 0 <= i < |ts| && ts[i] == t;
    var i0 := i;
    while i0 > 0 && exists j :: 0 <= j < i0 && SymbolKey(ts[j]) == SymbolKey(t)
      invariant 0 <= i0 <= i && SymbolKey(ts[i0]) == SymbolKey(t)
      decreases i0
    {
      var j :| 0 <= j < i0 && SymbolKey(ts[j]) == SymbolKey(t);
      i0 := j;
    }
    assert IsFirstKept(ts, KeepAll, i0);
    var a :| 0 <= a < |reps| && reps[a] == t;
    var b :| 0 <= b < |reps| && reps[b] == ts[i0];
    assert a == b;
  }

  /** `UpdateCoinMappingAsync`: rebuild the index and overwrite the file with it.
      `Enumerable.Range(0, n)` throws for a negative call count, which happens once the
      catalogue size is at or below `-limit`; every failure leaves the file as it was. */
  function UpdateCoinMapping(file: IndexFile, global: Reply<GlobalData>, limit: int,
                             source: PageSource, parseLong: LongParser): (run: Rebuild)
    requires limit > 0
    ensures run.outcome.Fail? ==> run.file == file
    ensures run.outcome.Pass? ==> run.file.Valid?
    ensures global.Err? ==> run == Rebuild([], file, Fail(global.error))
    ensures global == Ok(None) ==> run == Rebuild([], file, Fail(GlobalDataMissing))
    ensures global.Ok? && global.value.Some? ==>
      var count := global.value.value.coinsCount;
      && (count <= -limit <==> run.outcome == Fail(ArgumentOutOfRange) && run.requests == [])
      && (-limit < count <= 0 ==> run == Rebuild([], Valid(map[]), Pass))
      && (count > 0 ==> run.requests == Plan(CallCount(count, limit), limit))
    ensures global.Ok? && global.value.Some? && global.value.value.coinsCount > 0 ==>
      var plan := Plan(CallCount(global.value.value.coinsCount, limit), limit);
      forall i :: FirstFailure(source, plan, i) ==> run == Rebuild(plan, file, Fail(source(plan[i]).error))
    ensures global.Ok? && global.value.Some? && global.value.value.coinsCount > 0 ==>
      var plan := Plan(CallCount(global.value.value.coinsCount, limit), limit);
      var merged := Merge(Returned(source, plan), parseLong);
      (forall i :: 0 <= i < |plan| ==> source(plan[i]).Ok?) ==>
        && (merged.Err? ==> run == Rebuild(plan, file, Fail(merged.error)))
        && (merged.Ok? ==> run == Rebuild(plan, Valid(merged.value), Pass))
  {
    match global
    case Err(e) => Rebuild([], file, Fail(e))
    case Ok(None) => Rebuild([], file, Fail(GlobalDataMissing))
    case Ok(Some(g)) =>
      var n := CallCount(g.coinsCount, limit);
      CallCountSign(g.coinsCount, limit);
      if n < 0 then
        Rebuild([], file, Fail(ArgumentOutOfRange))
      else
        var plan := Plan(n, limit);
        match FetchAll(source, plan)
        case Err(e) =>
          AbortsOnFirstFailure(source, plan);
          Rebuild(plan, file, Fail(e))
        case Ok(pages) =>
          FetchAllReturns(source, plan);
          match Merge(Flatten(pages), parseLong)
          case Err(e) => Rebuild(plan, file, Fail(e))
          case Ok(m) => Rebuild(plan, Valid(m), Pass)
  }
}
