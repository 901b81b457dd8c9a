/** The current index loader (`CoinLore/Services/SymbolToIdMappingService.cs`): a
    cache that sticks once it holds a non-empty map and re-reads the file otherwise. */
module CoinLoreIndex {
  import opened Wrappers
  import opened Models

  /** The loader's state: the cached map, null until a load stores one (and again
      after a file holding JSON `null`). */
  datatype Loader = Loader(cache: Option<SymbolMap>)

  /** A fresh loader. */
  const Initial: Loader := Loader(None)

  /** One call: the loader afterwards and what the call returned or threw. */
  datatype Step = Step(next: Loader, result: Res<SymbolMap>)

  /** The cache holds a non-empty map, so calls no longer look at the file. */
  predicate Sticky(l: Loader) {
    l.cache.Some? && |l.cache.value| != 0
  }

  /** `GetSymbolToIdMapAsync` with the file in state `file`. */
  function Get(l: Loader, file: IndexFile): (s: Step)
    ensures Sticky(l) ==> s == Step(l, Ok(l.cache.value))
    ensures s.result.Err? <==> !Sticky(l) && file.Corrupt?
    ensures s.result.Err? ==> s.next == l && s.result.error == JsonError
    ensures s.result.Ok? ==> s.result.value == s.next.cache.GetOr(map[])
    ensures !Sticky(l) && file.Valid? ==> s.result == Ok(file.contents)
    ensures !Sticky(l) && (file.Missing? || file.NullJson?) ==> s.result == Ok(map[])
  {
    if Sticky(l) then Step(l, Ok(l.cache.value))
    else
      match file
      case Valid(m) => Step(Loader(Some(m)), Ok(m))
      case NullJson => Step(Loader(None), Ok(map[]))
      case Corrupt => Step(l, Err(JsonError))
      case Missing => Step(Loader(Some(map[])), Ok(map[]))
  }

  /** Successive calls, the file being in state `files[i]` at call `i`. */
  datatype Run = Run(last: Loader, results: seq<Res<SymbolMap>>)

  function Calls(l: Loader, files: seq<IndexFile>): (r: Run)
    ensures |r.results| == |files|
    decreases |files|
  {
    if files == [] then Run(l, [])
    else
      var s := Get(l, files[0]);
      var rest := Calls(s.next, files[1..]);
      Run(rest.last, [s.result] + rest.results)
  }

  /** Once a non-empty map is cached, every later call returns it, whatever the file
      holds by then, and the loader never changes again. */
  lemma {:induction false} StickyCacheIgnoresFile(l: Loader, files: seq<IndexFile>)
    requires Sticky(l)
    ensures Calls(l, files).last == l
    ensures forall i :: 0 <= i < |files| ==> Calls(l, files).results[i] == Ok(l.cache.value)
    decreases |files|
  {
    if files != [] {
      StickyCacheIgnoresFile(l, files[1..]);
    }
  }

  /** An empty or unset cache is not sticky: a map written to the file after a
      "file missing" call is picked up by the next call. */
  lemma {:induction false} EmptyCacheRereads(m: SymbolMap)
    ensures Calls(Initial, [Missing, Valid(m)]).results == [Ok(map[]), Ok(m)]
  {
    var first := Get(Initial, Missing);
    assert first == Step(Loader(Some(map[])), Ok(map[]));
    assert !Sticky(first.next);
    assert Calls(first.next, [Valid(m)]).results == [Ok(m)];
    assert [Missing, Valid(m)][1..] == [Valid(m)];
  }
}
