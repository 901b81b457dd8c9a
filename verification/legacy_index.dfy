/** The older index loader (`Services/SymbolToIdMappingService.cs`): a `Lazy` task
    that loads the file once and replays that outcome, failure included, forever. */
module LegacyIndex {
  import opened Wrappers
  import opened Models

  /** The `Lazy<Task<...>>`: not yet forced, or holding the completed load. A loaded
      map may be null (`None`) when the file held JSON `null`. */
  datatype Lazy = Unforced | Forced(outcome: Res<Option<SymbolMap>>)

  /** One call: the lazy value afterwards and what the call returned or threw. */
  datatype Step = Step(next: Lazy, result: Res<Option<SymbolMap>>)

  /** `LoadMappingAsync`: a missing file throws `FileNotFoundException`; there is no null guard. */
  function Load(file: IndexFile): (r: Res<Option<SymbolMap>>)
    ensures file.Missing? <==> r == Err(FileNotFound)
    ensures file.Valid? <==> r.Ok? && r.value.Some?
    ensures file.Valid? ==> r.value.value == file.contents
    ensures file.NullJson? <==> r == Ok(None)
    ensures file.Corrupt? <==> r == Err(JsonError)
  {
    match file
    case Missing => Err(FileNotFound)
    case Valid(m) => Ok(Some(m))
    case NullJson => Ok(None)
    case Corrupt => Err(JsonError)
  }

  /** `GetSymbolToIdMapAsync`: `_lazyMap.Value`. */
  function Get(l: Lazy, file: IndexFile): (s: Step)
    ensures s.next.Forced?
    ensures s.result == s.next.outcome
    ensures l.Forced? ==> s.next == l
    ensures l.Unforced? ==> s.next == Forced(Load(file))
  {
    match l
    case Forced(o) => Step(l, o)
    case Unforced =>
      var o := Load(file);
      Step(Forced(o), o)
  }

  /** Successive calls, the file being in state `files[i]` at call `i`. */
  datatype Run = Run(last: Lazy, results: seq<Res<Option<SymbolMap>>>)

  function Calls(l: Lazy, files: seq<IndexFile>): (r: Run)
    ensures |r.results| == |files|
    decreases |files|
  {
    if files == [] then Run(l, [])
    else
      var s := Get(l, files[0]);
      var rest := Calls(s.next, files[1..]);
      Run(rest.last, [s.result] + rest.results)
  }

  /** The file is read at most once: every call returns the outcome of the first load,
      a missing-file failure included, even once the file exists. */
  lemma {:induction false} LoadsOnce(files: seq<IndexFile>)
    requires files != []
    ensures Calls(Unforced, files).last == Forced(Load(files[0]))
    ensures forall i :: 0 <= i < |files| ==> Calls(Unforced, files).results[i] == Load(files[0])
  {
    var forced := Forced(Load(files[0]));
    Replays(forced, files[1..]);
  }

  lemma {:induction false} Replays(l: Lazy, files: seq<IndexFile>)
    requires l.Forced?
    ensures Calls(l, files).last == l
    ensures forall i :: 0 <= i < |files| ==> Calls(l, files).results[i] == l.outcome
    decreases |files|
  {
    if files != [] {
      Replays(l, files[1..]);
    }
  }
}
