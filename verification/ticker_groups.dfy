/** `GroupBy(coin => coin.Symbol.ToUpper())` followed by `g.First()` and
    `ToDictionary`, the merge step both index builders share. */
module TickerGroups {
  import opened Wrappers
  import opened Models
  import opened Text

  /** The group a ticker falls in: its upper-cased symbol (a null symbol never gets here). */
  function SymbolKey(t: Ticker): string {
    ToUpper(t.symbol.GetOr(""))
  }

  /** The id of `t` as a `long`, or 0 when `long.TryParse` rejects it. */
  function IdOrZero(parseLong: LongParser, t: Ticker): int {
    parseLong(t.id.GetOr("")).GetOr(0)
  }

  /** The keys of the tickers that `keep` lets through. */
  ghost function KeySet(ts: seq<Ticker>, keep: Ticker -> bool): set<string> {
    set t | t in ts && keep(t) :: SymbolKey(t)
  }

  /** `ts[i]` is kept and no earlier kept ticker has its key: it is its group's `First()`. */
  ghost predicate IsFirstKept(ts: seq<Ticker>, keep: Ticker -> bool, i: int)
    requires 0 <= i < |ts|
  {
    keep(ts[i]) && forall j :: 0 <= j < i && keep(ts[j]) ==> SymbolKey(ts[j]) != SymbolKey(ts[i])
  }

  /** No two tickers share a key. */
  predicate DistinctKeys(rs: seq<Ticker>) {
    forall i, j :: 0 <= i < j < |rs| ==> SymbolKey(rs[i]) != SymbolKey(rs[j])
  }

  /** The keys of a list of tickers. */
  ghost function Keys(rs: seq<Ticker>): set<string> {
    set t | t in rs :: SymbolKey(t)
  }

  lemma KeysCons(rs: seq<Ticker>)
    requires rs != []
    ensures Keys(rs) == {SymbolKey(rs[0])} + Keys(rs[1..])
  {
    assert rs == [rs[0]] + rs[1..];
    assert forall t :: t in rs <==> t == rs[0] || t in rs[1..];
  }

  /** The first kept ticker of every group, in the order the groups first appear:
      the groups opened before a group's first ticker are listed before it. */
  function Firsts(ts: seq<Ticker>, keep: Ticker -> bool): (r: seq<Ticker>)
    ensures forall t :: t in r ==> t in ts && keep(t)
    ensures DistinctKeys(r)
    ensures forall i :: 0 <= i < |ts| && IsFirstKept(ts, keep, i) ==> ts[i] in r
    ensures Keys(r) == KeySet(ts, keep)
    ensures forall i :: 0 <= i < |ts| && IsFirstKept(ts, keep, i) ==>
      FirstsAfter(ts[..i], keep, {}) + [ts[i]] <= r
  {
    FirstsInOrder(ts, keep);
    FirstsAfter(ts, keep, {})
  }

  /** Groups open in order: the first tickers of the groups opened before a group's
      first ticker come first, and that ticker right after them. */
  lemma FirstsInOrder(ts: seq<Ticker>, keep: Ticker -> bool)
    ensures forall i :: 0 <= i < |ts| && IsFirstKept(ts, keep, i) ==>
      FirstsAfter(ts[..i], keep, {}) + [ts[i]] <= FirstsAfter(ts, keep, {})
  {
    forall i | 0 <= i < |ts| && IsFirstKept(ts, keep, i)
      ensures FirstsAfter(ts[..i], keep, {}) + [ts[i]] <= FirstsAfter(ts, keep, {})
    {
      FirstsPrefix(ts, keep, {}, i);
    }
  }

  /** `FirstsInOrder` for one group's first ticker, once the groups in `seen` are open. */
  lemma {:induction false} FirstsPrefix(ts: seq<Ticker>, keep: Ticker -> bool, seen: set<string>, i: int)
    requires 0 <= i < |ts| && IsFirstKept(ts, keep, i) && SymbolKey(ts[i]) !in seen
    ensures FirstsAfter(ts[..i], keep, seen) + [ts[i]] <= FirstsAfter(ts, keep, seen)
    decreases |ts|
  {
    var t0, k0 := ts[0], SymbolKey(ts[0]);
    var opens := keep(t0) && k0 !in seen;
    if i == 0 {
      assert ts[..i] == [];
    } else {
      FirstKeptTail(ts, keep, i);
      var seen' := if opens then seen + {k0} else seen;
      FirstsPrefix(ts[1..], keep, seen', i - 1);
      var pre := ts[..i];
      assert pre[0] == t0 && pre[1..] == ts[1..][..i - 1];
      assert ts[1..][i - 1] == ts[i];
      PrefixStep(pre, ts, keep, seen, ts[i]);
    }
  }

  /** Extending a prefix relation between two listings by a shared head ticker. */
  lemma PrefixStep(pre: seq<Ticker>, ts: seq<Ticker>, keep: Ticker -> bool, seen: set<string>, x: Ticker)
    requires 0 < |pre| && 0 < |ts| && pre[0] == ts[0]
    requires var seen' := if keep(ts[0]) && SymbolKey(ts[0]) !in seen then seen + {SymbolKey(ts[0])} else seen;
      FirstsAfter(pre[1..], keep, seen') + [x] <= FirstsAfter(ts[1..], keep, seen')
    ensures FirstsAfter(pre, keep, seen) + [x] <= FirstsAfter(ts, keep, seen)
  {
    var t0 := ts[0];
    if keep(t0) && SymbolKey(t0) !in seen {
      var seen' := seen + {SymbolKey(t0)};
      var a, r := FirstsAfter(pre[1..], keep, seen'), FirstsAfter(ts[1..], keep, seen');
      assert FirstsAfter(pre, keep, seen) == [t0] + a;
      assert FirstsAfter(ts, keep, seen) == [t0] + r;
      PrefixCons(t0, a + [x], r);
      assert [t0] + a + [x] == [t0] + (a + [x]);
    }
  }

  lemma PrefixCons<T>(x: T, a: seq<T>, b: seq<T>)
    requires a <= b
    ensures [x] + a <= [x] + b
  {
    assert ([x] + b)[..|a| + 1] == [x] + b[..|a|];
  }

  /** A group's first ticker past the head is its group's first in the tail too, and
      its key differs from a kept head's. */
  lemma FirstKeptTail(ts: seq<Ticker>, keep: Ticker -> bool, i: int)
    requires 1 <= i < |ts| && IsFirstKept(ts, keep, i)
    ensures IsFirstKept(ts[1..], keep, i - 1)
    ensures keep(ts[0]) ==> SymbolKey(ts[0]) != SymbolKey(ts[i])
  {
    forall j | 0 <= j < i - 1 && keep(ts[1..][j])
      ensures SymbolKey(ts[1..][j]) != SymbolKey(ts[1..][i - 1])
    {
      assert ts[1..][j] == ts[j + 1];
    }
  }

  /** The first ticker of a group opened before `ts[i]` sits among the groups listed
      before `ts[i]`. */
  lemma EarlierFirst(ts: seq<Ticker>, keep: Ticker -> bool, i: int, j: int) returns (b: int)
    requires 0 <= j < i < |ts| && IsFirstKept(ts, keep, i) && IsFirstKept(ts, keep, j)
    ensures 0 <= b < |FirstsAfter(ts[..i], keep, {})| && Firsts(ts, keep)[b] == ts[j]
  {
    var pre := Firsts(ts[..i], keep);
    assert ts[..i][j] == ts[j];
    assert IsFirstKept(ts[..i], keep, j);
    assert ts[j] in pre;
    b :| 0 <= b < |pre| && pre[b] == ts[j];
  }

  /** `Firsts` for a suffix, once the groups in `seen` have already been opened. */
  function FirstsAfter(ts: seq<Ticker>, keep: Ticker -> bool, seen: set<string>): (r: seq<Ticker>)
    ensures forall t :: t in r ==> t in ts && keep(t) && SymbolKey(t) !in seen
    ensures DistinctKeys(r)
    ensures forall i :: 0 <= i < |ts| && IsFirstKept(ts, keep, i) && SymbolKey(ts[i]) !in seen ==> ts[i] in r
    ensures Keys(r) == KeySet(ts, keep) - seen
    decreases |ts|
  {
    if ts == [] then []
    else
      var t0 := ts[0];
      var k0 := SymbolKey(t0);
      if keep(t0) && k0 !in seen then
        var rest := FirstsAfter(ts[1..], keep, seen + {k0});
        FirstsStep(ts, keep, seen, true);
        OpenGroup(ts, keep, seen, rest);
        [t0] + rest
      else
        FirstsStep(ts, keep, seen, false);
        FirstsAfter(ts[1..], keep, seen)
  }

  /** Opening the group of `ts[0]` in front of the groups of the rest. */
  lemma OpenGroup(ts: seq<Ticker>, keep: Ticker -> bool, seen: set<string>, rest: seq<Ticker>)
    requires ts != [] && keep(ts[0]) && SymbolKey(ts[0]) !in seen
    requires forall t :: t in rest ==> t in ts[1..] && keep(t) && SymbolKey(t) !in seen + {SymbolKey(ts[0])}
    requires DistinctKeys(rest)
    ensures DistinctKeys([ts[0]] + rest)
    ensures Keys([ts[0]] + rest) == {SymbolKey(ts[0])} + Keys(rest)
    ensures forall t :: t in [ts[0]] + rest ==> t in ts && keep(t) && SymbolKey(t) !in seen
  {
    var r := [ts[0]] + rest;
    forall i, j | 0 <= i < j < |r| ensures SymbolKey(r[i]) != SymbolKey(r[j]) {
      if i == 0 {
        assert r[j] == rest[j - 1];
        assert r[j] in rest;
      } else {
        assert r[i] == rest[i - 1] && r[j] == rest[j - 1];
      }
    }
    KeysCons(r);
    assert r[1..] == rest;
  }

  /** How the facts about `FirstsAfter(ts[1..], ...)` carry over to `ts`. */
  lemma FirstsStep(ts: seq<Ticker>, keep: Ticker -> bool, seen: set<string>, opens: bool)
    requires ts != []
    requires opens <==> keep(ts[0]) && SymbolKey(ts[0]) !in seen
    ensures opens ==> KeySet(ts, keep) - seen == {SymbolKey(ts[0])} + (KeySet(ts[1..], keep) - (seen + {SymbolKey(ts[0])}))
    ensures !opens ==> KeySet(ts, keep) - seen == KeySet(ts[1..], keep) - seen
    ensures forall i :: 1 <= i < |ts| && IsFirstKept(ts, keep, i) && SymbolKey(ts[i]) !in seen ==>
      IsFirstKept(ts[1..], keep, i - 1) && (opens ==> SymbolKey(ts[i]) != SymbolKey(ts[0]))
  {
    assert ts == [ts[0]] + ts[1..];
    forall i | 1 <= i < |ts| && IsFirstKept(ts, keep, i) && SymbolKey(ts[i]) !in seen
      ensures IsFirstKept(ts[1..], keep, i - 1)
    {
      forall j | 0 <= j < i - 1 && keep(ts[1..][j])
        ensures SymbolKey(ts[1..][j]) != SymbolKey(ts[1..][i - 1])
      {
        assert ts[1..][j] == ts[j + 1];
      }
    }
  }

  /** `ToDictionary(g => g.Key, value)` over one ticker per key. */
  function ToMap<V>(rs: seq<Ticker>, value: Ticker -> V): (m: map<string, V>)
    requires DistinctKeys(rs)
    ensures m.Keys == Keys(rs)
    ensures forall t :: t in rs ==> m[SymbolKey(t)] == value(t)
  {
    if rs == [] then map[]
    else
      var k0 := SymbolKey(rs[0]);
      var rest := ToMap(rs[1..], value);
      KeysCons(rs);
      TailKeysDiffer(rs);
      rest[k0 := value(rs[0])]
  }

  lemma TailKeysDiffer(rs: seq<Ticker>)
    requires rs != [] && DistinctKeys(rs)
    ensures DistinctKeys(rs[1..])
    ensures forall t :: t in rs[1..] ==> SymbolKey(t) != SymbolKey(rs[0])
  {
    forall t | t in rs[1..] ensures SymbolKey(t) != SymbolKey(rs[0]) {
      var j :| 0 <= j < |rs[1..]| && rs[1..][j] == t;
      assert rs[j + 1] == t;
    }
  }
}
