/** The page plan both index builders derive from the catalogue size, and the
    `Task.WhenAll` fan-out that fetches every page of it. */
module Paging {
  import opened Wrappers
  import opened Models

  /** One `GetTickersByPaginationAsync(start, limit)` call. */
  datatype PageRequest = PageRequest(start: int, limit: int)

  /** One index rebuild: the page requests it issued, the index file it leaves
      behind, and how the call ended. */
  datatype Rebuild = Rebuild(requests: seq<PageRequest>, file: IndexFile, outcome: Outcome<Error>)

  /** The price service's answer to each page request. */
  type PageSource = PageRequest -> Reply<seq<Option<Ticker>>>

  /** `(int)Math.Ceiling((double)count / limit)`. The double quotient of two 32-bit
      integers is never rounded onto a wrong integer, so this is the exact ceiling. */
  function CallCount(count: int, limit: int): (n: int)
    requires limit > 0
    ensures (n - 1) * limit < count <= n * limit
  {
    var n := -((-count) / limit);
    assert (-count) / limit * limit <= -count < ((-count) / limit + 1) * limit;
    n
  }

  /** The call count is negative exactly when the catalogue size is at or below
      `-limit`, and zero exactly for the sizes in between and zero. */
  lemma CallCountSign(count: int, limit: int)
    requires limit > 0
    ensures CallCount(count, limit) < 0 <==> count <= -limit
    ensures CallCount(count, limit) == 0 <==> -limit < count <= 0
  {
    var n := CallCount(count, limit);
    if n <= -1 {
      MulMonotone(n, -1, limit);
    } else {
      MulMonotone(-1, n - 1, limit);
    }
    if n >= 1 {
      MulMonotone(0, n - 1, limit);
    }
  }

  /** `Enumerable.Range(0, n).Select(i => (i * limit, limit))`. */
  function Plan(n: nat, limit: int): seq<PageRequest> {
    seq(n, i => PageRequest(i * limit, limit))
  }

  lemma MulMonotone(a: int, b: int, limit: int)
    requires limit > 0 && a <= b
    ensures a * limit <= b * limit
  {
    assert b * limit - a * limit == (b - a) * limit;
  }

  /** For a positive coin count the plan has ceil(count / limit) pages of `limit` coins
      each, page `i` starting at `i * limit`; every page starts inside the catalogue,
      and every catalogue position falls inside the page numbered `position / limit`. */
  lemma {:induction false} PlanCoversCatalogue(count: int, limit: int)
    requires count > 0 && limit > 0
    ensures CallCount(count, limit) >= 1
    ensures var plan := Plan(CallCount(count, limit), limit);
      && |plan| == CallCount(count, limit)
      && (forall i :: 0 <= i < |plan| ==>
            plan[i] == PageRequest(i * limit, limit) && 0 <= plan[i].start < count)
      && (forall k :: 0 <= k < count ==>
            k / limit < |plan| && plan[k / limit].start <= k < plan[k / limit].start + limit)
  {
    var n := CallCount(count, limit);
    if n < 1 {
      MulMonotone(n, 0, limit);
      assert false;
    }
    var plan := Plan(n, limit);
    forall i | 0 <= i < n
      ensures 0 <= plan[i].start < count
    {
      MulMonotone(0, i, limit);
      MulMonotone(i, n - 1, limit);
    }
    forall k | 0 <= k < count
      ensures k / limit < n && plan[k / limit].start <= k < plan[k / limit].start + limit
    {
      PositionInPage(k, limit, n);
    }
  }

  lemma PositionInPage(k: int, limit: int, n: int)
    requires 0 <= k && limit > 0 && k < n * limit
    ensures k / limit < n
    ensures (k / limit) * limit <= k < (k / limit) * limit + limit
  {
    var p := k / limit;
    assert p * limit + k % limit == k;
    if p >= n {
      MulMonotone(n, p, limit);
      assert false;
    }
  }

  /** `FetchCoinsAsync`: a null page becomes an empty list; an exception propagates. */
  function FetchPage(source: PageSource, req: PageRequest): Res<seq<Option<Ticker>>> {
    match source(req)
    case Err(e) => Err(e)
    case Ok(page) => Ok(page.GetOr([]))
  }

  /** `await Task.WhenAll(tasks)`: every page of the plan is requested; the pages come
      back in plan order, or the exception of the first page (in plan order) that threw. */
  function FetchAll(source: PageSource, plan: seq<PageRequest>): (r: Res<seq<seq<Option<Ticker>>>>)
    ensures r.Ok? <==> forall i :: 0 <= i < |plan| ==> source(plan[i]).Ok?
    ensures r.Ok? ==> |r.value| == |plan|
    ensures r.Ok? ==> forall i :: 0 <= i < |plan| ==> r.value[i] == source(plan[i]).value.GetOr([])
    ensures r.Err? ==> exists i :: 0 <= i < |plan| && source(plan[i]) == Err(r.error)
                                    && forall j :: 0 <= j < i ==> source(plan[j]).Ok?
  {
    if plan == [] then Ok([])
    else
      match FetchPage(source, plan[0])
      case Err(e) => Err(e)
      case Ok(first) =>
        match FetchAll(source, plan[1..])
        case Err(e) =>
          assert exists i :: 0 <= i < |plan[1..]| && source(plan[1..][i]) == Err(e)
                               && forall j :: 0 <= j < i ==> source(plan[1..][j]).Ok?;
          var i :| 0 <= i < |plan[1..]| && source(plan[1..][i]) == Err(e)
                   && forall j :: 0 <= j < i ==> source(plan[1..][j]).Ok?;
          assert source(plan[i + 1]) == Err(e);
          assert forall j :: 0 <= j < i + 1 ==> source(plan[j]).Ok? by {
            forall j | 0 <= j < i + 1 ensures source(plan[j]).Ok? {
              if j > 0 { assert plan[j] == plan[1..][j - 1]; }
            }
          }
          Err(e)
        case Ok(rest) => Ok([first] + rest)
  }

  /** Page `i` of `plan` is the first one, in plan order, whose request throws. */
  predicate FirstFailure(source: PageSource, plan: seq<PageRequest>, i: int) {
    && 0 <= i < |plan|
    && source(plan[i]).Err?
    && forall j :: 0 <= j < i ==> source(plan[j]).Ok?
  }

  /** The fan-out fails with the exception of the first page that throws. */
  lemma FetchAllFirstFailure(source: PageSource, plan: seq<PageRequest>, i: int)
    requires FirstFailure(source, plan, i)
    ensures FetchAll(source, plan) == Err(source(plan[i]).error)
  {
    var r := FetchAll(source, plan);
    var k :| 0 <= k < |plan| && source(plan[k]) == Err(r.error)
             && forall j :: 0 <= j < k ==> source(plan[j]).Ok?;
    assert k == i;
  }

  /** Every first failing page names the exception the fan-out rethrows. */
  lemma AbortsOnFirstFailure(source: PageSource, plan: seq<PageRequest>)
    ensures forall i :: FirstFailure(source, plan, i) ==> FetchAll(source, plan) == Err(source(plan[i]).error)
  {
    forall i | FirstFailure(source, plan, i) ensures FetchAll(source, plan) == Err(source(plan[i]).error) {
      FetchAllFirstFailure(source, plan, i);
    }
  }

  /** What the page at `req` contributes when it does not throw. */
  function PageOf(source: PageSource, req: PageRequest): seq<Option<Ticker>> {
    match source(req)
    case Ok(Some(page)) => page
    case _ => []
  }

  /** Every ticker the pages of `plan` returned, page after page. */
  function Returned(source: PageSource, plan: seq<PageRequest>): seq<Option<Ticker>> {
    Flatten(seq(|plan|, i requires 0 <= i < |plan| => PageOf(source, plan[i])))
  }

  /** When no page throws, `FetchAll` hands on exactly the returned tickers. */
  lemma FetchAllReturns(source: PageSource, plan: seq<PageRequest>)
    requires FetchAll(source, plan).Ok?
    ensures Flatten(FetchAll(source, plan).value) == Returned(source, plan)
  {
    var pages := FetchAll(source, plan).value;
    assert pages == seq(|plan|, i requires 0 <= i < |plan| => PageOf(source, plan[i]));
  }

  /** `SelectMany(coins => coins)`: the pages' items, page after page. */
  function Flatten<T(!new)>(pages: seq<seq<T>>): (r: seq<T>)
    ensures forall x :: x in r <==> exists i :: 0 <= i < |pages| && x in pages[i]
  {
    if pages == [] then []
    else
      var rest := Flatten(pages[1..]);
      FlattenMembers(pages, rest);
      pages[0] + rest
  }

  /** An item is on a later page exactly when it is in the flattening of the later pages. */
  lemma FlattenMembers<T>(pages: seq<seq<T>>, rest: seq<T>)
    requires pages != []
    requires forall x :: x in rest <==> exists i :: 0 <= i < |pages[1..]| && x in pages[1..][i]
    ensures forall x :: x in pages[0] + rest <==> exists i :: 0 <= i < |pages| && x in pages[i]
  {
    forall x | exists i :: 1 <= i < |pages| && x in pages[i]
      ensures x in rest
    {
      var i :| 1 <= i < |pages| && x in pages[i];
      assert x in pages[1..][i - 1];
    }
  }

  /** `SelectMany` keeps page order and repeats: flattening a concatenation of page
      lists is flattening each in turn. */
  lemma {:induction false} FlattenAppend<T(!new)>(a: seq<seq<T>>, b: seq<seq<T>>)
    ensures Flatten(a + b) == Flatten(a) + Flatten(b)
    decreases |a|
  {
    if a == [] {
      assert a + b == b;
    } else {
      FlattenAppend(a[1..], b);
      assert (a + b)[0] == a[0] && (a + b)[1..] == a[1..] + b;
    }
  }

  /** The last page's items come last, after everything before them. */
  lemma FlattenSnoc<T(!new)>(pages: seq<seq<T>>)
    requires pages != []
    ensures Flatten(pages) == Flatten(pages[..|pages| - 1]) + pages[|pages| - 1]
  {
    var last := pages[|pages| - 1];
    assert pages == pages[..|pages| - 1] + [last];
    FlattenAppend(pages[..|pages| - 1], [last]);
    assert Flatten([last]) == last + Flatten([last][1..]);
  }
}
