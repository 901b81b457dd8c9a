/** Sequence helpers: mapping, filtering and summing, and why a sum does not depend on
    the order of its terms. */
module Seqs {
  import opened Wrappers

  /** `f(xs[0]) + f(xs[1]) + ...`, accumulated from the front as a `foreach` loop does. */
  function Sum<T>(xs: seq<T>, f: T -> real): real
    decreases |xs|
  {
    if xs == [] then 0.0 else f(xs[0]) + Sum(xs[1..], f)
  }

  /** `f` applied to every element, in order. */
  function MapSeq<A, B>(xs: seq<A>, f: A -> B): (ys: seq<B>)
    ensures |ys| == |xs|
    ensures forall i :: 0 <= i < |xs| ==> ys[i] == f(xs[i])
  {
    seq(|xs|, i requires 0 <= i < |xs| => f(xs[i]))
  }

  /** The values `f` yields, in order, skipping the elements it rejects. */
  function FilterMap<A, B>(xs: seq<A>, f: A -> Option<B>): (ys: seq<B>)
    ensures |ys| <= |xs|
    decreases |xs|
  {
    if xs == [] then []
    else
      var rest := FilterMap(xs[1..], f);
      match f(xs[0])
      case None => rest
      case Some(y) => [y] + rest
  }

  /** `f` yields `y` at position `i`. */
  ghost predicate YieldsAt<A, B>(xs: seq<A>, f: A -> Option<B>, i: int, y: B) {
    0 <= i < |xs| && f(xs[i]) == Some(y)
  }

  lemma {:induction false} FilterMapAppend<A, B>(a: seq<A>, b: seq<A>, f: A -> Option<B>)
    ensures FilterMap(a + b, f) == FilterMap(a, f) + FilterMap(b, f)
    decreases |a|
  {
    if a == [] {
      assert a + b == b;
    } else {
      assert (a + b)[0] == a[0];
      assert (a + b)[1..] == a[1..] + b;
      FilterMapAppend(a[1..], b, f);
    }
  }

  /** Exactly the values yielded somewhere are kept. */
  lemma {:induction false} FilterMapMembers<A, B>(xs: seq<A>, f: A -> Option<B>)
    ensures forall y :: y in FilterMap(xs, f) <==> exists i :: YieldsAt(xs, f, i, y)
    decreases |xs|
  {
    if xs != [] {
      FilterMapMembers(xs[1..], f);
      forall y ensures y in FilterMap(xs, f) <==> exists i :: YieldsAt(xs, f, i, y) {
        assert y in FilterMap(xs, f) <==> (f(xs[0]) == Some(y) || y in FilterMap(xs[1..], f));
        if y in FilterMap(xs, f) {
          if f(xs[0]) == Some(y) {
            assert YieldsAt(xs, f, 0, y);
          } else {
            var i :| YieldsAt(xs[1..], f, i, y);
            assert YieldsAt(xs, f, i + 1, y);
          }
        }
        if i :| YieldsAt(xs, f, i, y) {
          if i > 0 {
            assert YieldsAt(xs[1..], f, i - 1, y);
          }
        }
      }
    }
  }

  /** The values kept before, at and after a position that yields one. */
  lemma FilterMapAround<A, B>(xs: seq<A>, f: A -> Option<B>, i: int)
    requires 0 <= i < |xs| && f(xs[i]).Some?
    ensures FilterMap(xs, f) == FilterMap(xs[..i], f) + [f(xs[i]).value] + FilterMap(xs[i + 1..], f)
  {
    assert xs == xs[..i] + [xs[i]] + xs[i + 1..];
    FilterMapParts(xs[..i], xs[i], xs[i + 1..], f);
  }

  /** `FilterMapAround` for a sequence given as its three parts. */
  lemma FilterMapParts<A, B>(pre: seq<A>, x: A, post: seq<A>, f: A -> Option<B>)
    requires f(x).Some?
    ensures FilterMap(pre + [x] + post, f) == FilterMap(pre, f) + [f(x).value] + FilterMap(post, f)
  {
    assert pre + [x] + post == pre + ([x] + post);
    FilterMapAppend(pre, [x] + post, f);
    FilterMapCons(x, post, f);
  }

  /** A kept element in front of the rest. */
  lemma FilterMapCons<A, B>(x: A, rest: seq<A>, f: A -> Option<B>)
    requires f(x).Some?
    ensures FilterMap([x] + rest, f) == [f(x).value] + FilterMap(rest, f)
  {
    assert ([x] + rest)[1..] == rest;
  }

  /** No element occurs twice. */
  predicate Distinct<T(==)>(xs: seq<T>) {
    forall i, j :: 0 <= i < j < |xs| ==> xs[i] != xs[j]
  }

  lemma {:induction false} SumAppend<T>(a: seq<T>, b: seq<T>, f: T -> real)
    ensures Sum(a + b, f) == Sum(a, f) + Sum(b, f)
    decreases |a|
  {
    if a == [] {
      assert a + b == b;
    } else {
      assert (a + b)[1..] == a[1..] + b;
      SumAppend(a[1..], b, f);
    }
  }

  /** Taking out the element at `k`. */
  lemma RemoveAt<T>(b: seq<T>, k: int)
    requires 0 <= k < |b|
    ensures b == b[..k] + [b[k]] + b[k + 1..]
    ensures multiset(b[..k] + b[k + 1..]) == multiset(b) - multiset{b[k]}
  {
    assert b == b[..k] + [b[k]] + b[k + 1..];
    assert multiset(b) == multiset(b[..k]) + multiset{b[k]} + multiset(b[k + 1..]);
  }

  /** Where `x` first occurs in `b`. */
  function IndexOf<T(==)>(b: seq<T>, x: T): (k: int)
    requires x in multiset(b)
    ensures 0 <= k < |b| && b[k] == x
  {
    if b[0] == x then 0
    else
      assert b == [b[0]] + b[1..];
      1 + IndexOf(b[1..], x)
  }

  /** Taking the first element of `a` out of `b` leaves a rearrangement of the rest of `a`. */
  lemma Rest<T>(a: seq<T>, b: seq<T>, k: int)
    requires multiset(a) == multiset(b) && a != []
    requires 0 <= k < |b| && b[k] == a[0]
    ensures multiset(a[1..]) == multiset(b[..k] + b[k + 1..])
  {
    RemoveAt(b, k);
    RemoveAt(a, 0);
    assert a[..0] + a[1..] == a[1..];
  }

  /** Rearranging the terms does not change the sum. */
  lemma {:induction false} SumPermutation<T>(a: seq<T>, b: seq<T>, f: T -> real)
    requires multiset(a) == multiset(b)
    ensures Sum(a, f) == Sum(b, f)
    decreases |a|
  {
    if a != [] {
      var k := IndexOf(b, a[0]);
      var rest := b[..k] + b[k + 1..];
      Rest(a, b, k);
      SumPermutation(a[1..], rest, f);
      SumAppend(b[..k], b[k + 1..], f);
      SumAppend(b[..k], [b[k]] + b[k + 1..], f);
      assert b == b[..k] + ([b[k]] + b[k + 1..]);
    }
  }

  /** Mapping a rearrangement gives a rearrangement. */
  lemma {:induction false} MapPermutation<A, B>(a: seq<A>, b: seq<A>, f: A -> B)
    requires multiset(a) == multiset(b)
    ensures multiset(MapSeq(a, f)) == multiset(MapSeq(b, f))
    decreases |a|
  {
    if a != [] {
      var k := IndexOf(b, a[0]);
      var rest := b[..k] + b[k + 1..];
      Rest(a, b, k);
      MapPermutation(a[1..], rest, f);
      MapTakeOut(b, k, f);
      assert MapSeq(a, f) == [f(a[0])] + MapSeq(a[1..], f);
    }
  }

  /** Mapping `b` gives the image of `b[k]` besides the mapping of the others. */
  lemma MapTakeOut<A, B>(b: seq<A>, k: int, f: A -> B)
    requires 0 <= k < |b|
    ensures multiset(MapSeq(b, f)) == multiset{f(b[k])} + multiset(MapSeq(b[..k] + b[k + 1..], f))
  {
    assert MapSeq(b[..k] + b[k + 1..], f) == MapSeq(b[..k], f) + MapSeq(b[k + 1..], f);
    assert MapSeq(b, f) == MapSeq(b[..k], f) + [f(b[k])] + MapSeq(b[k + 1..], f);
  }

  /** In a sequence without repeats every element occurs once. */
  lemma {:induction false} DistinctOnce<T>(xs: seq<T>, x: T)
    requires Distinct(xs)
    ensures multiset(xs)[x] == if x in xs then 1 else 0
    decreases |xs|
  {
    if xs != [] {
      assert xs == [xs[0]] + xs[1..];
      assert Distinct(xs[1..]) by {
        forall i, j | 0 <= i < j < |xs[1..]| ensures xs[1..][i] != xs[1..][j] {
          assert xs[1..][i] == xs[i + 1] && xs[1..][j] == xs[j + 1];
        }
      }
      DistinctOnce(xs[1..], x);
      if x == xs[0] {
        assert x !in xs[1..] by {
          forall i | 0 <= i < |xs[1..]| ensures xs[1..][i] != x {
            assert xs[1..][i] == xs[i + 1];
          }
        }
      }
    }
  }

  /** Two repeat-free sequences with the same elements are rearrangements of each other. */
  lemma SameElements<T>(a: seq<T>, b: seq<T>)
    requires Distinct(a) && Distinct(b)
    requires forall x :: x in a <==> x in b
    ensures multiset(a) == multiset(b)
  {
    forall x ensures multiset(a)[x] == multiset(b)[x] {
      DistinctOnce(a, x);
      DistinctOnce(b, x);
    }
  }
}
