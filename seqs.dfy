/**
 * Sequence combinators shared by the collectors, the store and the exporters:
 * list comprehensions with a filter (`Filter`, `FilterMap`) and the ordering
 * that an SQL `ORDER BY` imposes (`SortBy`).
 */
module Seqs {
  import opened Wrappers

  /** `[x for x in xs if p(x)]` */
  function Filter<T>(p: T -> bool, xs: seq<T>): (ys: seq<T>)
    ensures |ys| <= |xs|
    ensures forall y :: y in ys ==> y in xs && p(y)
    decreases |xs|
  {
    if xs == [] then []
    else Filter(p, xs[..|xs| - 1]) + (if p(xs[|xs| - 1]) then [xs[|xs| - 1]] else [])
  }

  /** Every element that satisfies `p` is kept. */
  lemma {:induction false} FilterKeeps<T>(p: T -> bool, xs: seq<T>, x: T)
    requires x in xs && p(x)
    ensures x in Filter(p, xs)
    decreases |xs|
  {
    var n := |xs| - 1;
    if x != xs[n] {
      assert x in xs[..n];
      FilterKeeps(p, xs[..n], x);
    }
  }

  /** Filtering distributes over concatenation, so the kept elements stay in input order. */
  lemma {:induction false} FilterAppend<T>(p: T -> bool, xs: seq<T>, ys: seq<T>)
    ensures Filter(p, xs + ys) == Filter(p, xs) + Filter(p, ys)
    decreases |ys|
  {
    if ys == [] {
      assert xs + ys == xs;
    } else {
      var n := |ys| - 1;
      assert (xs + ys)[..|xs + ys| - 1] == xs + ys[..n];
      FilterAppend(p, xs, ys[..n]);
    }
  }

  /** A stricter filter keeps no more elements. */
  lemma {:induction false} FilterStricter<T>(p: T -> bool, q: T -> bool, xs: seq<T>)
    requires forall x :: q(x) ==> p(x)
    ensures |Filter(q, xs)| <= |Filter(p, xs)|
    decreases |xs|
  {
    if xs != [] {
      FilterStricter(p, q, xs[..|xs| - 1]);
    }
  }

  /** A filter that every element passes keeps everything. */
  lemma {:induction false} FilterAll<T>(p: T -> bool, xs: seq<T>)
    requires forall x :: x in xs ==> p(x)
    ensures Filter(p, xs) == xs
    decreases |xs|
  {
    if xs != [] {
      var n := |xs| - 1;
      forall x | x in xs[..n] ensures p(x) {
        assert x in xs;
      }
      FilterAll(p, xs[..n]);
      assert xs[..n] + [xs[n]] == xs;
    }
  }

  /** The list an optional value contributes: `[y]` for `Some(y)`, nothing for `None`. */
  function Emit<U>(o: Option<U>): seq<U> {
    match o
    case Some(y) => [y]
    case None => []
  }

  /** `[g(x) for x in xs if ...]` where `f` yields `None` for the skipped elements. */
  function FilterMap<T, U>(f: T -> Option<U>, xs: seq<T>): (ys: seq<U>)
    ensures |ys| <= |xs|
    decreases |xs|
  {
    if xs == [] then []
    else
      FilterMap(f, xs[..|xs| - 1]) + Emit(f(xs[|xs| - 1]))
  }

  /** What one more input contributes to a `FilterMap` over a prefix. */
  lemma FilterMapStep<T, U>(f: T -> Option<U>, xs: seq<T>, i: nat)
    requires i < |xs|
    ensures FilterMap(f, xs[..i + 1]) == FilterMap(f, xs[..i]) + Emit(f(xs[i]))
  {
    assert xs[..i + 1][..i] == xs[..i];
  }

  /** The results are exactly the `Some` values that `f` yields on the inputs. */
  lemma {:induction false} FilterMapMember<T, U>(f: T -> Option<U>, xs: seq<T>, y: U)
    ensures y in FilterMap(f, xs) <==> exists i :: 0 <= i < |xs| && f(xs[i]) == Some(y)
    decreases |xs|
  {
    if xs != [] {
      var n := |xs| - 1;
      FilterMapMember(f, xs[..n], y);
      if exists i :: 0 <= i < |xs| && f(xs[i]) == Some(y) {
        var i :| 0 <= i < |xs| && f(xs[i]) == Some(y);
        if i < n {
          assert xs[..n][i] == xs[i];
        }
      }
      if exists i :: 0 <= i < n && f(xs[..n][i]) == Some(y) {
        var i :| 0 <= i < n && f(xs[..n][i]) == Some(y);
        assert xs[i] == xs[..n][i];
      }
    }
  }

  /** Mapping distributes over concatenation, so results keep the order of their inputs. */
  lemma {:induction false} FilterMapAppend<T, U>(f: T -> Option<U>, xs: seq<T>, ys: seq<T>)
    ensures FilterMap(f, xs + ys) == FilterMap(f, xs) + FilterMap(f, ys)
    decreases |ys|
  {
    if ys == [] {
      assert xs + ys == xs;
    } else {
      var n := |ys| - 1;
      assert (xs + ys)[..|xs + ys| - 1] == xs + ys[..n];
      FilterMapAppend(f, xs, ys[..n]);
    }
  }

  /** `before` is total and transitive: a sort key with ties allowed. */
  ghost predicate TotalPreorder<T(!new)>(before: (T, T) -> bool) {
    (forall x, y :: before(x, y) || before(y, x)) &&
    (forall x, y, z :: before(x, y) && before(y, z) ==> before(x, z))
  }

  predicate SortedBy<T>(s: seq<T>, before: (T, T) -> bool) {
    forall i, j :: 0 <= i < j < |s| ==> before(s[i], s[j])
  }

  /** Places `x` before the first element it sorts before. */
  function InsertBy<T>(x: T, s: seq<T>, before: (T, T) -> bool): (r: seq<T>)
    ensures multiset(r) == multiset(s) + multiset{x}
    decreases |s|
  {
    if s == [] || before(x, s[0]) then [x] + s
    else
      assert s == [s[0]] + s[1..];
      [s[0]] + InsertBy(x, s[1..], before)
  }

  /** `ORDER BY`: an insertion sort on `before`. The result is a permutation of the input. */
  function SortBy<T>(xs: seq<T>, before: (T, T) -> bool): (r: seq<T>)
    ensures multiset(r) == multiset(xs)
    decreases |xs|
  {
    if xs == [] then []
    else
      assert xs == [xs[0]] + xs[1..];
      InsertBy(xs[0], SortBy(xs[1..], before), before)
  }

  lemma {:induction false} InsertBySorted<T(!new)>(x: T, s: seq<T>, before: (T, T) -> bool)
    requires TotalPreorder(before) && SortedBy(s, before)
    ensures SortedBy(InsertBy(x, s, before), before)
    decreases |s|
  {
    if s == [] || before(x, s[0]) {
      var r := [x] + s;
      forall i, j | 0 <= i < j < |r| ensures before(r[i], r[j]) {
        if i == 0 && j > 1 {
          assert before(x, s[0]) && before(s[0], s[j - 1]);
        }
      }
    } else {
      assert before(s[0], x);
      var tail := InsertBy(x, s[1..], before);
      assert SortedBy(s[1..], before);
      InsertBySorted(x, s[1..], before);
      var r := [s[0]] + tail;
      forall i, j | 0 <= i < j < |r| ensures before(r[i], r[j]) {
        if i == 0 {
          var y := tail[j - 1];
          assert y in multiset(tail);
          assert y == x || y in multiset(s[1..]);
          if y != x {
            var k :| 0 <= k < |s[1..]| && s[1..][k] == y;
            assert s[k + 1] == y;
          }
        }
      }
    }
  }

  /** The result of `SortBy` is ordered by `before`. */
  lemma {:induction false} SortBySorted<T(!new)>(xs: seq<T>, before: (T, T) -> bool)
    requires TotalPreorder(before)
    ensures SortedBy(SortBy(xs, before), before)
    decreases |xs|
  {
    if xs != [] {
      SortBySorted(xs[1..], before);
      InsertBySorted(xs[0], SortBy(xs[1..], before), before);
    }
  }

  // ---------------------------------------------------------------- writing in order

  /** `f(xs[0]) + f(xs[1]) + ...`: the pieces a loop writes, one per element, in order. */
  function ConcatMap<T, U>(f: T -> seq<U>, xs: seq<T>): seq<U>
    decreases |xs|
  {
    if xs == [] then [] else ConcatMap(f, xs[..|xs| - 1]) + f(xs[|xs| - 1])
  }

  /** What one more element adds to the pieces written for a prefix. */
  lemma ConcatMapStep<T, U>(f: T -> seq<U>, xs: seq<T>, i: nat)
    requires i < |xs|
    ensures ConcatMap(f, xs[..i + 1]) == ConcatMap(f, xs[..i]) + f(xs[i])
  {
    assert xs[..i + 1][..i] == xs[..i];
  }

  /** The pieces written for a concatenation are those of each part, in order. */
  lemma {:induction false} ConcatMapAppend<T, U>(f: T -> seq<U>, xs: seq<T>, ys: seq<T>)
    ensures ConcatMap(f, xs + ys) == ConcatMap(f, xs) + ConcatMap(f, ys)
    decreases |ys|
  {
    if ys == [] {
      assert xs + ys == xs;
    } else {
      var n := |ys| - 1;
      assert (xs + ys)[..|xs + ys| - 1] == xs + ys[..n];
      ConcatMapAppend(f, xs, ys[..n]);
    }
  }

  /** The first element's piece comes first. */
  lemma ConcatMapFront<T, U>(f: T -> seq<U>, xs: seq<T>)
    requires xs != []
    ensures ConcatMap(f, xs) == f(xs[0]) + ConcatMap(f, xs[1..])
  {
    ConcatMapAppend(f, [xs[0]], xs[1..]);
    assert [xs[0]] + xs[1..] == xs;
    assert [xs[0]][..0] == [];
  }

  /**
   * Filtering with `r`, which holds exactly where one of two exclusive tests
   * holds, keeps the elements the two filters keep together.
   */
  lemma {:induction false} FilterDisjoint<T>(p: T -> bool, q: T -> bool, r: T -> bool, xs: seq<T>)
    requires forall x :: r(x) == (p(x) || q(x))
    requires forall x :: !(p(x) && q(x))
    ensures multiset(Filter(r, xs)) == multiset(Filter(p, xs)) + multiset(Filter(q, xs))
    decreases |xs|
  {
    if xs != [] {
      FilterDisjoint(p, q, r, xs[..|xs| - 1]);
    }
  }
}
