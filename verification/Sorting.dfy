/** Insertion sort by an integer key, and what it does to lists whose keys are unique. */
module Sorting {
  function InsertBy<T>(key: T -> int, x: T, sorted: seq<T>): seq<T> {
    if sorted == [] || key(x) <= key(sorted[0]) then [x] + sorted else [sorted[0]] + InsertBy(key, x, sorted[1..])
  }

  function SortBy<T>(key: T -> int, xs: seq<T>): seq<T> {
    if xs == [] then [] else InsertBy(key, xs[0], SortBy(key, xs[1..]))
  }

  function Map<T, U>(f: T -> U, xs: seq<T>): (ys: seq<U>)
    ensures |ys| == |xs|
    ensures forall i :: 0 <= i < |xs| ==> ys[i] == f(xs[i])
  {
    if xs == [] then [] else [f(xs[0])] + Map(f, xs[1..])
  }

  predicate Ascends<T>(key: T -> int, xs: seq<T>) {
    forall i, j :: 0 <= i < j < |xs| ==> key(xs[i]) <= key(xs[j])
  }

  predicate StrictlyAscends<T>(key: T -> int, xs: seq<T>) {
    forall i, j :: 0 <= i < j < |xs| ==> key(xs[i]) < key(xs[j])
  }

  /** No two elements agree on f. */
  predicate Apart<T, U(==)>(f: T -> U, xs: seq<T>) {
    forall i, j :: 0 <= i < j < |xs| ==> f(xs[i]) != f(xs[j])
  }

  // ---------- Sorting permutes and puts in order ----------

  lemma {:induction false} InsertByHas<T(!new)>(key: T -> int, x: T, sorted: seq<T>)
    ensures multiset(InsertBy(key, x, sorted)) == multiset(sorted) + multiset{x}
    ensures forall y :: y in InsertBy(key, x, sorted) <==> y == x || y in sorted
    ensures |InsertBy(key, x, sorted)| == |sorted| + 1
  {
    if sorted != [] && key(x) > key(sorted[0]) {
      InsertByHas(key, x, sorted[1..]);
      assert sorted == [sorted[0]] + sorted[1..];
    }
  }

  lemma Located<T(!new)>(part: seq<T>, whole: seq<T>, i: nat)
    requires i < |part| && forall y :: y in part ==> y in whole
    ensures exists j :: 0 <= j < |whole| && whole[j] == part[i]
  {
    assert part[i] in part;
  }

  lemma {:induction false} InsertByAscends<T(!new)>(key: T -> int, x: T, sorted: seq<T>)
    requires Ascends(key, sorted)
    ensures Ascends(key, InsertBy(key, x, sorted))
  {
    if sorted != [] && key(x) > key(sorted[0]) {
      InsertByAscends(key, x, sorted[1..]);
      InsertByHas(key, x, sorted[1..]);
      var rest := InsertBy(key, x, sorted[1..]);
      forall i | 0 <= i < |rest|
        ensures key(sorted[0]) <= key(rest[i])
      {
        Located(rest, [x] + sorted[1..], i);
      }
    }
  }

  lemma {:induction false} SortByIs<T(!new)>(key: T -> int, xs: seq<T>)
    ensures var r := SortBy(key, xs);
            && multiset(r) == multiset(xs) && |r| == |xs| && Ascends(key, r)
            && forall x :: x in r <==> x in xs
  {
    if xs != [] {
      var rest := SortBy(key, xs[1..]);
      SortByIs(key, xs[1..]);
      InsertByAscends(key, xs[0], rest);
      InsertByHas(key, xs[0], rest);
      assert xs == [xs[0]] + xs[1..];
    }
  }

  // ---------- Lists with unique keys ----------

  lemma {:induction false} InsertByKeepsApart<T(!new), U>(key: T -> int, f: T -> U, x: T, sorted: seq<T>)
    requires Apart(f, sorted) && forall i :: 0 <= i < |sorted| ==> f(sorted[i]) != f(x)
    ensures Apart(f, InsertBy(key, x, sorted))
  {
    if sorted != [] && key(x) > key(sorted[0]) {
      InsertByKeepsApart(key, f, x, sorted[1..]);
      InsertByHas(key, x, sorted[1..]);
      var rest := InsertBy(key, x, sorted[1..]);
      forall i | 0 <= i < |rest|
        ensures f(rest[i]) != f(sorted[0])
      {
        Located(rest, [x] + sorted[1..], i);
      }
    }
  }

  lemma {:induction false} SortByKeepsApart<T(!new), U>(key: T -> int, f: T -> U, xs: seq<T>)
    requires Apart(f, xs)
    ensures Apart(f, SortBy(key, xs))
  {
    hide InsertBy;
    if xs != [] {
      var rest := SortBy(key, xs[1..]);
      SortByKeepsApart(key, f, xs[1..]);
      SortByIs(key, xs[1..]);
      forall i | 0 <= i < |rest|
        ensures f(rest[i]) != f(xs[0])
      {
        Located(rest, xs[1..], i);
      }
      InsertByKeepsApart(key, f, xs[0], rest);
    }
  }

  /** With unique keys the sorted list rises strictly. */
  lemma SortByRises<T(!new)>(key: T -> int, xs: seq<T>)
    requires Apart(key, xs)
    ensures StrictlyAscends(key, SortBy(key, xs))
  {
    SortByIs(key, xs);
    SortByKeepsApart(key, key, xs);
  }

  /** A strictly rising list is determined by its elements. */
  lemma {:induction false} StrictIsUnique<T(!new)>(key: T -> int, a: seq<T>, b: seq<T>)
    requires StrictlyAscends(key, a) && StrictlyAscends(key, b) && forall x :: x in a <==> x in b
    ensures a == b
  {
    assert b != [] ==> b[0] in b;
    if a != [] {
      assert a[0] in b && b[0] in a;
      assert a[0] == b[0];
      forall x
        ensures x in a[1..] <==> x in b[1..]
      {
        assert x in a[1..] <==> x in a && x != a[0];
        assert x in b[1..] <==> x in b && x != b[0];
      }
      StrictIsUnique(key, a[1..], b[1..]);
    }
  }

  /** Two lists of the same elements under unique keys are sorted into one. */
  lemma SortByForgetsOrder<T(!new)>(key: T -> int, a: seq<T>, b: seq<T>)
    requires Apart(key, a) && Apart(key, b) && forall x :: x in a <==> x in b
    ensures SortBy(key, a) == SortBy(key, b)
  {
    SortByRises(key, a);
    SortByRises(key, b);
    SortByIs(key, a);
    SortByIs(key, b);
    StrictIsUnique(key, SortBy(key, a), SortBy(key, b));
  }

  // ---------- Sorting and mapping ----------

  lemma {:induction false} MapAppend<T(!new), U>(f: T -> U, xs: seq<T>, last: T)
    ensures Map(f, xs + [last]) == Map(f, xs) + [f(last)]
  {
    if xs != [] {
      MapAppend(f, xs[1..], last);
      assert (xs + [last])[1..] == xs[1..] + [last];
    }
  }

  lemma {:induction false} InsertThenMap<T(!new), U>(f: T -> U, key: T -> int, mapped: U -> int, x: T, sorted: seq<T>)
    requires forall y :: mapped(f(y)) == key(y)
    ensures Map(f, InsertBy(key, x, sorted)) == InsertBy(mapped, f(x), Map(f, sorted))
  {
    if sorted != [] && key(x) > key(sorted[0]) {
      InsertThenMap(f, key, mapped, x, sorted[1..]);
      var rest := InsertBy(key, x, sorted[1..]);
      assert ([sorted[0]] + rest)[1..] == rest;
    } else {
      assert ([x] + sorted)[1..] == sorted;
    }
  }

  /** When mapping keeps the keys, sorting and mapping is mapping and sorting. */
  lemma {:induction false} SortThenMap<T(!new), U>(f: T -> U, key: T -> int, mapped: U -> int, xs: seq<T>)
    requires forall y :: mapped(f(y)) == key(y)
    ensures Map(f, SortBy(key, xs)) == SortBy(mapped, Map(f, xs))
  {
    if xs != [] {
      SortThenMap(f, key, mapped, xs[1..]);
      InsertThenMap(f, key, mapped, xs[0], SortBy(key, xs[1..]));
    }
  }
}
