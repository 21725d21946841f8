/** Filtering, and how it meets sorting. */
module Filtering {
  import opened Sorting

  function Filter<T>(xs: seq<T>, p: T -> bool): seq<T> {
    if xs == [] then [] else (if p(xs[0]) then [xs[0]] else []) + Filter(xs[1..], p)
  }

  lemma {:induction false} FilterMembers<T>(xs: seq<T>, p: T -> bool)
    ensures forall x :: x in Filter(xs, p) <==> x in xs && p(x)
  {
    if xs != [] {
      FilterMembers(xs[1..], p);
      assert xs == [xs[0]] + xs[1..];
    }
  }

  lemma {:induction false} FilterOrigin<T>(xs: seq<T>, p: T -> bool, j: nat) returns (i: nat)
    requires j < |Filter(xs, p)|
    ensures i < |xs| && xs[i] == Filter(xs, p)[j] && p(xs[i])
  {
    if p(xs[0]) && j == 0 {
      i := 0;
    } else {
      i := FilterOrigin(xs[1..], p, if p(xs[0]) then j - 1 else j);
      i := i + 1;
    }
  }

  lemma {:induction false} FilterAll<T>(xs: seq<T>, p: T -> bool)
    requires forall i :: 0 <= i < |xs| ==> p(xs[i])
    ensures Filter(xs, p) == xs
  {
    if xs != [] { FilterAll(xs[1..], p); }
  }

  lemma {:induction false} FilterAppend<T>(a: seq<T>, b: seq<T>, p: T -> bool)
    ensures Filter(a + b, p) == Filter(a, p) + Filter(b, p)
  {
    if a == [] {
      assert a + b == b;
    } else {
      assert (a + b)[0] == a[0] && (a + b)[1..] == a[1..] + b;
      FilterAppend(a[1..], b, p);
      var head := if p(a[0]) then [a[0]] else [];
      assert Filter(a + b, p) == head + (Filter(a[1..], p) + Filter(b, p));
      assert head + (Filter(a[1..], p) + Filter(b, p)) == (head + Filter(a[1..], p)) + Filter(b, p);
    }
  }

  /** Taking one element out of a list takes it out of the filtered list. */
  lemma FilterWithout<T>(b: seq<T>, k: nat, p: T -> bool)
    requires k < |b|
    ensures var rest := b[..k] + b[k + 1..];
      && multiset(b) == multiset([b[k]]) + multiset(rest)
      && multiset(Filter(b, p)) == multiset(Filter([b[k]], p)) + multiset(Filter(rest, p))
  {
    var x, y := b[..k], b[k + 1..];
    assert b == x + ([b[k]] + y);
    FilterAppend(x, [b[k]] + y, p);
    FilterAppend([b[k]], y, p);
    FilterAppend(x, y, p);
  }

  lemma {:induction false} FilterForgetsOrder<T>(a: seq<T>, b: seq<T>, p: T -> bool)
    requires multiset(a) == multiset(b)
    ensures multiset(Filter(a, p)) == multiset(Filter(b, p))
  {
    if a == [] {
      assert |b| == |multiset(b)| == |multiset(a)| == 0;
    } else {
      var k := PositionOf(b, a[0], a);
      var rest := b[..k] + b[k + 1..];
      assert a[..0] + a[1..] == a[1..];
      assert multiset(a[1..]) == multiset(rest) by {
        FilterWithout(a, 0, p);
        FilterWithout(b, k, p);
        Cancel(multiset([a[0]]), multiset(a[1..]), multiset(rest));
      }
      FilterForgetsOrder(a[1..], rest, p);
      FilterWithout(a, 0, p);
      FilterWithout(b, k, p);
    }
  }

  lemma PositionOf<T>(b: seq<T>, x: T, a: seq<T>) returns (k: nat)
    requires multiset(a) == multiset(b) && x in a
    ensures k < |b| && b[k] == x
  {
    assert x in multiset(b);
    k :| 0 <= k < |b| && b[k] == x;
  }

  lemma Cancel<T>(x: multiset<T>, a: multiset<T>, b: multiset<T>)
    requires x + a == x + b
    ensures a == b
  {
    assert (x + a) - x == a && (x + b) - x == b;
  }

  // ------------------------------------------------------------------------------
  // Lists whose elements have different keys.

  ghost predicate DistinctOn<T, K>(xs: seq<T>, key: T -> K) {
    forall i, j :: 0 <= i < j < |xs| ==> key(xs[i]) != key(xs[j])
  }

  lemma {:induction false} DistinctFilter<T, K>(xs: seq<T>, key: T -> K, p: T -> bool)
    requires DistinctOn(xs, key)
    ensures DistinctOn(Filter(xs, p), key)
  {
    if xs != [] {
      var rest := xs[1..];
      assert forall i :: 0 <= i < |rest| ==> rest[i] == xs[i + 1];
      DistinctFilter(rest, key, p);
      var kept := Filter(rest, p);
      forall j | 0 <= j < |kept| ensures key(kept[j]) != key(xs[0]) {
        var i := FilterOrigin(rest, p, j);
      }
    }
  }

  lemma {:induction false} DistinctCount<T, K>(xs: seq<T>, key: T -> K, x: T)
    requires DistinctOn(xs, key)
    ensures multiset(xs)[x] == if x in xs then 1 else 0
  {
    if xs != [] {
      var rest := xs[1..];
      assert xs == [xs[0]] + rest;
      assert forall i :: 0 <= i < |rest| ==> rest[i] == xs[i + 1];
      DistinctCount(rest, key, x);
      assert xs[0] !in rest;
    }
  }

  /** Different keys survive any reordering. */
  lemma DistinctPermuted<T, K>(a: seq<T>, b: seq<T>, key: T -> K)
    requires DistinctOn(a, key) && multiset(a) == multiset(b)
    ensures DistinctOn(b, key)
  {
    forall i, j | 0 <= i < j < |b| ensures key(b[i]) != key(b[j]) {
      if b[i] == b[j] {
        TwiceInMultiset(b, i, j);
        DistinctCount(a, key, b[i]);
      } else {
        assert b[i] in multiset(a) && b[j] in multiset(a);
      }
    }
  }
}
