/** Stable sorting by a comparison, and the reason why sorting makes results independent
    of input order: a sorted list of pairwise distinguishable elements is unique. */
module Sorting {

  ghost predicate TotalPreorder<T(!new)>(leq: (T, T) -> bool) {
    && (forall x, y :: leq(x, y) || leq(y, x))
    && (forall x, y, z :: leq(x, y) && leq(y, z) ==> leq(x, z))
  }

  ghost predicate Sorted<T>(xs: seq<T>, leq: (T, T) -> bool) {
    forall i, j :: 0 <= i < j < |xs| ==> leq(xs[i], xs[j])
  }

  /** No two different elements of `xs` compare both ways. */
  ghost predicate Distinguishes<T>(leq: (T, T) -> bool, xs: seq<T>) {
    forall x, y :: x in xs && y in xs && leq(x, y) && leq(y, x) ==> x == y
  }

  function Insert<T>(x: T, ys: seq<T>, leq: (T, T) -> bool): (r: seq<T>)
    ensures multiset(r) == multiset([x]) + multiset(ys)
  {
    if ys == [] then [x]
    else if leq(x, ys[0]) then [x] + ys
    else
      assert ys == [ys[0]] + ys[1..];
      [ys[0]] + Insert(x, ys[1..], leq)
  }

  function SortBy<T>(xs: seq<T>, leq: (T, T) -> bool): (r: seq<T>)
    ensures multiset(r) == multiset(xs)
  {
    if xs == [] then []
    else
      assert xs == [xs[0]] + xs[1..];
      Insert(xs[0], SortBy(xs[1..], leq), leq)
  }

  lemma {:induction false} InsertSorted<T(!new)>(x: T, ys: seq<T>, leq: (T, T) -> bool)
    requires TotalPreorder(leq) && Sorted(ys, leq)
    ensures Sorted(Insert(x, ys, leq), leq)
  {
    if ys != [] && !leq(x, ys[0]) {
      var rest := Insert(x, ys[1..], leq);
      InsertSorted(x, ys[1..], leq);
      forall j | 0 <= j < |rest| ensures leq(ys[0], rest[j]) {
        assert rest[j] in multiset(rest);
        assert rest[j] == x || rest[j] in ys[1..];
      }
    } else if ys != [] {
      forall j | 0 <= j < |ys| ensures leq(x, ys[j]) {
        assert leq(ys[0], ys[j]);
      }
    }
  }

  lemma {:induction false} SortBySorted<T(!new)>(xs: seq<T>, leq: (T, T) -> bool)
    requires TotalPreorder(leq)
    ensures Sorted(SortBy(xs, leq), leq)
  {
    if xs != [] {
      SortBySorted(xs[1..], leq);
      InsertSorted(xs[0], SortBy(xs[1..], leq), leq);
    }
  }

  lemma SameHead<T(!new)>(a: seq<T>, b: seq<T>, leq: (T, T) -> bool)
    requires Sorted(a, leq) && Sorted(b, leq) && multiset(a) == multiset(b) && a != []
    requires Distinguishes(leq, a) && TotalPreorder(leq)
    ensures b != [] && a[0] == b[0]
  {
    assert a[0] in multiset(b) && b[0] in multiset(a);
    assert leq(a[0], b[0]) && leq(b[0], a[0]);
  }

  lemma TailOf<T(!new)>(a: seq<T>, leq: (T, T) -> bool)
    requires a != [] && Sorted(a, leq) && Distinguishes(leq, a)
    ensures Sorted(a[1..], leq) && Distinguishes(leq, a[1..]) && multiset(a[1..]) == multiset(a) - multiset{a[0]}
  {
    assert a == [a[0]] + a[1..];
  }

  lemma SameMembersDistinguish<T(!new)>(a: seq<T>, b: seq<T>, leq: (T, T) -> bool)
    requires multiset(a) == multiset(b) && Distinguishes(leq, a)
    ensures Distinguishes(leq, b)
  {
    forall x | x in b ensures x in a { assert x in multiset(b); }
  }

  lemma {:induction false} SortedUnique<T(!new)>(a: seq<T>, b: seq<T>, leq: (T, T) -> bool)
    requires Sorted(a, leq) && Sorted(b, leq) && multiset(a) == multiset(b)
    requires Distinguishes(leq, a) && TotalPreorder(leq)
    ensures a == b
  {
    assert |a| == |multiset(a)| == |multiset(b)| == |b|;
    if a != [] {
      SameHead(a, b, leq);
      SameMembersDistinguish(a, b, leq);
      TailOf(a, leq);
      TailOf(b, leq);
      SortedUnique(a[1..], b[1..], leq);
    }
  }

  /** Sorting forgets the order of its input. */
  lemma SortForgetsOrder<T(!new)>(a: seq<T>, b: seq<T>, leq: (T, T) -> bool)
    requires multiset(a) == multiset(b) && Distinguishes(leq, a) && TotalPreorder(leq)
    ensures SortBy(a, leq) == SortBy(b, leq)
  {
    SortBySorted(a, leq);
    SortBySorted(b, leq);
    forall x | x in SortBy(a, leq) ensures x in a {
      assert x in multiset(SortBy(a, leq));
    }
    SortedUnique(SortBy(a, leq), SortBy(b, leq), leq);
  }

  lemma SortMembers<T>(xs: seq<T>, leq: (T, T) -> bool)
    ensures forall x :: x in SortBy(xs, leq) <==> x in xs
    ensures |SortBy(xs, leq)| == |xs|
  {
    assert |multiset(SortBy(xs, leq))| == |multiset(xs)|;
    assert forall x :: x in SortBy(xs, leq) <==> x in multiset(SortBy(xs, leq));
  }

  lemma TwiceInMultiset<T>(xs: seq<T>, i: nat, j: nat)
    requires i < j < |xs| && xs[i] == xs[j]
    ensures multiset(xs)[xs[i]] >= 2
  {
    assert xs == xs[..j] + xs[j..];
    assert xs[i] == xs[..j][i] && xs[i] in multiset(xs[..j]);
    assert xs[j] == xs[j..][0] && xs[j] in multiset(xs[j..]);
  }
}
