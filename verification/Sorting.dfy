/** Python's stable `sorted(..., key=...)` over real-valued keys, and order-preserving maps.
    Sorting is by insertion, as a function: the result is sorted and a permutation, elements with
    equal keys keep their order, and a map that keeps the keys may be applied before or after.
    Sequences of sequences are joined from the left, so that a sequence can be taken apart where
    it was put together. */
module Sorting {

  function InsertBy<T>(x: T, xs: seq<T>, key: T -> real): seq<T> {
    if xs == [] || key(x) <= key(xs[0]) then [x] + xs else [xs[0]] + InsertBy(x, xs[1..], key)
  }

  function SortBy<T>(xs: seq<T>, key: T -> real): seq<T> {
    if xs == [] then [] else InsertBy(xs[0], SortBy(xs[1..], key), key)
  }

  function MapSeq<A, B>(xs: seq<A>, f: A -> B): (ys: seq<B>)
    ensures |ys| == |xs| && forall i :: 0 <= i < |xs| ==> ys[i] == f(xs[i])
  {
    if xs == [] then [] else [f(xs[0])] + MapSeq(xs[1..], f)
  }

  function Flatten<T>(xss: seq<seq<T>>): seq<T> {
    if xss == [] then [] else Flatten(xss[..|xss| - 1]) + xss[|xss| - 1]
  }

  lemma FlattenSnoc<T>(xss: seq<seq<T>>, xs: seq<T>)
    ensures Flatten(xss + [xs]) == Flatten(xss) + xs
  {
    assert (xss + [xs])[..|xss|] == xss;
  }

  predicate Sorted<T>(xs: seq<T>, key: T -> real) {
    forall i, j :: 0 <= i < j < |xs| ==> key(xs[i]) <= key(xs[j])
  }

  lemma {:induction false} InsertByMultiset<T>(x: T, xs: seq<T>, key: T -> real)
    ensures multiset(InsertBy(x, xs, key)) == multiset(xs) + multiset{x}
    ensures |InsertBy(x, xs, key)| == |xs| + 1
  {
    if xs == [] || key(x) <= key(xs[0]) {
    } else {
      InsertByMultiset(x, xs[1..], key);
      assert xs == [xs[0]] + xs[1..];
    }
  }

  lemma {:induction false} SortByMultiset<T>(xs: seq<T>, key: T -> real)
    ensures multiset(SortBy(xs, key)) == multiset(xs)
    ensures |SortBy(xs, key)| == |xs|
  {
    if xs != [] {
      SortByMultiset(xs[1..], key);
      InsertByMultiset(xs[0], SortBy(xs[1..], key), key);
      assert xs == [xs[0]] + xs[1..];
    }
  }

  lemma {:induction false} InsertBySorted<T>(x: T, xs: seq<T>, key: T -> real)
    requires Sorted(xs, key)
    ensures Sorted(InsertBy(x, xs, key), key)
  {
    if xs == [] || key(x) <= key(xs[0]) {
    } else {
      var rest := InsertBy(x, xs[1..], key);
      InsertBySorted(x, xs[1..], key);
      InsertByMultiset(x, xs[1..], key);
      forall j | 0 <= j < |rest| ensures key(xs[0]) <= key(rest[j]) {
        assert rest[j] in multiset(rest);
        assert rest[j] == x || rest[j] in xs[1..];
      }
    }
  }

  lemma {:induction false} SortBySorted<T>(xs: seq<T>, key: T -> real)
    ensures Sorted(SortBy(xs, key), key)
  {
    if xs != [] {
      SortBySorted(xs[1..], key);
      InsertBySorted(xs[0], SortBy(xs[1..], key), key);
    }
  }

  /** Sorting a sorted list leaves ties, and everything else, where they are. */
  lemma {:induction false} SortByStable<T>(xs: seq<T>, key: T -> real)
    requires Sorted(xs, key)
    ensures SortBy(xs, key) == xs
  {
    if xs != [] {
      SortByStable(xs[1..], key);
    }
  }

  lemma {:induction false} InsertByMap<A, B>(x: A, xs: seq<A>, f: A -> B, key: A -> real, key': B -> real)
    requires forall a :: a in [x] + xs ==> key'(f(a)) == key(a)
    ensures MapSeq(InsertBy(x, xs, key), f) == InsertBy(f(x), MapSeq(xs, f), key')
  {
    assert x in [x] + xs;
    if xs == [] {
    } else {
      assert xs[0] in [x] + xs;
      if key(x) <= key(xs[0]) {
        assert ([x] + xs)[1..] == xs;
      } else {
        forall a | a in [x] + xs[1..] ensures a in [x] + xs {}
        InsertByMap(x, xs[1..], f, key, key');
        var rest := InsertBy(x, xs[1..], key);
        assert ([xs[0]] + rest)[1..] == rest;
        assert MapSeq(xs, f)[1..] == MapSeq(xs[1..], f);
      }
    }
  }

  /** A map that keeps the key commutes with sorting. */
  lemma {:induction false} SortByMap<A, B>(xs: seq<A>, f: A -> B, key: A -> real, key': B -> real)
    requires forall a :: a in xs ==> key'(f(a)) == key(a)
    ensures MapSeq(SortBy(xs, key), f) == SortBy(MapSeq(xs, f), key')
  {
    if xs != [] {
      SortByMap(xs[1..], f, key, key');
      SortByMultiset(xs[1..], key);
      var sorted := SortBy(xs[1..], key);
      forall a | a in [xs[0]] + sorted ensures a in xs {
        if a in sorted { assert a in multiset(sorted); assert a in xs[1..]; }
      }
      InsertByMap(xs[0], sorted, f, key, key');
      assert MapSeq(xs, f)[1..] == MapSeq(xs[1..], f);
    }
  }

  lemma SortByMember<T>(xs: seq<T>, key: T -> real, x: T)
    ensures x in SortBy(xs, key) <==> x in xs
  {
    SortByMultiset(xs, key);
    assert x in SortBy(xs, key) <==> x in multiset(SortBy(xs, key));
    assert x in xs <==> x in multiset(xs);
  }
}
