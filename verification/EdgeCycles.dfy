/** Counting edges along open paths and closed cycles of vertices, for an arbitrary edge test.
    The facts about rotating, reversing, cutting and refining a polygon only need these. */
module EdgeCycles {
  import opened Wrappers

  type EdgeTest<!V> = (V, V) -> bool

  /** Number of edges of the open path `path` that pass the test. */
  function Count<V>(path: seq<V>, test: EdgeTest<V>): nat {
    if |path| < 2 then 0
    else Count(path[..|path| - 1], test) + Bit(test(path[|path| - 2], path[|path| - 1]))
  }

  function Closed<V>(cycle: seq<V>): seq<V>
    requires cycle != []
  {
    cycle + [cycle[0]]
  }

  lemma ClosedAt<V>(cycle: seq<V>, k: nat)
    requires cycle != [] && k <= |cycle|
    ensures Closed(cycle)[k] == cycle[k % |cycle|]
  {
    if k < |cycle| {
      assert k % |cycle| == k;
    }
  }

  /** Number of edges of the closed cycle that pass the test. */
  function CycleCount<V>(cycle: seq<V>, test: EdgeTest<V>): nat
    requires cycle != []
  {
    Count(Closed(cycle), test)
  }

  function Reverse<V>(path: seq<V>): seq<V> {
    if path == [] then [] else Reverse(path[1..]) + [path[0]]
  }

  ghost predicate Symmetric<V(!new)>(test: EdgeTest<V>) {
    forall a, b :: test(a, b) == test(b, a)
  }

  /** Counts add up when two paths are joined at a shared vertex. */
  lemma {:induction false} CountJoin<V>(xs: seq<V>, v: V, ys: seq<V>, test: EdgeTest<V>)
    ensures Count(xs + [v] + ys, test) == Count(xs + [v], test) + Count([v] + ys, test)
    decreases |ys|
  {
    if ys == [] {
      assert xs + [v] + ys == xs + [v];
    } else {
      var init := ys[..|ys| - 1];
      CountJoin(xs, v, init, test);
      assert (xs + [v] + ys)[..|xs + [v] + ys| - 1] == xs + [v] + init;
      assert ([v] + ys)[..|[v] + ys| - 1] == [v] + init;
      assert (xs + [v] + ys)[|xs + [v] + ys| - 2] == ([v] + ys)[|[v] + ys| - 2];
    }
  }

  lemma CountStep<V>(path: seq<V>, k: nat, test: EdgeTest<V>)
    requires 0 < k < |path|
    ensures Count(path[..k + 1], test) == Count(path[..k], test) + Bit(test(path[k - 1], path[k]))
  {
    assert path[..k + 1][..k] == path[..k];
  }

  lemma CountPair<V>(a: V, b: V, test: EdgeTest<V>)
    ensures Count([a, b], test) == Bit(test(a, b))
  {
    assert [a, b][..1] == [a];
  }

  lemma {:induction false} CountReverse<V(!new)>(path: seq<V>, test: EdgeTest<V>)
    requires Symmetric(test)
    ensures Count(Reverse(path), test) == Count(path, test)
  {
    if |path| >= 2 {
      var a, b, rest := path[0], path[1], path[2..];
      assert path[1..][0] == b && path[1..][1..] == rest;
      assert Reverse(path) == Reverse(rest) + [b] + [a];
      assert path == [a] + [b] + rest;
      CountReverse(path[1..], test);
      CountJoin(Reverse(rest), b, [a], test);
      CountJoin([a], b, rest, test);
      assert [b] + [a] == [b, a] && [a] + [b] == [a, b] && path[1..] == [b] + rest;
      CountPair(a, b, test);
      CountPair(b, a, test);
    }
  }

  lemma {:induction false} ReverseConcat<V>(xs: seq<V>, ys: seq<V>)
    ensures Reverse(xs + ys) == Reverse(ys) + Reverse(xs)
  {
    if xs == [] {
      assert xs + ys == ys;
    } else {
      assert (xs + ys)[1..] == xs[1..] + ys;
      ReverseConcat(xs[1..], ys);
    }
  }

  /** A cycle falls apart into the two open paths between two of its vertices. */
  lemma CycleSplit<V>(xs: seq<V>, ys: seq<V>, test: EdgeTest<V>)
    requires xs != [] && ys != []
    ensures CycleCount(xs + ys, test) == Count(xs + [ys[0]], test) + Count(ys + [xs[0]], test)
  {
    hide Count;
    ClosedAround(xs, ys);
    CountJoin(xs, ys[0], ys[1..] + [xs[0]], test);
  }

  lemma ClosedAround<V>(xs: seq<V>, ys: seq<V>)
    requires xs != [] && ys != []
    ensures Closed(xs + ys) == xs + [ys[0]] + (ys[1..] + [xs[0]])
    ensures [ys[0]] + (ys[1..] + [xs[0]]) == ys + [xs[0]]
  {}

  /** A cycle may be read from any of its vertices. */
  lemma CycleRotate<V>(xs: seq<V>, ys: seq<V>, test: EdgeTest<V>)
    requires xs + ys != []
    ensures ys + xs != []
    ensures CycleCount(ys + xs, test) == CycleCount(xs + ys, test)
  {
    if xs == [] || ys == [] {
      assert ys + xs == xs + ys;
    } else {
      CycleSplit(xs, ys, test);
      CycleSplit(ys, xs, test);
    }
  }

  /** A cycle may be read backwards when the test ignores the direction of an edge. */
  lemma CycleReverse<V(!new)>(cycle: seq<V>, test: EdgeTest<V>)
    requires cycle != [] && Symmetric(test)
    ensures Reverse(cycle) != []
    ensures CycleCount(Reverse(cycle), test) == CycleCount(cycle, test)
  {
    var x, rest := cycle[0], cycle[1..];
    var back := [x] + Reverse(rest);
    CountReverse(Closed(cycle), test);
    ReverseConcat(cycle, [x]);
    assert Reverse([x]) == [x];
    assert Reverse(Closed(cycle)) == [x] + (Reverse(rest) + [x]) == Closed(back);
    CycleRotate([x], Reverse(rest), test);
  }

  /** Cutting a cycle in two along a chord counts the chord twice, once in each part. */
  lemma CycleCut<V>(xs: seq<V>, ys: seq<V>, test: EdgeTest<V>)
    requires xs != [] && ys != []
    ensures CycleCount(xs + [ys[0]], test) + CycleCount(ys + [xs[0]], test)
         == CycleCount(xs + ys, test) + Bit(test(ys[0], xs[0])) + Bit(test(xs[0], ys[0]))
  {
    var x, y := xs[0], ys[0];
    CycleSplit(xs, ys, test);
    assert Closed(xs + [y]) == xs + [y] + [x];
    CountJoin(xs, y, [x], test);
    assert Closed(ys + [x]) == ys + [x] + [y];
    CountJoin(ys, x, [y], test);
    assert [y] + [x] == [y, x] && [x] + [y] == [x, y];
    CountPair(x, y, test);
    CountPair(y, x, test);
  }

  /** Inserting `v` between neighbours `a` and `b` replaces the edge a-b by a-v and v-b. */
  lemma CountInsert<V>(xs: seq<V>, a: V, v: V, b: V, ys: seq<V>, test: EdgeTest<V>)
    ensures Count(xs + [a, v, b] + ys, test) + Bit(test(a, b))
         == Count(xs + [a, b] + ys, test) + Bit(test(a, v)) + Bit(test(v, b))
  {
    hide Count;
    CountAround(xs, a, [], b, ys, test);
    CountAround(xs, a, [v], b, ys, test);
    assert [a] + [] + [b] == [a, b] && [a] + [v] + [b] == [a, v, b];
    CountPair(a, b, test);
    CountTriple(a, v, b, test);
  }

  /** A path counts as the part to `a`, the part from `a` to `b`, and the part from `b` on. */
  lemma CountAround<V>(xs: seq<V>, a: V, mid: seq<V>, b: V, ys: seq<V>, test: EdgeTest<V>)
    ensures Count(xs + ([a] + mid + [b]) + ys, test)
         == Count(xs + [a], test) + Count([a] + mid + [b], test) + Count([b] + ys, test)
  {
    hide Count;
    assert xs + ([a] + mid + [b]) + ys == xs + [a] + (mid + [b] + ys);
    CountJoin(xs, a, mid + [b] + ys, test);
    assert [a] + (mid + [b] + ys) == [a] + mid + [b] + ys;
    CountJoin([a] + mid, b, ys, test);
  }

  lemma CountTriple<V>(a: V, v: V, b: V, test: EdgeTest<V>)
    ensures Count([a, v, b], test) == Bit(test(a, v)) + Bit(test(v, b))
  {
    assert [a, v, b][..2] == [a, v];
    CountPair(a, v, test);
  }

  /** Two tests that agree on the vertices of a path give the same count. */
  lemma {:induction false} CountAgree<V>(path: seq<V>, one: EdgeTest<V>, two: EdgeTest<V>)
    requires forall a, b :: a in path && b in path ==> one(a, b) == two(a, b)
    ensures Count(path, one) == Count(path, two)
  {
    if |path| >= 2 {
      assert path[|path| - 2] in path && path[|path| - 1] in path;
      CountAgree(path[..|path| - 1], one, two);
    }
  }

  lemma {:induction false} CountNone<V>(path: seq<V>, test: EdgeTest<V>)
    requires forall a, b :: a in path && b in path ==> !test(a, b)
    ensures Count(path, test) == 0
  {
    if |path| >= 2 {
      assert path[|path| - 2] in path && path[|path| - 1] in path;
      CountNone(path[..|path| - 1], test);
    }
  }

  /** An edge test that holds exactly where a two-colouring of the vertices changes holds an
      even number of times around any closed cycle. */
  lemma {:induction false} ChangesParity<V>(path: seq<V>, test: EdgeTest<V>, side: V -> bool)
    requires path != []
    requires forall a, b :: a in path && b in path ==> test(a, b) == (side(a) != side(b))
    ensures Count(path, test) % 2 == Bit(side(path[0]) != side(path[|path| - 1]))
  {
    if |path| >= 2 {
      assert path[|path| - 2] in path && path[|path| - 1] in path;
      ChangesParity(path[..|path| - 1], test, side);
    }
  }
}
