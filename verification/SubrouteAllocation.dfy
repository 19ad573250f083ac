/** What `_worker_changed_update_routepools` computes, on values: which workers are kept, which
    slice of the round each of them gets and where its queue restarts. */
module SubrouteAllocation {
  import opened Sorting
  import opened Wrappers

  datatype Location = Location(lat: real, lng: real)

  /** The great-circle distance of geo.py, left uninterpreted. */
  type Metric = (Location, Location) -> real

  datatype PositionType = NORMAL | PRIOQ

  /** The fields of RoutePoolEntry that the allocator and the prioritisation use. */
  datatype Entry = Entry(
    origin: string,
    timeAdded: real,
    subroute: seq<Location>,
    queue: seq<Location>,
    rounds: nat,
    currentPos: Location,
    prioCoord: Option<Location>,
    lastPositionType: PositionType)

  /** The route pool is an insertion-ordered dictionary, so it is a sequence of entries with distinct
      origins. */
  type Pool = seq<Entry>

  function TimeAdded(e: Entry): real { e.timeAdded }

  function ByTime(pool: Pool): Pool { SortBy(pool, TimeAdded) }

  predicate UniqueOrigins(pool: Pool) {
    forall i, j :: 0 <= i < j < |pool| ==> pool[i].origin != pool[j].origin
  }

  /** Position of an origin in a pool, |pool| when absent. */
  function IndexOf(pool: Pool, origin: string): (k: nat)
    ensures k <= |pool|
    ensures k < |pool| ==> pool[k].origin == origin
    ensures forall i :: 0 <= i < k ==> pool[i].origin != origin
  {
    if pool == [] then 0
    else if pool[0].origin == origin then 0
    else 1 + IndexOf(pool[1..], origin)
  }

  predicate HasOrigin(pool: Pool, origin: string) { IndexOf(pool, origin) < |pool| }

  // ---------------------------------------------------------------- slices of the round

  /** Every worker gets `base` coordinates, the first `extra` of them one more. */
  function ChunkLength(base: nat, extra: nat, i: nat): nat {
    base + if i < extra then 1 else 0
  }

  function ChunkStart(base: nat, extra: nat, i: nat): nat {
    if i == 0 then 0 else ChunkStart(base, extra, i - 1) + ChunkLength(base, extra, i - 1)
  }

  lemma {:induction false} ChunkStartClosedForm(base: nat, extra: nat, i: nat)
    ensures ChunkStart(base, extra, i) == i * base + if i < extra then i else extra
  {
    if i > 0 {
      ChunkStartClosedForm(base, extra, i - 1);
      assert i * base == (i - 1) * base + base;
    }
  }

  /** With `base` and `extra` the quotient and remainder of n by k, k slices make up n. */
  lemma ChunkStartEnd(n: nat, k: nat)
    requires k > 0
    ensures ChunkStart(n / k, n % k, k) == n
  {
    ChunkStartClosedForm(n / k, n % k, k);
    assert n == k * (n / k) + n % k;
  }

  lemma {:induction false} ChunkStartMonotone(base: nat, extra: nat, i: nat, j: nat)
    requires i <= j
    ensures ChunkStart(base, extra, i) <= ChunkStart(base, extra, j)
  {
    if i < j {
      ChunkStartMonotone(base, extra, i, j - 1);
    }
  }

  /** The slice of worker `i` as the popping loop takes it, short when the deque runs dry. */
  function Chunk(coords: seq<Location>, base: nat, extra: nat, i: nat): seq<Location> {
    var s, e := ChunkStart(base, extra, i), ChunkStart(base, extra, i + 1);
    if e <= |coords| then coords[s..e] else if s <= |coords| then coords[s..] else []
  }

  function Chunks(coords: seq<Location>, base: nat, extra: nat, m: nat): seq<seq<Location>> {
    if m == 0 then [] else Chunks(coords, base, extra, m - 1) + [Chunk(coords, base, extra, m - 1)]
  }

  lemma {:induction false} ChunksAt(coords: seq<Location>, base: nat, extra: nat, m: nat)
    ensures |Chunks(coords, base, extra, m)| == m
    ensures forall i :: 0 <= i < m ==> Chunks(coords, base, extra, m)[i] == Chunk(coords, base, extra, i)
  {
    if m > 0 { ChunksAt(coords, base, extra, m - 1); }
  }

  lemma {:induction false} ChunksFlatten(coords: seq<Location>, base: nat, extra: nat, m: nat)
    requires ChunkStart(base, extra, m) <= |coords|
    ensures Flatten(Chunks(coords, base, extra, m)) == coords[..ChunkStart(base, extra, m)]
  {
    if m > 0 {
      ChunksFlatten(coords, base, extra, m - 1);
      var init, last := Chunks(coords, base, extra, m - 1), Chunk(coords, base, extra, m - 1);
      var s, e := ChunkStart(base, extra, m - 1), ChunkStart(base, extra, m);
      assert Chunks(coords, base, extra, m) == init + [last] && last == coords[s..e] && s <= e;
      hide Chunks;
      hide Flatten;
      hide Chunk;
      hide ChunkStart;
      FlattenSnoc(init, last);
      assert coords[..s] + coords[s..e] == coords[..e];
    }
  }

  // ---------------------------------------------------------------- restarting the queue

  /** First index of the route at minimal distance. */
  function ClosestIndex(from: Location, route: seq<Location>, dist: Metric): (k: nat)
    requires route != []
    ensures k < |route|
    ensures forall i :: 0 <= i < |route| ==> dist(from, route[k]) <= dist(from, route[i])
    ensures forall i :: 0 <= i < k ==> dist(from, route[k]) < dist(from, route[i])
  {
    var n := |route|;
    if n == 1 then 0
    else
      var j := ClosestIndex(from, route[..n - 1], dist);
      if dist(from, route[n - 1]) < dist(from, route[j]) then n - 1 else j
  }

  /** The new queue: the whole subroute, or what follows its spot closest to the old queue head. */
  function QueueAfter(oldQueue: seq<Location>, subroute: seq<Location>, dist: Metric): seq<Location> {
    if oldQueue == [] || subroute == [] then subroute
    else subroute[ClosestIndex(oldQueue[0], subroute, dist)..]
  }

  function Refill(e: Entry, subroute: seq<Location>, dist: Metric): Entry {
    e.(subroute := subroute, queue := QueueAfter(e.queue, subroute, dist))
  }

  // ---------------------------------------------------------------- the new pool

  /** The refilled entry of a worker: its slice is decided by its rank in join order. */
  function RefillByRank(sorted: Pool, coords: seq<Location>, base: nat, extra: nat, dist: Metric): Entry -> Entry {
    (e: Entry) => Refill(e, Chunk(coords, base, extra, IndexOf(sorted, e.origin)), dist)
  }

  function Repopulated(pool: Pool, coords: seq<Location>, base: nat, extra: nat, dist: Metric): Pool {
    MapSeq(pool, RefillByRank(ByTime(pool), coords, base, extra, dist))
  }

  /** The coordinates of the round that are not to be ignored, in order. */
  function CoordsToUse(round: seq<Location>, ignored: set<Location>): seq<Location> {
    if round == [] then []
    else
      var init := CoordsToUse(round[..|round| - 1], ignored);
      if round[|round| - 1] in ignored then init else init + [round[|round| - 1]]
  }

  /** With fewer coordinates than workers only the longest-joined workers are kept. */
  function Kept(pool: Pool, n: nat): Pool {
    if n >= |pool| then pool else ByTimeLength(pool); ByTime(pool)[..n]
  }

  /** How many coordinates every worker gets, and how many workers get one more. */
  function Quotient(n: nat, k: nat): nat
    requires k > 0
  {
    n / k
  }

  function Remainder(n: nat, k: nat): nat
    requires k > 0
  {
    n % k
  }

  function UpdatedPool(mayUpdate: bool, pool: Pool, round: seq<Location>, ignored: set<Location>, dist: Metric)
    : Option<Pool>
  {
    var coords := CoordsToUse(round, ignored);
    if !mayUpdate then (if round == [] then None else Some(pool))
    else if pool == [] || coords == [] then None
    else
      var kept := Kept(pool, |coords|);
      KeptNonEmpty(pool, |coords|);
      Some(Repopulated(kept, coords, Quotient(|coords|, |kept|), Remainder(|coords|, |kept|), dist))
  }

  // ---------------------------------------------------------------- supporting facts

  lemma ByTimeLength(pool: Pool)
    ensures |ByTime(pool)| == |pool|
    ensures multiset(ByTime(pool)) == multiset(pool)
    ensures Sorted(ByTime(pool), TimeAdded)
  {
    SortByMultiset(pool, TimeAdded);
    SortBySorted(pool, TimeAdded);
  }

  lemma OccursTwice(pool: Pool, i: nat, j: nat)
    requires i < j < |pool| && pool[i] == pool[j]
    ensures multiset(pool)[pool[i]] >= 2
  {
    var a := pool[i];
    assert pool == pool[..i] + [a] + pool[i + 1..j] + [a] + pool[j + 1..];
  }

  /** Rearranging a pool keeps its origins distinct. */
  lemma UniqueOriginsPermute(pool: Pool, other: Pool)
    requires UniqueOrigins(pool) && multiset(other) == multiset(pool)
    ensures UniqueOrigins(other)
  {
    forall i, j | 0 <= i < j < |other| ensures other[i].origin != other[j].origin {
      var a, b := other[i], other[j];
      if a == b {
        OccursTwice(other, i, j);
        MultiplicityAtMostOne(pool, a);
      } else {
        assert a in multiset(pool) && b in multiset(pool);
        var p :| 0 <= p < |pool| && pool[p] == a;
        var q :| 0 <= q < |pool| && pool[q] == b;
        assert p != q;
      }
    }
  }

  lemma {:induction false} MultiplicityAtMostOne(pool: Pool, e: Entry)
    requires UniqueOrigins(pool)
    ensures multiset(pool)[e] <= 1
  {
    if pool != [] {
      assert pool == [pool[0]] + pool[1..];
      if e == pool[0] {
        assert e !in pool[1..];
        assert multiset(pool[1..])[e] == 0;
      } else {
        MultiplicityAtMostOne(pool[1..], e);
      }
    }
  }

  lemma ByTimeUnique(pool: Pool)
    requires UniqueOrigins(pool)
    ensures UniqueOrigins(ByTime(pool))
  {
    ByTimeLength(pool);
    UniqueOriginsPermute(pool, ByTime(pool));
  }

  lemma IndexOfAt(pool: Pool, i: nat)
    requires UniqueOrigins(pool) && i < |pool|
    ensures IndexOf(pool, pool[i].origin) == i
  {}

  lemma KeptUnique(pool: Pool, n: nat)
    requires UniqueOrigins(pool)
    ensures UniqueOrigins(Kept(pool, n))
    ensures |Kept(pool, n)| == if n >= |pool| then |pool| else n
    ensures forall e :: e in Kept(pool, n) ==> e in pool
  {
    ByTimeUnique(pool);
    ByTimeLength(pool);
    forall e | e in Kept(pool, n) ensures e in pool {
      SortByMember(pool, TimeAdded, e);
    }
  }

  lemma KeptNonEmpty(pool: Pool, n: nat)
    requires pool != [] && n > 0
    ensures Kept(pool, n) != []
  {
    ByTimeLength(pool);
  }

  /** Repopulating in join order: worker number i simply gets slice number i. */
  lemma RepopulatedByTime(pool: Pool, coords: seq<Location>, base: nat, extra: nat, dist: Metric)
    requires UniqueOrigins(pool)
    ensures var before, after := ByTime(pool), ByTime(Repopulated(pool, coords, base, extra, dist));
            && |before| == |after| == |pool|
            && forall i :: 0 <= i < |pool| ==> after[i] == Refill(before[i], Chunk(coords, base, extra, i), dist)
  {
    var f := RefillByRank(ByTime(pool), coords, base, extra, dist);
    SortByMap(pool, f, TimeAdded, TimeAdded);
    ByTimeLength(pool);
    ByTimeUnique(pool);
    forall i | 0 <= i < |pool|
      ensures f(ByTime(pool)[i]) == Refill(ByTime(pool)[i], Chunk(coords, base, extra, i), dist)
    {
      IndexOfAt(ByTime(pool), i);
    }
  }

  function Subroutes(pool: Pool): seq<seq<Location>> { MapSeq(pool, (e: Entry) => e.subroute) }

  // ---------------------------------------------------------------- the allocation is exact

  /** The slices of a repopulated pool, in join order. */
  lemma SubroutesAreChunks(pool: Pool, coords: seq<Location>, base: nat, extra: nat, dist: Metric)
    requires UniqueOrigins(pool)
    ensures Subroutes(ByTime(Repopulated(pool, coords, base, extra, dist)))
         == Chunks(coords, base, extra, |pool|)
  {
    RepopulatedByTime(pool, coords, base, extra, dist);
    ChunksAt(coords, base, extra, |pool|);
  }

  lemma {:induction false} ChunkSizes(coords: seq<Location>, base: nat, extra: nat, m: nat, i: nat)
    requires ChunkStart(base, extra, m) <= |coords| && i < m
    ensures |Chunk(coords, base, extra, i)| == ChunkLength(base, extra, i)
  {
    ChunkStartMonotone(base, extra, i + 1, m);
  }

  lemma QuotientPositive(n: nat, k: nat)
    requires 0 < k <= n
    ensures n / k >= 1
  {}

  /** The join order splits the usable round exactly: the subroutes concatenate to it, their
      lengths differ by at most one and the longer ones come first. */
  lemma AllocationExact(pool: Pool, round: seq<Location>, ignored: set<Location>, dist: Metric)
    requires UniqueOrigins(pool) && pool != [] && CoordsToUse(round, ignored) != []
    ensures UpdatedPool(true, pool, round, ignored, dist).Some?
    ensures var coords, s := CoordsToUse(round, ignored),
                             Subroutes(ByTime(UpdatedPool(true, pool, round, ignored, dist).value));
            && Flatten(s) == coords
            && (forall i :: 0 <= i < |s| ==> 0 < |s[i]|)
            && (forall i, j :: 0 <= i < j < |s| ==> |s[j]| <= |s[i]| <= |s[j]| + 1)
  {
    var coords := CoordsToUse(round, ignored);
    var kept := Kept(pool, |coords|);
    KeptUnique(pool, |coords|);
    KeptNonEmpty(pool, |coords|);
    QuotientPositive(|coords|, |kept|);
    ChunkStartEnd(|coords|, |kept|);
    ExactSplit(kept, coords, |coords| / |kept|, |coords| % |kept|, dist);
  }

  lemma ExactSplit(kept: Pool, coords: seq<Location>, base: nat, extra: nat, dist: Metric)
    requires UniqueOrigins(kept) && base >= 1 && ChunkStart(base, extra, |kept|) == |coords|
    ensures var s := Subroutes(ByTime(Repopulated(kept, coords, base, extra, dist)));
            && Flatten(s) == coords
            && (forall i :: 0 <= i < |s| ==> 0 < |s[i]|)
            && (forall i, j :: 0 <= i < j < |s| ==> |s[j]| <= |s[i]| <= |s[j]| + 1)
  {
    SubroutesAreChunks(kept, coords, base, extra, dist);
    ChunksShape(coords, base, extra, |kept|);
  }

  lemma ChunksShape(coords: seq<Location>, base: nat, extra: nat, k: nat)
    requires base >= 1 && ChunkStart(base, extra, k) == |coords|
    ensures var s := Chunks(coords, base, extra, k);
            && Flatten(s) == coords
            && (forall i :: 0 <= i < |s| ==> 0 < |s[i]|)
            && (forall i, j :: 0 <= i < j < |s| ==> |s[j]| <= |s[i]| <= |s[j]| + 1)
  {
    ChunksFlatten(coords, base, extra, k);
    assert coords[..|coords|] == coords;
    ChunksAt(coords, base, extra, k);
    var s := Chunks(coords, base, extra, k);
    forall i | 0 <= i < k ensures |s[i]| == ChunkLength(base, extra, i) {
      ChunkSizes(coords, base, extra, k, i);
    }
  }

  /** With n usable coordinates and k workers exactly min(n, k) workers are kept, namely those
      that joined first, and nobody is served exactly when n or k is 0. */
  lemma WhoIsServed(pool: Pool, round: seq<Location>, ignored: set<Location>, dist: Metric)
    requires UniqueOrigins(pool)
    ensures var n, r := |CoordsToUse(round, ignored)|, UpdatedPool(true, pool, round, ignored, dist);
            && (r.None? <==> n == 0 || pool == [])
            && (r.Some? ==>
                  && |r.value| == (if n < |pool| then n else |pool|)
                  && UniqueOrigins(r.value)
                  && (forall e :: e in r.value ==> HasOrigin(pool, e.origin))
                  && (forall e, o :: e in r.value && o in pool && !HasOrigin(r.value, o.origin)
                        ==> e.timeAdded <= o.timeAdded))
  {
    hide Repopulated;
    hide UniqueOrigins;
    hide HasOrigin;
    hide CoordsToUse;
    var coords := CoordsToUse(round, ignored);
    var n := |coords|;
    if pool != [] && coords != [] {
      var kept := Kept(pool, n);
      ByTimeLength(pool);
      KeptNonEmpty(pool, n);
      RepopulatedServes(pool, kept, coords, n / |kept|, n % |kept|, dist);
    }
  }

  lemma RepopulatedServes(pool: Pool, kept: Pool, coords: seq<Location>, base: nat, extra: nat, dist: Metric)
    requires UniqueOrigins(pool) && kept == Kept(pool, |coords|)
    ensures var r := Repopulated(kept, coords, base, extra, dist);
            && |r| == |kept|
            && UniqueOrigins(r)
            && (forall e :: e in r ==> HasOrigin(pool, e.origin))
            && (forall e, o :: e in r && o in pool && !HasOrigin(r, o.origin) ==> e.timeAdded <= o.timeAdded)
  {
    var r := Repopulated(kept, coords, base, extra, dist);
    KeptUnique(pool, |coords|);
    RepopulatedKeeps(kept, coords, base, extra, dist);
    forall e | e in r ensures HasOrigin(pool, e.origin) {
      var i :| 0 <= i < |r| && r[i] == e;
      assert kept[i] in kept;
      OriginPresent(pool, kept[i]);
    }
    forall e, o | e in r && o in pool && !HasOrigin(r, o.origin)
      ensures e.timeAdded <= o.timeAdded
    {
      var i :| 0 <= i < |r| && r[i] == e;
      if o in kept { RepopulatedHas(kept, o, coords, base, extra, dist); }
      assert kept[i] in kept;
      KeptAreOldest(pool, |coords|, kept[i], o);
    }
  }

  lemma RepopulatedKeeps(pool: Pool, coords: seq<Location>, base: nat, extra: nat, dist: Metric)
    ensures var r := Repopulated(pool, coords, base, extra, dist);
            && |r| == |pool|
            && (forall i :: 0 <= i < |r| ==>
                  r[i] == pool[i].(subroute := r[i].subroute,
                                   queue := QueueAfter(pool[i].queue, r[i].subroute, dist)))
            && (UniqueOrigins(pool) ==> UniqueOrigins(r))
  {}

  lemma RepopulatedHas(pool: Pool, e: Entry, coords: seq<Location>, base: nat, extra: nat, dist: Metric)
    requires e in pool
    ensures HasOrigin(Repopulated(pool, coords, base, extra, dist), e.origin)
  {
    var i :| 0 <= i < |pool| && pool[i] == e;
    OriginPresent(Repopulated(pool, coords, base, extra, dist), Repopulated(pool, coords, base, extra, dist)[i]);
  }

  lemma KeptAreOldest(pool: Pool, n: nat, e: Entry, o: Entry)
    requires e in Kept(pool, n) && o in pool && o !in Kept(pool, n)
    ensures e.timeAdded <= o.timeAdded
  {
    SortByMember(pool, TimeAdded, o);
    ByTimeLength(pool);
    var sorted := ByTime(pool);
    var i :| 0 <= i < n && sorted[i] == e;
    var j :| 0 <= j < |sorted| && sorted[j] == o;
    forall m | 0 <= m < n ensures sorted[m] in Kept(pool, n) {
      assert Kept(pool, n)[m] == sorted[m];
    }
  }

  lemma UpdatedPoolUnique(mayUpdate: bool, pool: Pool, round: seq<Location>, ignored: set<Location>, dist: Metric)
    requires UniqueOrigins(pool)
    ensures var r := UpdatedPool(mayUpdate, pool, round, ignored, dist);
            r.Some? ==> UniqueOrigins(r.value)
  {
    WhoIsServed(pool, round, ignored, dist);
  }

  lemma OriginPresent(pool: Pool, e: Entry)
    requires e in pool
    ensures HasOrigin(pool, e.origin)
  {}

  lemma UpdatedPoolIs(pool: Pool, round: seq<Location>, ignored: set<Location>, dist: Metric)
    returns (base: nat, extra: nat)
    requires UpdatedPool(true, pool, round, ignored, dist).Some?
    ensures var coords := CoordsToUse(round, ignored);
            var kept := Kept(pool, |coords|);
            && pool != [] && coords != [] && kept != []
            && base == Quotient(|coords|, |kept|) && extra == Remainder(|coords|, |kept|)
            && UpdatedPool(true, pool, round, ignored, dist) == Some(Repopulated(kept, coords, base, extra, dist))
  {
    var coords := CoordsToUse(round, ignored);
    KeptNonEmpty(pool, |coords|);
    hide Repopulated;
    hide CoordsToUse;
    hide Kept;
    hide Quotient;
    hide Remainder;
    var kept := Kept(pool, |coords|);
    base, extra := Quotient(|coords|, |kept|), Remainder(|coords|, |kept|);
  }

  /** Where a worker resumes: its queue is the suffix of its new subroute from the first spot at
      minimal distance to the old queue head, or all of it when the old queue was empty. */
  lemma QueuesRestartAtClosest(pool: Pool, round: seq<Location>, ignored: set<Location>, dist: Metric, e: Entry)
    requires UniqueOrigins(pool) && e in pool
    ensures var r := UpdatedPool(true, pool, round, ignored, dist);
            r.Some? && HasOrigin(r.value, e.origin) ==>
              RestartedFrom(e, r.value[IndexOf(r.value, e.origin)], dist)
  {
    hide UpdatedPool;
    hide Repopulated;
    hide RestartedFrom;
    hide CoordsToUse;
    var coords := CoordsToUse(round, ignored);
    var r := UpdatedPool(true, pool, round, ignored, dist);
    if r.Some? && HasOrigin(r.value, e.origin) {
      SubroutesNonEmpty(pool, round, ignored, dist, IndexOf(r.value, e.origin));
      var base, extra := UpdatedPoolIs(pool, round, ignored, dist);
      RepopulatedRestarts(pool, coords, base, extra, dist, e);
    }
  }

  lemma SubroutesNonEmpty(pool: Pool, round: seq<Location>, ignored: set<Location>, dist: Metric, m: nat)
    requires UniqueOrigins(pool)
    requires UpdatedPool(true, pool, round, ignored, dist).Some?
    requires m < |UpdatedPool(true, pool, round, ignored, dist).value|
    ensures UpdatedPool(true, pool, round, ignored, dist).value[m].subroute != []
  {
    AllocationExact(pool, round, ignored, dist);
    hide UpdatedPool;
    SubrouteInJoinOrder(UpdatedPool(true, pool, round, ignored, dist).value, m);
  }

  lemma RepopulatedRestarts(pool: Pool, coords: seq<Location>, base: nat, extra: nat, dist: Metric, e: Entry)
    requires UniqueOrigins(pool) && e in pool
    requires HasOrigin(Repopulated(Kept(pool, |coords|), coords, base, extra, dist), e.origin)
    ensures var r := Repopulated(Kept(pool, |coords|), coords, base, extra, dist);
            var e' := r[IndexOf(r, e.origin)];
            e'.subroute != [] ==> RestartedFrom(e, e', dist)
  {
    var kept := Kept(pool, |coords|);
    KeptUnique(pool, |coords|);
    RepopulatedKeeps(kept, coords, base, extra, dist);
    var r := Repopulated(kept, coords, base, extra, dist);
    var m := IndexOf(r, e.origin);
    assert r[m].origin == kept[m].origin;
    assert kept[m] in kept;
    SameOriginSameEntry(pool, kept[m], e);
    if r[m].subroute != [] {
      RefillRestarts(e, r[m].subroute, dist);
    }
  }

  /** `after` is `before` with a new subroute, and its queue is the part of that subroute that
      starts at the first spot at minimal distance to the head of the old queue. */
  ghost predicate RestartedFrom(before: Entry, after: Entry, dist: Metric) {
    && after == before.(subroute := after.subroute, queue := after.queue)
    && (before.queue == [] ==> after.queue == after.subroute)
    && (before.queue != [] ==> exists c: nat :: IsFirstClosest(before.queue[0], after.subroute, c, dist)
                                        && after.queue == after.subroute[c..])
  }

  ghost predicate IsFirstClosest(from: Location, route: seq<Location>, c: nat, dist: Metric) {
    && c < |route|
    && (forall i :: 0 <= i < |route| ==> dist(from, route[c]) <= dist(from, route[i]))
    && (forall i :: 0 <= i < c ==> dist(from, route[c]) < dist(from, route[i]))
  }

  lemma RefillRestarts(e: Entry, subroute: seq<Location>, dist: Metric)
    requires subroute != []
    ensures RestartedFrom(e, Refill(e, subroute, dist), dist)
  {
    if e.queue != [] {
      assert IsFirstClosest(e.queue[0], subroute, ClosestIndex(e.queue[0], subroute, dist), dist);
    }
  }

  lemma SubrouteInJoinOrder(pool: Pool, m: nat)
    requires m < |pool|
    ensures pool[m].subroute in Subroutes(ByTime(pool))
  {
    SortByMember(pool, TimeAdded, pool[m]);
    var i :| 0 <= i < |ByTime(pool)| && ByTime(pool)[i] == pool[m];
    assert Subroutes(ByTime(pool))[i] == pool[m].subroute;
  }

  lemma SameOriginSameEntry(pool: Pool, a: Entry, b: Entry)
    requires UniqueOrigins(pool) && a in pool && b in pool && a.origin == b.origin
    ensures a == b
  {
    var i :| 0 <= i < |pool| && pool[i] == a;
    var j :| 0 <= j < |pool| && pool[j] == b;
    IndexOfAt(pool, i);
    IndexOfAt(pool, j);
  }
}
