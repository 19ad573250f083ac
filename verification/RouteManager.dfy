/** The route manager as it is written: entries, queue and counters updated in place. Every
    method is proved against the function of `RouteSteps` that states its effect, and what these
    functions promise is proved about them elsewhere. Entries are objects: a pool update leaves the
    old ones to whoever still holds them and puts copies in their place, which is where the finish
    step goes its own way. */
module RouteManagers {
  import opened Sorting
  import opened SubrouteAllocation
  import opened Wrappers
  import opened RouteSteps
  import Interleavings = RouteInterleavings

  /** RoutePoolEntry.py; `origin` is the key under which the route pool holds the entry. */
  class RoutePoolEntry {
    const origin: string
    const timeAdded: real
    var subroute: seq<Location>
    var queue: seq<Location>
    var rounds: nat
    var currentPos: Location
    var prioCoord: Option<Location>
    var lastPositionType: PositionType

    constructor (origin: string, timeAdded: real, subroute: seq<Location>, queue: seq<Location>, rounds: nat,
                 currentPos: Location, prioCoord: Option<Location>, lastPositionType: PositionType)
      ensures View() == Entry(origin, timeAdded, subroute, queue, rounds, currentPos, prioCoord, lastPositionType)
      ensures this.origin == origin && this.timeAdded == timeAdded
    {
      this.origin, this.timeAdded := origin, timeAdded;
      this.subroute, this.queue, this.rounds := subroute, queue, rounds;
      this.currentPos, this.prioCoord, this.lastPositionType := currentPos, prioCoord, lastPositionType;
    }

    ghost function View(): Entry
      reads this
    {
      Entry(origin, timeAdded, subroute, queue, rounds, currentPos, prioCoord, lastPositionType)
    }
  }

  type Entries = seq<RoutePoolEntry>

  predicate DistinctEntries(pool: Entries) {
    forall i, j :: 0 <= i < j < |pool| ==> pool[i] != pool[j]
  }

  ghost function Views(pool: Entries): (views: Pool)
    reads pool
    ensures |views| == |pool|
    ensures forall i :: 0 <= i < |pool| ==> views[i] == pool[i].View()
  {
    if pool == [] then [] else [pool[0].View()] + Views(pool[1..])
  }

  function EntryTime(e: RoutePoolEntry): real { e.timeAdded }

  method IndexOfEntry(pool: Entries, origin: string) returns (k: nat)
    ensures k == IndexOf(Views(pool), origin)
  {
    k := 0;
    while k < |pool|
      invariant k <= |pool|
      invariant forall i :: 0 <= i < k ==> pool[i].origin != origin
    {
      if pool[k].origin == origin {
        assert Views(pool)[k].origin == origin;
        return;
      }
      k := k + 1;
    }
  }

  /** Writing to one entry of a pool replaces its view and no other. */
  lemma EntryReplaced(pool: Entries, before: Pool, k: nat)
    requires k < |pool| == |before|
    requires forall i :: 0 <= i < |pool| && i != k ==> pool[i].View() == before[i]
    ensures Views(pool) == before[k := pool[k].View()]
  {}

  lemma ViewsAppend(pool: Entries, entry: RoutePoolEntry)
    ensures Views(pool + [entry]) == Views(pool) + [entry.View()]
  {}

  // ---------------------------------------------------------------- SubrouteReplacingMixin

  /** `_find_closest_location`: a running minimum over the route. */
  method FindClosestLocation(location: Option<Location>, route: seq<Location>, dist: Metric)
    returns (closest: Option<Location>)
    ensures location.None? || route == [] ==> closest == None
    ensures location.Some? && route != []
        ==> closest == Some(route[ClosestIndex(location.value, route, dist)])
  {
    if route == [] || location.None? {
      return None;
    }
    var from := location.value;
    var best := route[0];
    var closestDistance := dist(from, best);
    for i := 1 to |route|
      invariant best == route[..i][ClosestIndex(from, route[..i], dist)]
      invariant closestDistance == dist(from, best)
    {
      assert route[..i + 1][..i] == route[..i];
      var distanceToLoc := dist(from, route[i]);
      if distanceToLoc < closestDistance {
        best := route[i];
        closestDistance := distanceToLoc;
      }
    }
    assert route[..|route|] == route;
    return Some(best);
  }

  /** The tail of `_populate_subroutes` for one worker: replace the subroute and refill the queue
      from the spot equal to the closest one on. */
  method ReplaceSubroute(entry: RoutePoolEntry, newSubroute: seq<Location>, dist: Metric)
    modifies entry
    ensures entry.View() == Refill(old(entry.View()), newSubroute, dist)
  {
    entry.subroute := newSubroute;
    var closestToOldQueue := FindClosestLocation(
      if entry.queue != [] then Some(entry.queue[0]) else None, newSubroute, dist);
    ghost var oldQueue := entry.queue;
    entry.queue := [];
    if closestToOldQueue.None? {
      entry.queue := newSubroute;
    } else {
      RefillQueue(entry, closestToOldQueue.value, ClosestIndex(oldQueue[0], newSubroute, dist));
    }
  }

  /** The loop that appends the subroute from the first spot equal to `closest` on. */
  method RefillQueue(entry: RoutePoolEntry, closest: Location, ghost first: nat)
    requires entry.queue == [] && first < |entry.subroute| && entry.subroute[first] == closest
    requires forall i :: 0 <= i < first ==> entry.subroute[i] != closest
    modifies entry
    ensures entry.View() == old(entry.View()).(queue := old(entry.subroute)[first..])
  {
    var found := false;
    for i := 0 to |entry.subroute|
      invariant entry.View() == old(entry.View()).(queue := entry.queue)
      invariant found <==> first < i
      invariant entry.queue == if found then entry.subroute[first..i] else []
    {
      var loc := entry.subroute[i];
      if loc == closest {
        found := true;
      }
      if found {
        entry.queue := entry.queue + [loc];
      }
    }
  }

  /** The inner loop of `_populate_subroutes`: pop up to `n` coordinates off the front. */
  method PopLeft(round: seq<Location>, n: nat) returns (popped: seq<Location>, rest: seq<Location>)
    ensures popped == round[..MinNat(n, |round|)] && rest == round[MinNat(n, |round|)..]
  {
    popped, rest := [], round;
    while |rest| > 0 && |popped| < n
      invariant |popped| <= n && |popped| <= |round|
      invariant popped == round[..|popped|] && rest == round[|popped|..]
    {
      popped := popped + [rest[0]];
      rest := rest[1..];
    }
  }

  /** What is popped for worker `i` from what the earlier ones left. */
  lemma PoppedIsChunk(coords: seq<Location>, base: nat, extra: nat, i: nat)
    ensures var left := coords[MinNat(ChunkStart(base, extra, i), |coords|)..];
            var n := MinNat(ChunkLength(base, extra, i), |left|);
            && left[..n] == Chunk(coords, base, extra, i)
            && left[n..] == coords[MinNat(ChunkStart(base, extra, i + 1), |coords|)..]
  {}

  /** `_populate_subroutes` over the entries in join order. */
  method PopulateSubroutes(sorted: Entries, coords: seq<Location>, base: nat, extra: nat, dist: Metric)
    requires DistinctEntries(sorted)
    modifies sorted
    ensures forall i :: 0 <= i < |sorted| ==>
              sorted[i].View() == Refill(old(sorted[i].View()), Chunk(coords, base, extra, i), dist)
  {
    hide Chunk;
    hide Refill;
    var tempTotalRound := coords;
    assert coords == coords[MinNat(ChunkStart(base, extra, 0), |coords|)..];
    hide ChunkStart;
    hide MinNat;
    for i := 0 to |sorted|
      invariant tempTotalRound == coords[MinNat(ChunkStart(base, extra, i), |coords|)..]
      invariant forall j :: i <= j < |sorted| ==> sorted[j].View() == old(sorted[j].View())
      invariant forall j :: 0 <= j < i ==>
                  sorted[j].View() == Refill(old(sorted[j].View()), Chunk(coords, base, extra, j), dist)
    {
      var actualLength := if i < extra then base + 1 else base;
      PoppedIsChunk(coords, base, extra, i);
      assert actualLength == ChunkLength(base, extra, i);
      var newSubroute, rest := PopLeft(tempTotalRound, actualLength);
      tempTotalRound := rest;
      ReplaceSubroute(sorted[i], newSubroute, dist);
    }
  }

  function MinNat(a: nat, b: nat): nat { if a <= b then a else b }

  /** The copies that come back from the process pool. */
  method PickledCopies(pool: Entries) returns (copies: Entries)
    ensures fresh(copies) && DistinctEntries(copies)
    ensures Views(copies) == Views(pool)
    ensures forall i :: 0 <= i < |pool| ==> copies[i].timeAdded == pool[i].timeAdded
  {
    copies := [];
    for i := 0 to |pool|
      invariant |copies| == i && fresh(copies) && DistinctEntries(copies)
      invariant forall j :: 0 <= j < i ==> copies[j].View() == pool[j].View()
    {
      var e := pool[i];
      var copy := new RoutePoolEntry(e.origin, e.timeAdded, e.subroute, e.queue, e.rounds, e.currentPos,
                                     e.prioCoord, e.lastPositionType);
      copies := copies + [copy];
    }
    forall i | 0 <= i < |pool| ensures copies[i].timeAdded == pool[i].timeAdded {
      assert copies[i].View().timeAdded == pool[i].View().timeAdded;
    }
  }

  // ---------------------------------------------------------------- entries and their views

  /** Sorting the entries by join time sorts their views. */
  lemma ViewsSorted(pool: Entries)
    ensures Views(SortBy(pool, EntryTime)) == ByTime(Views(pool))
    ensures forall e :: e in SortBy(pool, EntryTime) <==> e in pool
  {
    var views := map e | e in pool :: e.View();
    var default := Entry("", 0.0, [], [], 0, Location(0.0, 0.0), None, NORMAL);
    var f := (e: RoutePoolEntry) => if e in views then views[e] else default;
    SortedSame(pool);
    hide SortBy;
    forall a | a in pool ensures TimeAdded(f(a)) == EntryTime(a) {}
    SortByMap(pool, f, EntryTime, TimeAdded);
    assert MapSeq(pool, f) == Views(pool);
    assert MapSeq(SortBy(pool, EntryTime), f) == Views(SortBy(pool, EntryTime));
  }

  lemma SortedSame(pool: Entries)
    ensures |SortBy(pool, EntryTime)| == |pool|
    ensures forall e :: e in SortBy(pool, EntryTime) <==> e in pool
  {
    SortByMultiset(pool, EntryTime);
    hide SortBy;
    forall e ensures e in SortBy(pool, EntryTime) <==> e in pool {
      SortByMember(pool, EntryTime, e);
    }
  }

  lemma UniqueViewsAreDistinct(pool: Entries)
    requires UniqueOrigins(Views(pool))
    ensures DistinctEntries(pool)
  {}

  /** Dropping the newest worker and keeping n of the rest keeps the same n workers. */
  lemma DropNewest(pool: Pool, n: nat)
    requires n < |pool|
    ensures |ByTime(pool)| == |pool|
    ensures Kept(ByTime(pool)[..|pool| - 1], n) == Kept(pool, n)
  {
    ByTimeLength(pool);
    var shorter := ByTime(pool)[..|pool| - 1];
    SortByStable(shorter, TimeAdded);
    if n < |shorter| {
      assert shorter[..n] == ByTime(pool)[..n];
    }
  }

  /** With too few coordinates the code retries without the newest worker; the outcome is the
      one stated directly by `UpdatedPool`. */
  lemma RetryWithoutNewest(pool: Pool, round: seq<Location>, ignored: set<Location>, dist: Metric)
    requires |CoordsToUse(round, ignored)| < |pool|
    ensures |ByTime(pool)| == |pool|
    ensures UpdatedPool(true, ByTime(pool)[..|pool| - 1], round, ignored, dist)
         == UpdatedPool(true, pool, round, ignored, dist)
  {
    ByTimeLength(pool);
    if CoordsToUse(round, ignored) != [] {
      DropNewest(pool, |CoordsToUse(round, ignored)|);
    }
  }

  /** Once the sorted entries are refilled in join order, the pool is repopulated. */
  lemma RepopulatedFromSorted(pool: Entries, sorted: Entries, before: Pool, coords: seq<Location>,
                              base: nat, extra: nat, dist: Metric)
    requires UniqueOrigins(before) && |before| == |pool| && |sorted| == |pool|
    requires forall e :: e in pool ==> e in sorted
    requires forall j :: 0 <= j < |pool| ==> before[j].origin == pool[j].origin
    requires forall j :: 0 <= j < |sorted| ==>
               && |ByTime(before)| == |sorted|
               && ByTime(before)[j].origin == sorted[j].origin
               && sorted[j].View() == Refill(ByTime(before)[j], Chunk(coords, base, extra, j), dist)
    ensures Views(pool) == Repopulated(before, coords, base, extra, dist)
  {
    ByTimeUnique(before);
    hide ByTime;
    hide Chunk;
    hide QueueAfter;
    forall j | 0 <= j < |pool|
      ensures pool[j].View() == Repopulated(before, coords, base, extra, dist)[j]
    {
      assert pool[j] in pool;
      var i :| 0 <= i < |sorted| && sorted[i] == pool[j];
      IndexOfAt(ByTime(before), i);
      SortByMember(before, TimeAdded, ByTime(before)[i]);
      SameOriginSameEntry(before, ByTime(before)[i], before[j]);
    }
  }

  /** Populate a pool in join order. */
  method PopulateInJoinOrder(pool: Entries, coords: seq<Location>, base: nat, extra: nat, dist: Metric)
    requires UniqueOrigins(Views(pool))
    modifies pool
    ensures Views(pool) == Repopulated(old(Views(pool)), coords, base, extra, dist)
  {
    ghost var before := Views(pool);
    var sorted := SortBy(pool, EntryTime);
    ViewsSorted(pool);
    ByTimeUnique(before);
    UniqueViewsAreDistinct(sorted);
    SortByMultiset(pool, EntryTime);
    forall j | 0 <= j < |sorted| ensures sorted[j].View() == ByTime(before)[j] {
      assert Views(sorted)[j] == sorted[j].View();
    }
    forall j | 0 <= j < |sorted| ensures sorted[j] in pool {
      SortByMember(pool, EntryTime, sorted[j]);
    }
    PopulateSubroutes(sorted, coords, base, extra, dist);
    RepopulatedFromSorted(pool, sorted, before, coords, base, extra, dist);
  }

  /** What runs in the process pool: the copies are populated, the originals are not touched. */
  method CopyAndPopulate(pool: Entries, coords: seq<Location>, base: nat, extra: nat, dist: Metric)
    returns (copies: Entries)
    requires UniqueOrigins(Views(pool))
    ensures fresh(copies)
    ensures Views(copies) == Repopulated(old(Views(pool)), coords, base, extra, dist)
  {
    ghost var before := Views(pool);
    copies := PickledCopies(pool);
    assert Views(copies) == before;
    PopulateInJoinOrder(copies, coords, base, extra, dist);
  }

  /** The pool without the worker that joined last. */
  method WithoutNewest(pool: Entries) returns (reduced: Entries)
    requires UniqueOrigins(Views(pool)) && pool != []
    ensures |ByTime(Views(pool))| == |pool|
    ensures Views(reduced) == ByTime(Views(pool))[..|pool| - 1]
    ensures UniqueOrigins(Views(reduced))
  {
    var sorted := SortBy(pool, EntryTime);
    ViewsSorted(pool);
    ByTimeLength(Views(pool));
    ByTimeUnique(Views(pool));
    hide ByTime;
    reduced := sorted[..|sorted| - 1];
  }

  /** `_worker_changed_update_routepools` of the mixin. */
  method WorkerChangedUpdateRoutepools(mayUpdate: bool, pool: Entries, round: seq<Location>,
                                       ignored: set<Location>, dist: Metric) returns (r: Option<Entries>)
    requires UniqueOrigins(Views(pool))
    ensures r.None? <==> UpdatedPool(mayUpdate, Views(pool), round, ignored, dist).None?
    ensures r.Some? ==> Views(r.value) == UpdatedPool(mayUpdate, Views(pool), round, ignored, dist).value
    ensures r.Some? ==> if mayUpdate then fresh(r.value) else r.value == pool
    decreases |pool|
  {
    hide ByTime;
    hide Repopulated;
    hide CoordsToUse;
    if !mayUpdate && round == [] {
      return None;
    } else if !mayUpdate {
      return Some(pool);
    } else if pool == [] {
      return None;
    }
    var coordsToUse := CoordsToUse(round, ignored);
    var newSubrouteLength := |coordsToUse| / |pool|;
    QuotientZero(|coordsToUse|, |pool|);
    if newSubrouteLength == 0 {
      var reduced := WithoutNewest(pool);
      RetryWithoutNewest(Views(pool), round, ignored, dist);
      r := WorkerChangedUpdateRoutepools(mayUpdate, reduced, round, ignored, dist);
    } else {
      var extraLengthWorkers := |coordsToUse| % |pool|;
      EnoughForAll(Views(pool), round, ignored, dist);
      var copies := CopyAndPopulate(pool, coordsToUse, newSubrouteLength, extraLengthWorkers, dist);
      r := Some(copies);
    }
  }

  /** With a coordinate for everybody the whole pool is repopulated. */
  lemma EnoughForAll(pool: Pool, round: seq<Location>, ignored: set<Location>, dist: Metric)
    requires pool != [] && |CoordsToUse(round, ignored)| >= |pool|
    ensures var coords := CoordsToUse(round, ignored);
            UpdatedPool(true, pool, round, ignored, dist)
              == Some(Repopulated(pool, coords, |coords| / |pool|, |coords| % |pool|, dist))
  {}

  lemma QuotientZero(n: nat, k: nat)
    requires k > 0
    ensures n / k == 0 <==> n < k
  {}

  // ---------------------------------------------------------------- RouteManagerBase

  class RouteManager {
    const c: Config
    var isStarted: bool
    var registered: set<string>
    var startPositions: map<string, Location>
    var route: seq<Location>
    var round: seq<Location>
    var ignored: set<Location>
    var stoplist: seq<Location>
    var routepool: Entries
    var roundcount: real

    ghost function View(): State
      reads this, routepool
    {
      State(isStarted, registered, startPositions, route, round, ignored, stoplist, Views(routepool), roundcount)
    }

    ghost predicate Valid()
      reads this, routepool
    {
      ValidConfig(c) && UniqueOrigins(Views(routepool))
    }

    constructor (c: Config)
      requires ValidConfig(c)
      ensures Valid() && this.c == c
      ensures View() == State(false, {}, map[], [], [], {}, [], [], 0.0)
    {
      this.c := c;
      isStarted, registered, startPositions := false, {}, map[];
      route, round, ignored, stoplist := [], [], {}, [];
      routepool, roundcount := [], 0.0;
    }

    /** `_update_routepool` up to the call of the process pool: round and entries are read, nothing is
        changed. None is an update that fails. */
    method BeginUpdate() returns (copies: Option<Entries>)
      requires Valid()
      ensures var start := Interleavings.Manager(View(), None);
              var begun := Interleavings.Act(c, start, Interleavings.Begin).manager.flight;
              && copies.Some? == begun.Some?
              && (copies.Some? ==> Views(copies.value) == begun.value && UniqueOrigins(begun.value))
      ensures copies.Some? ==> if c.mayUpdate then fresh(copies.value) else copies.value == routepool
    {
      copies := WorkerChangedUpdateRoutepools(c.mayUpdate, routepool, round, ignored, c.dist);
      UpdatedPoolUnique(c.mayUpdate, Views(routepool), round, ignored, c.dist);
      hide UpdatedPool;
    }

    /** The rest of it: whatever became of the manager meanwhile, the copies become the pool. */
    method InstallUpdate(copies: Entries)
      requires Valid() && UniqueOrigins(Views(copies))
      modifies this`routepool
      ensures Valid() && routepool == copies
      ensures Interleavings.Manager(View(), None)
           == Interleavings.Act(c, Interleavings.Manager(old(View()), Some(Views(copies))),
                                Interleavings.Install).manager
    {
      routepool := copies;
    }

    /** `_update_routepool` when nothing happens meanwhile. */
    method UpdateRoutepool() returns (ok: bool)
      requires Valid()
      modifies this`routepool
      ensures Valid()
      ensures View() == Update(c, old(View())).state && ok == Update(c, old(View())).ok
      ensures if ok && c.mayUpdate then fresh(routepool) else routepool == old(routepool)
    {
      hide UpdatedPool;
      hide UniqueOrigins;
      var copies := BeginUpdate();
      if copies.Some? {
        InstallUpdate(copies.value);
      }
      ok := copies.Some?;
    }

    method SetRoute(newRoute: seq<Location>)
      modifies this`route, this`round
      ensures View() == old(View()).(route := newRoute, round := newRoute)
    {
      route := newRoute;
      round := route;
    }

    /** `calculate_route`; `ok` is false when it raises RoutemanagerShuttingDown. */
    method CalculateRouteNow(dynamic: bool, inp: Inputs) returns (ok: bool)
      requires Valid()
      modifies this
      ensures Valid()
      ensures View() == CalculateRoute(c, old(View()), dynamic, inp).state
      ensures ok == CalculateRoute(c, old(View()), dynamic, inp).ok
      ensures fresh(routepool) || routepool == old(routepool)
    {
      hide Update;
      hide CoordsToUse;
      hide UniqueOrigins;
      if c.questMode {
        stoplist := inp.dbStops;
      }
      if dynamic && CoordsToUse(inp.dbStops, ignored) == [] {
        isStarted := false;
        return false;
      }
      SetRoute(inp.newRoute);
      CalculateFollowsUpdate(c, old(View()), dynamic, inp, View());
      var _ := UpdateRoutepool();
      return true;
    }

    method StartRoutemanager(inp: Inputs) returns (ok: bool)
      requires Valid()
      modifies this
      ensures Valid()
      ensures View() == Start(c, old(View()), inp).state && ok == Start(c, old(View()), inp).ok
      ensures fresh(routepool) || routepool == old(routepool)
    {
      hide CalculateRoute;
      hide UniqueOrigins;
      isStarted := true;
      if !c.questMode {
        ignored := {};
      }
      ok := CalculateRouteNow(c.questMode, inp);
    }

    /** `_is_coord_within_range_of_stoplist`. */
    method IsCoordWithinRangeOfStoplist(location: Location) returns (inRange: bool)
      ensures inRange == InStopRange(c, stoplist, location)
      ensures inRange <==>
                || (exists stop :: stop in stoplist && stop == location)
                || (!c.clusteringOff && exists stop :: stop in stoplist && c.dist(stop, location) < c.maxRadius)
    {
      if c.clusteringOff {
        return location in stoplist;
      } else if location in stoplist {
        return true;
      }
      for i := 0 to |stoplist|
        invariant forall j :: 0 <= j < i ==> c.dist(stoplist[j], location) >= c.maxRadius
      {
        if c.dist(stoplist[i], location) < c.maxRadius {
          return true;
        }
      }
      return false;
    }

    /** `_check_coords_before_returning`: quest mode looks at the stops, the others agree. */
    method CheckCoordsBeforeReturning(location: Location) returns (good: bool)
      ensures good == ToVisit(c, View(), location)
      ensures !good <==> c.questMode && (location in ignored || !InStopRange(c, stoplist, location))
    {
      if !c.questMode {
        return true;
      }
      var inRange := IsCoordWithinRangeOfStoplist(location);
      return !(location in ignored || !inRange);
    }

    /** `_check_coord_and_remove_from_route_if_applicable`. */
    method CheckCoordAndRemove(location: Location) returns (good: bool)
      modifies this`round
      ensures good == ToVisit(c, old(View()), location)
      ensures View() == if good then Visit(c, old(View()), location) else old(View())
    {
      good := CheckCoordsBeforeReturning(location);
      if good && c.deleteAfterFetch {
        while location in round
          invariant RemoveAll(round, location) == RemoveAll(old(round), location)
          decreases |round|
        {
          var i := FirstOccurrence(round, location);
          RemoveAllSkips(round[..i], round[i + 1..], location);
          assert round == round[..i] + [location] + round[i + 1..];
          round := round[..i] + round[i + 1..];
        }
        RemoveAllAbsent(round, location);
      }
    }

    /** `_get_worker_rounds_run_through`. */
    method WorkerRoundsRunThrough() returns (median: real)
      ensures median == RoundsRunThrough(Views(routepool))
    {
      var roundList: seq<nat> := [];
      for i := 0 to |routepool|
        invariant |roundList| == i
        invariant forall j :: 0 <= j < i ==> roundList[j] == routepool[j].rounds
      {
        roundList := roundList + [routepool[i].rounds];
      }
      assert roundList == Rounds(Views(routepool));
      return Median(roundList);
    }

    /** The search of `_other_worker_closer_to_prioq` over the other workers. */
    method FindCloserWorker(event: Location, k: nat) returns (closerWorker: Option<nat>)
      requires k < |routepool|
      ensures closerWorker == CloserWorker(Views(routepool), event, k, c.dist)
    {
      hide Views;
      if |routepool| == 1 {
        return None;
      }
      ghost var views := Views(routepool);
      var tempDistance := c.dist(routepool[k].currentPos, event);
      closerWorker := None;
      for i := 0 to |routepool|
        invariant closerWorker == BestOther(views, event, k, i, c.dist)
        invariant tempDistance == c.dist(views[if closerWorker.Some? then closerWorker.value else k].currentPos, event)
      {
        var worker := routepool[i];
        BestOtherStep(views, event, k, i, c.dist);
        assert views[i] == worker.View() && views[k] == routepool[k].View();
        if i == k || worker.prioCoord.Some? || routepool[k].lastPositionType == PRIOQ {
          continue;
        }
        var prioDistance := c.dist(worker.currentPos, event);
        if prioDistance < tempDistance {
          tempDistance := prioDistance;
          closerWorker := Some(i);
        }
      }
    }

    /** `_other_worker_closer_to_prioq`: hand the event to the closest worker closer than `k`. */
    method OtherWorkerCloserToPrioq(event: Location, k: nat) returns (passed: bool)
      requires Valid() && k < |routepool|
      modifies routepool
      ensures Valid()
      ensures var s, best := old(View()), CloserWorker(old(Views(routepool)), event, k, c.dist);
              && passed == best.Some?
              && View() == if best.Some?
                           then SetEntry(s, best.value, s.pool[best.value].(prioCoord := Some(event))) else s
    {
      hide BestOther;
      hide CloserWorker;
      hide UniqueOrigins;
      var closerWorker := FindCloserWorker(event, k);
      if closerWorker.Some? {
        FillSlot(closerWorker.value, event);
      }
      passed := closerWorker.Some?;
    }

    method FillSlot(k: nat, event: Location)
      requires Valid() && k < |routepool|
      modifies routepool
      ensures Valid()
      ensures View() == SetEntry(old(View()), k, old(View()).pool[k].(prioCoord := Some(event)))
    {
      ghost var views := Views(routepool);
      UniqueViewsAreDistinct(routepool);
      routepool[k].prioCoord := Some(event);
      EntryReplaced(routepool, views, k);
    }

    /** Give event or coordinate position to the pool entry of `origin`, if it is still there. */
    method SetRoutepoolEntryLocation(origin: string, pos: Location)
      requires Valid()
      modifies routepool
      ensures Valid()
      ensures View() == SetPosition(old(View()), origin, pos)
    {
      hide Views;
      UniqueViewsAreDistinct(routepool);
      var k := IndexOfEntry(routepool, origin);
      if k < |routepool| {
        ghost var views := Views(routepool);
        routepool[k].currentPos := pos;
        EntryReplaced(routepool, views, k);
      }
    }

    /** The loop over popped priority events. */
    method PopPrioEvents(k: nat, due: seq<Location>) returns (chosen: Option<Location>)
      requires Valid() && k < |routepool|
      modifies this`round, routepool
      ensures Valid()
      ensures View() == ServePrio(c, old(View()), k, due).state
      ensures chosen == ServePrio(c, old(View()), k, due).chosen
    {
      ghost var target := ServePrio(c, View(), k, due);
      for i := 0 to |due|
        invariant Valid() && k < |routepool|
        invariant ServePrio(c, View(), k, due[i..]).state == target.state
        invariant ServePrio(c, View(), k, due[i..]).chosen == target.chosen
      {
        var event := due[i];
        assert due[i..][0] == event && due[i..][1..] == due[i + 1..];
        if !c.canPassPrio {
          return Some(event);
        }
        var good := CheckCoordAndRemove(event);
        if good {
          var passed := OtherWorkerCloserToPrioq(event, k);
          if !passed {
            return Some(event);
          }
        }
      }
      return None;
    }

    /** Pop from the queue of an entry until a coordinate is to be visited. */
    method PopUntilGood(entry: RoutePoolEntry) returns (found: Option<Location>)
      requires Valid() && entry.queue != []
      modifies this`round, entry
      ensures var s, t := old(View()), Take(c, old(View()), old(entry.queue));
              && found == t.found
              && entry.View() == old(entry.View()).(queue := t.rest)
              && round == if found.Some? then Visit(c, s, found.value).round else s.round
      ensures PopsFirst(c, old(View()), old(entry.queue), found, entry.queue)
    {
      TakeMeaning(c, View(), entry.queue);
      ghost var s, target := View(), Take(c, View(), entry.queue);
      var nextCoord := entry.queue[0];
      entry.queue := entry.queue[1..];
      var good := CheckCoordAndRemove(nextCoord);
      while |entry.queue| > 0 && !good
        invariant entry.View() == old(entry.View()).(queue := entry.queue)
        invariant good == ToVisit(c, s, nextCoord)
        invariant target == if good then Taken(Some(nextCoord), entry.queue) else Take(c, s, entry.queue)
        invariant round == if good then Visit(c, s, nextCoord).round else s.round
        decreases |entry.queue|
      {
        nextCoord := entry.queue[0];
        entry.queue := entry.queue[1..];
        good := CheckCoordAndRemove(nextCoord);
      }
      found := if good then Some(nextCoord) else None;
    }

    /** Pop from the queue of a pool entry. */
    method PopFromPool(k: nat) returns (found: Option<Location>)
      requires Valid() && k < |routepool| && routepool[k].queue != []
      modifies this`round, routepool
      ensures Valid() && routepool == old(routepool)
      ensures found == Take(c, old(View()), old(View()).pool[k].queue).found
      ensures View() == PoppedFrom(c, old(View()), k)
    {
      hide Take;
      hide PopsFirst;
      hide SetPosition;
      hide ToVisit;
      ghost var s, views := View(), Views(routepool);
      UniqueViewsAreDistinct(routepool);
      found := PopUntilGood(routepool[k]);
      EntryReplaced(routepool, views, k);
      ghost var s1 := SetEntry(s, k, views[k].(queue := Take(c, s, views[k].queue).rest));
      assert View() == if found.Some? then Visit(c, s1, found.value) else s1;
    }

    /** Hand out from the queue of a pool entry. */
    method HandOut(k: nat) returns (r: NextLocation)
      requires Valid() && k < |routepool| && routepool[k].queue != []
      modifies this`round, routepool
      ensures Valid()
      ensures Step(View(), r) == Hand(c, old(View()), k)
    {
      HandForm(c, View(), k);
      hide Take;
      hide SetPosition;
      hide PoppedFrom;
      hide Hand;
      var found := PopFromPool(k);
      if found.None? {
        return NoLocation;
      }
      SetRoutepoolEntryLocation(routepool[k].origin, found.value);
      return Go(found.value);
    }

    /** The rest of the branch for a finished subroute, once the pool has been updated: `entry` is
        the object the call fetched before, and the pool holds copies instead of it. */
    method ResumeFromStale(entry: RoutePoolEntry) returns (r: NextLocation)
      requires Valid() && entry !in routepool && entry.queue == []
      modifies this`round, routepool, entry
      ensures Valid()
      ensures Step(View(), r) == Resume(c, old(View()), entry.origin, old(entry.subroute))
    {
      hide Views;
      hide Resume;
      hide Take;
      hide SetPosition;
      hide Visit;
      hide UniqueOrigins;
      ghost var u := View();
      var at := IndexOfEntry(routepool, entry.origin);
      ResumeCases(c, u, entry.origin, entry.subroute);
      if at == |routepool| {
        return NoLocation;
      }
      if entry.queue == [] && entry.subroute == [] {
        return NoLocation;
      } else if entry.queue == [] && entry.subroute != [] {
        entry.queue := entry.subroute;
      }
      var found := PopUntilGoodOutside(entry);
      if found.None? {
        return NoLocation;
      }
      SetRoutepoolEntryLocation(entry.origin, found.value);
      return Go(found.value);
    }

    /** Popping from an entry that the pool does not hold leaves the pool as it is. */
    method PopUntilGoodOutside(entry: RoutePoolEntry) returns (found: Option<Location>)
      requires Valid() && entry.queue != [] && entry !in routepool
      modifies this`round, entry
      ensures Valid() && routepool == old(routepool) && Views(routepool) == old(Views(routepool))
      ensures found == Take(c, old(View()), old(entry.queue)).found
      ensures View() == if found.Some? then Visit(c, old(View()), found.value) else old(View())
    {
      hide PopsFirst;
      ghost var u := View();
      found := PopUntilGood(entry);
      if found.Some? {
        VisitChangesRound(c, u, found.value);
      }
    }

    /** `routepool_entry.rounds += 1`. */
    method CountRound(k: nat)
      requires Valid() && k < |routepool|
      modifies routepool
      ensures Valid()
      ensures View() == RoundCounted(old(View()), k)
      ensures routepool[k].origin == old(View()).pool[k].origin && routepool[k].queue == old(routepool[k].queue)
      ensures routepool[k].subroute == old(View()).pool[k].subroute
      ensures View().stoplist == old(stoplist) && View().ignored == old(ignored)
    {
      ghost var views := Views(routepool);
      UniqueViewsAreDistinct(routepool);
      routepool[k].rounds := routepool[k].rounds + 1;
      EntryReplaced(routepool, views, k);
    }

    /** The branch for a finished subroute. */
    method FinishSubroute(k: nat, inp: Inputs) returns (r: NextLocation)
      requires Valid() && c.hasNormalRoute && k < |routepool| && routepool[k].queue == []
      modifies this, routepool
      ensures Valid()
      ensures Step(View(), r) == Finish(c, old(View()), k, inp)
    {
      hide Finish;
      hide RecalculatedResume;
      hide UniqueOrigins;
      hide CoordsToUse;
      hide Views;
      ghost var s := View();
      FinishForm(c, s, k, inp);
      CountRound(k);
      ghost var counted := RoundCounted(s, k);
      hide RoundCounted;
      var entry := routepool[k];
      if c.questMode && (stoplist == [] || CoordsToUse(inp.dbStops, ignored) == []) {
        isStarted := false;
        assert View() == counted.(isStarted := false);
        return NoLocation;
      }
      r := RecalculateAndResume(entry, inp);
    }

    method RecalculateAndResume(entry: RoutePoolEntry, inp: Inputs) returns (r: NextLocation)
      requires Valid() && c.mayUpdate && entry.queue == []
      modifies this, routepool, entry
      ensures Valid()
      ensures Step(View(), r)
           == RecalculatedResume(c, old(View()), entry.origin, old(entry.subroute), inp)
    {
      if c.questMode {
        var _ := CalculateRouteNow(true, inp);
      }
      var ok := UpdateRoutepool();
      if !ok {
        return NoLocation;
      }
      r := ResumeFromStale(entry);
    }

    /** Mark an entry as being on its normal route. */
    method MarkNormal(k: nat)
      requires Valid() && k < |routepool|
      modifies routepool
      ensures Valid()
      ensures View() == OnNormalRoute(old(View()), k)
    {
      ghost var views := Views(routepool);
      UniqueViewsAreDistinct(routepool);
      routepool[k].lastPositionType := NORMAL;
      EntryReplaced(routepool, views, k);
    }

    /** Follow the median of the rounds upwards. */
    method AdvanceRoundcount() returns (advanced: bool)
      modifies this`roundcount
      ensures View() == Advance(old(View()))
      ensures advanced == (Advance(old(View())).roundcount != old(roundcount))
    {
      var runThrough := WorkerRoundsRunThrough();
      advanced := runThrough > roundcount;
      if advanced {
        roundcount := runThrough;
      }
    }

    /** The part of `get_next_location` below the priority queue. */
    method NormalLocation(k: nat, inp: Inputs) returns (r: NextLocation)
      requires Valid() && k < |routepool|
      modifies this, routepool
      ensures Valid()
      ensures Step(View(), r) == Normal(c, old(View()), k, inp)
    {
      hide Normal;
      hide Finish;
      hide Hand;
      hide UniqueOrigins;
      NormalForm(c, View(), k, inp);
      if !c.hasNormalRoute {
        return NoLocation;
      }
      MarkNormal(k);
      var advanced := AdvanceRoundcount();
      if advanced && route == [] {
        return NoLocation;
      }
      if routepool[k].queue == [] {
        r := FinishSubroute(k, inp);
      } else {
        r := HandOut(k);
      }
    }

    /** `get_next_location` from the check of the priority queue on. */
    method ContinueLocation(k: nat, inp: Inputs) returns (r: NextLocation)
      requires Valid() && k < |routepool|
      modifies this, routepool
      ensures Valid()
      ensures Step(View(), r) == Continue(c, old(View()), k, inp)
    {
      ContinueForm(c, View(), k, inp);
      if c.hasPrioq && (routepool[k].lastPositionType != PRIOQ || c.starveRoute) {
        if !c.hasNormalRoute && inp.due == [] {
          return StillWaiting;
        }
        var chosen := PopPrioEvents(k, inp.due);
        if chosen.Some? {
          MoveToEvent(k, chosen.value);
          return Go(chosen.value);
        }
      }
      r := NormalLocation(k, inp);
    }

    /** Send the worker to a priority event. */
    method MoveToEvent(k: nat, event: Location)
      requires Valid() && k < |routepool|
      modifies routepool
      ensures Valid()
      ensures View() == AtEvent(old(View()), k, event)
    {
      ghost var views := Views(routepool);
      UniqueViewsAreDistinct(routepool);
      routepool[k].lastPositionType := PRIOQ;
      routepool[k].currentPos := event;
      EntryReplaced(routepool, views, k);
    }

    method NewRoutePoolEntry(origin: string, now: real) returns (entry: RoutePoolEntry)
      ensures fresh(entry) && entry.View() == NewEntry(View(), origin, now)
      ensures View() == old(View())
    {
      var pos := if origin in startPositions then startPositions[origin] else Location(0.0, 0.0);
      entry := new RoutePoolEntry(origin, now, [], [], 0, pos, None, NORMAL);
    }

    /** A worker without an entry joins the pool. */
    method AddEntry(origin: string, now: real)
      requires Valid() && !HasOrigin(Views(routepool), origin)
      modifies this`routepool
      ensures Valid()
      ensures View() == WithEntry(old(View()), origin, now)
      ensures forall e :: e in routepool ==> e in old(routepool) || fresh(e)
    {
      hide UniqueOrigins;
      hide HasOrigin;
      hide Views;
      WithEntryUnique(View(), origin, now);
      var entry := NewRoutePoolEntry(origin, now);
      ViewsAppend(routepool, entry);
      routepool := routepool + [entry];
    }

    method JoinPool(origin: string, now: real) returns (ok: bool)
      requires Valid() && !HasOrigin(Views(routepool), origin)
      modifies this`routepool
      ensures Valid()
      ensures View() == Update(c, WithEntry(old(View()), origin, now)).state
      ensures ok == Update(c, WithEntry(old(View()), origin, now)).ok
      ensures fresh(set e | e in routepool && e !in old(routepool))
    {
      AddEntry(origin, now);
      ok := UpdateRoutepool();
    }

    method ClearSlot(k: nat)
      requires Valid() && k < |routepool|
      modifies routepool
      ensures Valid()
      ensures View() == SlotCleared(old(View()), k)
    {
      ghost var views := Views(routepool);
      UniqueViewsAreDistinct(routepool);
      routepool[k].prioCoord := None;
      EntryReplaced(routepool, views, k);
    }

    /** `get_next_location`. */
    method GetNextLocation(origin: string, inp: Inputs) returns (r: NextLocation)
      requires Valid()
      modifies this, routepool
      ensures Valid()
      ensures Step(View(), r) == Next(c, old(View()), origin, inp)
    {
      if origin !in registered {
        return NoLocation;
      }
      NextForm(c, View(), origin, inp);
      if !isStarted {
        var started := StartRoutemanager(inp);
        if !started {
          return ShuttingDown;
        }
      }
      r := NextLocationStarted(origin, inp);
    }

    method NextLocationStarted(origin: string, inp: Inputs) returns (r: NextLocation)
      requires Valid()
      modifies this, routepool
      ensures Valid()
      ensures Step(View(), r) == NextStarted(c, old(View()), origin, inp)
    {
      NextStartedForm(c, View(), origin, inp);
      var k := IndexOfEntry(routepool, origin);
      if k == |routepool| {
        r := JoinAndContinue(origin, inp);
      } else {
        r := ServeKnownWorker(k, inp);
      }
    }

    /** The branch for a worker without a pool entry, which fetches the copied entry anew. */
    method JoinAndContinue(origin: string, inp: Inputs) returns (r: NextLocation)
      requires Valid() && !HasOrigin(Views(routepool), origin)
      modifies this, routepool
      ensures Valid()
      ensures Step(View(), r) == JoinedNext(c, old(View()), origin, inp)
    {
      hide Continue;
      hide Update;
      hide WithEntry;
      hide UniqueOrigins;
      var ok := JoinPool(origin, inp.now);
      var k := IndexOfEntry(routepool, origin);
      if !ok || k == |routepool| {
        return NoLocation;
      }
      assert forall e :: e in routepool ==> e in old(routepool) || fresh(e);
      r := ContinueLocation(k, inp);
    }

    method ServeKnownWorker(k: nat, inp: Inputs) returns (r: NextLocation)
      requires Valid() && k < |routepool|
      modifies this, routepool
      ensures Valid()
      ensures Step(View(), r) == KnownNext(c, old(View()), k, inp)
    {
      if routepool[k].prioCoord.Some? && c.canPassPrio {
        var prioEvent := routepool[k].prioCoord.value;
        ClearSlot(k);
        MoveToEvent(k, prioEvent);
        return Go(prioEvent);
      }
      r := ContinueLocation(k, inp);
    }

    /** `register_worker`. */
    method RegisterWorker(worker: string) returns (added: bool)
      modifies this`registered
      ensures View() == old(View()).(registered := old(registered) + {worker})
      ensures added == (worker !in old(registered))
    {
      added := worker !in registered;
      registered := registered + {worker};
    }

    method PopEntry(k: nat)
      requires Valid() && k < |routepool|
      modifies this`routepool
      ensures Valid()
      ensures View() == WithoutEntry(old(View()), k)
      ensures forall e :: e in routepool ==> e in old(routepool)
    {
      ghost var views := Views(routepool);
      routepool := routepool[..k] + routepool[k + 1..];
      assert Views(routepool) == views[..k] + views[k + 1..];
    }

    /** `unregister_worker(worker, remove_routepool_entry=True)`. */
    method UnregisterWorker(worker: string)
      requires Valid()
      modifies this
      ensures Valid()
      ensures View() == Unregister(c, old(View()), worker)
    {
      hide Unregister;
      hide LeftPool;
      hide StoppedWhenIdle;
      hide UniqueOrigins;
      UnregisterForm(c, View(), worker);
      registered := registered - {worker};
      LeavePoolIfPresent(worker);
      StopWhenIdle();
    }

    method LeavePool(k: nat)
      requires Valid() && k < |routepool|
      modifies this`routepool
      ensures Valid()
      ensures View() == Update(c, WithoutEntry(old(View()), k)).state
    {
      PopEntry(k);
      var _ := UpdateRoutepool();
    }

    method LeavePoolIfPresent(worker: string)
      requires Valid()
      modifies this`routepool
      ensures Valid()
      ensures View() == LeftPool(c, old(View()), worker)
    {
      var k := IndexOfEntry(routepool, worker);
      if k < |routepool| {
        LeavePool(k);
      }
    }

    method StopWhenIdle()
      modifies this`isStarted
      ensures View() == StoppedWhenIdle(old(View()))
    {
      if registered == {} && isStarted {
        isStarted := false;
      }
    }

    method Enqueue(k: nat, location: Location)
      requires Valid() && k < |routepool|
      modifies routepool
      ensures Valid()
      ensures View() == Enqueued(old(View()), k, location)
    {
      ghost var views := Views(routepool);
      UniqueViewsAreDistinct(routepool);
      routepool[k].queue := routepool[k].queue + [location];
      EntryReplaced(routepool, views, k);
    }

    method AppendToRound(location: Location)
      modifies this`round
      ensures View() == Appended(c, old(View()), location)
    {
      if c.deleteAfterFetch {
        round := round + [location];
      }
    }

    /** `redo_stop_at_end`. */
    method RedoStopAtEnd(worker: string, location: Location)
      requires Valid()
      modifies this`round, routepool
      ensures Valid()
      ensures View() == Redo(c, old(View()), worker, location)
    {
      RedoForm(c, View(), worker, location);
      var k := IndexOfEntry(routepool, worker);
      if k < |routepool| {
        Enqueue(k, location);
      }
      AppendToRound(location);
    }

    /** `add_coord_to_be_removed`: coordinates off the globe are not recorded. */
    method AddCoordToBeRemoved(lat: real, lon: real)
      modifies this`ignored
      ensures View() == if -90.0 <= lat <= 90.0 && -180.0 <= lon <= 180.0
                        then old(View()).(ignored := old(ignored) + {Location(lat, lon)}) else old(View())
    {
      if lat < -90.0 || lat > 90.0 || lon < -180.0 || lon > 180.0 {
        return;
      }
      ignored := ignored + {Location(lat, lon)};
    }
  }

  lemma ResumeCases(c: Config, u: State, origin: string, subroute: seq<Location>)
    ensures !HasOrigin(u.pool, origin) || subroute == [] || Take(c, u, subroute).found.None?
        ==> Resume(c, u, origin, subroute) == Step(u, NoLocation)
    ensures HasOrigin(u.pool, origin) && subroute != [] && Take(c, u, subroute).found.Some? ==>
              var loc := Take(c, u, subroute).found.value;
              Resume(c, u, origin, subroute) == Step(SetPosition(Visit(c, u, loc), origin, loc), Go(loc))
  {}

  lemma VisitChangesRound(c: Config, s: State, loc: Location)
    ensures Visit(c, s, loc) == s.(round := Visit(c, s, loc).round)
  {}

  /** The end of `Finish`: serve the worker from the subroute of the entry left behind. */
  function Resume(c: Config, u: State, origin: string, subroute: seq<Location>): Step {
    var t := Take(c, u, subroute);
    if !HasOrigin(u.pool, origin) || subroute == [] || t.found.None? then Step(u, NoLocation)
    else Step(SetPosition(Visit(c, u, t.found.value), origin, t.found.value), Go(t.found.value))
  }

  function RecalculatedResume(c: Config, s1: State, origin: string, subroute: seq<Location>, inp: Inputs): Step {
    var u := Update(c, if c.questMode then CalculateRoute(c, s1, true, inp).state else s1);
    if !u.ok then Step(u.state, NoLocation) else Resume(c, u.state, origin, subroute)
  }

  function RoundCounted(s: State, k: nat): State
    requires k < |s.pool|
  {
    hide Repopulated;
    hide CoordsToUse;
    SetEntry(s, k, s.pool[k].(rounds := s.pool[k].rounds + 1))
  }

  /** `Finish` from the state after the optional recalculation on. */
  lemma FinishForm(c: Config, s: State, k: nat, inp: Inputs)
    requires k < |s.pool|
    ensures var s1 := RoundCounted(s, k);
            Finish(c, s, k, inp) ==
              if c.questMode && (s.stoplist == [] || CoordsToUse(inp.dbStops, s.ignored) == []) then
                Step(s1.(isStarted := false), NoLocation)
              else RecalculatedResume(c, s1, s.pool[k].origin, s.pool[k].subroute, inp)
  {}

  /** The state after a pop from the queue of an entry. */
  function PoppedFrom(c: Config, s: State, k: nat): State
    requires k < |s.pool|
  {
    var t := Take(c, s, s.pool[k].queue);
    var s1 := SetEntry(s, k, s.pool[k].(queue := t.rest));
    if t.found.Some? then Visit(c, s1, t.found.value) else s1
  }

  lemma HandForm(c: Config, s: State, k: nat)
    requires k < |s.pool|
    ensures var found, popped := Take(c, s, s.pool[k].queue).found, PoppedFrom(c, s, k);
            Hand(c, s, k) ==
              if found.None? then Step(popped, NoLocation)
              else Step(SetPosition(popped, s.pool[k].origin, found.value), Go(found.value))
  {}

  function OnNormalRoute(s: State, k: nat): State
    requires k < |s.pool|
  {
    SetEntry(s, k, s.pool[k].(lastPositionType := NORMAL))
  }

  function AtEvent(s: State, k: nat, event: Location): State
    requires k < |s.pool|
  {
    SetEntry(s, k, s.pool[k].(lastPositionType := PRIOQ, currentPos := event))
  }

  function SlotCleared(s: State, k: nat): State
    requires k < |s.pool|
  {
    SetEntry(s, k, s.pool[k].(prioCoord := None))
  }

  function Enqueued(s: State, k: nat, location: Location): State
    requires k < |s.pool|
  {
    SetEntry(s, k, s.pool[k].(queue := s.pool[k].queue + [location]))
  }

  function WithEntry(s: State, origin: string, now: real): State {
    s.(pool := s.pool + [NewEntry(s, origin, now)])
  }

  function WithoutEntry(s: State, k: nat): State
    requires k < |s.pool|
  {
    s.(pool := s.pool[..k] + s.pool[k + 1..])
  }

  function Appended(c: Config, s: State, loc: Location): State {
    if c.deleteAfterFetch then s.(round := s.round + [loc]) else s
  }

  function StoppedWhenIdle(s: State): State {
    if s.registered == {} && s.isStarted then s.(isStarted := false) else s
  }

  lemma WithEntryUnique(s: State, origin: string, now: real)
    requires UniqueOrigins(s.pool) && !HasOrigin(s.pool, origin)
    ensures UniqueOrigins(WithEntry(s, origin, now).pool)
  {}

  // Each step function once more, with its parts named the way the methods reach them.

  lemma NormalForm(c: Config, s: State, k: nat, inp: Inputs)
    requires k < |s.pool|
    ensures var s2 := Advance(OnNormalRoute(s, k));
            Normal(c, s, k, inp) ==
              if !c.hasNormalRoute then Step(s, NoLocation)
              else if s2.roundcount != s.roundcount && s2.route == [] then Step(s2, NoLocation)
              else if s2.pool[k].queue == [] then Finish(c, s2, k, inp)
              else Hand(c, s2, k)
  {}

  lemma ContinueForm(c: Config, s: State, k: nat, inp: Inputs)
    requires k < |s.pool|
    ensures var served := ServePrio(c, s, k, inp.due);
            Continue(c, s, k, inp) ==
              if c.hasPrioq && (s.pool[k].lastPositionType != PRIOQ || c.starveRoute) then
                if !c.hasNormalRoute && inp.due == [] then Step(s, StillWaiting)
                else if served.chosen.Some? then
                  Step(AtEvent(served.state, k, served.chosen.value), Go(served.chosen.value))
                else Normal(c, served.state, k, inp)
              else Normal(c, s, k, inp)
  {}

  lemma NextForm(c: Config, s: State, origin: string, inp: Inputs)
    requires origin in s.registered
    ensures Next(c, s, origin, inp) ==
              if s.isStarted then NextStarted(c, s, origin, inp)
              else if !Start(c, s, inp).ok then Step(Start(c, s, inp).state, ShuttingDown)
              else NextStarted(c, Start(c, s, inp).state, origin, inp)
  {}

  function JoinedNext(c: Config, s: State, origin: string, inp: Inputs): Step {
    var u := Update(c, WithEntry(s, origin, inp.now));
    if !u.ok || !HasOrigin(u.state.pool, origin) then Step(u.state, NoLocation)
    else Continue(c, u.state, IndexOf(u.state.pool, origin), inp)
  }

  function KnownNext(c: Config, s: State, k: nat, inp: Inputs): Step
    requires k < |s.pool|
  {
    if s.pool[k].prioCoord.Some? && c.canPassPrio then
      Step(AtEvent(SlotCleared(s, k), k, s.pool[k].prioCoord.value), Go(s.pool[k].prioCoord.value))
    else Continue(c, s, k, inp)
  }

  lemma NextStartedForm(c: Config, s: State, origin: string, inp: Inputs)
    ensures var k := IndexOf(s.pool, origin);
            NextStarted(c, s, origin, inp)
              == if k == |s.pool| then JoinedNext(c, s, origin, inp) else KnownNext(c, s, k, inp)
  {}

  function LeftPool(c: Config, s: State, origin: string): State {
    var k := IndexOf(s.pool, origin);
    if k < |s.pool| then Update(c, WithoutEntry(s, k)).state else s
  }

  lemma UnregisterForm(c: Config, s: State, origin: string)
    ensures Unregister(c, s, origin)
         == StoppedWhenIdle(LeftPool(c, s.(registered := s.registered - {origin}), origin))
  {}

  lemma RedoForm(c: Config, s: State, worker: string, loc: Location)
    ensures var k := IndexOf(s.pool, worker);
            var s1 := if k < |s.pool| then Enqueued(s, k, loc) else s;
            Redo(c, s, worker, loc) == Appended(c, s1, loc)
  {}

  /** One round of the search for a closer worker. */
  lemma BestOtherStep(pool: Pool, event: Location, k: nat, i: nat, dist: Metric)
    requires k < |pool| && i < |pool|
    ensures var b := BestOther(pool, event, k, i, dist);
            var bound := dist(pool[if b.Some? then b.value else k].currentPos, event);
            BestOther(pool, event, k, i + 1, dist) ==
            if Eligible(pool, k, i) && dist(pool[i].currentPos, event) < bound then Some(i) else b
  {}

  lemma CalculateFollowsUpdate(c: Config, s: State, dynamic: bool, inp: Inputs, s1: State)
    requires !(dynamic && CoordsToUse(inp.dbStops, s.ignored) == [])
    requires s1 == s.(stoplist := if c.questMode then inp.dbStops else s.stoplist,
                      route := inp.newRoute, round := inp.newRoute)
    ensures CalculateRoute(c, s, dynamic, inp) == Updated(Update(c, s1).state, true)
  {}

  method FirstOccurrence(xs: seq<Location>, x: Location) returns (i: nat)
    requires x in xs
    ensures i < |xs| && xs[i] == x && x !in xs[..i]
  {
    i := 0;
    while xs[i] != x
      invariant i < |xs| && x !in xs[..i] && x in xs[i..]
      decreases |xs| - i
    {
      i := i + 1;
    }
  }

  lemma {:induction false} RemoveAllSkips(xs: seq<Location>, ys: seq<Location>, x: Location)
    ensures RemoveAll(xs + [x] + ys, x) == RemoveAll(xs + ys, x)
    decreases |ys|
  {
    if ys == [] {
      assert xs + ys == xs;
      assert (xs + [x] + ys)[..|xs|] == xs;
    } else {
      var init, last := ys[..|ys| - 1], ys[|ys| - 1];
      RemoveAllSkips(xs, init, x);
      assert (xs + [x] + ys)[..|xs + [x] + ys| - 1] == xs + [x] + init;
      assert (xs + ys)[..|xs + ys| - 1] == xs + init;
    }
  }

  lemma {:induction false} RemoveAllAbsent(xs: seq<Location>, x: Location)
    requires x !in xs
    ensures RemoveAll(xs, x) == xs
  {
    if xs != [] {
      RemoveAllAbsent(xs[..|xs| - 1], x);
      assert xs == xs[..|xs| - 1] + [xs[|xs| - 1]];
    }
  }
}
