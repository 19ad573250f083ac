/** The steps of RouteManagerBase on values: registering in the pool, handing out the next
    location, serving priority events, finishing a subroute, redoing and removing. `RouteManager`
    proves the in-place methods against these functions. */
module RouteSteps {
  import opened Sorting
  import opened SubrouteAllocation
  import opened Wrappers

  /** The hooks by which the route manager subclasses differ, and the area settings they read. */
  datatype Config = Config(
    mayUpdate: bool,          // _may_update_routepool
    deleteAfterFetch: bool,   // _delete_coord_after_fetch
    canPassPrio: bool,        // _can_pass_prioq_coords
    hasNormalRoute: bool,     // _has_normal_route
    questMode: bool,          // RouteManagerQuests: checks stops, recalculates after a subroute
    hasPrioq: bool,
    starveRoute: bool,
    clusteringOff: bool,      // _max_clustering == 1
    maxRadius: real,
    dist: Metric)

  /** Route managers that take their locations from this code: those with a normal route allow pool
      updates, and IV has neither. (The idle one refuses updates, but returns a fixed location.) */
  predicate ValidConfig(c: Config) { c.hasNormalRoute ==> c.mayUpdate }

  predicate IsQuest(c: Config) {
    c.mayUpdate && c.deleteAfterFetch && c.canPassPrio && c.hasNormalRoute && c.questMode && !c.hasPrioq
  }

  datatype State = State(
    isStarted: bool,
    registered: set<string>,
    startPositions: map<string, Location>,
    route: seq<Location>,
    round: seq<Location>,
    ignored: set<Location>,
    stoplist: seq<Location>,
    pool: Pool,
    roundcount: real)

  /** What a call sees of the outside: the clock, the events `pop_event` yields before it reports
      that none is due, the stops the database returns and the route computed from them. */
  datatype Inputs = Inputs(now: real, due: seq<Location>, dbStops: seq<Location>, newRoute: seq<Location>)

  datatype NextLocation = Go(location: Location) | NoLocation | ShuttingDown | StillWaiting

  // ---------------------------------------------------------------- single entries

  function SetEntry(s: State, k: nat, e: Entry): State
    requires k < |s.pool|
  {
    s.(pool := s.pool[k := e])
  }

  /** `__set_routepool_entry_location`: a no-op for an origin that left the pool. */
  function SetPosition(s: State, origin: string, pos: Location): State {
    var k := IndexOf(s.pool, origin);
    if k < |s.pool| then SetEntry(s, k, s.pool[k].(currentPos := pos)) else s
  }

  function NewEntry(s: State, origin: string, now: real): Entry {
    Entry(origin, now, [], [], 0,
          if origin in s.startPositions then s.startPositions[origin] else Location(0.0, 0.0),
          None, NORMAL)
  }

  // ---------------------------------------------------------------- coordinate checks

  predicate InStopRange(c: Config, stoplist: seq<Location>, loc: Location) {
    loc in stoplist || (!c.clusteringOff && exists stop :: stop in stoplist && c.dist(stop, loc) < c.maxRadius)
  }

  predicate ToVisit(c: Config, s: State, loc: Location) {
    c.questMode ==> loc !in s.ignored && InStopRange(c, s.stoplist, loc)
  }

  function RemoveAll(round: seq<Location>, loc: Location): seq<Location> {
    CoordsToUse(round, {loc})
  }

  function Visit(c: Config, s: State, loc: Location): State {
    if c.deleteAfterFetch then s.(round := RemoveAll(s.round, loc)) else s
  }

  datatype Taken = Taken(found: Option<Location>, rest: seq<Location>)

  /** The popping loop: skip to the first coordinate to be visited. */
  function Take(c: Config, s: State, queue: seq<Location>): Taken {
    if queue == [] then Taken(None, [])
    else if ToVisit(c, s, queue[0]) then Taken(Some(queue[0]), queue[1..])
    else Take(c, s, queue[1..])
  }

  /** The first coordinate of the queue that is to be visited stands at `i`. */
  predicate FirstToVisit(c: Config, s: State, queue: seq<Location>, i: int) {
    && 0 <= i < |queue| && ToVisit(c, s, queue[i])
    && forall j :: 0 <= j < i ==> !ToVisit(c, s, queue[j])
  }

  /** What a pop promises: it yields the first coordinate to be visited and leaves what comes after it,
      or there is none to be visited and nothing is left. */
  ghost predicate PopsFirst(c: Config, s: State, queue: seq<Location>, found: Option<Location>, rest: seq<Location>) {
    match found
    case Some(loc) => exists i :: FirstToVisit(c, s, queue, i) && queue[i] == loc && rest == queue[i + 1..]
    case None => rest == [] && forall x :: x in queue ==> !ToVisit(c, s, x)
  }

  lemma {:induction false} TakeMeaning(c: Config, s: State, queue: seq<Location>)
    ensures PopsFirst(c, s, queue, Take(c, s, queue).found, Take(c, s, queue).rest)
  {
    if queue != [] {
      if ToVisit(c, s, queue[0]) {
        assert FirstToVisit(c, s, queue, 0);
      } else {
        var tail, t := queue[1..], Take(c, s, queue[1..]);
        TakeMeaning(c, s, tail);
        if t.found.Some? {
          var i :| FirstToVisit(c, s, tail, i) && tail[i] == t.found.value && t.rest == tail[i + 1..];
          assert FirstToVisit(c, s, queue, i + 1) by {
            forall j | 0 <= j < i + 1 ensures !ToVisit(c, s, queue[j]) {
              assert j > 0 ==> queue[j] == tail[j - 1];
            }
          }
          assert tail[i + 1..] == queue[i + 2..];
        } else {
          assert queue == [queue[0]] + tail;
        }
      }
    }
  }

  // ---------------------------------------------------------------- pool updates and routes

  datatype Updated = Updated(state: State, ok: bool)

  function Update(c: Config, s: State): Updated {
    match UpdatedPool(c.mayUpdate, s.pool, s.round, s.ignored, c.dist)
    case None => Updated(s, false)
    case Some(pool) => Updated(s.(pool := pool), true)
  }

  /** `calculate_route`; `ok` is false when it raises RoutemanagerShuttingDown. */
  function CalculateRoute(c: Config, s: State, dynamic: bool, inp: Inputs): Updated {
    var s1 := if c.questMode then s.(stoplist := inp.dbStops) else s;
    if dynamic && CoordsToUse(inp.dbStops, s1.ignored) == [] then Updated(s1.(isStarted := false), false)
    else Updated(Update(c, s1.(route := inp.newRoute, round := inp.newRoute)).state, true)
  }

  function Start(c: Config, s: State, inp: Inputs): Updated {
    if c.questMode then CalculateRoute(c, s.(isStarted := true), true, inp)
    else CalculateRoute(c, s.(isStarted := true, ignored := {}), false, inp)
  }

  // ---------------------------------------------------------------- priority events

  /** May worker `i` take over an event popped by worker `k`? */
  predicate Eligible(pool: Pool, k: nat, i: nat)
    requires k < |pool| && i < |pool|
  {
    i != k && pool[i].prioCoord.None? && pool[k].lastPositionType != PRIOQ
  }

  /** Best candidate among the first `n` workers: closest of those strictly closer than `k`. */
  function BestOther(pool: Pool, event: Location, k: nat, n: nat, dist: Metric): (best: Option<nat>)
    requires k < |pool| && n <= |pool|
    ensures best.Some? ==> best.value < n && Eligible(pool, k, best.value)
  {
    if n == 0 then None
    else
      var b := BestOther(pool, event, k, n - 1, dist);
      var bound := dist(pool[if b.Some? then b.value else k].currentPos, event);
      if Eligible(pool, k, n - 1) && dist(pool[n - 1].currentPos, event) < bound then Some(n - 1) else b
  }

  lemma {:induction false} BestOtherMeaning(pool: Pool, event: Location, k: nat, n: nat, dist: Metric)
    requires k < |pool| && n <= |pool|
    ensures var best := BestOther(pool, event, k, n, dist);
            && (best.Some? ==>
                  && dist(pool[best.value].currentPos, event) < dist(pool[k].currentPos, event)
                  && forall i :: 0 <= i < n && Eligible(pool, k, i)
                       ==> dist(pool[best.value].currentPos, event) <= dist(pool[i].currentPos, event)
                           && (i < best.value ==>
                                 dist(pool[best.value].currentPos, event) < dist(pool[i].currentPos, event)))
            && (best.None? ==>
                  forall i :: 0 <= i < n && Eligible(pool, k, i)
                    ==> dist(pool[k].currentPos, event) <= dist(pool[i].currentPos, event))
  {
    if n > 0 {
      BestOtherMeaning(pool, event, k, n - 1, dist);
    }
  }

  function CloserWorker(pool: Pool, event: Location, k: nat, dist: Metric): (best: Option<nat>)
    requires k < |pool|
    ensures best.Some? ==> best.value < |pool| && Eligible(pool, k, best.value)
  {
    if |pool| == 1 then None else BestOther(pool, event, k, |pool|, dist)
  }

  datatype Handover = Handover(event: Location, worker: nat)

  datatype Served = Served(
    state: State,
    chosen: Option<Location>,
    rejected: seq<Location>,
    passed: seq<Handover>,
    left: seq<Location>)

  /** The loop over popped events: check, pass on, or keep; `left` was not popped any more. */
  function ServePrio(c: Config, s: State, k: nat, due: seq<Location>): (r: Served)
    requires k < |s.pool|
    ensures |r.state.pool| == |s.pool|
    ensures r.state == s.(round := r.state.round, pool := r.state.pool)
    decreases |due|
  {
    if due == [] then Served(s, None, [], [], [])
    else
      var event := due[0];
      if !c.canPassPrio then Served(s, Some(event), [], [], due[1..])
      else if !ToVisit(c, s, event) then
        var r := ServePrio(c, s, k, due[1..]);
        r.(rejected := [event] + r.rejected)
      else
        var s1 := Visit(c, s, event);
        match CloserWorker(s1.pool, event, k, c.dist)
        case None => Served(s1, Some(event), [], [], due[1..])
        case Some(w) =>
          var r := ServePrio(c, SetEntry(s1, w, s1.pool[w].(prioCoord := Some(event))), k, due[1..]);
          r.(passed := [Handover(event, w)] + r.passed)
  }

  // ---------------------------------------------------------------- rounds

  function Rounds(pool: Pool): seq<nat> { MapSeq(pool, (e: Entry) => e.rounds) }

  function AsReal(n: nat): real { n as real }

  /** Python's statistics.median, 0 for no data. */
  function Median(xs: seq<nat>): real {
    var sorted := SortBy(xs, AsReal);
    SortByMultiset(xs, AsReal);
    var n := |sorted|;
    if n == 0 then 0.0
    else if n % 2 == 1 then sorted[n / 2] as real
    else (sorted[n / 2 - 1] + sorted[n / 2]) as real / 2.0
  }

  function RoundsRunThrough(pool: Pool): real { Median(Rounds(pool)) }

  // ---------------------------------------------------------------- get_next_location

  datatype Step = Step(state: State, result: NextLocation)

  /** Popping from a queue that lies in the pool. */
  function Hand(c: Config, s: State, k: nat): Step
    requires k < |s.pool|
  {
    var t := Take(c, s, s.pool[k].queue);
    var s1 := SetEntry(s, k, s.pool[k].(queue := t.rest));
    match t.found
    case None => Step(s1, NoLocation)
    case Some(loc) => Step(SetPosition(Visit(c, s1, loc), s.pool[k].origin, loc), Go(loc))
  }

  /** The subroute is done. The entry held by the call is not the one in the pool any more once
      the pool has been updated, as the update returns copies: the queue refilled from the old
      subroute and popped from is that of the entry left behind. */
  function Finish(c: Config, s: State, k: nat, inp: Inputs): Step
    requires k < |s.pool|
  {
    var stale := s.pool[k].(rounds := s.pool[k].rounds + 1);
    var s1 := SetEntry(s, k, stale);
    if c.questMode && (s1.stoplist == [] || CoordsToUse(inp.dbStops, s1.ignored) == []) then
      Step(s1.(isStarted := false), NoLocation)
    else
      var s2 := if c.questMode then CalculateRoute(c, s1, true, inp).state else s1;
      var u := Update(c, s2);
      if !u.ok || !HasOrigin(u.state.pool, stale.origin) || stale.subroute == [] then
        Step(u.state, NoLocation)
      else
        var t := Take(c, u.state, stale.subroute);
        match t.found
        case None => Step(u.state, NoLocation)
        case Some(loc) => Step(SetPosition(Visit(c, u.state, loc), stale.origin, loc), Go(loc))
  }

  function Advance(s: State): State {
    var m := RoundsRunThrough(s.pool);
    if m > s.roundcount then s.(roundcount := m) else s
  }

  function Normal(c: Config, s: State, k: nat, inp: Inputs): Step
    requires k < |s.pool|
  {
    if !c.hasNormalRoute then Step(s, NoLocation)
    else
      var s1 := SetEntry(s, k, s.pool[k].(lastPositionType := NORMAL));
      var s2 := Advance(s1);
      if s2.roundcount != s1.roundcount && s2.route == [] then Step(s2, NoLocation)
      else if s2.pool[k].queue == [] then Finish(c, s2, k, inp)
      else Hand(c, s2, k)
  }

  function Continue(c: Config, s: State, k: nat, inp: Inputs): Step
    requires k < |s.pool|
  {
    if c.hasPrioq && (s.pool[k].lastPositionType != PRIOQ || c.starveRoute) then
      if !c.hasNormalRoute && inp.due == [] then Step(s, StillWaiting)
      else
        var served := ServePrio(c, s, k, inp.due);
        match served.chosen
        case None => Normal(c, served.state, k, inp)
        case Some(loc) =>
          var e := served.state.pool[k].(lastPositionType := PRIOQ, currentPos := loc);
          Step(SetEntry(served.state, k, e), Go(loc))
    else Normal(c, s, k, inp)
  }

  function Next(c: Config, s: State, origin: string, inp: Inputs): Step {
    if origin !in s.registered then Step(s, NoLocation)
    else
      var started := if s.isStarted then Updated(s, true) else Start(c, s, inp);
      if !started.ok then Step(started.state, ShuttingDown)
      else NextStarted(c, started.state, origin, inp)
  }

  function NextStarted(c: Config, s: State, origin: string, inp: Inputs): Step {
    var k := IndexOf(s.pool, origin);
    if k == |s.pool| then
      var u := Update(c, s.(pool := s.pool + [NewEntry(s, origin, inp.now)]));
      if !u.ok || !HasOrigin(u.state.pool, origin) then Step(u.state, NoLocation)
      else Continue(c, u.state, IndexOf(u.state.pool, origin), inp)
    else if s.pool[k].prioCoord.Some? && c.canPassPrio then
      var event := s.pool[k].prioCoord.value;
      var e := s.pool[k].(prioCoord := None, currentPos := event, lastPositionType := PRIOQ);
      Step(SetEntry(s, k, e), Go(event))
    else Continue(c, s, k, inp)
  }

  // ---------------------------------------------------------------- other operations

  /** `unregister_worker(worker, remove_routepool_entry=True)`. */
  function Unregister(c: Config, s: State, origin: string): State {
    var s1 := s.(registered := s.registered - {origin});
    var k := IndexOf(s.pool, origin);
    var s2 := if k < |s.pool| then Update(c, s1.(pool := s.pool[..k] + s.pool[k + 1..])).state else s1;
    if s2.registered == {} && s2.isStarted then s2.(isStarted := false) else s2
  }

  /** The state in which the worker and its entry are gone, and the pool is not updated yet. */
  function Removed(s: State, origin: string): State {
    var s1 := s.(registered := s.registered - {origin});
    var k := IndexOf(s.pool, origin);
    if k < |s.pool| then s1.(pool := s.pool[..k] + s.pool[k + 1..]) else s1
  }

  /** Up to the flag, unregistering is a removal and at most one update. */
  lemma UnregisterShape(c: Config, s: State, origin: string)
    ensures var s1, s2 := Removed(s, origin), Unregister(c, s, origin);
            || s2 == s1 || s2 == s1.(isStarted := false)
            || s2 == Update(c, s1).state || s2 == Update(c, s1).state.(isStarted := false)
  {
    hide Update;
    hide IndexOf;
  }

  /** `redo_stop_at_end`. */
  function Redo(c: Config, s: State, worker: string, loc: Location): State {
    var k := IndexOf(s.pool, worker);
    var s1 := if k < |s.pool| then SetEntry(s, k, s.pool[k].(queue := s.pool[k].queue + [loc])) else s;
    if c.deleteAfterFetch then s1.(round := s1.round + [loc]) else s1
  }
}
