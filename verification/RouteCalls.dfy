/** Runs of whole calls of a route manager, one after the other: every operation, with calls that
    finish a subroute or start the manager among them. What happens when calls overlap is a matter
    of RouteInterleavings; here each one is over before the next begins, and what is proved holds
    through route calculations. */
module RouteCalls {
  import opened SubrouteAllocation
  import opened Wrappers
  import opened RouteSteps
  import opened RouteRuns

  datatype Action =
    | Get(origin: string, inp: Inputs)
    | Leave(origin: string)
    | RefreshPool
    | RedoStop(worker: string, loc: Location)
    | Ignore(loc: Location)
    | Register(origin: string)

  function Act(c: Config, s: State, a: Action): Step {
    match a
    case Get(origin, inp) => Next(c, s, origin, inp)
    case Leave(origin) => Step(Unregister(c, s, origin), NoLocation)
    case RefreshPool => Step(Update(c, s).state, NoLocation)
    case RedoStop(worker, loc) => Step(Redo(c, s, worker, loc), NoLocation)
    case Ignore(loc) => Step(s.(ignored := s.ignored + {loc}), NoLocation)
    case Register(origin) => Step(s.(registered := s.registered + {origin}), NoLocation)
  }

  function FinalState(c: Config, s: State, run: seq<Action>): State
    decreases |run|
  {
    if run == [] then s else FinalState(c, Act(c, s, run[0]).state, run[1..])
  }

  function Outputs(c: Config, s: State, run: seq<Action>): (outs: seq<NextLocation>)
    ensures |outs| == |run|
    decreases |run|
  {
    if run == [] then []
    else
      var step := Act(c, s, run[0]);
      [step.result] + Outputs(c, step.state, run[1..])
  }

  // ---------------------------------------------------------------- registering

  /** Registering a worker and unregistering it before it ever called leaves everything as it was,
      exactly unless it was the only user of a started manager, which stops. */
  lemma RegisterThenLeave(c: Config, s: State, worker: string)
    requires worker !in s.registered && !HasOrigin(s.pool, worker)
    ensures var s' := FinalState(c, s, [Register(worker), Leave(worker)]);
            && (s' == s <==> !s.isStarted || s.registered != {})
            && s' == s.(isStarted := s'.isStarted)
  {
    var s1 := s.(registered := s.registered + {worker});
    assert s1.registered - {worker} == s.registered;
    assert [Register(worker), Leave(worker)][1..] == [Leave(worker)] && [Leave(worker)][1..] == [];
    assert FinalState(c, s1, [Leave(worker)]) == Unregister(c, s1, worker);
  }

  /** A worker that is unregistered is gone for good: it has no entry any more, and no call of it is served.
      The others keep theirs as long as there are as many usable coordinates as workers. The manager stops
      exactly when nobody is left, and round and route stay. */
  lemma UnregisteredIsGone(c: Config, s: State, origin: string, inp: Inputs)
    requires UniqueOrigins(s.pool)
    ensures var s' := Unregister(c, s, origin);
            && s' == s.(pool := s'.pool, registered := s.registered - {origin}, isStarted := s'.isStarted)
            && (s'.isStarted <==> s.isStarted && s'.registered != {})
            && !HasOrigin(s'.pool, origin) && Next(c, s', origin, inp) == Step(s', NoLocation)
            && (forall other :: HasOrigin(s'.pool, other) ==> HasOrigin(s.pool, other))
            && (|s.pool| <= |CoordsToUse(s.round, s.ignored)| ==>
                  forall other :: other != origin && HasOrigin(s.pool, other) ==> HasOrigin(s'.pool, other))
  {
    var k, s1 := IndexOf(s.pool, origin), Removed(s, origin);
    RemovedOrigins(s, origin);
    UpdateOrigins(c, s1);
    hide UpdatedPool;
    hide HasOrigin;
    hide CoordsToUse;
  }

  lemma RemovedOrigins(s: State, origin: string)
    requires UniqueOrigins(s.pool)
    ensures var s1 := Removed(s, origin);
            && |s1.pool| <= |s.pool| && UniqueOrigins(s1.pool)
            && forall other :: HasOrigin(s1.pool, other) <==> other != origin && HasOrigin(s.pool, other)
  {
    var k, p := IndexOf(s.pool, origin), Removed(s, origin).pool;
    if k < |s.pool| {
      assert p == s.pool[..k] + s.pool[k + 1..];
      hide Removed;
      hide IndexOf;
      forall i | 0 <= i < |p| ensures p[i] == s.pool[if i < k then i else i + 1] && p[i].origin != origin {
        assert s.pool[k].origin == origin;
      }
      forall other ensures HasOrigin(p, other) <==> other != origin && HasOrigin(s.pool, other) {
        OriginAmong(p, other);
        OriginAmong(s.pool, other);
        hide HasOrigin;
        if other != origin && HasOrigin(s.pool, other) {
          var j :| 0 <= j < |s.pool| && s.pool[j].origin == other;
          assert p[if j < k then j else j - 1] == s.pool[j];
        }
      }
    }
  }

  lemma OriginAmong(pool: Pool, origin: string)
    ensures HasOrigin(pool, origin) <==> exists i :: 0 <= i < |pool| && pool[i].origin == origin
  {}

  /** An update adds nobody, and leaves everybody in while there are enough coordinates. */
  lemma UpdateOrigins(c: Config, s: State)
    requires UniqueOrigins(s.pool)
    ensures var s' := Update(c, s).state;
            && s' == s.(pool := s'.pool)
            && (forall other :: HasOrigin(s'.pool, other) ==> HasOrigin(s.pool, other))
            && (|s.pool| <= |CoordsToUse(s.round, s.ignored)| ==>
                  forall other :: HasOrigin(s.pool, other) ==> HasOrigin(s'.pool, other))
  {
    if c.mayUpdate && Update(c, s).ok {
      var base, extra := UpdatedPoolIs(s.pool, s.round, s.ignored, c.dist);
      var coords := CoordsToUse(s.round, s.ignored);
      var kept := Kept(s.pool, |coords|);
      KeptUnique(s.pool, |coords|);
      RepopulatedKeeps(kept, coords, base, extra, c.dist);
      var s' := Update(c, s).state;
      hide UpdatedPool;
      hide Repopulated;
      hide CoordsToUse;
      forall other | HasOrigin(s'.pool, other) ensures HasOrigin(s.pool, other) {
        OriginPresent(s.pool, kept[IndexOf(s'.pool, other)]);
      }
      if |s.pool| <= |coords| {
        forall other | HasOrigin(s.pool, other) ensures HasOrigin(s'.pool, other) {
          OriginPresent(s'.pool, s'.pool[IndexOf(s.pool, other)]);
        }
      }
    }
  }

  // ---------------------------------------------------------------- starting

  /** The first call after a stop starts the manager. In quest mode it fails exactly when no stop is left,
      and the manager is stopped as before. Otherwise the call goes on with the new route as round, on which
      no stop ignored is forgotten in quest mode, and all are in the others. */
  lemma FirstCallStarts(c: Config, s: State, origin: string, inp: Inputs)
    requires !s.isStarted && origin in s.registered
    ensures var r := Next(c, s, origin, inp);
            var fails := c.questMode && forall stop :: stop in inp.dbStops ==> stop in s.ignored;
            && (r.result == ShuttingDown <==> fails)
            && (fails ==> r.state == s.(stoplist := inp.dbStops))
            && (!fails ==> exists s1: State :: StartedFrom(c, s, inp, s1) && r == Next(c, s1, origin, inp))
  {
    CoordsToUseMember(inp.dbStops, s.ignored);
    var coords := CoordsToUse(inp.dbStops, s.ignored);
    if coords != [] {
      assert coords[0] in coords;
    }
    var s1 := Start(c, s, inp).state;
    NeverShutsDown(c, s1, origin, inp);
    hide CoordsToUse;
    hide NextStarted;
    if !(c.questMode && coords == []) {
      assert StartedFrom(c, s, inp, s1) by {
        hide UpdatedPool;
      }
      hide Update;
      assert Next(c, s, origin, inp) == Next(c, s1, origin, inp);
    }
  }

  /** What a started manager goes on with. */
  predicate StartedFrom(c: Config, s: State, inp: Inputs, s1: State) {
    && s1.isStarted && s1.registered == s.registered
    && s1.route == inp.newRoute && s1.round == inp.newRoute
    && s1.ignored == (if c.questMode then s.ignored else {})
    && s1.stoplist == (if c.questMode then inp.dbStops else s.stoplist)
    && s1.pool == Update(c, s1.(pool := s.pool)).state.pool
  }

  lemma NeverShutsDown(c: Config, s: State, origin: string, inp: Inputs)
    ensures NextStarted(c, s, origin, inp).result != ShuttingDown
  {
    hide Update;
    hide ServePrio;
    hide Take;
    hide RoundsRunThrough;
    hide CoordsToUse;
  }

  // ---------------------------------------------------------------- joining

  /** The entry of a worker that was unknown, once the pool is updated: it starts with no rounds at the
      place registered for it, with its whole share queued, which is empty only where pools are not
      divided. */
  lemma NewcomersEntry(c: Config, s: State, origin: string, inp: Inputs)
    requires UniqueOrigins(s.pool) && !HasOrigin(s.pool, origin)
    ensures var u := Update(c, s.(pool := s.pool + [NewEntry(s, origin, inp.now)]));
            u.ok && HasOrigin(u.state.pool, origin) ==>
              var e := u.state.pool[IndexOf(u.state.pool, origin)];
              && e.rounds == 0 && e.timeAdded == inp.now && e.queue == e.subroute && (e.queue == [] <==> !c.mayUpdate)
              && e.prioCoord == None && e.lastPositionType == NORMAL
              && e.currentPos == (if origin in s.startPositions then s.startPositions[origin] else Location(0.0, 0.0))
  {
    var e := NewEntry(s, origin, inp.now);
    var joined := s.(pool := s.pool + [e]);
    assert e in joined.pool && UniqueOrigins(joined.pool);
    QueuesRestartAtClosest(joined.pool, joined.round, joined.ignored, c.dist, e);
    var u := Update(c, joined);
    if c.mayUpdate && u.ok && HasOrigin(u.state.pool, origin) {
      SubroutesNonEmpty(joined.pool, joined.round, joined.ignored, c.dist, IndexOf(u.state.pool, origin));
    }
    hide UpdatedPool;
  }

  // ---------------------------------------------------------------- ignored coordinates

  /** A state of a quest run in which `loc` is to be ignored. */
  predicate Ignores(s: State, loc: Location) { NothingPending(s.pool) && loc in s.ignored }

  lemma UpdateIgnores(c: Config, s: State, loc: Location)
    requires c.mayUpdate && Ignores(s, loc)
    ensures Ignores(Update(c, s).state, loc) && Update(c, s).state == s.(pool := Update(c, s).state.pool)
  {
    UpdatePending(c, s);
    hide UpdatedPool;
  }

  lemma UpdatePending(c: Config, s: State)
    requires c.mayUpdate && NothingPending(s.pool)
    ensures NothingPending(Update(c, s).state.pool)
  {
    if Update(c, s).ok {
      var base, extra := UpdatedPoolIs(s.pool, s.round, s.ignored, c.dist);
      hide UpdatedPool;
      var coords := CoordsToUse(s.round, s.ignored);
      hide CoordsToUse;
      KeptPending(s.pool, |coords|);
      RepopulatedKeeps(Kept(s.pool, |coords|), coords, base, extra, c.dist);
      hide Repopulated;
      hide Kept;
    }
  }

  lemma HandIgnores(c: Config, s: State, k: nat, loc: Location)
    requires IsQuest(c) && Ignores(s, loc) && k < |s.pool|
    ensures Ignores(Hand(c, s, k).state, loc) && Hand(c, s, k).result != Go(loc)
  {
    TakeFacts(c, s, s.pool[k].queue);
    hide Take;
    hide CoordsToUse;
  }

  lemma PositionIgnores(c: Config, u: State, stop: Location, origin: string, loc: Location)
    requires Ignores(u, loc)
    ensures Ignores(SetPosition(Visit(c, u, stop), origin, stop), loc)
  {
    hide CoordsToUse;
  }

  lemma FinishIgnores(c: Config, s: State, k: nat, inp: Inputs, loc: Location)
    requires IsQuest(c) && Ignores(s, loc) && k < |s.pool|
    ensures Ignores(Finish(c, s, k, inp).state, loc) && Finish(c, s, k, inp).result != Go(loc)
  {
    hide Finish;
    hide Update;
    hide Take;
    hide SetPosition;
    hide Visit;
    FinishEnds(c, s, k, inp);
    var s2, u := Recalculated(s, k, inp), Redistributed(c, s, k, inp).state;
    UpdateIgnores(c, s2, loc);
    UpdateIgnores(c, Update(c, s2).state, loc);
    var t := Take(c, u, s.pool[k].subroute);
    TakeFacts(c, u, s.pool[k].subroute);
    if t.found.Some? {
      PositionIgnores(c, u, t.found.value, s.pool[k].origin, loc);
    }
  }

  /** The ways in which the finish step can end in quest mode. */
  lemma FinishEnds(c: Config, s: State, k: nat, inp: Inputs)
    requires IsQuest(c) && k < |s.pool|
    ensures var r, u := Finish(c, s, k, inp), Redistributed(c, s, k, inp).state;
            var t := Take(c, u, s.pool[k].subroute);
            || (r.result == NoLocation && r.state.ignored == s.ignored
                && (r.state.pool == s.pool[k := s.pool[k].(rounds := s.pool[k].rounds + 1)] || r.state == u))
            || (t.found.Some? && r == Step(SetPosition(Visit(c, u, t.found.value), s.pool[k].origin, t.found.value),
                                           Go(t.found.value)))
  {
    hide Take;
    hide UpdatedPool;
    hide CoordsToUse;
    hide SetPosition;
    hide Visit;
  }

  lemma NormalIgnores(c: Config, s: State, k: nat, inp: Inputs, loc: Location)
    requires IsQuest(c) && Ignores(s, loc) && k < |s.pool|
    ensures Ignores(Normal(c, s, k, inp).state, loc) && Normal(c, s, k, inp).result != Go(loc)
  {
    var s2 := Advance(SetEntry(s, k, s.pool[k].(lastPositionType := NORMAL)));
    HandIgnores(c, s2, k, loc);
    FinishIgnores(c, s2, k, inp, loc);
    hide Hand;
    hide Finish;
    hide RoundsRunThrough;
  }

  lemma StartIgnores(c: Config, s: State, inp: Inputs, loc: Location)
    requires IsQuest(c) && Ignores(s, loc)
    ensures Ignores(Start(c, s, inp).state, loc)
  {
    var s1 := s.(isStarted := true, stoplist := inp.dbStops, route := inp.newRoute, round := inp.newRoute);
    UpdateIgnores(c, s1, loc);
    hide Update;
    hide CoordsToUse;
  }

  lemma NextStartedIgnores(c: Config, s: State, origin: string, inp: Inputs, loc: Location)
    requires IsQuest(c) && Ignores(s, loc)
    ensures Ignores(NextStarted(c, s, origin, inp).state, loc) && NextStarted(c, s, origin, inp).result != Go(loc)
  {
    var k := IndexOf(s.pool, origin);
    if k == |s.pool| {
      var joined := s.(pool := s.pool + [NewEntry(s, origin, inp.now)]);
      UpdateIgnores(c, joined, loc);
      hide Update;
      hide Normal;
      var u := Update(c, joined);
      if u.ok && HasOrigin(u.state.pool, origin) {
        NormalIgnores(c, u.state, IndexOf(u.state.pool, origin), inp, loc);
      }
    } else {
      NormalIgnores(c, s, k, inp, loc);
      hide Normal;
    }
  }

  lemma NextIgnores(c: Config, s: State, origin: string, inp: Inputs, loc: Location)
    requires IsQuest(c) && Ignores(s, loc)
    ensures Ignores(Next(c, s, origin, inp).state, loc) && Next(c, s, origin, inp).result != Go(loc)
  {
    NextStartedIgnores(c, s, origin, inp, loc);
    StartIgnores(c, s, inp, loc);
    NextStartedIgnores(c, Start(c, s, inp).state, origin, inp, loc);
    hide NextStarted;
    hide Start;
    hide Ignores;
  }

  lemma UnregisterIgnores(c: Config, s: State, origin: string, loc: Location)
    requires IsQuest(c) && Ignores(s, loc)
    ensures Ignores(Unregister(c, s, origin), loc)
  {
    hide Update;
    hide IndexOf;
    var k := IndexOf(s.pool, origin);
    if k < |s.pool| {
      UpdateIgnores(c, s.(registered := s.registered - {origin}, pool := s.pool[..k] + s.pool[k + 1..]), loc);
    }
  }

  lemma ActIgnores(c: Config, s: State, a: Action, loc: Location)
    requires IsQuest(c) && Ignores(s, loc)
    ensures Ignores(Act(c, s, a).state, loc) && Act(c, s, a).result != Go(loc)
  {
    hide Next;
    hide Unregister;
    hide Update;
    match a
    case Get(origin, inp) => NextIgnores(c, s, origin, inp, loc);
    case Leave(origin) => UnregisterIgnores(c, s, origin, loc);
    case RefreshPool => UpdateIgnores(c, s, loc);
    case _ =>
  }

  /** In quest mode a coordinate once ignored is never handed out again, in no run of whole calls:
      route calculations, restarts and redos do not bring it back. */
  lemma {:induction false} IgnoredNeverReturned(c: Config, s: State, run: seq<Action>, loc: Location, j: nat)
    requires IsQuest(c) && Ignores(s, loc) && j < |run|
    ensures Outputs(c, s, run)[j] != Go(loc)
    decreases |run|
  {
    ActIgnores(c, s, run[0], loc);
    hide Act;
    if j > 0 {
      IgnoredNeverReturned(c, Act(c, s, run[0]).state, run[1..], loc, j - 1);
    }
  }
}
