/** Quest mode over whole runs of many workers, in which pool updates take their time. */
module RouteInterleavings {
  import opened Sorting
  import opened SubrouteAllocation
  import opened Wrappers
  import opened RouteSteps
  import opened RouteRuns

  // A pool update awaits a process pool: it works on what round and entries were when it began, and
  // until its copies are installed other calls go on popping. Between two route calculations every
  // coordinate is handed out at most once unless it is redone, exactly as long as nothing is popped
  // meanwhile that the copies still queue.

  /** A route manager, and the pool an update under way will install. The manager's mutex keeps a
      second update, and removals, from starting meanwhile. */
  datatype Manager = Manager(state: State, flight: Option<Pool>)

  datatype Action =
    | Get(origin: string, inp: Inputs)          // get_next_location of a worker with a queue
    | Join(origin: string, now: real)           // a worker without an entry adds one to the pool
    | Begin                                     // _update_routepool calls the process pool
    | Install                                   // its copies become the pool
    | Leave(origin: string)                     // unregister_worker drops the entry
    | StopIfIdle                                // and stops a manager that nobody uses
    | RedoStop(worker: string, loc: Location)
    | Ignore(loc: Location)
    | Register(origin: string)

  datatype Done = Done(manager: Manager, result: NextLocation)

  /** The worker has an entry with something queued on a started manager. */
  predicate Serves(s: State, origin: string) {
    var k := IndexOf(s.pool, origin);
    s.isStarted && k < |s.pool| && s.pool[k].queue != []
  }

  function Joined(s: State, origin: string, now: real): State {
    if s.isStarted && origin in s.registered && !HasOrigin(s.pool, origin) then
      s.(pool := s.pool + [NewEntry(s, origin, now)])
    else s
  }

  function Left(s: State, origin: string): State {
    var k := IndexOf(s.pool, origin);
    s.(registered := s.registered - {origin},
       pool := if k < |s.pool| then s.pool[..k] + s.pool[k + 1..] else s.pool)
  }

  /** One step; an action that is not enabled changes nothing. Calls that finish a subroute or start
      the manager calculate a route and are not part of these runs. */
  function Act(c: Config, m: Manager, a: Action): Done {
    var s := m.state;
    match a
    case Get(origin, inp) =>
      if Serves(s, origin) then
        var r := Next(c, s, origin, inp);
        Done(m.(state := r.state), r.result)
      else Done(m, NoLocation)
    case Join(origin, now) => Done(m.(state := Joined(s, origin, now)), NoLocation)
    case Begin =>
      Done(if m.flight.None? then m.(flight := UpdatedPool(c.mayUpdate, s.pool, s.round, s.ignored, c.dist)) else m,
           NoLocation)
    case Install =>
      Done(if m.flight.Some? then Manager(s.(pool := m.flight.value), None) else m, NoLocation)
    case Leave(origin) => Done(if m.flight.None? then m.(state := Left(s, origin)) else m, NoLocation)
    case StopIfIdle =>
      Done(if m.flight.None? && s.registered == {} then m.(state := s.(isStarted := false)) else m, NoLocation)
    case RedoStop(worker, loc) => Done(m.(state := Redo(c, s, worker, loc)), NoLocation)
    case Ignore(loc) => Done(m.(state := s.(ignored := s.ignored + {loc})), NoLocation)
    case Register(origin) => Done(m.(state := s.(registered := s.registered + {origin})), NoLocation)
  }

  function Final(c: Config, m: Manager, run: seq<Action>): Manager
    decreases |run|
  {
    if run == [] then m else Final(c, Act(c, m, run[0]).manager, run[1..])
  }

  function Outputs(c: Config, m: Manager, run: seq<Action>): (outs: seq<NextLocation>)
    ensures |outs| == |run|
    decreases |run|
  {
    if run == [] then []
    else
      var done := Act(c, m, run[0]);
      [done.result] + Outputs(c, done.manager, run[1..])
  }

  predicate Redoes(a: Action, loc: Location) { a.RedoStop? && a.loc == loc }

  // ---------------------------------------------------------------- undisturbed updates

  lemma {:induction false} FinalConcat(c: Config, m: Manager, a: seq<Action>, b: seq<Action>)
    ensures Final(c, m, a + b) == Final(c, Final(c, m, a), b)
    decreases |a|
  {
    hide Act;
    if a == [] {
      assert a + b == b;
    } else {
      assert (a + b)[0] == a[0] && (a + b)[1..] == a[1..] + b;
      FinalConcat(c, Act(c, m, a[0]).manager, a[1..], b);
    }
  }

  lemma FinalTwo(c: Config, m: Manager, a: Action, b: Action)
    ensures Final(c, m, [a, b]) == Act(c, Act(c, m, a).manager, b).manager
  {
    hide Act;
    assert [a, b][1..] == [b] && [b][1..] == [];
    assert Final(c, Act(c, m, a).manager, [b]) == Act(c, Act(c, m, a).manager, b).manager;
  }

  /** With nothing in between, beginning and installing an update is the update in one step. */
  lemma UpdateUndisturbed(c: Config, s: State)
    ensures Final(c, Manager(s, None), [Begin, Install]) == Manager(Update(c, s).state, None)
  {
    FinalTwo(c, Manager(s, None), Begin, Install);
    hide UpdatedPool;
  }

  /** So a worker that joins undisturbed is served as `Next` says, by a join, an update and a pop. */
  lemma JoinUndisturbed(c: Config, s: State, origin: string, inp: Inputs)
    requires IsQuest(c) && UniqueOrigins(s.pool) && s.isStarted
    requires origin in s.registered && !HasOrigin(s.pool, origin)
    ensures var updated := Final(c, Manager(s, None), [Join(origin, inp.now)] + [Begin, Install]);
            var r := Act(c, updated, Get(origin, inp));
            Next(c, s, origin, inp) == Step(r.manager.state, r.result)
  {
    var e := NewEntry(s, origin, inp.now);
    var joined := s.(pool := s.pool + [e]);
    FinalConcat(c, Manager(s, None), [Join(origin, inp.now)], [Begin, Install]);
    assert [Join(origin, inp.now)][1..] == [];
    UpdateUndisturbed(c, joined);
    JoinServed(c, s, origin, inp);
  }

  /** A call of a worker with an entry and no pending event. */
  lemma KnownServed(c: Config, s: State, origin: string, inp: Inputs)
    requires s.isStarted && origin in s.registered && HasOrigin(s.pool, origin)
    requires s.pool[IndexOf(s.pool, origin)].prioCoord.None?
    ensures Next(c, s, origin, inp) == Continue(c, s, IndexOf(s.pool, origin), inp)
  {
    hide Continue;
  }

  lemma NewServed(c: Config, s: State, origin: string, inp: Inputs)
    requires s.isStarted && origin in s.registered && !HasOrigin(s.pool, origin)
    ensures var u := Update(c, s.(pool := s.pool + [NewEntry(s, origin, inp.now)]));
            Next(c, s, origin, inp) ==
              if u.ok && HasOrigin(u.state.pool, origin) then Continue(c, u.state, IndexOf(u.state.pool, origin), inp)
              else Step(u.state, NoLocation)
  {
    hide Continue;
    hide Update;
  }

  /** A worker that is unregistered undisturbed leaves as `Unregister` says: its entry goes, the pool is updated,
      and a manager that nobody uses stops. */
  lemma LeaveUndisturbed(c: Config, s: State, origin: string)
    ensures var steps := if HasOrigin(s.pool, origin) then [Begin, Install] else [];
            var left := Act(c, Manager(s, None), Leave(origin)).manager;
            Act(c, Final(c, left, steps), StopIfIdle).manager == Manager(Unregister(c, s, origin), None)
  {
    UpdateUndisturbed(c, Left(s, origin));
    UpdatesPoolOnly(c, Left(s, origin));
    hide Update;
    hide UpdatedPool;
  }

  lemma UpdatesPoolOnly(c: Config, s: State)
    ensures Update(c, s).state == s.(pool := Update(c, s).state.pool)
  {}

  /** The entry of the new worker as the update leaves it. */
  lemma NewEntryAfterUpdate(c: Config, s: State, origin: string, now: real)
    requires IsQuest(c) && UniqueOrigins(s.pool) && !HasOrigin(s.pool, origin)
    ensures var u := Update(c, s.(pool := s.pool + [NewEntry(s, origin, now)]));
            && u.state.isStarted == s.isStarted && u.state.registered == s.registered
            && (Serves(u.state, origin) ==> u.ok && HasOrigin(u.state.pool, origin))
            && (u.ok && HasOrigin(u.state.pool, origin) ==>
                  var e := u.state.pool[IndexOf(u.state.pool, origin)];
                  e.queue != [] && e.prioCoord.None?)
  {
    var e := NewEntry(s, origin, now);
    var joined := s.(pool := s.pool + [e]);
    var u := Update(c, joined);
    assert e in joined.pool;
    assert UniqueOrigins(joined.pool);
    IndexOfAt(joined.pool, |s.pool|);
    if u.ok && HasOrigin(u.state.pool, origin) {
      JoinFillsQueue(c, joined, e);
      QueuesRestartAtClosest(joined.pool, joined.round, joined.ignored, c.dist, e);
      hide UpdatedPool;
    }
  }

  lemma JoinServed(c: Config, s: State, origin: string, inp: Inputs)
    requires IsQuest(c) && UniqueOrigins(s.pool) && s.isStarted
    requires origin in s.registered && !HasOrigin(s.pool, origin)
    ensures var u := Update(c, s.(pool := s.pool + [NewEntry(s, origin, inp.now)])).state;
            var r := Act(c, Manager(u, None), Get(origin, inp));
            Next(c, s, origin, inp) == Step(r.manager.state, r.result)
  {
    NewEntryAfterUpdate(c, s, origin, inp.now);
    NewServed(c, s, origin, inp);
    hide Update;
    hide Next;
    hide Continue;
    var u := Update(c, s.(pool := s.pool + [NewEntry(s, origin, inp.now)]));
    if u.ok && HasOrigin(u.state.pool, origin) {
      KnownServed(c, u.state, origin, inp);
    }
  }

  // ---------------------------------------------------------------- what one pop changes

  /** What is still to be visited and not taken stays in the queue. */
  lemma {:induction false} TakeKeeps(c: Config, s: State, queue: seq<Location>, loc: Location)
    requires loc in queue && ToVisit(c, s, loc)
    ensures var t := Take(c, s, queue); t.found.Some? && (t.found != Some(loc) ==> loc in t.rest)
  {
    if !ToVisit(c, s, queue[0]) {
      TakeKeeps(c, s, queue[1..], loc);
    }
  }

  lemma {:induction false} TakeShortens(c: Config, s: State, queue: seq<Location>)
    requires queue != []
    ensures |Take(c, s, queue).rest| < |queue|
  {
    if !ToVisit(c, s, queue[0]) && |queue| > 1 {
      TakeShortens(c, s, queue[1..]);
    }
  }

  /** The pool after the queue of entry `k` was cut to `rest`. */
  function Requeued(pool: Pool, k: nat, rest: seq<Location>): Pool
    requires k < |pool|
  {
    pool[k := pool[k].(queue := rest)]
  }

  /** Round, queues and slots are all that is looked at below; the rest a pop leaves alone. */
  predicate SameSurroundings(s: State, s': State) {
    && s'.isStarted == s.isStarted && s'.registered == s.registered && s'.route == s.route
    && s'.ignored == s.ignored && s'.stoplist == s.stoplist
  }

  /** A pop that yields `loc`: it leaves the round, and the queue it was popped from is cut. */
  predicate PopsTo(s: State, s': State, k: nat, rest: seq<Location>, loc: Location)
    requires k < |s.pool|
  {
    && SameSurroundings(s, s') && s'.round == CoordsToUse(s.round, {loc})
    && SameQueues(Requeued(s.pool, k, rest), s'.pool) && SameRounds(s.pool, s'.pool)
    && RoundsRunThrough(s'.pool) <= s'.roundcount
  }

  predicate SameRounds(a: Pool, b: Pool) { Rounds(a) == Rounds(b) }

  /** A call that yields nothing cuts the queue it looked at at most, namely to nothing. */
  predicate PopsNothing(s: State, s': State, k: nat, queue: seq<Location>)
    requires k < |s.pool|
  {
    && SameSurroundings(s, s') && s'.round == s.round
    && SameQueues(Requeued(s.pool, k, queue), s'.pool) && SameRounds(s.pool, s'.pool)
    && RoundsRunThrough(s'.pool) <= s'.roundcount
  }

  lemma HandShape(c: Config, s: State, k: nat)
    requires IsQuest(c) && k < |s.pool| && RoundsRunThrough(s.pool) <= s.roundcount
    ensures var t, r := Take(c, s, s.pool[k].queue), Hand(c, s, k);
            if t.found.Some? then r.result == Go(t.found.value) && PopsTo(s, r.state, k, t.rest, t.found.value)
            else r.result == NoLocation && PopsNothing(s, r.state, k, t.rest)
  {
    hide Take;
    hide RoundsRunThrough;
    var t := Take(c, s, s.pool[k].queue);
    var s1 := SetEntry(s, k, s.pool[k].(queue := t.rest));
    assert Rounds(s1.pool) == Rounds(s.pool);
    RoundsSame(s.pool, s1.pool);
    if t.found.Some? {
      var v := Visit(c, s1, t.found.value);
      var r := SetPosition(v, s.pool[k].origin, t.found.value);
      assert Rounds(r.pool) == Rounds(v.pool);
      RoundsSame(s.pool, r.pool);
    }
  }

  lemma RoundsSame(a: Pool, b: Pool)
    requires Rounds(a) == Rounds(b)
    ensures RoundsRunThrough(a) == RoundsRunThrough(b)
  {}

  /** Shapes carry over to a state with the same queues. */
  lemma ShapeFrom(s: State, s2: State, r: State, k: nat, rest: seq<Location>)
    requires k < |s.pool| && SameSurroundings(s, s2) && s2.round == s.round
    requires SameQueues(s.pool, s2.pool) && SameRounds(s.pool, s2.pool)
    ensures PopsNothing(s2, r, k, rest) ==> PopsNothing(s, r, k, rest)
    ensures forall loc :: PopsTo(s2, r, k, rest, loc) ==> PopsTo(s, r, k, rest, loc)
  {
    hide RoundsRunThrough;
    hide CoordsToUse;
    hide Rounds;
  }

  /** The worker's entry is marked and the round counter follows the median. */
  function Marked(s: State, k: nat): State
    requires k < |s.pool|
  {
    Advance(SetEntry(s, k, s.pool[k].(lastPositionType := NORMAL)))
  }

  lemma MarkedShape(s: State, k: nat)
    requires k < |s.pool|
    ensures var s2 := Marked(s, k);
            && SameSurroundings(s, s2) && s2.round == s.round && s2.pool[k].queue == s.pool[k].queue
            && SameQueues(s.pool, s2.pool) && SameRounds(s.pool, s2.pool)
            && RoundsRunThrough(s2.pool) <= s2.roundcount
            && (s2.roundcount != s.roundcount <==> RoundsRunThrough(s.pool) > s.roundcount)
  {
    hide RoundsRunThrough;
    var s1 := SetEntry(s, k, s.pool[k].(lastPositionType := NORMAL));
    assert Rounds(s1.pool) == Rounds(s.pool);
    RoundsSame(s.pool, s1.pool);
  }

  /** No rounds were run through that the counter does not know, or there is a route to go on. */
  predicate PopsNow(s: State) { s.route != [] || RoundsRunThrough(s.pool) <= s.roundcount }

  lemma NormalShape(c: Config, s: State, k: nat, inp: Inputs)
    requires IsQuest(c) && k < |s.pool| && s.pool[k].queue != []
    ensures Normal(c, s, k, inp) == if PopsNow(s) then Hand(c, Marked(s, k), k) else Step(Marked(s, k), NoLocation)
  {
    MarkedShape(s, k);
    hide Hand;
    hide Finish;
    hide RoundsRunThrough;
  }

  lemma QuestServed(c: Config, s: State, origin: string, inp: Inputs)
    requires IsQuest(c) && Serves(s, origin) && NothingPending(s.pool) && origin in s.registered
    ensures Next(c, s, origin, inp) == Normal(c, s, IndexOf(s.pool, origin), inp)
  {
    KnownServed(c, s, origin, inp);
    hide Normal;
    hide Next;
  }

  /** What a served call does. */
  lemma GetShape(c: Config, s: State, origin: string, inp: Inputs)
    requires IsQuest(c) && Serves(s, origin) && NothingPending(s.pool)
    ensures var k, r := IndexOf(s.pool, origin), Next(c, s, origin, inp);
            var t := Take(c, s, s.pool[k].queue);
            if origin !in s.registered then r == Step(s, NoLocation)
            else if !PopsNow(s) then r.result == NoLocation && PopsNothing(s, r.state, k, s.pool[k].queue)
            else if t.found.Some? then r.result == Go(t.found.value) && PopsTo(s, r.state, k, t.rest, t.found.value)
            else r.result == NoLocation && PopsNothing(s, r.state, k, t.rest)
  {
    var k := IndexOf(s.pool, origin);
    if origin in s.registered {
      QuestServed(c, s, origin, inp);
      NormalShape(c, s, k, inp);
      MarkedShape(s, k);
      hide Next;
      hide Normal;
      hide Marked;
      hide RoundsRunThrough;
      var s2 := Marked(s, k);
      TakeLooksAt(c, s, s2, s.pool[k].queue);
      hide Take;
      if PopsNow(s) {
        HandShape(c, s2, k);
        hide Hand;
        ShapeFrom(s, s2, Next(c, s, origin, inp).state, k, Take(c, s, s.pool[k].queue).rest);
      }
    }
  }

  // ---------------------------------------------------------------- a coordinate that is gone

  /** No priority slot is filled, now or in the copies to come. */
  predicate Quiet(m: Manager) {
    NothingPending(m.state.pool) && (m.flight.Some? ==> NothingPending(m.flight.value))
  }

  /** The copies to come queue the coordinate. */
  predicate InFlight(m: Manager, loc: Location) { m.flight.Some? && Queued(m.flight.value, loc) }

  /** Neither round nor any queue has the coordinate, nor will the copies to come. */
  predicate Gone(m: Manager, loc: Location) {
    loc !in m.state.round && !Queued(m.state.pool, loc) && !InFlight(m, loc)
  }

  lemma RepopulatedFrom(pool: Pool, coords: seq<Location>, base: nat, extra: nat, dist: Metric)
    ensures var r := Repopulated(pool, coords, base, extra, dist);
            && (NothingPending(pool) ==> NothingPending(r))
            && forall loc :: Queued(r, loc) ==> loc in coords
  {
    var r := Repopulated(pool, coords, base, extra, dist);
    RepopulatedKeeps(pool, coords, base, extra, dist);
    SubroutesFrom(pool, coords, base, extra, dist);
    hide Repopulated;
    hide QueueAfter;
    forall i, loc | 0 <= i < |r| && loc in r[i].queue ensures loc in coords {
      QueueAfterWithin(pool[i].queue, r[i].subroute, dist);
    }
  }

  lemma SubroutesFrom(pool: Pool, coords: seq<Location>, base: nat, extra: nat, dist: Metric)
    ensures var r := Repopulated(pool, coords, base, extra, dist);
            forall i :: 0 <= i < |r| ==> Within(r[i].subroute, coords)
  {
    hide QueueAfter;
  }

  /** An update queues nothing but coordinates of the round. */
  lemma UpdateFrom(c: Config, s: State)
    requires c.mayUpdate && NothingPending(s.pool)
    ensures var p := UpdatedPool(true, s.pool, s.round, s.ignored, c.dist);
            p.Some? ==> NothingPending(p.value) && forall loc :: Queued(p.value, loc) ==> loc in s.round
  {
    var coords := CoordsToUse(s.round, s.ignored);
    if UpdatedPool(true, s.pool, s.round, s.ignored, c.dist).Some? {
      var base, extra := UpdatedPoolIs(s.pool, s.round, s.ignored, c.dist);
      CoordsToUseMember(s.round, s.ignored);
      KeptPending(s.pool, |coords|);
      RepopulatedFrom(Kept(s.pool, |coords|), coords, base, extra, c.dist);
    }
  }

  /** A pop of another coordinate, or of none, queues nothing new. */
  lemma GetKeepsGone(c: Config, m: Manager, origin: string, inp: Inputs, loc: Location)
    requires IsQuest(c) && Quiet(m) && Gone(m, loc)
    ensures var r := Act(c, m, Get(origin, inp));
            Quiet(r.manager) && Gone(r.manager, loc) && r.result != Go(loc)
  {
    var s, k := m.state, IndexOf(m.state.pool, origin);
    if Serves(s, origin) {
      GetShape(c, s, origin, inp);
      TakeFacts(c, s, s.pool[k].queue);
      hide Next;
      hide Take;
      hide CoordsToUse;
      hide RoundsRunThrough;
      var r := Next(c, s, origin, inp);
      if r.result.Go? {
        CoordsToUseMember(s.round, {r.result.location});
      }
      CutQueuesNothingNew(s.pool, k, if PopsNow(s) then Take(c, s, s.pool[k].queue).rest else s.pool[k].queue,
                          r.state.pool, loc);
      hide SameQueues;
      hide PopsTo;
      hide PopsNothing;
    }
  }

  lemma CutQueuesNothingNew(pool: Pool, k: nat, rest: seq<Location>, after: Pool, loc: Location)
    requires k < |pool| && Within(rest, pool[k].queue) && !Queued(pool, loc) && NothingPending(pool)
    ensures SameQueues(Requeued(pool, k, rest), after) ==> !Queued(after, loc) && NothingPending(after)
  {}

  lemma ActKeepsGone(c: Config, m: Manager, a: Action, loc: Location)
    requires IsQuest(c) && Quiet(m) && Gone(m, loc) && !Redoes(a, loc)
    ensures var r := Act(c, m, a);
            Quiet(r.manager) && Gone(r.manager, loc) && r.result != Go(loc)
  {
    match a
    case Get(origin, inp) => GetKeepsGone(c, m, origin, inp, loc);
    case Begin =>
      UpdateFrom(c, m.state);
      hide UpdatedPool;
    case _ =>
  }

  lemma OnlyGetsHandOutNow(c: Config, m: Manager, a: Action)
    requires !a.Get?
    ensures Act(c, m, a).result == NoLocation
  {}

  lemma {:induction false} RunKeepsGone(c: Config, m: Manager, run: seq<Action>, loc: Location, j: nat)
    requires IsQuest(c) && Quiet(m) && Gone(m, loc) && j < |run|
    requires forall i :: 0 <= i < j ==> !Redoes(run[i], loc)
    ensures Outputs(c, m, run)[j] != Go(loc)
    decreases |run|
  {
    if Redoes(run[0], loc) {
      OnlyGetsHandOutNow(c, m, run[0]);
    } else {
      ActKeepsGone(c, m, run[0], loc);
    }
    hide Act;
    hide Gone;
    hide Quiet;
    if j > 0 {
      assert forall i :: 0 <= i < j - 1 ==> run[1..][i] == run[i + 1];
      RunKeepsGone(c, Act(c, m, run[0]).manager, run[1..], loc, j - 1);
    }
  }

  // ---------------------------------------------------------------- the invariant, with an update under way

  /** Copies that could become the pool: distinct workers, no slots, disjoint queues. */
  predicate Installable(p: Pool) {
    && UniqueOrigins(p) && NothingPending(p) && QueuesDisjoint(p)
    && forall i :: 0 <= i < |p| ==> NoDup(p[i].queue)
  }

  predicate Sound(m: Manager, handed: set<Location>) {
    Inv(m.state, handed) && (m.flight.Some? ==> Installable(m.flight.value))
  }

  /** What the copies queue is still in the round. */
  ghost predicate Current(m: Manager) { forall loc :: InFlight(m, loc) ==> loc in m.state.round }

  lemma PopKeepsInv(c: Config, s: State, s': State, k: nat, handed: set<Location>)
    requires IsQuest(c) && Inv(s, handed) && k < |s.pool|
    ensures var t := Take(c, s, s.pool[k].queue);
            t.found.Some? && PopsTo(s, s', k, t.rest, t.found.value) ==>
              && t.found.value !in handed && t.found.value in s.round
              && Inv(s', handed + {t.found.value}) && !Queued(s'.pool, t.found.value)
              && s'.round == CoordsToUse(s.round, {t.found.value})
    ensures var rest := Take(c, s, s.pool[k].queue).rest;
            && (PopsNothing(s, s', k, rest) ==> Inv(s', handed) && s'.round == s.round)
            && (PopsNothing(s, s', k, s.pool[k].queue) ==> Inv(s', handed) && s'.round == s.round)
  {
    var t := Take(c, s, s.pool[k].queue);
    TakeFacts(c, s, s.pool[k].queue);
    hide Take;
    hide RoundsRunThrough;
    hide CoordsToUse;
    assert Within(s.pool[k].queue, s.round);
    if t.found.Some? && PopsTo(s, s', k, t.rest, t.found.value) {
      ShrinkKeepsInv(s, k, t.rest, {t.found.value}, handed);
      CutOut(s.pool, k, t.rest, t.found.value);
      InvTransfer(SetEntry(s, k, s.pool[k].(queue := t.rest)).(round := CoordsToUse(s.round, {t.found.value})), s',
                  handed + {t.found.value});
    }
    if PopsNothing(s, s', k, t.rest) {
      ShrinkKeepsInv(s, k, t.rest, {}, handed);
      CoordsToUseNone(s.round);
      assert handed + {} == handed;
      InvTransfer(SetEntry(s, k, s.pool[k].(queue := t.rest)), s', handed);
    }
    if PopsNothing(s, s', k, s.pool[k].queue) {
      assert Requeued(s.pool, k, s.pool[k].queue) == s.pool;
      InvTransfer(s, s', handed);
    }
  }

  /** A coordinate cut out of the one queue that had it is queued no more. */
  lemma CutOut(pool: Pool, k: nat, rest: seq<Location>, loc: Location)
    requires k < |pool| && QueuesDisjoint(pool) && loc in pool[k].queue && loc !in rest
    ensures !Queued(Requeued(pool, k, rest), loc)
  {
    forall i | 0 <= i < |pool| && i != k ensures loc !in pool[i].queue {
      if i < k {
        assert Disjoint(pool[i].queue, pool[k].queue);
      } else {
        assert Disjoint(pool[k].queue, pool[i].queue);
      }
    }
  }

  /** A served call in terms of the invariant: what it hands out was in the round and is not any
      more, and nothing else changes there. */
  lemma GetKeepsSound(c: Config, m: Manager, origin: string, inp: Inputs, handed: set<Location>)
    requires IsQuest(c) && Sound(m, handed)
    ensures var r := Act(c, m, Get(origin, inp));
            && r.manager.flight == m.flight && Sound(r.manager, HandedAfter(handed, r.result))
            && (r.result == NoLocation || r.result.Go?)
            && (r.result.Go? ==>
                  var loc := r.result.location;
                  && loc !in handed && loc in m.state.round && !Queued(r.manager.state.pool, loc)
                  && r.manager.state.round == CoordsToUse(m.state.round, {loc}))
            && (!r.result.Go? ==> r.manager.state.round == m.state.round)
  {
    var s := m.state;
    if Serves(s, origin) {
      GetShape(c, s, origin, inp);
      hide Next;
      PopKeepsInv(c, s, Next(c, s, origin, inp).state, IndexOf(s.pool, origin), handed);
      hide Take;
      hide Inv;
      hide PopsTo;
      hide PopsNothing;
      hide CoordsToUse;
      hide RoundsRunThrough;
    }
  }

  /** The exact effect of a pop on an update under way: the copies stay current if and only if the
      coordinate handed out is not one that they queue. */
  lemma GetKeepsCurrentIff(c: Config, m: Manager, origin: string, inp: Inputs, handed: set<Location>)
    requires IsQuest(c) && Sound(m, handed) && Current(m)
    ensures var r := Act(c, m, Get(origin, inp));
            Current(r.manager) <==> !(r.result.Go? && InFlight(m, r.result.location))
  {
    GetKeepsSound(c, m, origin, inp, handed);
    hide Act;
    var r := Act(c, m, Get(origin, inp));
    if r.result.Go? {
      CoordsToUseMember(m.state.round, {r.result.location});
    }
  }

  /** The coordinates handed out and not redone, after one more step. */
  function HandedStep(c: Config, m: Manager, a: Action, handed: set<Location>): set<Location> {
    if a.RedoStop? then handed - {a.loc} else HandedAfter(handed, Act(c, m, a).result)
  }

  function HandedRun(c: Config, m: Manager, run: seq<Action>, handed: set<Location>): set<Location>
    decreases |run|
  {
    if run == [] then handed
    else HandedRun(c, Act(c, m, run[0]).manager, run[1..], HandedStep(c, m, run[0], handed))
  }

  /** Beginning an update makes copies of the current round. */
  lemma BeginSound(c: Config, m: Manager, handed: set<Location>)
    requires IsQuest(c) && Sound(m, handed) && m.flight.None?
    ensures var m' := Act(c, m, Begin).manager;
            m'.state == m.state && Sound(m', handed) && Current(m')
  {
    UpdateEstablishes(c, m.state);
    UpdateFrom(c, m.state);
    hide UpdatedPool;
  }

  /** Installing keeps the invariant exactly when the copies are still current. */
  lemma InstallSoundIff(c: Config, m: Manager, handed: set<Location>)
    requires Sound(m, handed) && m.flight.Some?
    ensures Sound(Act(c, m, Install).manager, handed) <==> Current(m)
  {
    var p := m.flight.value;
    if Current(m) {
      forall i | 0 <= i < |p| ensures Within(p[i].queue, m.state.round) {
        forall loc | loc in p[i].queue ensures loc in m.state.round {
          assert InFlight(m, loc);
        }
      }
    } else {
      var loc :| InFlight(m, loc) && loc !in m.state.round;
      var i :| 0 <= i < |p| && loc in p[i].queue;
      assert !Within(p[i].queue, m.state.round);
    }
  }

  lemma LeftKeepsInv(s: State, origin: string, handed: set<Location>)
    requires Inv(s, handed)
    ensures Inv(Left(s, origin), handed)
  {
    var k := IndexOf(s.pool, origin);
    if k < |s.pool| {
      RemovalKeepsInv(s, k, handed);
      InvTransfer(s.(pool := s.pool[..k] + s.pool[k + 1..]), Left(s, origin), handed);
    }
    hide Inv;
  }

  /** Every step keeps the manager sound, given that only coordinates that left the round are redone
      and that copies are installed while current. */
  lemma ActKeepsSound(c: Config, m: Manager, a: Action, handed: set<Location>)
    requires IsQuest(c) && Sound(m, handed)
    requires a.RedoStop? ==> a.loc !in m.state.round
    requires a.Install? ==> Current(m)
    ensures Sound(Act(c, m, a).manager, HandedStep(c, m, a, handed))
  {
    var s, s' := m.state, Act(c, m, a).manager.state;
    match a
    case Get(origin, inp) => GetKeepsSound(c, m, origin, inp, handed);
    case Join(origin, now) =>
      if s.isStarted && origin in s.registered && !HasOrigin(s.pool, origin) {
        JoinKeepsInv(s, NewEntry(s, origin, now), handed);
      }
    case Begin => if m.flight.None? { BeginSound(c, m, handed); }
    case Install => if m.flight.Some? { InstallSoundIff(c, m, handed); }
    case Leave(origin) => LeftKeepsInv(s, origin, handed);
    case RedoStop(worker, loc) => RedoKeepsInvIff(c, s, worker, loc, handed);
    case _ => InvTransfer(s, s', handed);
  }

  /** What may run: redos of coordinates that left the round, and no pop of a coordinate that copies
      under way queue. */
  predicate Legal(c: Config, m: Manager, a: Action) {
    && (a.RedoStop? ==> a.loc !in m.state.round)
    && (a.Get? && Act(c, m, a).result.Go? ==> !InFlight(m, Act(c, m, a).result.location))
  }

  predicate LegalRun(c: Config, m: Manager, run: seq<Action>)
    decreases |run|
  {
    run != [] ==> Legal(c, m, run[0]) && LegalRun(c, Act(c, m, run[0]).manager, run[1..])
  }

  lemma ActKeepsCurrent(c: Config, m: Manager, a: Action, handed: set<Location>)
    requires IsQuest(c) && Sound(m, handed) && Current(m) && Legal(c, m, a)
    ensures Current(Act(c, m, a).manager)
  {
    match a
    case Get(origin, inp) => GetKeepsCurrentIff(c, m, origin, inp, handed);
    case Begin => if m.flight.None? { BeginSound(c, m, handed); }
    case _ =>
  }

  /** Over every legal run of joins, updates begun and installed, removals, pops, ignores and redos
      the queues stay pairwise disjoint and inside the round, and nothing handed out is queued, or
      about to be, unless redone. */
  lemma {:induction false} RunKeepsInv(c: Config, m: Manager, run: seq<Action>, handed: set<Location>)
    requires IsQuest(c) && Sound(m, handed) && Current(m) && LegalRun(c, m, run)
    ensures Sound(Final(c, m, run), HandedRun(c, m, run, handed)) && Current(Final(c, m, run))
    decreases |run|
  {
    if run != [] {
      ActKeepsSound(c, m, run[0], handed);
      ActKeepsCurrent(c, m, run[0], handed);
      hide Act;
      hide HandedStep;
      RunKeepsInv(c, Act(c, m, run[0]).manager, run[1..], HandedStep(c, m, run[0], handed));
    }
  }

  /** A coordinate handed out while no copies queue it is gone. */
  lemma PoppedIsGone(c: Config, m: Manager, origin: string, inp: Inputs, handed: set<Location>)
    requires IsQuest(c) && Sound(m, handed)
    ensures var r := Act(c, m, Get(origin, inp));
            r.result.Go? && !InFlight(m, r.result.location) ==> Quiet(r.manager) && Gone(r.manager, r.result.location)
  {
    GetKeepsSound(c, m, origin, inp, handed);
    hide Act;
    var r := Act(c, m, Get(origin, inp));
    if r.result.Go? {
      CoordsToUseMember(m.state.round, {r.result.location});
    }
  }

  /** No coordinate is handed out twice in a legal run without being redone in between. */
  lemma {:induction false} HandedOutOnce(c: Config, m: Manager, run: seq<Action>, handed: set<Location>, i: nat, j: nat)
    requires IsQuest(c) && Sound(m, handed) && Current(m) && LegalRun(c, m, run)
    requires i < j < |run|
    requires Outputs(c, m, run)[i].Go? && Outputs(c, m, run)[j] == Outputs(c, m, run)[i]
    ensures exists k :: i < k < j && Redoes(run[k], Outputs(c, m, run)[i].location)
    decreases |run|
  {
    hide *;
    RunUnfolds(c, m, run);
    var m1, rest, loc := Act(c, m, run[0]).manager, run[1..], Outputs(c, m, run)[i].location;
    var later := Outputs(c, m1, rest);
    assert later[j - 1] == Outputs(c, m, run)[j];
    if i > 0 {
      assert later[i - 1] == Outputs(c, m, run)[i];
      ActKeepsSound(c, m, run[0], handed);
      ActKeepsCurrent(c, m, run[0], handed);
      HandedOutOnce(c, m1, rest, HandedStep(c, m, run[0], handed), i - 1, j - 1);
      var k :| i - 1 < k < j - 1 && Redoes(rest[k], loc);
      RedoneLater(run, k, loc);
    } else {
      FirstHandedIsGone(c, m, run[0], handed);
      GoneUntilRedone(c, m1, rest, loc, j - 1);
      var k :| 0 <= k < j - 1 && Redoes(rest[k], loc);
      RedoneLater(run, k, loc);
    }
  }

  lemma RedoneLater(run: seq<Action>, k: nat, loc: Location)
    requires k + 1 < |run| && Redoes(run[1..][k], loc)
    ensures Redoes(run[k + 1], loc)
  {}

  /** The first step of a run and what is left of it. */
  lemma RunUnfolds(c: Config, m: Manager, run: seq<Action>)
    requires run != [] && LegalRun(c, m, run)
    ensures var r := Act(c, m, run[0]);
            && Legal(c, m, run[0]) && LegalRun(c, r.manager, run[1..])
            && Outputs(c, m, run) == [r.result] + Outputs(c, r.manager, run[1..])
    ensures run[0].RedoStop? ==> run[0].loc !in m.state.round
  {
    hide Act;
  }

  lemma FirstHandedIsGone(c: Config, m: Manager, a: Action, handed: set<Location>)
    requires IsQuest(c) && Sound(m, handed) && Legal(c, m, a) && Act(c, m, a).result.Go?
    ensures var r := Act(c, m, a); Quiet(r.manager) && Gone(r.manager, r.result.location)
  {
    if !a.Get? {
      OnlyGetsHandOutNow(c, m, a);
    } else {
      PoppedIsGone(c, m, a.origin, a.inp, handed);
    }
    hide Act;
  }

  /** Handed out again after it was gone, a coordinate was redone before. */
  lemma GoneUntilRedone(c: Config, m: Manager, run: seq<Action>, loc: Location, j: nat)
    requires IsQuest(c) && Quiet(m) && Gone(m, loc) && j < |run| && Outputs(c, m, run)[j] == Go(loc)
    ensures exists k :: 0 <= k < j && Redoes(run[k], loc)
  {
    hide Act;
    hide Outputs;
    hide Gone;
    if forall k :: 0 <= k < j ==> !Redoes(run[k], loc) {
      RunKeepsGone(c, m, run, loc, j);
    }
  }

  // ---------------------------------------------------------------- a stop popped during an update

  /** The worker is served, and `loc` is in its queue and still to be visited. */
  predicate Awaits(c: Config, s: State, origin: string, loc: Location) {
    && NothingPending(s.pool) && Serves(s, origin) && origin in s.registered && ToVisit(c, s, loc)
    && loc in s.pool[IndexOf(s.pool, origin)].queue
  }

  function Ahead(s: State, origin: string): nat {
    var k := IndexOf(s.pool, origin);
    if k < |s.pool| then |s.pool[k].queue| else 0
  }

  /** Calling on behalf of one worker until it is given `loc`. */
  lemma {:induction false} CallsReach(c: Config, m: Manager, origin: string, inp: Inputs, loc: Location)
    returns (run: seq<Action>)
    requires IsQuest(c) && Awaits(c, m.state, origin, loc)
    ensures forall i :: 0 <= i < |run| ==> run[i] == Get(origin, inp)
    ensures Hands(c, m, run, loc)
    decreases Ahead(m.state, origin), !PopsNow(m.state)
  {
    var r := Act(c, m, Get(origin, inp));
    CallMoves(c, m, origin, inp, loc);
    hide Act;
    hide Awaits;
    hide Ahead;
    hide PopsNow;
    if r.result == Go(loc) {
      run := [Get(origin, inp)];
      assert Outputs(c, m, run)[0] == Go(loc);
    } else {
      var rest := CallsReach(c, r.manager, origin, inp, loc);
      run := [Get(origin, inp)] + rest;
      LaterHands(c, m, Get(origin, inp), rest, loc);
    }
  }

  lemma LaterHands(c: Config, m: Manager, a: Action, rest: seq<Action>, loc: Location)
    requires Hands(c, Act(c, m, a).manager, rest, loc)
    ensures Hands(c, m, [a] + rest, loc)
  {
    hide Act;
    assert ([a] + rest)[1..] == rest;
    var j :| 0 <= j < |rest| && Outputs(c, Act(c, m, a).manager, rest)[j] == Go(loc);
    assert Outputs(c, m, [a] + rest)[j + 1] == Go(loc);
  }

  /** One such call hands `loc` out or comes closer to it. */
  lemma CallMoves(c: Config, m: Manager, origin: string, inp: Inputs, loc: Location)
    requires IsQuest(c) && Awaits(c, m.state, origin, loc)
    ensures var s, r := m.state, Act(c, m, Get(origin, inp));
            var s' := r.manager.state;
            r.result == Go(loc) ||
              (Awaits(c, s', origin, loc)
               && (Ahead(s', origin) < Ahead(s, origin)
                   || (!PopsNow(s) && PopsNow(s') && Ahead(s', origin) == Ahead(s, origin))))
  {
    var s, k := m.state, IndexOf(m.state.pool, origin);
    var queue := s.pool[k].queue;
    GetShape(c, s, origin, inp);
    TakeKeeps(c, s, queue, loc);
    TakeShortens(c, s, queue);
    var s', t := Next(c, s, origin, inp).state, Take(c, s, queue);
    hide Next;
    hide Take;
    hide RoundsRunThrough;
    hide CoordsToUse;
    if PopsNow(s) {
      SamePlace(s.pool, k, t.rest, s'.pool, origin);
    } else {
      SamePlace(s.pool, k, queue, s'.pool, origin);
    }
  }

  /** A worker keeps its place when only queues change. */
  lemma SamePlace(pool: Pool, k: nat, rest: seq<Location>, after: Pool, origin: string)
    requires k < |pool| && k == IndexOf(pool, origin)
    requires SameQueues(Requeued(pool, k, rest), after)
    ensures IndexOf(after, origin) == k && after[k].queue == rest
    ensures NothingPending(pool) ==> NothingPending(after)
  {
    SameOriginsSamePlace(pool, after, origin);
  }

  lemma {:induction false} SameOriginsSamePlace(a: Pool, b: Pool, origin: string)
    requires |a| == |b| && forall i :: 0 <= i < |a| ==> a[i].origin == b[i].origin
    ensures IndexOf(a, origin) == IndexOf(b, origin)
  {
    var k, n := IndexOf(a, origin), IndexOf(b, origin);
  }

  /** The exact condition for one pop, over everything that may follow: the coordinate is never handed
      out again without a redo if and only if no copies under way queue it. */
  lemma PoppedOnceIff(c: Config, m: Manager, origin: string, inp: Inputs, handed: set<Location>)
    requires IsQuest(c) && Sound(m, handed)
    ensures var r := Act(c, m, Get(origin, inp));
            r.result.Go? ==>
              (!InFlight(m, r.result.location) <==> NeverAgain(c, r.manager, r.result.location))
  {
    var r := Act(c, m, Get(origin, inp));
    PoppedIsGone(c, m, origin, inp, handed);
    if r.result.Go? {
      var loc := r.result.location;
      if InFlight(m, loc) {
        StaleRepeats(c, m, origin, inp, handed);
      } else {
        hide Act;
        forall run | Without(run, loc) ensures !Hands(c, r.manager, run, loc) {
          forall j | 0 <= j < |run| ensures Outputs(c, r.manager, run)[j] != Go(loc) {
            RunKeepsGone(c, r.manager, run, loc, j);
          }
        }
      }
    }
  }

  predicate Without(run: seq<Action>, loc: Location) { forall i :: 0 <= i < |run| ==> !Redoes(run[i], loc) }

  predicate Hands(c: Config, m: Manager, run: seq<Action>, loc: Location) {
    exists j :: 0 <= j < |run| && Outputs(c, m, run)[j] == Go(loc)
  }

  ghost predicate NeverAgain(c: Config, m: Manager, loc: Location) {
    forall run :: Without(run, loc) ==> !Hands(c, m, run, loc)
  }

  /** A pop of what copies under way queue: installed, they give it to whoever has it queued. */
  lemma StaleRepeats(c: Config, m: Manager, origin: string, inp: Inputs, handed: set<Location>)
    requires IsQuest(c) && Sound(m, handed)
    requires var r := Act(c, m, Get(origin, inp)); r.result.Go? && InFlight(m, r.result.location)
    ensures var r := Act(c, m, Get(origin, inp)); !NeverAgain(c, r.manager, r.result.location)
  {
    PopLeavesToVisit(c, m, origin, inp, handed);
    hide Act;
    hide NeverAgain;
    var r := Act(c, m, Get(origin, inp));
    var loc, p := r.result.location, m.flight.value;
    var w :| 0 <= w < |p| && loc in p[w].queue;
    InstalledRepeats(c, r.manager, w, inp, loc);
  }

  lemma PopLeavesToVisit(c: Config, m: Manager, origin: string, inp: Inputs, handed: set<Location>)
    requires IsQuest(c) && Sound(m, handed)
    ensures var r := Act(c, m, Get(origin, inp));
            r.result.Go? ==>
              && r.manager.flight == m.flight && r.manager.state.isStarted
              && ToVisit(c, r.manager.state, r.result.location)
  {
    var s := m.state;
    if Serves(s, origin) {
      GetShape(c, s, origin, inp);
      TakeFacts(c, s, s.pool[IndexOf(s.pool, origin)].queue);
      hide Next;
      hide Take;
      hide RoundsRunThrough;
      hide CoordsToUse;
    }
  }

  lemma InstalledRepeats(c: Config, m: Manager, w: nat, inp: Inputs, loc: Location)
    requires IsQuest(c) && m.flight.Some? && Installable(m.flight.value) && m.state.isStarted
    requires w < |m.flight.value| && loc in m.flight.value[w].queue && ToVisit(c, m.state, loc)
    ensures !NeverAgain(c, m, loc)
  {
    var p, origin := m.flight.value, m.flight.value[w].origin;
    IndexOfAt(p, w);
    var installed := Manager(m.state.(pool := p), None);
    var ready := Manager(m.state.(pool := p, registered := m.state.registered + {origin}), None);
    assert Act(c, m, Install).manager == installed && Act(c, installed, Register(origin)).manager == ready;
    assert Awaits(c, ready.state, origin, loc);
    hide Act;
    hide Awaits;
    var calls := CallsReach(c, ready, origin, inp, loc);
    LaterHands(c, installed, Register(origin), calls, loc);
    LaterHands(c, m, Install, [Register(origin)] + calls, loc);
    assert Without([Install] + ([Register(origin)] + calls), loc);
  }

  lemma {:induction false} OutputsConcat(c: Config, m: Manager, a: seq<Action>, b: seq<Action>)
    ensures Outputs(c, m, a + b) == Outputs(c, m, a) + Outputs(c, Final(c, m, a), b)
    decreases |a|
  {
    hide Act;
    if a == [] {
      assert a + b == b;
    } else {
      assert (a + b)[0] == a[0] && (a + b)[1..] == a[1..] + b;
      OutputsConcat(c, Act(c, m, a[0]).manager, a[1..], b);
    }
  }

  // ---------------------------------------------------------------- from begin to install

  /** A run during which the copies do not come back, and only coordinates that left the round are
      redone. Pops are not restricted. */
  predicate Meanwhile(c: Config, m: Manager, run: seq<Action>)
    decreases |run|
  {
    run != [] ==>
      && !run[0].Install? && (run[0].RedoStop? ==> run[0].loc !in m.state.round)
      && Meanwhile(c, Act(c, m, run[0]).manager, run[1..])
  }

  /** Of the coordinates `start`, the round lacks exactly those in `out`. */
  ghost predicate Tracks(start: seq<Location>, round: seq<Location>, out: set<Location>) {
    && (forall loc :: loc in start && loc !in out ==> loc in round)
    && (forall loc :: loc in out ==> loc !in round)
  }

  lemma ActTracks(c: Config, m: Manager, a: Action, handed: set<Location>, start: seq<Location>, out: set<Location>)
    requires IsQuest(c) && Sound(m, handed) && m.flight.Some? && !a.Install?
    requires Tracks(start, m.state.round, out)
    ensures Act(c, m, a).manager.flight == m.flight
    ensures Tracks(start, Act(c, m, a).manager.state.round, HandedStep(c, m, a, out))
  {
    match a
    case Get(origin, inp) =>
      GetKeepsSound(c, m, origin, inp, handed);
      hide Act;
      var r := Act(c, m, a);
      if r.result.Go? {
        CoordsToUseMember(m.state.round, {r.result.location});
      }
    case _ =>
  }

  lemma {:induction false} RunTracks(c: Config, m: Manager, run: seq<Action>, handed: set<Location>,
                                     start: seq<Location>, out: set<Location>)
    requires IsQuest(c) && Sound(m, handed) && m.flight.Some? && Meanwhile(c, m, run)
    requires Tracks(start, m.state.round, out)
    ensures var m' := Final(c, m, run);
            && m'.flight == m.flight && Sound(m', HandedRun(c, m, run, handed))
            && Tracks(start, m'.state.round, HandedRun(c, m, run, out))
    decreases |run|
  {
    if run != [] {
      ActTracks(c, m, run[0], handed, start, out);
      ActKeepsSound(c, m, run[0], handed);
      hide Act;
      hide HandedStep;
      hide Tracks;
      RunTracks(c, Act(c, m, run[0]).manager, run[1..], HandedStep(c, m, run[0], handed), start,
                HandedStep(c, m, run[0], out));
    }
  }

  /** What may run while an update is under way, exactly: after its copies are installed the
      invariant holds if and only if every coordinate that they queue and that was handed out
      meanwhile was redone meanwhile. */
  lemma UpdateDisturbedIff(c: Config, m: Manager, run: seq<Action>, handed: set<Location>)
    requires IsQuest(c) && Sound(m, handed) && m.flight.None?
    requires Meanwhile(c, Act(c, m, Begin).manager, run)
    ensures var begun := Act(c, m, Begin).manager;
            var installed := Act(c, Final(c, begun, run), Install).manager;
            begun.flight.Some? ==>
              (Sound(installed, HandedRun(c, begun, run, handed))
               <==> forall loc :: InFlight(begun, loc) ==> loc !in HandedRun(c, begun, run, {}))
  {
    BeginSound(c, m, handed);
    var begun := Act(c, m, Begin).manager;
    if begun.flight.Some? {
      RunTracks(c, begun, run, handed, m.state.round, {});
      InstallSoundIff(c, Final(c, begun, run), HandedRun(c, begun, run, handed));
      hide Act;
      hide Sound;
      hide HandedRun;
      hide Final;
    }
  }

  // ---------------------------------------------------------------- joining during an update

  lemma UpdatedOrigins(c: Config, s: State, origin: string)
    requires c.mayUpdate && UniqueOrigins(s.pool) && !HasOrigin(s.pool, origin)
    ensures var p := UpdatedPool(true, s.pool, s.round, s.ignored, c.dist);
            p.Some? ==> !HasOrigin(p.value, origin)
  {
    WhoIsServed(s.pool, s.round, s.ignored, c.dist);
    hide UpdatedPool;
  }

  /** A worker that joins while copies are made is not in them: once they are installed it has no
      entry, and its own update will find none, so that its call yields nothing. */
  lemma JoinDuringUpdateLost(c: Config, m: Manager, origin: string, run: seq<Action>, handed: set<Location>)
    requires IsQuest(c) && Sound(m, handed) && m.flight.None? && !HasOrigin(m.state.pool, origin)
    requires Meanwhile(c, Act(c, m, Begin).manager, run)
    ensures var begun := Act(c, m, Begin).manager;
            var installed := Act(c, Final(c, begun, run), Install).manager;
            begun.flight.Some? ==>
              && !HasOrigin(installed.state.pool, origin)
              && !HasOrigin(Update(c, installed.state).state.pool, origin)
  {
    BeginSound(c, m, handed);
    UpdatedOrigins(c, m.state, origin);
    var begun := Act(c, m, Begin).manager;
    hide UpdatedPool;
    if begun.flight.Some? {
      RunTracks(c, begun, run, handed, m.state.round, {});
      var installed := Act(c, Final(c, begun, run), Install).manager;
      UpdatedOrigins(c, installed.state, origin);
    }
  }

  // ---------------------------------------------------------------- a repeat, step by step

  /** The three states of a worker alone with one stop: with the stop queued and in the round, with
      the stop popped, and with the stop queued by copies that were installed too late. */
  function AtStart(stop: Location): State { LoneState(LoneEntry([stop], 0, stop), [stop], stop) }

  function AfterPop(stop: Location): State { LoneState(LoneEntry([], 0, stop), [], stop) }

  function AfterInstall(stop: Location): State { LoneState(LoneEntry([stop], 0, stop), [], stop) }

  lemma LoneBegin(c: Config, stop: Location)
    requires IsQuest(c)
    ensures Act(c, Manager(AtStart(stop), None), Begin)
         == Done(Manager(AtStart(stop), Some([LoneEntry([stop], 0, stop)])), NoLocation)
  {
    var s := AtStart(stop);
    SingletonCoords(stop);
    LoneWorkerUpdate(c, s, s.pool[0]);
    assert Refill(s.pool[0], [stop], c.dist) == s.pool[0];
    hide UpdatedPool;
    hide CoordsToUse;
  }

  lemma TakeOne(c: Config, s: State, stop: Location)
    requires ToVisit(c, s, stop)
    ensures Take(c, s, [stop]) == Taken(Some(stop), [])
  {}

  /** A pop takes the lone stop, whether or not the round still has it. */
  lemma LoneGet(c: Config, stop: Location, inp: Inputs, s: State)
    requires IsQuest(c) && (s == AtStart(stop) || s == AfterInstall(stop))
    ensures Serves(s, "w") && Next(c, s, "w", inp) == RouteSteps.Step(AfterPop(stop), Go(stop))
  {
    LoneMedian(s.pool[0]);
    QuestServed(c, s, "w", inp);
    NormalShape(c, s, 0, inp);
    assert Marked(s, 0) == s by {
      assert SetEntry(s, 0, s.pool[0].(lastPositionType := NORMAL)) == s;
    }
    TakeOne(c, s, stop);
    SingletonCoords(stop);
    hide Next;
    hide Normal;
    hide Take;
    hide Marked;
    hide RoundsRunThrough;
    LoneHand(c, stop, s);
  }

  lemma LoneHand(c: Config, stop: Location, s: State)
    requires IsQuest(c) && (s == AtStart(stop) || s == AfterInstall(stop))
    requires Take(c, s, [stop]) == Taken(Some(stop), [])
    ensures Hand(c, s, 0) == RouteSteps.Step(AfterPop(stop), Go(stop))
  {
    SingletonCoords(stop);
    var s1 := SetEntry(s, 0, LoneEntry([], 0, stop));
    assert Visit(c, s1, stop) == AfterPop(stop);
    assert SetPosition(AfterPop(stop), "w", stop) == AfterPop(stop);
    hide Take;
    hide CoordsToUse;
  }

  /** A worker alone with one stop: popped while an update is under way, the stop is handed out once
      more after it. */
  lemma PopDuringUpdateRepeats(c: Config, stop: Location, inp: Inputs)
    requires IsQuest(c)
    ensures var run := [Begin, Get("w", inp)] + [Install, Get("w", inp)];
            Outputs(c, Manager(AtStart(stop), None), run) == [NoLocation, Go(stop), NoLocation, Go(stop)]
  {
    var copies := Some([LoneEntry([stop], 0, stop)]);
    var start, popped := Manager(AtStart(stop), None), Manager(AfterPop(stop), copies);
    LoneBegin(c, stop);
    LoneSteps(c, stop, inp, copies);
    hide Act;
    hide AtStart;
    hide AfterPop;
    hide AfterInstall;
    OutputsTwo(c, start, Begin, Get("w", inp));
    FinalTwo(c, start, Begin, Get("w", inp));
    OutputsTwo(c, popped, Install, Get("w", inp));
    hide Outputs;
    hide Final;
    OutputsConcat(c, start, [Begin, Get("w", inp)], [Install, Get("w", inp)]);
  }

  /** The pop while the copies are on their way, their installation, and the call after it. */
  lemma LoneSteps(c: Config, stop: Location, inp: Inputs, copies: Option<Pool>)
    requires IsQuest(c) && copies == Some([LoneEntry([stop], 0, stop)])
    ensures var popped, installed := Manager(AfterPop(stop), copies), Manager(AfterInstall(stop), None);
            && Act(c, Manager(AtStart(stop), copies), Get("w", inp)) == Done(popped, Go(stop))
            && Act(c, popped, Install) == Done(installed, NoLocation)
            && Act(c, installed, Get("w", inp)).result == Go(stop)
  {
    LoneGet(c, stop, inp, AtStart(stop));
    LoneGet(c, stop, inp, AfterInstall(stop));
    hide Next;
  }

  lemma OutputsTwo(c: Config, m: Manager, a: Action, b: Action)
    ensures Outputs(c, m, [a, b]) == [Act(c, m, a).result, Act(c, Act(c, m, a).manager, b).result]
  {
    hide Act;
    assert [a, b][1..] == [b] && [b][1..] == [];
    assert Outputs(c, Act(c, m, a).manager, [b]) == [Act(c, Act(c, m, a).manager, b).result];
  }
}
