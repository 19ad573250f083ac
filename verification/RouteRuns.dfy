/** The queue invariant of quest mode, and what the steps of a route manager do to it when nothing
    else runs during them. Finishing a subroute is shown to break it, and when. */
module RouteRuns {
  import opened Sorting
  import opened SubrouteAllocation
  import opened Wrappers
  import opened RouteSteps

  predicate NoDup(xs: seq<Location>) {
    forall i, j :: 0 <= i < j < |xs| ==> xs[i] != xs[j]
  }

  predicate Disjoint(xs: seq<Location>, ys: seq<Location>) {
    forall x :: x in xs ==> x !in ys
  }

  predicate Within(xs: seq<Location>, ys: seq<Location>) {
    forall x :: x in xs ==> x in ys
  }

  predicate QueuesDisjoint(pool: Pool) {
    forall i, j :: 0 <= i < j < |pool| ==> Disjoint(pool[i].queue, pool[j].queue)
  }

  predicate QueuesWithin(pool: Pool, round: seq<Location>) {
    forall i :: 0 <= i < |pool| ==> NoDup(pool[i].queue) && Within(pool[i].queue, round)
  }

  predicate NothingPending(pool: Pool) {
    forall i :: 0 <= i < |pool| ==> pool[i].prioCoord.None?
  }

  /** `handed` are the coordinates handed out since the route was calculated and not redone. */
  predicate Inv(s: State, handed: set<Location>) {
    && UniqueOrigins(s.pool)
    && NothingPending(s.pool)
    && NoDup(s.round)
    && QueuesWithin(s.pool, s.round)
    && QueuesDisjoint(s.pool)
    && forall l :: l in handed ==> l !in s.round
  }

  // ---------------------------------------------------------------- pool updates

  lemma {:induction false} CoordsToUseMember(round: seq<Location>, ignored: set<Location>)
    ensures forall l :: l in CoordsToUse(round, ignored) <==> l in round && l !in ignored
    ensures NoDup(round) ==> NoDup(CoordsToUse(round, ignored))
  {
    if round != [] {
      var init, last := round[..|round| - 1], round[|round| - 1];
      CoordsToUseMember(init, ignored);
      assert round == init + [last];
      assert NoDup(round) ==> last !in init;
    }
  }

  /** Nothing is dropped but what is to be ignored, and the order stays: what is to be used of two pieces of
      a round is what is to be used of the one and then of the other. */
  lemma {:induction false} CoordsToUseInOrder(one: seq<Location>, two: seq<Location>, ignored: set<Location>)
    ensures CoordsToUse(one + two, ignored) == CoordsToUse(one, ignored) + CoordsToUse(two, ignored)
    ensures forall l :: CoordsToUse([l], ignored) == if l in ignored then [] else [l]
  {
    if two == [] {
      assert one + two == one;
      forall l: Location ensures [l][..0] == [] {}
    } else {
      var init := two[..|two| - 1];
      assert (one + two)[..|one + two| - 1] == one + init;
      CoordsToUseInOrder(one, init, ignored);
    }
  }

  /** A slice occupies the index range between its two starts, as far as the round reaches. */
  lemma ChunkIsRange(coords: seq<Location>, base: nat, extra: nat, i: nat)
    ensures var c := Chunk(coords, base, extra, i);
            forall l :: l in c ==> exists p :: InChunkAt(coords, base, extra, i, l, p)
  {
    var c := Chunk(coords, base, extra, i);
    forall l | l in c ensures exists p :: InChunkAt(coords, base, extra, i, l, p) {
      var q :| 0 <= q < |c| && c[q] == l;
      assert InChunkAt(coords, base, extra, i, l, ChunkStart(base, extra, i) + q);
    }
  }

  predicate InChunkAt(coords: seq<Location>, base: nat, extra: nat, i: nat, l: Location, p: int) {
    && ChunkStart(base, extra, i) <= p < ChunkStart(base, extra, i + 1)
    && p < |coords| && coords[p] == l
  }

  lemma ChunksDisjoint(coords: seq<Location>, base: nat, extra: nat, i: nat, j: nat)
    requires NoDup(coords) && i < j
    ensures Disjoint(Chunk(coords, base, extra, i), Chunk(coords, base, extra, j))
  {
    ChunkIsRange(coords, base, extra, i);
    ChunkIsRange(coords, base, extra, j);
    ChunkStartMonotone(base, extra, i + 1, j);
    forall l, m | l in Chunk(coords, base, extra, i) && m in Chunk(coords, base, extra, j) ensures l != m {
      var p :| InChunkAt(coords, base, extra, i, l, p);
      var q :| InChunkAt(coords, base, extra, j, m, q);
      assert p < q;
    }
  }

  lemma ChunkNoDup(coords: seq<Location>, base: nat, extra: nat, i: nat)
    requires NoDup(coords)
    ensures NoDup(Chunk(coords, base, extra, i)) && Within(Chunk(coords, base, extra, i), coords)
  {}

  lemma QueueAfterWithin(queue: seq<Location>, subroute: seq<Location>, dist: Metric)
    ensures Within(QueueAfter(queue, subroute, dist), subroute)
    ensures NoDup(subroute) ==> NoDup(QueueAfter(queue, subroute, dist))
  {}

  /** The queues of a repopulated pool lie in different slices of the round. */
  lemma RepopulatedQueues(pool: Pool, coords: seq<Location>, base: nat, extra: nat, dist: Metric)
    requires UniqueOrigins(pool) && NoDup(coords)
    ensures var r := Repopulated(pool, coords, base, extra, dist);
            QueuesWithin(r, coords) && QueuesDisjoint(r)
  {
    var r := Repopulated(pool, coords, base, extra, dist);
    var sorted := ByTime(pool);
    forall i | 0 <= i < |r|
      ensures NoDup(r[i].queue) && Within(r[i].queue, coords)
      ensures Within(r[i].queue, Chunk(coords, base, extra, IndexOf(sorted, pool[i].origin)))
    {
      ChunkNoDup(coords, base, extra, IndexOf(sorted, pool[i].origin));
      QueueAfterWithin(pool[i].queue, r[i].subroute, dist);
    }
    forall i, j | 0 <= i < j < |r| ensures Disjoint(r[i].queue, r[j].queue) {
      RanksDiffer(pool, i, j);
      var ri, rj := IndexOf(sorted, pool[i].origin), IndexOf(sorted, pool[j].origin);
      if ri < rj {
        ChunksDisjoint(coords, base, extra, ri, rj);
      } else {
        ChunksDisjoint(coords, base, extra, rj, ri);
      }
    }
  }

  lemma RanksDiffer(pool: Pool, i: nat, j: nat)
    requires UniqueOrigins(pool) && i < j < |pool|
    ensures IndexOf(ByTime(pool), pool[i].origin) != IndexOf(ByTime(pool), pool[j].origin)
  {
    var sorted := ByTime(pool);
    SortByMember(pool, TimeAdded, pool[i]);
    OriginPresent(sorted, pool[i]);
    assert pool[i].origin != pool[j].origin;
  }

  lemma UpdateKeepsInv(c: Config, s: State, handed: set<Location>)
    requires c.mayUpdate && Inv(s, handed)
    ensures Inv(Update(c, s).state, handed)
  {
    if Update(c, s).ok {
      UpdateEstablishes(c, s);
    }
  }

  /** A successful update puts the queues right whatever they were before: this is where a run
      starts after a route calculation. */
  lemma UpdateEstablishes(c: Config, s: State)
    requires c.mayUpdate && UniqueOrigins(s.pool) && NothingPending(s.pool) && NoDup(s.round)
    ensures Update(c, s).ok ==> Inv(Update(c, s).state, {})
    ensures Update(c, s).state == s.(pool := Update(c, s).state.pool)
  {
    hide UpdatedPool;
    hide Repopulated;
    hide CoordsToUse;
    if Update(c, s).ok {
      var base, extra := UpdatedPoolIs(s.pool, s.round, s.ignored, c.dist);
      RepopulatedKeptInv(c, s, base, extra);
    }
  }

  lemma RepopulatedKeptInv(c: Config, s: State, base: nat, extra: nat)
    requires UniqueOrigins(s.pool) && NothingPending(s.pool) && NoDup(s.round)
    ensures var coords := CoordsToUse(s.round, s.ignored);
            Inv(s.(pool := Repopulated(Kept(s.pool, |coords|), coords, base, extra, c.dist)), {})
  {
    var coords := CoordsToUse(s.round, s.ignored);
    var kept := Kept(s.pool, |coords|);
    CoordsToUseMember(s.round, s.ignored);
    KeptUnique(s.pool, |coords|);
    RepopulatedQueues(kept, coords, base, extra, c.dist);
    RepopulatedKeeps(kept, coords, base, extra, c.dist);
    forall i | 0 <= i < |kept| ensures kept[i].prioCoord.None? {
      assert kept[i] in kept;
    }
  }

  lemma KeptPending(pool: Pool, n: nat)
    requires NothingPending(pool)
    ensures NothingPending(Kept(pool, n))
  {
    ByTimeLength(pool);
    forall i | 0 <= i < |Kept(pool, n)| ensures Kept(pool, n)[i].prioCoord.None? {
      SortByMember(pool, TimeAdded, Kept(pool, n)[i]);
    }
  }

  // ---------------------------------------------------------------- single steps

  /** The invariant only looks at the round and at the origins, queues and slots of the pool. */
  predicate SameQueues(a: Pool, b: Pool) {
    |a| == |b| && forall i :: 0 <= i < |a| ==>
      a[i].origin == b[i].origin && a[i].queue == b[i].queue && a[i].prioCoord == b[i].prioCoord
  }

  lemma InvTransfer(s: State, s2: State, handed: set<Location>)
    requires Inv(s, handed) && s2.round == s.round && SameQueues(s.pool, s2.pool)
    ensures Inv(s2, handed)
  {}

  lemma {:induction false} TakeFacts(c: Config, s: State, queue: seq<Location>)
    ensures var t := Take(c, s, queue);
            && Within(t.rest, queue)
            && (NoDup(queue) ==> NoDup(t.rest))
            && (t.found.Some? ==> t.found.value in queue && ToVisit(c, s, t.found.value)
                                  && (NoDup(queue) ==> t.found.value !in t.rest))
            && (t.found.None? ==> t.rest == [] && forall l :: l in queue ==> !ToVisit(c, s, l))
  {
    if queue != [] && !ToVisit(c, s, queue[0]) {
      TakeFacts(c, s, queue[1..]);
      assert queue == [queue[0]] + queue[1..];
    }
  }

  /** Taking looks at stops and ignored coordinates only. */
  lemma {:induction false} TakeLooksAt(c: Config, s: State, s': State, queue: seq<Location>)
    requires s'.ignored == s.ignored && s'.stoplist == s.stoplist
    ensures Take(c, s', queue) == Take(c, s, queue)
  {
    if queue != [] {
      TakeLooksAt(c, s, s', queue[1..]);
    }
  }

  /** Shortening the queue of one worker and dropping a coordinate that no queue holds. */
  lemma ShrinkKeepsInv(s: State, k: nat, rest: seq<Location>, gone: set<Location>, handed: set<Location>)
    requires Inv(s, handed) && k < |s.pool|
    requires Within(rest, s.pool[k].queue) && NoDup(rest)
    requires forall l :: l in gone ==> l in s.pool[k].queue && l !in rest
    ensures Inv(SetEntry(s, k, s.pool[k].(queue := rest)).(round := CoordsToUse(s.round, gone)), handed + gone)
  {
    var s2 := SetEntry(s, k, s.pool[k].(queue := rest)).(round := CoordsToUse(s.round, gone));
    CoordsToUseMember(s.round, gone);
    forall i | 0 <= i < |s2.pool| ensures Within(s2.pool[i].queue, s2.round) {
      assert Within(s.pool[i].queue, s.round);
      if i < k {
        assert Disjoint(s.pool[i].queue, s.pool[k].queue);
      } else if k < i {
        assert Disjoint(s.pool[k].queue, s.pool[i].queue);
      }
    }
    forall i, j | 0 <= i < j < |s2.pool| ensures Disjoint(s2.pool[i].queue, s2.pool[j].queue) {
      assert Disjoint(s.pool[i].queue, s.pool[j].queue);
    }
  }

  lemma {:induction false} CoordsToUseNone(round: seq<Location>)
    ensures CoordsToUse(round, {}) == round
  {
    if round != [] {
      CoordsToUseNone(round[..|round| - 1]);
      assert round == round[..|round| - 1] + [round[|round| - 1]];
    }
  }

  lemma SetPositionKeepsInv(s: State, origin: string, pos: Location, handed: set<Location>)
    requires Inv(s, handed)
    ensures Inv(SetPosition(s, origin, pos), handed)
  {
    InvTransfer(s, SetPosition(s, origin, pos), handed);
  }

  /** Handing out from a queue takes the coordinate out of the round and of every queue. */
  lemma HandKeepsInv(c: Config, s: State, k: nat, handed: set<Location>)
    requires IsQuest(c) && Inv(s, handed) && k < |s.pool|
    ensures var r := Hand(c, s, k);
            && (r.result == NoLocation || (r.result.Go? && r.result.location in s.pool[k].queue))
            && (r.result.Go? ==> r.result.location !in handed)
            && Inv(r.state, HandedAfter(handed, r.result))
  {
    var t := Take(c, s, s.pool[k].queue);
    TakeFacts(c, s, s.pool[k].queue);
    match t.found
    case None =>
      ShrinkKeepsInv(s, k, t.rest, {}, handed);
      CoordsToUseNone(s.round);
      assert handed + {} == handed;
    case Some(loc) =>
      assert Within(s.pool[k].queue, s.round);
      ShrinkKeepsInv(s, k, t.rest, {loc}, handed);
      var s1 := SetEntry(s, k, s.pool[k].(queue := t.rest));
      SetPositionKeepsInv(Visit(c, s1, loc), s.pool[k].origin, loc, handed + {loc});
  }

  function HandedAfter(handed: set<Location>, result: NextLocation): set<Location> {
    if result.Go? then handed + {result.location} else handed
  }

  /** The normal path of a worker whose queue is not empty. */
  lemma NormalKeepsInv(c: Config, s: State, k: nat, inp: Inputs, handed: set<Location>)
    requires IsQuest(c) && Inv(s, handed) && k < |s.pool| && s.pool[k].queue != []
    ensures var r := Normal(c, s, k, inp);
            && (r.result.Go? ==> r.result.location !in handed)
            && Inv(r.state, HandedAfter(handed, r.result))
  {
    var s1 := SetEntry(s, k, s.pool[k].(lastPositionType := NORMAL));
    var s2 := Advance(s1);
    InvTransfer(s, s2, handed);
    HandKeepsInv(c, s2, k, handed);
  }

  /** A worker that just joined gets its whole, nonempty subroute as queue. */
  lemma JoinFillsQueue(c: Config, s: State, e: Entry)
    requires c.mayUpdate && UniqueOrigins(s.pool) && e in s.pool && e.queue == []
    requires Update(c, s).ok && HasOrigin(Update(c, s).state.pool, e.origin)
    ensures var p := Update(c, s).state.pool;
            p[IndexOf(p, e.origin)].queue != []
  {
    var p := Update(c, s).state.pool;
    QueuesRestartAtClosest(s.pool, s.round, s.ignored, c.dist, e);
    AllocationExact(s.pool, s.round, s.ignored, c.dist);
    SubrouteInJoinOrder(p, IndexOf(p, e.origin));
  }

  lemma JoinKeepsInv(s: State, e: Entry, handed: set<Location>)
    requires Inv(s, handed) && !HasOrigin(s.pool, e.origin)
    requires e.queue == [] && e.prioCoord.None?
    ensures Inv(s.(pool := s.pool + [e]), handed)
  {}

  /** The guard a caller can check: the worker is new to the pool or has coordinates queued. */
  predicate QueueServes(s: State, origin: string) {
    var k := IndexOf(s.pool, origin);
    k < |s.pool| ==> s.pool[k].queue != []
  }

  /** `get_next_location` on a running route, short of finishing a subroute. */
  lemma NextKeepsInv(c: Config, s: State, origin: string, inp: Inputs, handed: set<Location>)
    requires IsQuest(c) && Inv(s, handed) && s.isStarted && QueueServes(s, origin)
    ensures var r := Next(c, s, origin, inp);
            && (r.result.Go? ==> r.result.location !in handed)
            && Inv(r.state, HandedAfter(handed, r.result))
  {
    if origin in s.registered {
      var k := IndexOf(s.pool, origin);
      if k < |s.pool| {
        NormalKeepsInv(c, s, k, inp, handed);
      } else {
        var e := NewEntry(s, origin, inp.now);
        var s1 := s.(pool := s.pool + [e]);
        JoinKeepsInv(s, e, handed);
        UpdateKeepsInv(c, s1, handed);
        var u := Update(c, s1);
        if u.ok && HasOrigin(u.state.pool, origin) {
          assert e in s1.pool;
          JoinFillsQueue(c, s1, e);
          NormalKeepsInv(c, u.state, IndexOf(u.state.pool, origin), inp, handed);
        }
      }
    }
  }

  /** Taking an entry out keeps the invariant. */
  lemma RemovalKeepsInv(s: State, k: nat, handed: set<Location>)
    requires Inv(s, handed) && k < |s.pool|
    ensures Inv(s.(pool := s.pool[..k] + s.pool[k + 1..]), handed)
  {
    var pool := s.pool[..k] + s.pool[k + 1..];
    forall i | 0 <= i < |pool| ensures pool[i] == s.pool[if i < k then i else i + 1] {}
    SubpoolKeepsInv(s, pool, (i: int) => if i < k then i else i + 1, handed);
  }

  /** Leaving entries out keeps the invariant. */
  lemma SubpoolKeepsInv(s: State, pool: Pool, at: int -> int, handed: set<Location>)
    requires Inv(s, handed)
    requires forall i :: 0 <= i < |pool| ==> 0 <= at(i) < |s.pool| && pool[i] == s.pool[at(i)]
    requires forall i, j :: 0 <= i < j < |pool| ==> at(i) < at(j)
    ensures Inv(s.(pool := pool), handed)
  {
    forall i, j | 0 <= i < j < |pool|
      ensures pool[i].origin != pool[j].origin && Disjoint(pool[i].queue, pool[j].queue)
    {
      assert at(i) < at(j);
    }
  }

  lemma UnregisterKeepsInv(c: Config, s: State, origin: string, handed: set<Location>)
    requires c.mayUpdate && Inv(s, handed)
    ensures Inv(Unregister(c, s, origin), handed)
  {
    var s1 := Removed(s, origin);
    RemovedKeepsInv(s, origin, handed);
    UnregisterShape(c, s, origin);
    hide Unregister;
    hide Removed;
    hide Inv;
    hide Update;
    UpdateKeepsInv(c, s1, handed);
    StopKeepsInv(s1, handed);
    StopKeepsInv(Update(c, s1).state, handed);
  }

  lemma RemovedKeepsInv(s: State, origin: string, handed: set<Location>)
    requires Inv(s, handed)
    ensures Inv(Removed(s, origin), handed)
  {
    var s1 := s.(registered := s.registered - {origin});
    InvTransfer(s, s1, handed);
    hide Inv;
    hide IndexOf;
    var k := IndexOf(s.pool, origin);
    if k < |s.pool| {
      RemovalKeepsInv(s1, k, handed);
    }
  }

  lemma StopKeepsInv(s: State, handed: set<Location>)
    requires Inv(s, handed)
    ensures Inv(s.(isStarted := false), handed)
  {
    InvTransfer(s, s.(isStarted := false), handed);
  }

  /** Redoing a coordinate keeps the invariant exactly when it is not in the round any more:
      a caller may redo what was handed out, and nothing that is still to come. */
  lemma RedoKeepsInvIff(c: Config, s: State, worker: string, loc: Location, handed: set<Location>)
    requires IsQuest(c) && Inv(s, handed)
    ensures Inv(Redo(c, s, worker, loc), handed - {loc}) <==> loc !in s.round
  {
    hide CoordsToUse;
    var r := Redo(c, s, worker, loc);
    assert r.round == s.round + [loc];
    if loc in s.round {
      var i :| 0 <= i < |s.round| && s.round[i] == loc;
      assert r.round[i] == r.round[|s.round|];
    } else {
      var k := IndexOf(s.pool, worker);
      forall i | 0 <= i < |s.pool| ensures loc !in s.pool[i].queue {
        assert Within(s.pool[i].queue, s.round);
      }
      forall i, j | 0 <= i < j < |r.pool| ensures Disjoint(r.pool[i].queue, r.pool[j].queue) {
        assert Disjoint(s.pool[i].queue, s.pool[j].queue);
      }
    }
  }

  // ---------------------------------------------------------------- finishing a subroute

  /** The route manager with the recalculated route, before any worker gets a part of it. */
  function Recalculated(s: State, k: nat, inp: Inputs): State
    requires k < |s.pool|
  {
    SetEntry(s, k, s.pool[k].(rounds := s.pool[k].rounds + 1))
      .(stoplist := inp.dbStops, route := inp.newRoute, round := inp.newRoute)
  }

  /** The step updates the pool twice: once in `calculate_route` and once more after it. */
  function Redistributed(c: Config, s: State, k: nat, inp: Inputs): Updated
    requires k < |s.pool|
  {
    Update(c, Update(c, Recalculated(s, k, inp)).state)
  }

  /** What `Finish` does in quest mode when stops are left. */
  lemma FinishInQuestMode(c: Config, s: State, k: nat, inp: Inputs)
    requires IsQuest(c) && k < |s.pool|
    requires Finish(c, s, k, inp).result.Go?
    ensures CoordsToUse(inp.dbStops, s.ignored) != []
    ensures var u, loc := Redistributed(c, s, k, inp), Finish(c, s, k, inp).result.location;
            && u.ok
            && Take(c, u.state, s.pool[k].subroute).found == Some(loc)
            && Finish(c, s, k, inp).state == SetPosition(Visit(c, u.state, loc), s.pool[k].origin, loc)
  {
    hide Take;
    hide SetPosition;
    hide Visit;
    hide Update;
    hide CoordsToUse;
  }

  /** Distributing the new route itself puts every queue right. */
  lemma RedistributedInv(c: Config, s: State, k: nat, inp: Inputs)
    requires IsQuest(c) && UniqueOrigins(s.pool) && NothingPending(s.pool) && k < |s.pool|
    requires NoDup(inp.newRoute)
    requires Redistributed(c, s, k, inp).ok
    ensures Inv(Redistributed(c, s, k, inp).state, {})
    ensures Redistributed(c, s, k, inp).state
         == Recalculated(s, k, inp).(pool := Redistributed(c, s, k, inp).state.pool)
  {
    TwiceUpdated(c, Recalculated(s, k, inp));
  }

  lemma TwiceUpdated(c: Config, s: State)
    requires c.mayUpdate && UniqueOrigins(s.pool) && NothingPending(s.pool) && NoDup(s.round)
    requires Update(c, Update(c, s).state).ok
    ensures var s2 := Update(c, Update(c, s).state).state;
            Inv(s2, {}) && s2 == s.(pool := s2.pool)
  {
    if Update(c, s).ok {
      UpdateEstablishes(c, s);
    }
    UpdateEstablishes(c, Update(c, s).state);
  }

  /** A location is nowhere closer than to itself; all the facts below need of the distance. */
  ghost predicate SelfClosest(dist: Metric) {
    forall x, y :: dist(x, x) <= dist(x, y)
  }

  /** A worker alone in the area gets the whole usable round as its subroute. */
  lemma LoneWorkerUpdate(c: Config, s: State, e: Entry)
    requires c.mayUpdate && s.pool == [e] && CoordsToUse(s.round, s.ignored) != []
    ensures var coords := CoordsToUse(s.round, s.ignored);
            Update(c, s) == Updated(s.(pool := [Refill(e, coords, c.dist)]), true)
  {
    var coords := CoordsToUse(s.round, s.ignored);
    LoneRepopulated(e, coords, c.dist);
    WholeQuotient(|coords|);
  }

  lemma WholeQuotient(n: nat)
    ensures n / 1 == n && n % 1 == 0
  {}

  lemma LoneRepopulated(e: Entry, coords: seq<Location>, dist: Metric)
    ensures Repopulated([e], coords, |coords|, 0, dist) == [Refill(e, coords, dist)]
  {
    SortByStable([e], TimeAdded);
    LoneChunk(coords);
    assert IndexOf([e], e.origin) == 0;
  }

  lemma LoneChunk(coords: seq<Location>)
    ensures Chunk(coords, |coords|, 0, 0) == coords
  {
    assert ChunkStart(|coords|, 0, 1) == ChunkStart(|coords|, 0, 0) + |coords|;
  }

  /** Alone and with an empty queue, a worker is queued the whole usable round. */
  lemma LoneWorkerQueuesAll(c: Config, s: State, e: Entry)
    requires c.mayUpdate && SelfClosest(c.dist) && s.pool == [e] && e.queue == []
    requires CoordsToUse(s.round, s.ignored) != []
    ensures var coords := CoordsToUse(s.round, s.ignored);
            Update(c, Update(c, s).state) == Updated(s.(pool := [e.(subroute := coords, queue := coords)]), true)
  {
    var coords := CoordsToUse(s.round, s.ignored);
    LoneWorkerUpdate(c, s, e);
    var e1 := Refill(e, coords, c.dist);
    LoneWorkerUpdate(c, s.(pool := [e1]), e1);
    assert ClosestIndex(coords[0], coords, c.dist) == 0;
  }

  lemma NothingToUseNoUpdate(c: Config, s: State)
    requires c.mayUpdate && CoordsToUse(s.round, s.ignored) == []
    ensures !Update(c, Update(c, s).state).ok
  {}

  /** The stop the finish step is about to return: the first of the worker's old subroute that is
      still to be visited by the stops the database returns. */
  function FinishStop(c: Config, s: State, k: nat, inp: Inputs): Option<Location>
    requires k < |s.pool|
  {
    Take(c, s.(stoplist := inp.dbStops), s.pool[k].subroute).found
  }

  /** What the finish step returns is known beforehand: the first of the old subroute that is still to
      be visited. A worker that still has an entry gets nothing exactly when there is none. */
  lemma FinishYields(c: Config, s: State, k: nat, inp: Inputs)
    requires IsQuest(c) && UniqueOrigins(s.pool) && NothingPending(s.pool) && k < |s.pool|
    requires NoDup(inp.newRoute)
    ensures var r, s2, sub := Finish(c, s, k, inp), s.(stoplist := inp.dbStops), s.pool[k].subroute;
            && (r.result.Go? ==>
                  && FinishStop(c, s, k, inp) == Some(r.result.location)
                  && exists i :: FirstToVisit(c, s2, sub, i) && sub[i] == r.result.location)
            && (FinishServes(c, s, k, inp) ==>
                  (r.result == NoLocation <==> forall x :: x in sub ==> !ToVisit(c, s2, x)))
  {
    var s2, u, sub := s.(stoplist := inp.dbStops), Redistributed(c, s, k, inp), s.pool[k].subroute;
    TakeMeaning(c, s2, sub);
    FinishTakes(c, s, k, inp);
    if u.ok {
      RedistributedInv(c, s, k, inp);
      TakeLooksAt(c, s2, u.state, sub);
    }
    hide Finish;
    hide Take;
    hide Redistributed;
    hide Inv;
    hide CoordsToUse;
  }

  /** Stops are left, the pool could be updated, and the worker is still in it. */
  predicate FinishServes(c: Config, s: State, k: nat, inp: Inputs)
    requires k < |s.pool|
  {
    var u := Redistributed(c, s, k, inp);
    s.stoplist != [] && CoordsToUse(inp.dbStops, s.ignored) != [] && u.ok && HasOrigin(u.state.pool, s.pool[k].origin)
  }

  lemma FinishTakes(c: Config, s: State, k: nat, inp: Inputs)
    requires IsQuest(c) && k < |s.pool|
    ensures var r, u := Finish(c, s, k, inp), Redistributed(c, s, k, inp);
            var found := Take(c, u.state, s.pool[k].subroute).found;
            && (r.result.Go? ==> u.ok && found == Some(r.result.location))
            && (FinishServes(c, s, k, inp) ==> r.result == if found.Some? then Go(found.value) else NoLocation)
  {
    hide SetPosition;
    hide Visit;
    hide UpdatedPool;
    hide CoordsToUse;
    hide ToVisit;
  }

  // What two updates in a row leave, by rank in join order.

  function TwiceQueued(queue: seq<Location>, chunk: seq<Location>, dist: Metric): seq<Location> {
    QueueAfter(QueueAfter(queue, chunk, dist), chunk, dist)
  }

  /** After two updates the worker whose slice of the coordinates has `loc` still queues it. `workers`
      are those that get a slice, in join order. */
  predicate StaysQueued(workers: Pool, coords: seq<Location>, loc: Location, dist: Metric) {
    exists i :: 0 <= i < |workers| && loc in TwiceQueued(workers[i].queue, ShareOf(workers, coords, i), dist)
  }

  /** The slice of worker `i`. */
  function ShareOf(workers: Pool, coords: seq<Location>, i: nat): seq<Location>
    requires workers != []
  {
    Chunk(coords, Quotient(|coords|, |workers|), Remainder(|coords|, |workers|), i)
  }

  lemma QueuedByTime(pool: Pool, loc: Location)
    ensures |ByTime(pool)| == |pool|
    ensures Queued(pool, loc) <==> Queued(ByTime(pool), loc)
  {
    ByTimeLength(pool);
    var sorted := ByTime(pool);
    forall e ensures e in sorted <==> e in pool { SortByMember(pool, TimeAdded, e); }
    if Queued(pool, loc) {
      var i :| 0 <= i < |pool| && loc in pool[i].queue;
      assert pool[i] in sorted;
    }
    if Queued(sorted, loc) {
      var i :| 0 <= i < |sorted| && loc in sorted[i].queue;
      assert sorted[i] in pool;
    }
  }

  /** The queues after repopulating twice. */
  lemma RepopulatedTwice(kept: Pool, coords: seq<Location>, base: nat, extra: nat, dist: Metric, loc: Location)
    requires UniqueOrigins(kept)
    ensures var twice := Repopulated(Repopulated(kept, coords, base, extra, dist), coords, base, extra, dist);
            && |ByTime(kept)| == |kept| == |twice|
            && (Queued(twice, loc) <==>
                  exists i :: && 0 <= i < |kept|
                              && loc in TwiceQueued(ByTime(kept)[i].queue, Chunk(coords, base, extra, i), dist))
  {
    var once := Repopulated(kept, coords, base, extra, dist);
    var twice := Repopulated(once, coords, base, extra, dist);
    RepopulatedKeeps(kept, coords, base, extra, dist);
    RepopulatedByTime(kept, coords, base, extra, dist);
    RepopulatedByTime(once, coords, base, extra, dist);
    QueuedByTime(twice, loc);
    hide Repopulated;
    hide Chunk;
    hide ByTime;
    hide QueueAfter;
    assert forall i :: 0 <= i < |kept| ==>
      ByTime(twice)[i].queue == TwiceQueued(ByTime(kept)[i].queue, Chunk(coords, base, extra, i), dist);
  }

  /** What the two updates of the step make of the pool. */
  lemma UpdatedTwiceIs(c: Config, s: State) returns (base: nat, extra: nat)
    requires c.mayUpdate && UniqueOrigins(s.pool)
    requires Update(c, Update(c, s).state).ok
    ensures var coords := CoordsToUse(s.round, s.ignored);
            var kept := Kept(s.pool, |coords|);
            && kept != [] && base == Quotient(|coords|, |kept|) && extra == Remainder(|coords|, |kept|)
            && Update(c, Update(c, s).state).state
                 == s.(pool := Repopulated(Repopulated(kept, coords, base, extra, c.dist), coords, base, extra, c.dist))
  {
    var coords := CoordsToUse(s.round, s.ignored);
    FirstUpdateOk(c, s);
    hide UpdatedPool;
    hide Repopulated;
    hide CoordsToUse;
    base, extra := UpdatedPoolIs(s.pool, s.round, s.ignored, c.dist);
    var kept := Kept(s.pool, |coords|);
    KeptUnique(s.pool, |coords|);
    RepopulatedKeeps(kept, coords, base, extra, c.dist);
    var once := Repopulated(kept, coords, base, extra, c.dist);
    assert Update(c, s) == Updated(s.(pool := once), true);
    var base2, extra2 := UpdatedPoolIs(once, s.round, s.ignored, c.dist);
    assert Kept(once, |coords|) == once;
  }

  /** When the second update succeeds so did the first: both need workers and coordinates. */
  lemma FirstUpdateOk(c: Config, s: State)
    requires c.mayUpdate && Update(c, Update(c, s).state).ok
    ensures Update(c, s).ok
  {
    hide Repopulated;
    hide CoordsToUse;
    hide Kept;
  }

  /** For any number of workers: the invariant survives exactly when no queue got the returned
      coordinate, for which it is enough that the new round does not have it. */
  lemma FinishKeepsInvUnlessQueued(c: Config, s: State, k: nat, inp: Inputs)
    requires IsQuest(c) && UniqueOrigins(s.pool) && NothingPending(s.pool) && k < |s.pool|
    requires NoDup(inp.newRoute)
    ensures var r := Finish(c, s, k, inp);
            r.result.Go? ==>
              && (Inv(r.state, {r.result.location}) <==> !Queued(r.state.pool, r.result.location))
              && (r.result.location !in inp.newRoute ==> !Queued(r.state.pool, r.result.location))
  {
    hide Finish;
    if Finish(c, s, k, inp).result.Go? {
      FinishInQuestMode(c, s, k, inp);
      RedistributedInv(c, s, k, inp);
      hide Redistributed;
      var u, loc := Redistributed(c, s, k, inp).state, Finish(c, s, k, inp).result.location;
      VisitedInvIff(c, u, s.pool[k].origin, loc);
    }
  }

  predicate Queued(pool: Pool, loc: Location) {
    exists i :: 0 <= i < |pool| && loc in pool[i].queue
  }

  /** Taking a coordinate out of the round alone breaks the invariant exactly when a queue has it. */
  lemma VisitedInvIff(c: Config, u: State, origin: string, loc: Location)
    requires c.deleteAfterFetch && Inv(u, {})
    ensures var r := SetPosition(Visit(c, u, loc), origin, loc);
            && (Inv(r, {loc}) <==> !Queued(r.pool, loc))
            && (loc !in u.round ==> !Queued(r.pool, loc))
  {
    var v, r := Visit(c, u, loc), SetPosition(Visit(c, u, loc), origin, loc);
    CoordsToUseMember(u.round, {loc});
    assert SameQueues(v.pool, r.pool) && SameQueues(r.pool, v.pool) && r.round == v.round;
    forall i | 0 <= i < |r.pool| ensures loc in r.pool[i].queue ==> loc in u.round {
      assert Within(u.pool[i].queue, u.round);
    }
    if Queued(r.pool, loc) {
      var i :| 0 <= i < |r.pool| && loc in r.pool[i].queue;
      assert !Within(r.pool[i].queue, r.round);
    } else {
      forall i | 0 <= i < |u.pool| ensures Within(u.pool[i].queue, v.round) {
        assert Within(u.pool[i].queue, u.round) && loc !in r.pool[i].queue;
      }
      InvTransfer(v, r, {loc});
    }
  }

  /** What finishing leaves behind for a lone worker. */
  lemma LoneFinish(c: Config, s: State, inp: Inputs)
    requires IsQuest(c) && SelfClosest(c.dist)
    requires |s.pool| == 1 && s.pool[0].queue == []
    requires Finish(c, s, 0, inp).result.Go?
    ensures var r, u := Finish(c, s, 0, inp), Redistributed(c, s, 0, inp);
            && u.ok && u.state.round == inp.newRoute
            && SameQueues(u.state.pool, r.state.pool)
            && r.state.pool[0].queue == CoordsToUse(inp.newRoute, s.ignored)
            && r.state.round == CoordsToUse(inp.newRoute, {r.result.location})
            && r.result.location !in s.ignored
  {
    hide Finish;
    hide Update;
    hide Recalculated;
    FinishInQuestMode(c, s, 0, inp);
    LoneRedistributed(c, s, inp);
    TakeFacts(c, Redistributed(c, s, 0, inp).state, s.pool[0].subroute);
  }

  lemma LoneRedistributed(c: Config, s: State, inp: Inputs)
    requires IsQuest(c) && SelfClosest(c.dist)
    requires |s.pool| == 1 && s.pool[0].queue == []
    requires Redistributed(c, s, 0, inp).ok
    ensures var u := Redistributed(c, s, 0, inp).state;
            && u.round == inp.newRoute && u.ignored == s.ignored && |u.pool| == 1
            && u.pool[0].queue == CoordsToUse(inp.newRoute, s.ignored)
  {
    var s2 := Recalculated(s, 0, inp);
    if CoordsToUse(s2.round, s2.ignored) == [] {
      NothingToUseNoUpdate(c, s2);
      assert false;
    }
    LoneWorkerQueuesAll(c, s2, s2.pool[0]);
  }

  /** The finish step as written pops from the entry left behind by the update, so the stop it returns
      may stay queued in the pool. The exact condition, from what is known before the call: the
      invariant survives if and only if the worker whose slice of the new round has that stop does
      not still queue it after being redistributed twice. */
  lemma FinishKeepsInvIff(c: Config, s: State, k: nat, inp: Inputs)
    requires IsQuest(c) && UniqueOrigins(s.pool) && NothingPending(s.pool) && k < |s.pool|
    requires NoDup(inp.newRoute)
    ensures var r, stop := Finish(c, s, k, inp), FinishStop(c, s, k, inp);
            var coords := CoordsToUse(inp.newRoute, s.ignored);
            var workers := ByTime(Kept(Recalculated(s, k, inp).pool, |coords|));
            r.result.Go? ==>
              && stop.Some? && r.result == Go(stop.value)
              && (Inv(r.state, {stop.value}) <==> !StaysQueued(workers, coords, stop.value, c.dist))
  {
    FinishYields(c, s, k, inp);
    FinishKeepsInvUnlessQueued(c, s, k, inp);
    hide Finish;
    hide FinishStop;
    hide Inv;
    var r := Finish(c, s, k, inp);
    if r.result.Go? {
      FinishQueues(c, s, k, inp);
    }
  }

  lemma FinishQueues(c: Config, s: State, k: nat, inp: Inputs)
    requires IsQuest(c) && UniqueOrigins(s.pool) && NothingPending(s.pool) && k < |s.pool|
    requires NoDup(inp.newRoute) && Finish(c, s, k, inp).result.Go?
    ensures var r := Finish(c, s, k, inp);
            var coords := CoordsToUse(inp.newRoute, s.ignored);
            var workers := ByTime(Kept(Recalculated(s, k, inp).pool, |coords|));
            Queued(r.state.pool, r.result.location) <==> StaysQueued(workers, coords, r.result.location, c.dist)
  {
    hide Finish;
    hide CoordsToUse;
    hide Update;
    hide Repopulated;
    hide Kept;
    hide ByTime;
    hide QueueAfter;
    hide Chunk;
    FinishInQuestMode(c, s, k, inp);
    var s2 := Recalculated(s, k, inp);
    assert UniqueOrigins(s2.pool);
    var coords := CoordsToUse(s2.round, s2.ignored);
    var kept := Kept(s2.pool, |coords|);
    KeptUnique(s2.pool, |coords|);
    var base, extra := UpdatedTwiceIs(c, s2);
    var r, u := Finish(c, s, k, inp), Redistributed(c, s, k, inp);
    FinishSameQueues(c, s, k, inp);
    RepopulatedTwice(kept, coords, base, extra, c.dist, r.result.location);
    SameQueued(u.state.pool, r.state.pool, r.result.location);
  }

  lemma FinishSameQueues(c: Config, s: State, k: nat, inp: Inputs)
    requires IsQuest(c) && k < |s.pool| && Finish(c, s, k, inp).result.Go?
    ensures SameQueues(Redistributed(c, s, k, inp).state.pool, Finish(c, s, k, inp).state.pool)
  {
    FinishInQuestMode(c, s, k, inp);
    hide Finish;
    hide Redistributed;
    hide Take;
    hide CoordsToUse;
  }

  lemma SameQueued(a: Pool, b: Pool, loc: Location)
    requires SameQueues(a, b)
    ensures Queued(a, loc) <==> Queued(b, loc)
  {
    if Queued(a, loc) {
      var i :| 0 <= i < |a| && loc in a[i].queue;
      assert loc in b[i].queue;
    }
    if Queued(b, loc) {
      var i :| 0 <= i < |b| && loc in b[i].queue;
      assert loc in a[i].queue;
    }
  }

  /** For a worker alone in the area the invariant survives exactly when the stop to be returned is not
      part of the new round. */
  lemma LoneFinishKeepsInvIff(c: Config, s: State, inp: Inputs)
    requires IsQuest(c) && SelfClosest(c.dist) && NothingPending(s.pool)
    requires |s.pool| == 1 && s.pool[0].queue == []
    requires NoDup(inp.newRoute)
    ensures var r, stop := Finish(c, s, 0, inp), FinishStop(c, s, 0, inp);
            r.result.Go? ==>
              stop.Some? && r.result == Go(stop.value) && (Inv(r.state, {stop.value}) <==> stop.value !in inp.newRoute)
  {
    FinishYields(c, s, 0, inp);
    var r := Finish(c, s, 0, inp);
    if r.result.Go? {
      LoneFinish(c, s, inp);
      CoordsToUseMember(inp.newRoute, s.ignored);
      FinishKeepsInvUnlessQueued(c, s, 0, inp);
      hide Finish;
      if r.result.location in inp.newRoute {
        assert r.result.location in r.state.pool[0].queue;
      }
    }
  }

  /** Had the step popped from the refreshed entry of the worker, as a call of a worker that just
      joined does, the invariant would hold after it whatever the pool. */
  lemma RefreshedFinishKeepsInv(c: Config, s: State, k: nat, inp: Inputs)
    requires IsQuest(c) && UniqueOrigins(s.pool) && NothingPending(s.pool) && k < |s.pool|
    requires NoDup(inp.newRoute)
    ensures var u := Redistributed(c, s, k, inp);
            u.ok && HasOrigin(u.state.pool, s.pool[k].origin) ==>
              var r := Hand(c, u.state, IndexOf(u.state.pool, s.pool[k].origin));
              Inv(r.state, HandedAfter({}, r.result))
  {
    var u := Redistributed(c, s, k, inp);
    if u.ok && HasOrigin(u.state.pool, s.pool[k].origin) {
      RedistributedInv(c, s, k, inp);
      HandKeepsInv(c, u.state, IndexOf(u.state.pool, s.pool[k].origin), {});
    }
  }

  // ---------------------------------------------------------------- a repeated stop

  /** A single registered worker "w" at a single stop, with its entry `e` in the pool. */
  function LoneState(e: Entry, round: seq<Location>, stop: Location): State {
    State(true, {"w"}, map[], [stop], round, {}, [stop], [e], 0.0)
  }

  function LoneEntry(queue: seq<Location>, rounds: nat, stop: Location): Entry {
    Entry("w", 0.0, [stop], queue, rounds, stop, None, NORMAL)
  }

  lemma LoneMedian(e: Entry)
    ensures RoundsRunThrough([e]) == e.rounds as real
  {
    assert Rounds([e]) == [e.rounds];
    SortByStable([e.rounds], AsReal);
  }

  lemma SingletonCoords(stop: Location)
    ensures CoordsToUse([stop], {}) == [stop]
    ensures CoordsToUse([stop], {stop}) == []
  {
    assert [stop][..0] == [];
  }

  /** A stop that still has no quest when its worker finishes the subroute is handed out twice in
      a row: by the finishing call and by the next one, without a redo in between. */
  lemma FinishRepeats(c: Config, stop: Location, inp: Inputs)
    requires IsQuest(c) && SelfClosest(c.dist)
    requires inp.dbStops == [stop] && inp.newRoute == [stop]
    ensures var s := LoneState(LoneEntry([], 0, stop), [], stop);
            var first := Next(c, s, "w", inp);
            first.result == Go(stop) && Next(c, first.state, "w", inp).result == Go(stop)
  {
    var s := LoneState(LoneEntry([], 0, stop), [], stop);
    FirstCall(c, stop, inp);
    SecondCall(c, stop, inp);
  }

  lemma NextIsNormal(c: Config, s: State, inp: Inputs)
    requires IsQuest(c) && s.isStarted && |s.pool| == 1 && s.pool[0].origin in s.registered
    requires s.pool[0].prioCoord.None?
    ensures Next(c, s, s.pool[0].origin, inp) == Normal(c, s, 0, inp)
  {}

  lemma NormalIsFinish(c: Config, s: State, inp: Inputs)
    requires IsQuest(c) && |s.pool| == 1 && s.pool[0].queue == [] && s.pool[0].lastPositionType == NORMAL
    requires RoundsRunThrough(s.pool) <= s.roundcount
    ensures Normal(c, s, 0, inp) == Finish(c, s, 0, inp)
  {
    assert SetEntry(s, 0, s.pool[0]) == s;
  }

  lemma FirstCall(c: Config, stop: Location, inp: Inputs)
    requires IsQuest(c) && SelfClosest(c.dist)
    requires inp.dbStops == [stop] && inp.newRoute == [stop]
    ensures Next(c, LoneState(LoneEntry([], 0, stop), [], stop), "w", inp)
         == Step(LoneState(LoneEntry([stop], 1, stop), [], stop), Go(stop))
  {
    hide Next;
    hide Normal;
    hide Finish;
    hide Update;
    hide CoordsToUse;
    hide RoundsRunThrough;
    var s := LoneState(LoneEntry([], 0, stop), [], stop);
    LoneMedian(s.pool[0]);
    NextIsNormal(c, s, inp);
    NormalIsFinish(c, s, inp);
    var s2 := Recalculated(s, 0, inp);
    SingletonCoords(stop);
    LoneWorkerQueuesAll(c, s2, LoneEntry([], 1, stop));
    var u := LoneState(LoneEntry([stop], 1, stop), [stop], stop);
    assert Redistributed(c, s, 0, inp) == Updated(u, true);
    FinishFrom(c, s, inp, u, stop);
    assert Visit(c, u, stop) == LoneState(LoneEntry([stop], 1, stop), [], stop);
  }

  lemma FinishFrom(c: Config, s: State, inp: Inputs, u: State, stop: Location)
    requires IsQuest(c) && |s.pool| == 1 && s.pool[0].subroute == [stop]
    requires s.stoplist != [] && CoordsToUse(inp.dbStops, s.ignored) != []
    requires Redistributed(c, s, 0, inp) == Updated(u, true)
    requires HasOrigin(u.pool, s.pool[0].origin) && ToVisit(c, u, stop)
    ensures Finish(c, s, 0, inp) == Step(SetPosition(Visit(c, u, stop), s.pool[0].origin, stop), Go(stop))
  {
    hide Update;
    hide CoordsToUse;
    hide SetPosition;
    hide Visit;
    hide HasOrigin;
    hide ToVisit;
  }

  lemma SecondCall(c: Config, stop: Location, inp: Inputs)
    requires IsQuest(c)
    ensures Next(c, LoneState(LoneEntry([stop], 1, stop), [], stop), "w", inp).result == Go(stop)
  {
    var s := LoneState(LoneEntry([stop], 1, stop), [], stop);
    LoneMedian(s.pool[0]);
    NextIsNormal(c, s, inp);
    assert SetEntry(s, 0, s.pool[0]) == s;
    assert ToVisit(c, Advance(s), stop);
  }
}
