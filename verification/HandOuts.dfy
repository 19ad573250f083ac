/** What a worker is sent to: its queue from the front on, coordinate by coordinate, with priority
    events in between. */
module HandOuts {
  import opened SubrouteAllocation
  import opened Wrappers
  import opened RouteSteps
  import opened RouteRuns
  import opened PriorityEvents

  // ---------------------------------------------------------------- priority events

  /** Does the call look for due priority events? Not right after one, unless the route may starve. */
  predicate LooksForEvents(c: Config, s: State, k: nat)
    requires k < |s.pool|
  {
    c.hasPrioq && (s.pool[k].lastPositionType != PRIOQ || c.starveRoute)
  }

  /** The call serves no priority event: none waits in the slot of the worker, and of those due, if it
      looks for them, it keeps none. */
  predicate NoEvent(c: Config, s: State, k: nat, inp: Inputs)
    requires k < |s.pool|
  {
    && (c.canPassPrio ==> s.pool[k].prioCoord.None?)
    && (LooksForEvents(c, s, k) ==> ServePrio(c, s, k, inp.due).chosen.None?)
  }

  /** The worker may call: it is registered with a started manager and has an entry. */
  predicate Known(s: State, origin: string) {
    s.isStarted && origin in s.registered && HasOrigin(s.pool, origin)
  }

  /** Only slots differ. */
  predicate SameButSlots(a: Pool, b: Pool) {
    |a| == |b| && forall i :: 0 <= i < |a| ==> b[i] == a[i].(prioCoord := b[i].prioCoord)
  }

  /** Passing events on fills slots of others and changes nothing else of the pool. */
  lemma {:induction false} ServingFillsSlots(c: Config, s: State, k: nat, due: seq<Location>)
    requires k < |s.pool|
    ensures var r := ServePrio(c, s, k, due).state;
            && SameButSlots(s.pool, r.pool) && r.pool[k] == s.pool[k]
            && r == s.(round := r.round, pool := r.pool)
    decreases |due|
  {
    if due != [] && c.canPassPrio {
      var event := due[0];
      if !ToVisit(c, s, event) {
        ServingFillsSlots(c, s, k, due[1..]);
      } else {
        var s1 := Visit(c, s, event);
        var best := CloserWorker(s1.pool, event, k, c.dist);
        if best.Some? {
          ServingFillsSlots(c, SetEntry(s1, best.value, s1.pool[best.value].(prioCoord := Some(event))), k, due[1..]);
        }
      }
    }
  }

  /** The due events are gone through in order up to the first one kept: those of them to be visited have
      been passed on, in order, and those after the kept one are left. */
  lemma {:induction false} EventsServedInOrder(c: Config, s: State, k: nat, due: seq<Location>) returns (n: nat)
    requires k < |s.pool| && c.canPassPrio
    ensures n <= |due| && EventsUpTo(c, s, due, n, ServePrio(c, s, k, due))
    decreases |due|
  {
    var r := ServePrio(c, s, k, due);
    n := 0;
    if due != [] {
      var event, rest := due[0], due[1..];
      var s1 := Visit(c, s, event);
      var best := CloserWorker(s1.pool, event, k, c.dist);
      if !ToVisit(c, s, event) || best.Some? {
        var s2 := if ToVisit(c, s, event) then SetEntry(s1, best.value, s1.pool[best.value].(prioCoord := Some(event)))
                  else s;
        var m := EventsServedInOrder(c, s2, k, rest);
        var r2 := ServePrio(c, s2, k, rest);
        n := m + 1;
        UsableLooksAt(c, s, s2, rest[..m]);
        assert due[..n][0] == event && due[..n][1..] == rest[..m];
        if ToVisit(c, s, event) {
          assert r.passed[1..] == r2.passed;
        }
      }
    }
  }

  predicate EventsUpTo(c: Config, s: State, due: seq<Location>, n: nat, r: Served)
    requires n <= |due|
  {
    && Events(r.passed) == Usable(c, s, due[..n])
    && if r.chosen.Some? then n < |due| && r.chosen.value == due[n] && ToVisit(c, s, due[n]) && r.left == due[n + 1..]
       else n == |due| && r.left == []
  }

  /** Where events are not passed on, the first one due is kept. */
  lemma FirstEventKept(c: Config, s: State, k: nat, due: seq<Location>)
    requires k < |s.pool| && !c.canPassPrio
    ensures var r := ServePrio(c, s, k, due);
            && r.state == s && (r.chosen.None? <==> due == [])
            && (due != [] ==> r.chosen.value == due[0] && r.left == due[1..])
  {}

  /** An event in the slot of a worker is where it goes next, and then the slot is empty. */
  lemma PendingEventServed(c: Config, s: State, origin: string, inp: Inputs)
    requires Known(s, origin) && c.canPassPrio && s.pool[IndexOf(s.pool, origin)].prioCoord.Some?
    ensures var k, r := IndexOf(s.pool, origin), Next(c, s, origin, inp);
            var event := s.pool[k].prioCoord.value;
            && r.result == Go(event)
            && r.state == s.(pool := r.state.pool)
            && r.state.pool == s.pool[k := r.state.pool[k]]
            && r.state.pool[k] == s.pool[k].(prioCoord := None, currentPos := event, lastPositionType := PRIOQ)
  {}

  /** An event that the worker keeps is where it goes next, its queue waits. */
  lemma KeptEventServed(c: Config, s: State, origin: string, inp: Inputs)
    requires Known(s, origin)
    requires var k := IndexOf(s.pool, origin);
             && (c.canPassPrio ==> s.pool[k].prioCoord.None?) && LooksForEvents(c, s, k)
             && ServePrio(c, s, k, inp.due).chosen.Some?
    ensures var k, r := IndexOf(s.pool, origin), Next(c, s, origin, inp);
            var event := ServePrio(c, s, k, inp.due).chosen.value;
            && r.result == Go(event)
            && |r.state.pool| == |s.pool|
            && r.state.pool[k] == s.pool[k].(currentPos := event, lastPositionType := PRIOQ)
            && forall i :: 0 <= i < |s.pool| ==> r.state.pool[i].queue == s.pool[i].queue
  {
    var k := IndexOf(s.pool, origin);
    ServingFillsSlots(c, s, k, inp.due);
    hide ServePrio;
    hide Normal;
  }

  /** A route manager without a normal route sends a worker to events only. When the call may look for them and
      none is due it goes on waiting, and when it may not, or keeps none, it gets nothing. */
  lemma EventsOnly(c: Config, s: State, origin: string, inp: Inputs)
    requires Known(s, origin) && !c.hasNormalRoute
    requires c.canPassPrio ==> s.pool[IndexOf(s.pool, origin)].prioCoord.None?
    ensures var k, r := IndexOf(s.pool, origin), Next(c, s, origin, inp);
            && (r.result.Go? <==> LooksForEvents(c, s, k) && ServePrio(c, s, k, inp.due).chosen.Some?)
            && (r.result == StillWaiting <==> LooksForEvents(c, s, k) && inp.due == [])
            && (!LooksForEvents(c, s, k) || inp.due == [] ==> r.state == s)
  {}

  // ---------------------------------------------------------------- one call

  /** The state in which the call turns to the route. */
  function Turned(c: Config, s: State, k: nat, inp: Inputs): (t: State)
    requires k < |s.pool|
    ensures |t.pool| == |s.pool|
  {
    var s1 := if LooksForEvents(c, s, k) then ServePrio(c, s, k, inp.due).state else s;
    Advance(SetEntry(s1, k, s1.pool[k].(lastPositionType := NORMAL)))
  }

  lemma TurnedKeeps(c: Config, s: State, k: nat, inp: Inputs)
    requires k < |s.pool|
    ensures var t := Turned(c, s, k, inp);
            && t == s.(round := t.round, pool := t.pool, roundcount := t.roundcount)
            && t.pool[k] == s.pool[k].(lastPositionType := NORMAL)
            && forall i :: 0 <= i < |s.pool| ==>
                 t.pool[i].queue == s.pool[i].queue && t.pool[i].origin == s.pool[i].origin
  {
    hide ServePrio;
    hide RoundsRunThrough;
    hide Rounds;
    ServingFillsSlots(c, s, k, inp.due);
  }

  lemma RouteServed(c: Config, s: State, origin: string, inp: Inputs)
    requires Known(s, origin) && c.hasNormalRoute && s.route != []
    requires var k := IndexOf(s.pool, origin); NoEvent(c, s, k, inp) && s.pool[k].queue != []
    ensures var k := IndexOf(s.pool, origin); Next(c, s, origin, inp) == Hand(c, Turned(c, s, k, inp), k)
  {
    var k := IndexOf(s.pool, origin);
    TurnedKeeps(c, s, k, inp);
    ServingFillsSlots(c, s, k, inp.due);
    hide ServePrio;
    hide Hand;
    hide Finish;
    hide RoundsRunThrough;
  }

  /** Worker `k` is sent to the first coordinate of its queue that is to be visited, what stands before
      it is dropped, what comes after it stays; or it gets nothing, none is to be visited, and nothing
      is left. Other queues do not change. */
  ghost predicate ServesInOrder(c: Config, s: State, k: nat, r: Step)
    requires k < |s.pool|
  {
    && |r.state.pool| == |s.pool|
    && (forall i :: 0 <= i < |s.pool| && i != k ==>
          r.state.pool[i].queue == s.pool[i].queue && r.state.pool[i].origin == s.pool[i].origin)
    && var queue, e := s.pool[k].queue, r.state.pool[k];
       && e.origin == s.pool[k].origin && e.lastPositionType == NORMAL
       && match r.result
          case Go(loc) =>
            && e.currentPos == loc
            && exists i :: FirstToVisit(c, s, queue, i) && loc == queue[i] && e.queue == queue[i + 1..]
          case NoLocation =>
            && e.currentPos == s.pool[k].currentPos && e.queue == []
            && forall j :: 0 <= j < |queue| ==> !ToVisit(c, s, queue[j])
          case _ => false
  }

  /** In every mode a worker with something queued and no priority event to serve is served in the order
      of its queue. */
  lemma QueueServedInOrder(c: Config, s: State, origin: string, inp: Inputs)
    requires Known(s, origin) && c.hasNormalRoute && s.route != []
    requires var k := IndexOf(s.pool, origin); NoEvent(c, s, k, inp) && s.pool[k].queue != []
    ensures var r := Next(c, s, origin, inp);
            && ServesInOrder(c, s, IndexOf(s.pool, origin), r)
            && r.state == s.(round := r.state.round, pool := r.state.pool, roundcount := r.state.roundcount)
  {
    var k := IndexOf(s.pool, origin);
    RouteServed(c, s, origin, inp);
    TurnedKeeps(c, s, k, inp);
    var t := Turned(c, s, k, inp);
    IndexKept(s.pool, t.pool, origin);
    HandKeeps(c, t, k);
    HandServes(c, s, t, k);
    hide *;
  }

  /** Handing out in a state that only differs in what does not matter. */
  lemma HandServes(c: Config, s: State, t: State, k: nat)
    requires k < |s.pool| == |t.pool| && t.pool[k] == s.pool[k].(lastPositionType := NORMAL)
    requires t.ignored == s.ignored && t.stoplist == s.stoplist
    requires forall i :: 0 <= i < |s.pool| ==>
               t.pool[i].queue == s.pool[i].queue && t.pool[i].origin == s.pool[i].origin
    requires IndexOf(t.pool, t.pool[k].origin) == k
    ensures ServesInOrder(c, s, k, Hand(c, t, k))
  {
    TakeLooksAt(c, s, t, s.pool[k].queue);
    HandKeeps(c, t, k);
    FirstTaken(c, s, s.pool[k].queue);
    hide Take;
    hide ToVisit;
    hide Hand;
  }

  lemma KnownIndex(s: State, origin: string)
    requires Known(s, origin)
    ensures var k := IndexOf(s.pool, origin); k < |s.pool| && s.pool[k].origin == origin
    ensures s.isStarted && origin in s.registered
  {}

  /** A worker that has walked through its subroute starts over at its beginning, outside quest mode, as long as
      the pool can be updated and it has a subroute there. */
  lemma SubrouteStartsOver(c: Config, s: State, origin: string, inp: Inputs)
    requires Known(s, origin) && c.hasNormalRoute && !c.questMode && s.route != []
    requires var k := IndexOf(s.pool, origin); NoEvent(c, s, k, inp) && s.pool[k].queue == []
    ensures var k, r := IndexOf(s.pool, origin), Next(c, s, origin, inp);
            var u, subroute := Update(c, RoundDone(Turned(c, s, k, inp), k)), s.pool[k].subroute;
            r.result ==
              if u.ok && HasOrigin(u.state.pool, origin) && subroute != [] then Go(subroute[0]) else NoLocation
  {
    var k := IndexOf(s.pool, origin);
    TurnedKeeps(c, s, k, inp);
    ServingFillsSlots(c, s, k, inp.due);
    TurnsToFinish(c, s, origin, inp);
    hide Next;
    hide Turned;
    hide UpdatedPool;
    hide ServePrio;
    FinishOutsideQuest(c, Turned(c, s, k, inp), k, inp);
    hide Finish;
  }

  function RoundDone(s: State, k: nat): State
    requires k < |s.pool|
  {
    SetEntry(s, k, s.pool[k].(rounds := s.pool[k].rounds + 1))
  }

  lemma TurnsToFinish(c: Config, s: State, origin: string, inp: Inputs)
    requires Known(s, origin) && c.hasNormalRoute && s.route != []
    requires var k := IndexOf(s.pool, origin); NoEvent(c, s, k, inp) && s.pool[k].queue == []
    ensures var k := IndexOf(s.pool, origin); Next(c, s, origin, inp) == Finish(c, Turned(c, s, k, inp), k, inp)
  {
    var k := IndexOf(s.pool, origin);
    TurnedKeeps(c, s, k, inp);
    ServingFillsSlots(c, s, k, inp.due);
    hide ServePrio;
    hide Hand;
    hide Finish;
    hide RoundsRunThrough;
  }

  lemma FinishOutsideQuest(c: Config, s: State, k: nat, inp: Inputs)
    requires k < |s.pool| && !c.questMode
    ensures var u, origin, subroute := Update(c, RoundDone(s, k)), s.pool[k].origin, s.pool[k].subroute;
            Finish(c, s, k, inp).result ==
              if u.ok && HasOrigin(u.state.pool, origin) && subroute != [] then Go(subroute[0]) else NoLocation
  {
    hide Update;
    hide SetPosition;
    hide Visit;
  }

  /** What a pop does, in positions of the queue. */
  lemma FirstTaken(c: Config, s: State, queue: seq<Location>)
    ensures var t := Take(c, s, queue);
            && (t.found.Some? ==>
                  exists i :: FirstToVisit(c, s, queue, i) && t.found.value == queue[i] && t.rest == queue[i + 1..])
            && (t.found.None? ==> t.rest == [] && forall j :: 0 <= j < |queue| ==> !ToVisit(c, s, queue[j]))
  {
    TakeMeaning(c, s, queue);
    hide Take;
    hide ToVisit;
  }

  lemma StillKnown(s: State, s': State, origin: string)
    requires Known(s, origin) && |s'.pool| == |s.pool| && s'.isStarted && s'.registered == s.registered
    requires forall i :: 0 <= i < |s.pool| ==> s'.pool[i].origin == s.pool[i].origin
    ensures Known(s', origin) && IndexOf(s'.pool, origin) == IndexOf(s.pool, origin)
  {
    IndexKept(s.pool, s'.pool, origin);
  }

  lemma IndexKept(a: Pool, b: Pool, origin: string)
    requires |a| == |b| && forall i :: 0 <= i < |a| ==> a[i].origin == b[i].origin
    ensures IndexOf(a, origin) == IndexOf(b, origin)
  {}

  lemma HandKeeps(c: Config, s: State, k: nat)
    requires k < |s.pool| && IndexOf(s.pool, s.pool[k].origin) == k
    ensures var t, r := Take(c, s, s.pool[k].queue), Hand(c, s, k);
            && r.state == s.(round := r.state.round, pool := r.state.pool)
            && r.state.pool == s.pool[k := s.pool[k].(queue := t.rest,
                                  currentPos := if t.found.Some? then t.found.value else s.pool[k].currentPos)]
            && r.result == if t.found.Some? then Go(t.found.value) else NoLocation
  {
    hide Take;
    var t := Take(c, s, s.pool[k].queue);
    var s1 := SetEntry(s, k, s.pool[k].(queue := t.rest));
    IndexKept(s.pool, s1.pool, s.pool[k].origin);
  }

  // ---------------------------------------------------------------- many calls

  /** The coordinates of the queue to be visited, in its order. */
  function Usable(c: Config, s: State, queue: seq<Location>): seq<Location> {
    if queue == [] then [] else (if ToVisit(c, s, queue[0]) then [queue[0]] else []) + Usable(c, s, queue[1..])
  }

  /** What a worker is returned by one call after the other. */
  function Results(c: Config, s: State, origin: string, inps: seq<Inputs>): (outs: seq<NextLocation>)
    ensures |outs| == |inps|
    decreases |inps|
  {
    if inps == [] then []
    else
      var r := Next(c, s, origin, inps[0]);
      [r.result] + Results(c, r.state, origin, inps[1..])
  }

  /** No call of the worker finds a priority event to serve. */
  predicate NoEvents(c: Config, s: State, origin: string, inps: seq<Inputs>)
    decreases |inps|
  {
    inps != [] ==>
      && HasOrigin(s.pool, origin) && NoEvent(c, s, IndexOf(s.pool, origin), inps[0])
      && NoEvents(c, Next(c, s, origin, inps[0]).state, origin, inps[1..])
  }

  lemma {:induction false} UsableFrom(c: Config, s: State, queue: seq<Location>, i: nat)
    requires FirstToVisit(c, s, queue, i)
    ensures Usable(c, s, queue) == [queue[i]] + Usable(c, s, queue[i + 1..])
  {
    if i > 0 {
      assert !ToVisit(c, s, queue[0]);
      assert FirstToVisit(c, s, queue[1..], i - 1);
      UsableFrom(c, s, queue[1..], i - 1);
      assert queue[1..][i..] == queue[i + 1..];
    }
  }

  lemma {:induction false} NothingUsable(c: Config, s: State, queue: seq<Location>)
    requires forall j :: 0 <= j < |queue| ==> !ToVisit(c, s, queue[j])
    ensures Usable(c, s, queue) == []
  {
    if queue != [] {
      NothingUsable(c, s, queue[1..]);
    }
  }

  lemma {:induction false} UsableLooksAt(c: Config, s: State, s': State, queue: seq<Location>)
    requires s'.ignored == s.ignored && s'.stoplist == s.stoplist
    ensures Usable(c, s', queue) == Usable(c, s, queue)
  {
    if queue != [] {
      UsableLooksAt(c, s, s', queue[1..]);
    }
  }

  /** Where in the queue a worker is served for which something is to be visited. */
  lemma ServedAt(c: Config, s: State, k: nat, r: Step) returns (i: nat)
    requires k < |s.pool| && ServesInOrder(c, s, k, r) && Usable(c, s, s.pool[k].queue) != []
    ensures var queue := s.pool[k].queue;
            && FirstToVisit(c, s, queue, i) && i < |queue| && r.result == Go(queue[i])
            && |r.state.pool| == |s.pool| && r.state.pool[k].queue == queue[i + 1..]
  {
    var queue := s.pool[k].queue;
    if r.result == NoLocation {
      NothingUsable(c, s, queue);
      assert false;
    }
    i :| FirstToVisit(c, s, queue, i) && r.result == Go(queue[i]) && r.state.pool[k].queue == queue[i + 1..];
  }

  lemma OriginsServed(c: Config, s: State, k: nat, r: Step)
    requires k < |s.pool| && ServesInOrder(c, s, k, r)
    ensures |r.state.pool| == |s.pool|
    ensures forall i :: 0 <= i < |s.pool| ==> r.state.pool[i].origin == s.pool[i].origin
  {}

  lemma CallsUnfold(c: Config, s: State, origin: string, inps: seq<Inputs>)
    requires inps != [] && NoEvents(c, s, origin, inps)
    ensures var r := Next(c, s, origin, inps[0]);
            && HasOrigin(s.pool, origin) && NoEvent(c, s, IndexOf(s.pool, origin), inps[0])
            && NoEvents(c, r.state, origin, inps[1..])
            && Results(c, s, origin, inps) == [r.result] + Results(c, r.state, origin, inps[1..])
  {
    hide Next;
    hide NoEvent;
  }

  function QueueOf(s: State, origin: string): seq<Location>
    requires HasOrigin(s.pool, origin)
  {
    s.pool[IndexOf(s.pool, origin)].queue
  }

  /** One call takes the first usable coordinate off. */
  lemma CallTakesFirst(c: Config, s: State, origin: string, inp: Inputs)
    requires Known(s, origin) && c.hasNormalRoute && s.route != []
    requires NoEvent(c, s, IndexOf(s.pool, origin), inp) && Usable(c, s, QueueOf(s, origin)) != []
    ensures var r := Next(c, s, origin, inp);
            && Known(r.state, origin) && r.state.route == s.route
            && r.result.Go?
            && Usable(c, s, QueueOf(s, origin)) == [r.result.location] + Usable(c, r.state, QueueOf(r.state, origin))
  {
    var k, queue, r := IndexOf(s.pool, origin), QueueOf(s, origin), Next(c, s, origin, inp);
    QueueServedInOrder(c, s, origin, inp);
    OriginsServed(c, s, k, r);
    KnownIndex(s, origin);
    hide *;
    StillKnown(s, r.state, origin);
    var i := ServedAt(c, s, k, r);
    UsableFrom(c, s, queue, i);
    UsableLooksAt(c, s, r.state, queue[i + 1..]);
    QueueAt(s, origin);
    QueueAt(r.state, origin);
  }

  lemma QueueAt(s: State, origin: string)
    requires Known(s, origin)
    ensures HasOrigin(s.pool, origin) && QueueOf(s, origin) == s.pool[IndexOf(s.pool, origin)].queue
  {}

  /** Undisturbed calls walk through the queue: they return what is to be visited, in its order. */
  lemma {:induction false} WalksThroughQueue(c: Config, s: State, origin: string, inps: seq<Inputs>)
    requires Known(s, origin) && c.hasNormalRoute && s.route != [] && NoEvents(c, s, origin, inps)
    requires |inps| <= |Usable(c, s, QueueOf(s, origin))|
    ensures forall j :: 0 <= j < |inps| ==> Results(c, s, origin, inps)[j] == Go(Usable(c, s, QueueOf(s, origin))[j])
    decreases |inps|
  {
    if inps != [] {
      KnownIndex(s, origin);
      hide *;
      CallsUnfold(c, s, origin, inps);
      CallTakesFirst(c, s, origin, inps[0]);
      var s1 := Next(c, s, origin, inps[0]).state;
      WalksThroughQueue(c, s1, origin, inps[1..]);
      var outs, queued := Results(c, s, origin, inps), Usable(c, s, QueueOf(s, origin));
      var outs1, queued1 := Results(c, s1, origin, inps[1..]), Usable(c, s1, QueueOf(s1, origin));
      forall j | 0 <= j < |inps| ensures outs[j] == Go(queued[j]) {
        if j > 0 {
          assert outs[j] == outs1[j - 1] && queued[j] == queued1[j - 1];
        }
      }
    }
  }

  lemma {:induction false} UsableSnoc(c: Config, s: State, queue: seq<Location>, loc: Location)
    ensures Usable(c, s, queue + [loc]) == Usable(c, s, queue) + if ToVisit(c, s, loc) then [loc] else []
  {
    if queue == [] {
      assert (queue + [loc])[1..] == [];
    } else {
      assert (queue + [loc])[1..] == queue[1..] + [loc];
      UsableSnoc(c, s, queue[1..], loc);
    }
  }

  /** A stop redone comes after everything else that is queued, and then it does come. */
  lemma RedoneComesLast(c: Config, s: State, origin: string, loc: Location, inps: seq<Inputs>)
    requires Known(s, origin) && c.hasNormalRoute && s.route != [] && ToVisit(c, s, loc)
    requires NoEvents(c, Redo(c, s, origin, loc), origin, inps)
    requires |inps| == |Usable(c, s, QueueOf(s, origin))| + 1
    ensures var before, outs := Usable(c, s, QueueOf(s, origin)),
                                Results(c, Redo(c, s, origin, loc), origin, inps);
            && (forall j :: 0 <= j < |before| ==> outs[j] == Go(before[j]))
            && outs[|before|] == Go(loc)
  {
    var k, s' := IndexOf(s.pool, origin), Redo(c, s, origin, loc);
    IndexKept(s.pool, s'.pool, origin);
    assert s'.pool[k].queue == s.pool[k].queue + [loc];
    UsableSnoc(c, s, s.pool[k].queue, loc);
    UsableLooksAt(c, s, s', s'.pool[k].queue);
    hide NoEvents;
    WalksThroughQueue(c, s', origin, inps);
    hide *;
  }

  /** In the round it comes last as well, where coordinates leave the round when they are handed out. */
  lemma RedoneLastInRound(c: Config, s: State, origin: string, loc: Location)
    ensures var s' := Redo(c, s, origin, loc);
            CoordsToUse(s'.round, s.ignored)
              == CoordsToUse(s.round, s.ignored) + if c.deleteAfterFetch && loc !in s.ignored then [loc] else []
  {
    CoordsToUseInOrder(s.round, [loc], s.ignored);
    hide CoordsToUse;
  }
}
