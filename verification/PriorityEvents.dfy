/** Priority events are neither lost nor duplicated while one call pops them, and they only move
    to a worker that is closer. */
module PriorityEvents {
  import opened SubrouteAllocation
  import opened Wrappers
  import opened RouteSteps

  function Events(passed: seq<Handover>): seq<Location> {
    if passed == [] then [] else [passed[0].event] + Events(passed[1..])
  }

  function Workers(passed: seq<Handover>): set<nat> {
    set i | 0 <= i < |passed| :: passed[i].worker
  }

  function Chosen(r: Served): multiset<Location> {
    if r.chosen.Some? then multiset{r.chosen.value} else multiset{}
  }

  /** Worker `w` takes `event` from worker `k`: its slot was empty, it is strictly closer than
      `k`, and nobody whose slot is still empty is closer than it, or as close and before it in the pool. */
  ghost predicate RightfulTaker(pool: Pool, event: Location, k: nat, w: nat, taken: set<nat>, dist: Metric)
    requires k < |pool|
  {
    && w < |pool| && w != k && w !in taken
    && pool[w].prioCoord.None?
    && dist(pool[w].currentPos, event) < dist(pool[k].currentPos, event)
    && forall i :: 0 <= i < |pool| && i != k && i !in taken && pool[i].prioCoord.None?
         ==> dist(pool[w].currentPos, event) <= dist(pool[i].currentPos, event)
             && (i < w ==> dist(pool[w].currentPos, event) < dist(pool[i].currentPos, event))
  }

  /** Every handover, in order, goes to the rightful taker among the slots still empty. */
  ghost predicate RightfulHandovers(pool: Pool, k: nat, passed: seq<Handover>, dist: Metric)
    requires k < |pool|
  {
    forall m :: 0 <= m < |passed| ==>
      RightfulTaker(pool, passed[m].event, k, passed[m].worker, Workers(passed[..m]), dist)
  }

  /** Which slots changed: exactly those of the takers, each now holding its event. */
  ghost predicate SlotsFilled(before: Pool, after: Pool, passed: seq<Handover>) {
    && |before| == |after|
    && (forall i :: 0 <= i < |before| && i !in Workers(passed) ==> after[i] == before[i])
    && (forall m :: 0 <= m < |passed| ==>
          passed[m].worker < |before|
          && after[passed[m].worker] == before[passed[m].worker].(prioCoord := Some(passed[m].event)))
  }

  /** `due` consists of the rejected, the handed over, the kept and the left events. */
  ghost predicate Accounted(due: seq<Location>, r: Served) {
    multiset(due) == multiset(r.rejected) + multiset(Events(r.passed)) + Chosen(r) + multiset(r.left)
  }

  lemma AccountRejected(event: Location, rest: seq<Location>, r: Served)
    requires Accounted(rest, r)
    ensures Accounted([event] + rest, r.(rejected := [event] + r.rejected))
  {}

  lemma AccountPassed(h: Handover, rest: seq<Location>, r: Served)
    requires Accounted(rest, r)
    ensures Accounted([h.event] + rest, r.(passed := [h] + r.passed))
  {
    assert ([h] + r.passed)[1..] == r.passed;
  }

  lemma {:induction false} EventsAccounted(c: Config, s: State, k: nat, due: seq<Location>)
    requires k < |s.pool|
    ensures Accounted(due, ServePrio(c, s, k, due))
    decreases |due|
  {
    if due != [] {
      var event, rest := due[0], due[1..];
      assert due == [event] + rest;
      if c.canPassPrio {
        if !ToVisit(c, s, event) {
          EventsAccounted(c, s, k, rest);
          AccountRejected(event, rest, ServePrio(c, s, k, rest));
        } else {
          var s1 := Visit(c, s, event);
          var best := CloserWorker(s1.pool, event, k, c.dist);
          if best.Some? {
            var s2 := SetEntry(s1, best.value, s1.pool[best.value].(prioCoord := Some(event)));
            EventsAccounted(c, s2, k, rest);
            AccountPassed(Handover(event, best.value), rest, ServePrio(c, s2, k, rest));
          }
        }
      }
    }
  }

  /** Only events that fail the coordinate check are rejected, none that fails it is kept, and
      popping goes on until an event is kept or none is due. */
  lemma {:induction false} EventsJudged(c: Config, s: State, k: nat, due: seq<Location>)
    requires k < |s.pool|
    ensures var r := ServePrio(c, s, k, due);
            && (forall e :: e in r.rejected ==> !ToVisit(c, s, e))
            && (r.chosen.Some? && c.canPassPrio ==> ToVisit(c, s, r.chosen.value))
            && (r.chosen.None? ==> r.left == [])
    decreases |due|
  {
    if due != [] && c.canPassPrio {
      var event, rest := due[0], due[1..];
      if !ToVisit(c, s, event) {
        EventsJudged(c, s, k, rest);
      } else {
        var s1 := Visit(c, s, event);
        var best := CloserWorker(s1.pool, event, k, c.dist);
        if best.Some? {
          EventsJudged(c, SetEntry(s1, best.value, s1.pool[best.value].(prioCoord := Some(event))), k, rest);
        }
      }
    }
  }

  lemma {:induction false} HandoversRightful(c: Config, s: State, k: nat, due: seq<Location>)
    requires k < |s.pool|
    ensures var r := ServePrio(c, s, k, due);
            RightfulHandovers(s.pool, k, r.passed, c.dist) && SlotsFilled(s.pool, r.state.pool, r.passed)
    decreases |due|
  {
    if due != [] && c.canPassPrio {
      var event, rest := due[0], due[1..];
      if !ToVisit(c, s, event) {
        HandoversRightful(c, s, k, rest);
      } else {
        var s1 := Visit(c, s, event);
        var best := CloserWorker(s1.pool, event, k, c.dist);
        if best.Some? {
          var w := best.value;
          var s2 := SetEntry(s1, w, s1.pool[w].(prioCoord := Some(event)));
          HandoversRightful(c, s2, k, rest);
          var r2 := ServePrio(c, s2, k, rest);
          PrependHandover(s.pool, s2.pool, k, Handover(event, w), r2.passed, r2.state.pool, c.dist);
        }
      }
    }
  }

  /** One call conserves the events it pops: each is rejected by the coordinate check, handed to
      one rightful other worker whose slot was empty, or kept, and events are only left when one
      was kept. No pending slot is overwritten, as takers had none. */
  lemma PrioEventsConserved(c: Config, s: State, k: nat, due: seq<Location>)
    requires k < |s.pool|
    ensures var r := ServePrio(c, s, k, due);
            && Accounted(due, r)
            && (forall e :: e in r.rejected ==> !ToVisit(c, s, e))
            && (r.chosen.Some? && c.canPassPrio ==> ToVisit(c, s, r.chosen.value))
            && (r.chosen.None? ==> r.left == [])
            && RightfulHandovers(s.pool, k, r.passed, c.dist)
            && SlotsFilled(s.pool, r.state.pool, r.passed)
            && (forall i :: 0 <= i < |s.pool| && s.pool[i].prioCoord.Some? ==> r.state.pool[i] == s.pool[i])
  {
    EventsAccounted(c, s, k, due);
    EventsJudged(c, s, k, due);
    HandoversRightful(c, s, k, due);
    var r := ServePrio(c, s, k, due);
    forall i | 0 <= i < |s.pool| && s.pool[i].prioCoord.Some? ensures i !in Workers(r.passed) {
      forall m | 0 <= m < |r.passed| ensures r.passed[m].worker != i {
        assert RightfulTaker(s.pool, r.passed[m].event, k, r.passed[m].worker, Workers(r.passed[..m]), c.dist);
      }
    }
  }

  lemma FirstTaker(pool: Pool, k: nat, h: Handover, dist: Metric)
    requires k < |pool| && CloserWorker(pool, h.event, k, dist) == Some(h.worker)
    ensures RightfulTaker(pool, h.event, k, h.worker, Workers([]), dist)
    ensures pool[k].lastPositionType != PRIOQ
  {
    BestOtherMeaning(pool, h.event, k, |pool|, dist);
  }

  /** The slot of the first taker is full, so it takes nothing later. */
  lemma TakerIsFull(pool2: Pool, k: nat, worker: nat, passed: seq<Handover>, dist: Metric)
    requires k < |pool2| && worker < |pool2| && pool2[worker].prioCoord.Some?
    requires RightfulHandovers(pool2, k, passed, dist)
    ensures worker !in Workers(passed)
  {
    forall m | 0 <= m < |passed| ensures passed[m].worker != worker {
      assert RightfulTaker(pool2, passed[m].event, k, passed[m].worker, Workers(passed[..m]), dist);
    }
  }

  /** Adding the first handover in front of those made after it. */
  lemma PrependHandover(pool: Pool, pool2: Pool, k: nat, h: Handover, passed: seq<Handover>, final: Pool, dist: Metric)
    requires k < |pool| && h.worker < |pool| && pool2 == pool[h.worker := pool[h.worker].(prioCoord := Some(h.event))]
    requires CloserWorker(pool, h.event, k, dist) == Some(h.worker)
    requires RightfulHandovers(pool2, k, passed, dist) && SlotsFilled(pool2, final, passed)
    ensures RightfulHandovers(pool, k, [h] + passed, dist) && SlotsFilled(pool, final, [h] + passed)
  {
    hide CloserWorker;
    FirstTaker(pool, k, h, dist);
    TakerIsFull(pool2, k, h.worker, passed, dist);
    PrependFilled(pool, pool2, h, passed, final);
    hide SlotsFilled;
    hide Workers;
    hide RightfulTaker;
    var all := [h] + passed;
    forall m | 0 <= m < |all|
      ensures RightfulTaker(pool, all[m].event, k, all[m].worker, Workers(all[..m]), dist)
    {
      if m == 0 {
        assert all[..0] == [];
      } else {
        assert RightfulTaker(pool2, passed[m - 1].event, k, passed[m - 1].worker, Workers(passed[..m - 1]), dist);
        assert all[..m] == [h] + passed[..m - 1];
        WorkersPrepend(h, passed[..m - 1]);
        LaterTaker(pool, pool2, k, h, passed[m - 1], Workers(passed[..m - 1]), dist);
      }
    }
  }

  /** Who takes an event after the first taker takes it rightfully, the first taker's slot being full. */
  lemma LaterTaker(pool: Pool, pool2: Pool, k: nat, h: Handover, later: Handover, between: set<nat>, dist: Metric)
    requires k < |pool| && h.worker < |pool| && pool2 == pool[h.worker := pool[h.worker].(prioCoord := Some(h.event))]
    requires RightfulTaker(pool2, later.event, k, later.worker, between, dist)
    ensures RightfulTaker(pool, later.event, k, later.worker, {h.worker} + between, dist)
  {}

  lemma PrependFilled(pool: Pool, pool2: Pool, h: Handover, passed: seq<Handover>, final: Pool)
    requires h.worker < |pool| && pool2 == pool[h.worker := pool[h.worker].(prioCoord := Some(h.event))]
    requires SlotsFilled(pool2, final, passed) && h.worker !in Workers(passed)
    ensures SlotsFilled(pool, final, [h] + passed)
  {
    var all := [h] + passed;
    WorkersPrepend(h, passed);
    forall m | 0 <= m < |all|
      ensures all[m].worker < |pool|
      ensures final[all[m].worker] == pool[all[m].worker].(prioCoord := Some(all[m].event))
    {
      if m > 0 {
        assert all[m] == passed[m - 1];
        assert passed[m - 1].worker in Workers(passed);
      }
    }
  }

  lemma WorkersPrepend(h: Handover, passed: seq<Handover>)
    ensures Workers([h] + passed) == {h.worker} + Workers(passed)
  {
    var all := [h] + passed;
    forall w | w in {h.worker} + Workers(passed) ensures w in Workers(all) {
      if w == h.worker {
        assert all[0].worker == w;
      } else {
        var i :| 0 <= i < |passed| && passed[i].worker == w;
        assert all[i + 1].worker == w;
      }
    }
  }

  /** An event kept although it may be passed on has no rightful taker left, unless the caller
      came from a priority event itself. */
  lemma {:induction false} KeptOnlyWhenClosest(c: Config, s: State, k: nat, due: seq<Location>)
    requires k < |s.pool| && c.canPassPrio && s.pool[k].lastPositionType != PRIOQ
    ensures var r := ServePrio(c, s, k, due);
            r.chosen.Some? ==>
              forall i :: 0 <= i < |s.pool| && i != k && s.pool[i].prioCoord.None? && i !in Workers(r.passed)
                ==> c.dist(s.pool[k].currentPos, r.chosen.value) <= c.dist(s.pool[i].currentPos, r.chosen.value)
    decreases |due|
  {
    hide BestOther;
    hide ToVisit;
    if due != [] {
      var event, rest := due[0], due[1..];
      if !ToVisit(c, s, event) {
        KeptOnlyWhenClosest(c, s, k, rest);
      } else {
        var s1 := Visit(c, s, event);
        var best := CloserWorker(s1.pool, event, k, c.dist);
        BestOtherMeaning(s1.pool, event, k, |s1.pool|, c.dist);
        if best.Some? {
          var w := best.value;
          var s2 := SetEntry(s1, w, s1.pool[w].(prioCoord := Some(event)));
          KeptOnlyWhenClosest(c, s2, k, rest);
          var r2 := ServePrio(c, s2, k, rest);
          WorkersPrepend(Handover(event, w), r2.passed);
          forall i | && 0 <= i < |s.pool| && i != k && s.pool[i].prioCoord.None?
                     && i !in Workers([Handover(event, w)] + r2.passed)
            ensures s2.pool[i].prioCoord.None? {}
        }
      }
    }
  }
}
