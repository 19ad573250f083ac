/** The round counter of a route manager follows the median of its workers' rounds upwards: it moves
    when at least half of the workers have run through that many subroutes, and it never moves back.
    A subroute run through counts for the worker that did it, whatever becomes of the pool
    meanwhile. */
module RoundCounting {
  import opened Sorting
  import opened SubrouteAllocation
  import opened Wrappers
  import opened RouteSteps
  import opened RouteCalls
  import opened PriorityEvents
  import opened HandOuts

  /** How many of `xs` have the property. */
  function CountIf(xs: seq<nat>, p: nat -> bool): nat {
    if xs == [] then 0 else (if p(xs[0]) then 1 else 0) + CountIf(xs[1..], p)
  }

  lemma {:induction false} CountIfInsert(x: nat, xs: seq<nat>, p: nat -> bool)
    ensures CountIf(InsertBy(x, xs, AsReal), p) == CountIf([x] + xs, p)
  {
    assert ([x] + xs)[1..] == xs;
    if xs != [] && AsReal(x) > AsReal(xs[0]) {
      CountIfInsert(x, xs[1..], p);
      var rest := InsertBy(x, xs[1..], AsReal);
      assert ([xs[0]] + rest)[1..] == rest;
      assert ([x] + xs[1..])[1..] == xs[1..];
    }
  }

  lemma {:induction false} CountIfSorted(xs: seq<nat>, p: nat -> bool)
    ensures CountIf(SortBy(xs, AsReal), p) == CountIf(xs, p)
  {
    if xs != [] {
      CountIfSorted(xs[1..], p);
      var sorted := SortBy(xs[1..], AsReal);
      CountIfInsert(xs[0], sorted, p);
      assert ([xs[0]] + sorted)[1..] == sorted;
    }
  }

  lemma {:induction false} CountIfRange(xs: seq<nat>, p: nat -> bool, from: nat, to: nat)
    requires from <= to <= |xs| && forall i :: from <= i < to ==> p(xs[i])
    ensures CountIf(xs, p) >= to - from
    decreases |xs|
  {
    if xs != [] && from < to {
      CountIfRange(xs[1..], p, if from == 0 then 0 else from - 1, to - 1);
    }
  }

  function Reaches(m: real): nat -> bool { x => x as real >= m }

  /** From the middle of the sorted data on every value reaches the median. */
  lemma UpperHalf(xs: seq<nat>)
    requires xs != []
    ensures |SortBy(xs, AsReal)| == |xs|
    ensures forall i :: |xs| / 2 <= i < |xs| ==> Median(xs) <= SortBy(xs, AsReal)[i] as real
  {
    MedianIs(xs);
    SortBySorted(xs, AsReal);
    hide SortBy;
    hide Median;
    var sorted, lo, hi := SortBy(xs, AsReal), (|xs| - 1) / 2, |xs| / 2;
    assert lo < hi ==> AsReal(sorted[lo]) <= AsReal(sorted[hi]);
    forall i | hi <= i < |xs| ensures Median(xs) <= sorted[i] as real {
      assert hi < i ==> AsReal(sorted[hi]) <= AsReal(sorted[i]);
    }
  }

  /** At least half of the data reach the median, and some value is no smaller. */
  lemma MedianReached(xs: seq<nat>)
    requires xs != []
    ensures 2 * CountIf(xs, Reaches(Median(xs))) >= |xs|
    ensures exists i :: 0 <= i < |xs| && Median(xs) <= xs[i] as real
  {
    hide SortBy;
    hide Median;
    hide CountIf;
    var sorted, m := SortBy(xs, AsReal), Median(xs);
    UpperHalf(xs);
    CountIfRange(sorted, Reaches(m), |xs| / 2, |xs|);
    CountIfSorted(xs, Reaches(m));
    SortByMember(xs, AsReal, sorted[|xs| / 2]);
    var i :| 0 <= i < |xs| && xs[i] == sorted[|xs| / 2];
  }

  function AtMost(m: nat): nat -> bool { x => x <= m }

  function AtLeast(m: nat): nat -> bool { x => x >= m }

  /** At least half of the data are no greater than `lo` and more than half no less, and the other way
      round for `hi`. */
  predicate InMiddle(xs: seq<nat>, lo: nat, hi: nat) {
    && lo in xs && hi in xs && lo <= hi
    && 2 * CountIf(xs, AtMost(lo)) >= |xs| && 2 * CountIf(xs, AtLeast(lo)) > |xs|
    && 2 * CountIf(xs, AtLeast(hi)) >= |xs| && 2 * CountIf(xs, AtMost(hi)) > |xs|
  }

  lemma MiddleCounts(xs: seq<nat>, sorted: seq<nat>, a: nat, b: nat)
    requires sorted == SortBy(xs, AsReal) && |xs| == |sorted| && sorted != []
    requires a == (|sorted| - 1) / 2 && b == |sorted| / 2
    requires forall i, j :: 0 <= i < j < |sorted| ==> sorted[i] <= sorted[j]
    ensures var n, lo, hi := |xs|, sorted[a], sorted[b];
            && 2 * CountIf(xs, AtMost(lo)) >= n && 2 * CountIf(xs, AtLeast(lo)) > n
            && 2 * CountIf(xs, AtLeast(hi)) >= n && 2 * CountIf(xs, AtMost(hi)) > n
  {
    hide CountIf;
    hide SortBy;
    var lo, hi := sorted[a], sorted[b];
    CountIfRange(sorted, AtMost(lo), 0, a + 1);
    CountIfRange(sorted, AtLeast(lo), a, |sorted|);
    CountIfRange(sorted, AtLeast(hi), b, |sorted|);
    CountIfRange(sorted, AtMost(hi), 0, b + 1);
    CountIfSorted(xs, AtMost(lo));
    CountIfSorted(xs, AtLeast(lo));
    CountIfSorted(xs, AtLeast(hi));
    CountIfSorted(xs, AtMost(hi));
  }

  /** The median in terms of the sorted data. */
  lemma MedianIs(xs: seq<nat>)
    requires xs != []
    ensures var sorted := SortBy(xs, AsReal);
            && |sorted| == |xs|
            && Median(xs) == (sorted[(|xs| - 1) / 2] + sorted[|xs| / 2]) as real / 2.0
  {
    SortByMultiset(xs, AsReal);
    hide SortBy;
  }

  /** The median lies halfway between the two values in the middle of the data; one value may be both. */
  lemma MedianMeaning(xs: seq<nat>)
    requires xs != []
    ensures exists lo, hi :: InMiddle(xs, lo, hi) && Median(xs) == (lo + hi) as real / 2.0
  {
    var sorted := SortBy(xs, AsReal);
    MedianIs(xs);
    SortBySorted(xs, AsReal);
    hide SortBy;
    hide Median;
    hide CountIf;
    var n := |sorted|;
    var a, b := (n - 1) / 2, n / 2;
    var lo, hi := sorted[a], sorted[b];
    forall i, j | 0 <= i < j < n ensures sorted[i] <= sorted[j] {
      assert AsReal(sorted[i]) <= AsReal(sorted[j]);
    }
    MiddleCounts(xs, sorted, a, b);
    SortByMember(xs, AsReal, lo);
    SortByMember(xs, AsReal, hi);
    assert InMiddle(xs, lo, hi);
  }

  /** When the counter advances, at least half of the pool has run that many rounds. */
  lemma AdvanceReached(s: State)
    ensures Advance(s).roundcount >= s.roundcount && Advance(s).roundcount >= Median(Rounds(s.pool))
    ensures Advance(s).roundcount > s.roundcount ==> Advance(s).roundcount == Median(Rounds(s.pool))
    ensures Advance(s).roundcount > s.roundcount >= 0.0 ==>
              && 2 * CountIf(Rounds(s.pool), Reaches(Advance(s).roundcount)) >= |s.pool|
              && exists e :: e in s.pool && Advance(s).roundcount <= e.rounds as real
  {
    if s.pool != [] {
      var xs := Rounds(s.pool);
      MedianReached(xs);
      var i :| 0 <= i < |xs| && Median(xs) <= xs[i] as real;
      assert s.pool[i] in s.pool && s.pool[i].rounds == xs[i];
    } else {
      assert Rounds(s.pool) == [] && SortBy(Rounds(s.pool), AsReal) == [];
    }
  }

  /** A subroute finished counts one round for its worker and none for the others, as far as they are still in
      the pool, and the worker stands where it was sent. */
  lemma FinishCountsRound(c: Config, s: State, k: nat, inp: Inputs)
    requires UniqueOrigins(s.pool) && k < |s.pool|
    ensures var r, origin := Finish(c, s, k, inp), s.pool[k].origin;
            && (forall e :: e in r.state.pool ==> exists i :: 0 <= i < |s.pool| && CountsOn(s, k, i, e))
            && (r.result.Go? ==>
                  HasOrigin(r.state.pool, origin)
                  && r.state.pool[IndexOf(r.state.pool, origin)].currentPos == r.result.location)
  {
    var s1 := SetEntry(s, k, s.pool[k].(rounds := s.pool[k].rounds + 1));
    var s2 := if c.questMode then CalculateRoute(c, s1, true, inp).state else s1;
    assert CountsFrom(s, k, s1.pool) by {
      forall e | e in s1.pool ensures exists i :: 0 <= i < |s.pool| && CountsOn(s, k, i, e) {
        var i :| 0 <= i < |s1.pool| && s1.pool[i] == e;
        assert CountsOn(s, k, i, e);
      }
    }
    assert CountsFrom(s, k, s2.pool) by {
      UpdateCounts(c, s, k, s1.(stoplist := if c.questMode then inp.dbStops else s1.stoplist,
                                route := inp.newRoute, round := inp.newRoute));
      hide Update;
      hide CountsFrom;
      hide CoordsToUse;
    }
    UpdateCounts(c, s, k, s2);
    FinishFrom(c, s, k, inp, s1, s2);
    var u, r := Update(c, s2), Finish(c, s, k, inp);
    if r.result.Go? {
      PositionCounts(s, k, Visit(c, u.state, r.result.location), s.pool[k].origin, r.result.location);
    }
    hide Finish;
    hide Update;
    hide SetPosition;
    hide CoordsToUse;
  }

  /** Entry `e` is that of worker `i`, with one round more if it is worker `k`. */
  predicate CountsOn(s: State, k: nat, i: int, e: Entry)
    requires 0 <= i < |s.pool|
  {
    e.origin == s.pool[i].origin && e.rounds == s.pool[i].rounds + if i == k then 1 else 0
  }

  ghost predicate CountsFrom(s: State, k: nat, pool: Pool) {
    forall e :: e in pool ==> exists i :: 0 <= i < |s.pool| && CountsOn(s, k, i, e)
  }

  lemma UpdateCounts(c: Config, s: State, k: nat, t: State)
    requires CountsFrom(s, k, t.pool)
    ensures CountsFrom(s, k, Update(c, t).state.pool)
  {
    if Update(c, t).state != t {
      var base, extra := UpdateForm(c, t);
      hide Update;
      hide CoordsToUse;
      hide Repopulated;
      hide Kept;
      hide QueueAfter;
      var coords := CoordsToUse(t.round, t.ignored);
      KeptFromPool(t.pool, |coords|);
      var kept, u := Kept(t.pool, |coords|), Update(c, t).state.pool;
      RepopulatedKeeps(kept, coords, base, extra, c.dist);
      SameRoundsCount(s, k, kept, u);
    }
  }

  lemma SameRoundsCount(s: State, k: nat, kept: Pool, u: Pool)
    requires |u| == |kept|
    requires forall j :: 0 <= j < |u| ==> u[j].origin == kept[j].origin && u[j].rounds == kept[j].rounds
    requires CountsFrom(s, k, kept)
    ensures CountsFrom(s, k, u)
  {
    forall e | e in u ensures exists i :: 0 <= i < |s.pool| && CountsOn(s, k, i, e) {
      var j :| 0 <= j < |u| && u[j] == e;
      assert kept[j] in kept;
      var i :| 0 <= i < |s.pool| && CountsOn(s, k, i, kept[j]);
      assert CountsOn(s, k, i, e);
    }
  }

  lemma FinishFrom(c: Config, s: State, k: nat, inp: Inputs, s1: State, s2: State)
    requires k < |s.pool| && s1 == SetEntry(s, k, s.pool[k].(rounds := s.pool[k].rounds + 1))
    requires s2 == if c.questMode then CalculateRoute(c, s1, true, inp).state else s1
    ensures var r, u, origin := Finish(c, s, k, inp), Update(c, s2), s.pool[k].origin;
            || (r.result == NoLocation && (r.state == s1.(isStarted := false) || r.state == u.state))
            || (r.result.Go? && HasOrigin(u.state.pool, origin)
                && r.state == SetPosition(Visit(c, u.state, r.result.location), origin, r.result.location))
  {
    hide Update;
    hide CoordsToUse;
    hide Take;
    hide SetPosition;
    hide Visit;
  }

  lemma PositionCounts(s: State, k: nat, v: State, origin: string, pos: Location)
    requires CountsFrom(s, k, v.pool) && HasOrigin(v.pool, origin)
    ensures var p := SetPosition(v, origin, pos).pool;
            && CountsFrom(s, k, p) && HasOrigin(p, origin) && p[IndexOf(p, origin)].currentPos == pos
  {
    var p, j := SetPosition(v, origin, pos).pool, IndexOf(v.pool, origin);
    forall e | e in p ensures exists i :: 0 <= i < |s.pool| && CountsOn(s, k, i, e) {
      var m :| 0 <= m < |p| && p[m] == e;
      assert v.pool[m] in v.pool;
      var i :| 0 <= i < |s.pool| && CountsOn(s, k, i, v.pool[m]);
      assert CountsOn(s, k, i, e);
    }
    IndexKept(v.pool, p, origin);
  }

  predicate RoundsWithin(pool: Pool, b: nat) {
    forall i :: 0 <= i < |pool| ==> pool[i].rounds <= b
  }

  /** The counter may follow the pool: it is at most `m`, and nobody ran more than m rounds. */
  predicate Counted(s: State, b: nat, m: real) {
    0.0 <= s.roundcount <= m && b as real <= m && RoundsWithin(s.pool, b)
  }

  /** The counter moved upwards within `m`, and nobody gained more than one round. */
  predicate Progress(s: State, s': State, b: nat, m: real) {
    s.roundcount <= s'.roundcount <= m && RoundsWithin(s'.pool, b + 1)
  }

  lemma AdvanceCounted(s: State, b: nat, m: real)
    requires Counted(s, b, m)
    ensures Counted(Advance(s), b, m) && Advance(s).roundcount >= s.roundcount
  {
    AdvanceReached(s);
  }

  lemma UpdateRounds(c: Config, s: State, b: nat)
    requires RoundsWithin(s.pool, b)
    ensures RoundsWithin(Update(c, s).state.pool, b) && Update(c, s).state.roundcount == s.roundcount
  {
    if Update(c, s).state != s {
      var base, extra := UpdateForm(c, s);
      KeptFromPool(s.pool, |CoordsToUse(s.round, s.ignored)|);
      RepopulatedRounds(Kept(s.pool, |CoordsToUse(s.round, s.ignored)|),
                        CoordsToUse(s.round, s.ignored), base, extra, c.dist, b);
    }
  }

  /** An update that changes anything repopulates the kept part of the pool. */
  lemma UpdateForm(c: Config, s: State) returns (base: nat, extra: nat)
    requires Update(c, s).state != s
    ensures var coords := CoordsToUse(s.round, s.ignored);
            Update(c, s).state
              == s.(pool := Repopulated(Kept(s.pool, |coords|), coords, base, extra, c.dist))
  {
    if c.mayUpdate {
      base, extra := UpdatedPoolIs(s.pool, s.round, s.ignored, c.dist);
      hide UpdatedPool;
      hide Repopulated;
      hide CoordsToUse;
    }
  }

  lemma RepopulatedRounds(kept: Pool, coords: seq<Location>, base: nat, extra: nat, dist: Metric, b: nat)
    requires forall e :: e in kept ==> e.rounds <= b
    ensures RoundsWithin(Repopulated(kept, coords, base, extra, dist), b)
  {
    RepopulatedKeeps(kept, coords, base, extra, dist);
    forall i | 0 <= i < |kept| ensures kept[i].rounds <= b {
      assert kept[i] in kept;
    }
  }

  lemma KeptFromPool(pool: Pool, n: nat)
    ensures forall e :: e in Kept(pool, n) ==> e in pool
  {
    ByTimeLength(pool);
    forall e | e in Kept(pool, n) ensures e in pool {
      SortByMember(pool, TimeAdded, e);
    }
  }

  lemma ServeRounds(c: Config, s: State, k: nat, due: seq<Location>, b: nat)
    requires RoundsWithin(s.pool, b) && k < |s.pool|
    ensures RoundsWithin(ServePrio(c, s, k, due).state.pool, b)
  {
    HandoversRightful(c, s, k, due);
    var r := ServePrio(c, s, k, due);
    forall i | 0 <= i < |s.pool| ensures r.state.pool[i].rounds == s.pool[i].rounds {
      if i in Workers(r.passed) {
        var m :| 0 <= m < |r.passed| && r.passed[m].worker == i;
        assert r.state.pool[r.passed[m].worker] == s.pool[r.passed[m].worker].(prioCoord := Some(r.passed[m].event));
      }
    }
  }

  /** One call: the counter does not fall and stays within reach of the rounds run before it. */
  lemma NextCounted(c: Config, s: State, origin: string, inp: Inputs, b: nat, m: real)
    requires Counted(s, b, m)
    ensures Progress(s, Next(c, s, origin, inp).state, b, m)
  {
    if origin in s.registered {
      var started := if s.isStarted then Updated(s, true) else Start(c, s, inp);
      CalculateRounds(c, s.(isStarted := true), true, inp, b);
      CalculateRounds(c, s.(isStarted := true, ignored := {}), false, inp, b);
      if started.ok {
        NextStartedCounted(c, started.state, origin, inp, b, m);
      }
    }
  }

  lemma CalculateRounds(c: Config, s: State, dynamic: bool, inp: Inputs, b: nat)
    requires RoundsWithin(s.pool, b)
    ensures var s' := CalculateRoute(c, s, dynamic, inp).state;
            RoundsWithin(s'.pool, b) && s'.roundcount == s.roundcount
  {
    var s1 := if c.questMode then s.(stoplist := inp.dbStops) else s;
    UpdateRounds(c, s1.(route := inp.newRoute, round := inp.newRoute), b);
  }

  lemma NextStartedCounted(c: Config, s: State, origin: string, inp: Inputs, b: nat, m: real)
    requires Counted(s, b, m)
    ensures Progress(s, NextStarted(c, s, origin, inp).state, b, m)
  {
    var k := IndexOf(s.pool, origin);
    if k == |s.pool| {
      var joined := s.(pool := s.pool + [NewEntry(s, origin, inp.now)]);
      UpdateRounds(c, joined, b);
      var u := Update(c, joined);
      if u.ok && HasOrigin(u.state.pool, origin) {
        ContinueCounted(c, u.state, IndexOf(u.state.pool, origin), inp, b, m);
      }
    } else if !(s.pool[k].prioCoord.Some? && c.canPassPrio) {
      ContinueCounted(c, s, k, inp, b, m);
    }
  }

  lemma ContinueCounted(c: Config, s: State, k: nat, inp: Inputs, b: nat, m: real)
    requires Counted(s, b, m) && k < |s.pool|
    ensures Progress(s, Continue(c, s, k, inp).state, b, m)
  {
    ServeRounds(c, s, k, inp.due, b);
    NormalCounted(c, ServePrio(c, s, k, inp.due).state, k, inp, b, m);
    NormalCounted(c, s, k, inp, b, m);
  }

  lemma NormalCounted(c: Config, s: State, k: nat, inp: Inputs, b: nat, m: real)
    requires Counted(s, b, m) && k < |s.pool|
    ensures Progress(s, Normal(c, s, k, inp).state, b, m)
  {
    var s1 := SetEntry(s, k, s.pool[k].(lastPositionType := NORMAL));
    var s2 := Advance(s1);
    AdvanceCounted(s1, b, m);
    FinishRounds(c, s2, k, inp, b);
    HandRounds(c, s2, k, b);
    var r := Normal(c, s, k, inp);
    assert r.state == s || r.state == s2 || r == Finish(c, s2, k, inp) || r == Hand(c, s2, k);
  }

  lemma HandRounds(c: Config, s: State, k: nat, b: nat)
    requires RoundsWithin(s.pool, b) && k < |s.pool|
    ensures var s' := Hand(c, s, k).state;
            s'.roundcount == s.roundcount && RoundsWithin(s'.pool, b)
  {}

  lemma VisitRounds(c: Config, s: State, loc: Location)
    ensures Visit(c, s, loc).pool == s.pool && Visit(c, s, loc).roundcount == s.roundcount
  {}

  lemma SetPositionRounds(s: State, origin: string, pos: Location, b: nat)
    requires RoundsWithin(s.pool, b)
    ensures var s' := SetPosition(s, origin, pos);
            s'.roundcount == s.roundcount && RoundsWithin(s'.pool, b)
  {}

  lemma FinishRounds(c: Config, s: State, k: nat, inp: Inputs, b: nat)
    requires RoundsWithin(s.pool, b) && k < |s.pool|
    ensures var s' := Finish(c, s, k, inp).state;
            s'.roundcount == s.roundcount && RoundsWithin(s'.pool, b + 1)
  {
    hide CoordsToUse;
    hide UpdatedPool;
    hide Take;
    hide SetPosition;
    hide Visit;
    var s1 := SetEntry(s, k, s.pool[k].(rounds := s.pool[k].rounds + 1));
    CalculateRounds(c, s1, true, inp, b + 1);
    var s2 := if c.questMode then CalculateRoute(c, s1, true, inp).state else s1;
    UpdateRounds(c, s2, b + 1);
    var u := Update(c, s2).state;
    var r := Finish(c, s, k, inp);
    if r.result.Go? {
      VisitRounds(c, u, r.result.location);
      SetPositionRounds(Visit(c, u, r.result.location), s.pool[k].origin, r.result.location, b + 1);
      assert r.state == SetPosition(Visit(c, u, r.result.location), s.pool[k].origin, r.result.location);
    } else {
      assert r.state == u || r.state == s1.(isStarted := false);
    }
  }

  lemma LeaveRounds(c: Config, s: State, origin: string, b: nat)
    requires RoundsWithin(s.pool, b)
    ensures var s' := Unregister(c, s, origin);
            s'.roundcount == s.roundcount && RoundsWithin(s'.pool, b)
  {
    var s1 := Removed(s, origin);
    assert RoundsWithin(s1.pool, b) && s1.roundcount == s.roundcount by {
      hide IndexOf;
    }
    UnregisterShape(c, s, origin);
    hide Unregister;
    hide Removed;
    hide Update;
    UpdateRounds(c, s1, b);
  }

  // ---------------------------------------------------------------- whole runs

  lemma ActCounted(c: Config, s: State, a: Action, b: nat, m: real)
    requires Counted(s, b, m)
    ensures Progress(s, Act(c, s, a).state, b, m)
  {
    match a
    case Get(origin, inp) => NextCounted(c, s, origin, inp, b, m);
    case Leave(origin) => LeaveRounds(c, s, origin, b);
    case RefreshPool => UpdateRounds(c, s, b);
    case _ =>
  }

  function MaxRounds(pool: Pool): (b: nat)
    ensures RoundsWithin(pool, b)
    ensures b > 0 ==> exists i :: 0 <= i < |pool| && pool[i].rounds == b
  {
    if pool == [] then 0
    else
      var rest := MaxRounds(pool[1..]);
      assert forall i :: 1 <= i < |pool| ==> pool[i] == pool[1..][i - 1];
      if pool[0].rounds > rest then pool[0].rounds else rest
  }

  /** The most rounds any worker had run in any state of the run before its last step. */
  function MostRounds(c: Config, s: State, run: seq<Action>): nat
    decreases |run|
  {
    if run == [] then 0
    else
      var later := MostRounds(c, Act(c, s, run[0]).state, run[1..]);
      if MaxRounds(s.pool) > later then MaxRounds(s.pool) else later
  }

  /** Over any run at all the counter never decreases and never exceeds what it was at the start
      or the most rounds that any worker reached. */
  lemma {:induction false} RoundcountOverRuns(c: Config, s: State, run: seq<Action>)
    requires s.roundcount >= 0.0
    ensures var last := FinalState(c, s, run).roundcount;
            s.roundcount <= last && (last <= s.roundcount || last <= MostRounds(c, s, run) as real)
    decreases |run|
  {
    if run != [] {
      var s1 := Act(c, s, run[0]).state;
      ActRoundcount(c, s, run[0]);
      RoundcountOverRuns(c, s1, run[1..]);
    }
  }

  lemma ActRoundcount(c: Config, s: State, a: Action)
    requires s.roundcount >= 0.0
    ensures var s' := Act(c, s, a).state;
            s.roundcount <= s'.roundcount
            && (s'.roundcount <= s.roundcount || s'.roundcount <= MaxRounds(s.pool) as real)
  {
    var b := MaxRounds(s.pool);
    ActCounted(c, s, a, b, if s.roundcount >= b as real then s.roundcount else b as real);
  }
}
