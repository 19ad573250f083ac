/** The login limiter of MappingManager: a sliding window over a sorted set that several
    processes share, changed under WATCH / MULTI / EXEC, with a key expiry of 24 hours. */
module LoginLimiter {

  const EXPIRY_SECONDS: int := 60 * 60 * 24

  /** A member `origin:second` of the sorted set; its score is the second. */
  datatype Login = Login(origin: string, second: int)

  /** Where one request stands. `now` is read once, before the retry loop. */
  datatype Phase =
    | Waiting(origin: string, now: int)
    | Watching(origin: string, now: int, version: nat)
    | Counted(origin: string, now: int, version: nat, count: nat)
    | Done(granted: bool)

  datatype Limits = Limits(window: nat, maxCount: int)

  /** `clock` is real time in seconds; `expiresAt` is when the key vanishes with all members.
      `granted` remembers every login the limiter registered, expired or not. */
  datatype State = State(
    clock: int,
    members: set<Login>,
    expiresAt: int,
    version: nat,
    requests: map<nat, Phase>,
    granted: set<Login>)

  datatype Action =
    | Tick(seconds: nat)
    | Expire(bumpsVersion: bool)
    | Enter(id: nat, origin: string)       // ip_handle_login_request is called
    | Watch(id: nat)                       // pipe.watch
    | Count(id: nat)                       // zcount
    | CountFails(id: nat)                  // zcount raises: deny
    | Decide(id: nat, increment: bool)     // compare, then EXEC or abort
    | Increment(origin: string, second: int) // increment_login_tracking_by_origin

  function InWindow(members: set<Login>, from: int): set<Login> {
    set m | m in members && m.second >= from
  }

  function Add(s: State, m: Login): State {
    s.(members := s.members + {m}, expiresAt := s.clock + EXPIRY_SECONDS, version := s.version + 1)
  }

  function SetPhase(s: State, id: nat, p: Phase): State { s.(requests := s.requests[id := p]) }

  /** One step; an action that is not enabled changes nothing. */
  function Step(l: Limits, s: State, a: Action): State {
    match a
    case Tick(seconds) => s.(clock := s.clock + seconds)
    case Expire(bumps) =>
      if s.clock >= s.expiresAt then
        s.(members := {}, version := if bumps then s.version + 1 else s.version)
      else s
    case Enter(id, origin) =>
      if id in s.requests then s else SetPhase(s, id, Waiting(origin, s.clock))
    case Watch(id) =>
      if id in s.requests && s.requests[id].Waiting? then
        SetPhase(s, id, Watching(s.requests[id].origin, s.requests[id].now, s.version))
      else s
    case Count(id) =>
      if id in s.requests && s.requests[id].Watching? then
        var p := s.requests[id];
        SetPhase(s, id, Counted(p.origin, p.now, p.version, |InWindow(s.members, p.now - l.window)|))
      else s
    case CountFails(id) =>
      if id in s.requests && s.requests[id].Watching? then SetPhase(s, id, Done(false)) else s
    case Decide(id, increment) =>
      if id in s.requests && s.requests[id].Counted? then
        var p := s.requests[id];
        if p.count >= l.maxCount then SetPhase(s, id, Done(false))
        else if !increment then SetPhase(s, id, Done(true))
        else if p.version != s.version then SetPhase(s, id, Waiting(p.origin, p.now))
        else
          var m := Login(p.origin, p.now);
          var s1 := Add(s, m);
          SetPhase(s1.(granted := s.granted + {m}), id, Done(true))
      else s
    case Increment(origin, second) => if second <= s.clock then Add(s, Login(origin, second)) else s
  }

  function Run(l: Limits, s: State, actions: seq<Action>): State
    decreases |actions|
  {
    if actions == [] then s else Run(l, Step(l, s, actions[0]), actions[1..])
  }

  function Init(clock: int): State { State(clock, {}, clock, 0, map[], {}) }

  /** Will this decision register the login of request `id`? */
  predicate Registers(l: Limits, s: State, a: Action) {
    && a.Decide? && a.increment
    && a.id in s.requests && s.requests[a.id].Counted?
    && s.requests[a.id].count < l.maxCount && s.requests[a.id].version == s.version
  }

  /** No request registers a login more than `staleness` seconds after it read the clock. */
  predicate Fresh(l: Limits, s: State, a: Action, staleness: nat) {
    Registers(l, s, a) ==> s.clock - s.requests[a.id].now <= staleness
  }

  predicate FreshRun(l: Limits, s: State, actions: seq<Action>, staleness: nat)
    decreases |actions|
  {
    actions != [] ==> Fresh(l, s, actions[0], staleness) && FreshRun(l, Step(l, s, actions[0]), actions[1..], staleness)
  }

  /** The granted logins of one window of `l.window` seconds ending at `t`. */
  function Window(l: Limits, granted: set<Login>, t: int): set<Login> {
    set m | m in granted && t - l.window <= m.second <= t
  }

  /** What the limiter is for. */
  ghost predicate WindowsBounded(l: Limits, granted: set<Login>) {
    forall t :: |Window(l, granted, t)| <= Most(l)
  }

  function Most(l: Limits): nat { if l.maxCount > 0 then l.maxCount else 0 }

  // ---------------------------------------------------------------- the invariant

  ghost predicate PhaseOk(l: Limits, s: State, p: Phase) {
    match p
    case Waiting(_, now) => now <= s.clock
    case Watching(_, now, version) => now <= s.clock && version <= s.version
    case Counted(_, now, version, count) =>
      now <= s.clock && version <= s.version
      && (version == s.version ==> |InWindow(s.members, now - l.window)| <= count)
    case Done(_) => true
  }

  /** A granted login is still a member, or so old that the key may have expired meanwhile. */
  ghost predicate Inv(l: Limits, s: State) {
    && (forall m :: m in s.members ==> m.second <= s.clock && m.second + EXPIRY_SECONDS <= s.expiresAt)
    && (forall m :: m in s.granted ==> m in s.members || m.second + EXPIRY_SECONDS <= s.clock)
    && (forall id :: id in s.requests ==> PhaseOk(l, s, s.requests[id]))
    && WindowsBounded(l, s.granted)
  }

  lemma SubsetCardinality(a: set<Login>, b: set<Login>)
    requires a <= b
    ensures |a| <= |b|
  {
    assert b == a + (b - a);
  }

  /** The granting step: of a window with the new login only counted members can be in it. */
  lemma GrantKeepsWindows(l: Limits, s: State, origin: string, now: int, count: nat, staleness: nat)
    requires Inv(l, s)
    requires l.window + staleness < EXPIRY_SECONDS
    requires now <= s.clock <= now + staleness
    requires |InWindow(s.members, now - l.window)| <= count < l.maxCount
    ensures WindowsBounded(l, s.granted + {Login(origin, now)})
  {
    var g := Login(origin, now);
    forall t ensures |Window(l, s.granted + {g}, t)| <= Most(l) {
      var before, after := Window(l, s.granted, t), Window(l, s.granted + {g}, t);
      if t - l.window <= now <= t {
        var counted := InWindow(s.members, now - l.window);
        forall m | m in before ensures m in counted {
          assert m in s.granted && m.second >= t - l.window >= now - l.window;
        }
        SubsetCardinality(before, counted);
        assert after <= before + {g};
        SubsetCardinality(after, before + {g});
        assert |before + {g}| <= |before| + 1;
      } else {
        assert after == before;
      }
    }
  }

  lemma StepKeepsInv(l: Limits, s: State, a: Action, staleness: nat)
    requires Inv(l, s) && Fresh(l, s, a, staleness)
    requires l.window + staleness < EXPIRY_SECONDS
    ensures Inv(l, Step(l, s, a))
  {
    var s' := Step(l, s, a);
    match a
    case Decide(id, increment) =>
      if Registers(l, s, a) {
        var p := s.requests[id];
        GrantKeepsWindows(l, s, p.origin, p.now, p.count, staleness);
      }
    case Expire(_) =>
      if s' != s {
        forall id | id in s'.requests ensures PhaseOk(l, s', s'.requests[id]) {
          assert PhaseOk(l, s, s.requests[id]);
          assert InWindow({}, 0) == {};
          forall from ensures InWindow(s'.members, from) == {} {}
        }
      }
    case _ =>
  }

  /** Sliding-window safety over every interleaving of any number of requests, retries with the
      clock they first read, increments by others, key expiry and passing time: while no login is
      registered so late that window and lateness together reach the expiry, no window of the
      limit's length ever holds more granted logins than allowed. */
  lemma {:induction false} SlidingWindowSafe(l: Limits, s: State, actions: seq<Action>, staleness: nat)
    requires Inv(l, s) && FreshRun(l, s, actions, staleness)
    requires l.window + staleness < EXPIRY_SECONDS
    ensures Inv(l, Run(l, s, actions))
    ensures WindowsBounded(l, Run(l, s, actions).granted)
    decreases |actions|
  {
    if actions != [] {
      StepKeepsInv(l, s, actions[0], staleness);
      SlidingWindowSafe(l, Step(l, s, actions[0]), actions[1..], staleness);
    }
  }

  lemma InitInv(l: Limits, clock: int)
    ensures Inv(l, Init(clock))
  {
    forall t ensures Window(l, {}, t) == {} {}
  }

  // ---------------------------------------------------------------- the bound is tight

  function Name(i: nat): string { seq(i, _ => 'a') }

  function FirstLogins(k: nat): set<Login> { set i | 0 <= i < k :: Login(Name(i), 0) }

  lemma {:induction false} FirstLoginsCount(k: nat)
    ensures |FirstLogins(k)| == k
  {
    if k > 0 {
      FirstLoginsCount(k - 1);
      var g := Login(Name(k - 1), 0);
      assert g !in FirstLogins(k - 1) by {
        forall i | 0 <= i < k - 1 ensures Name(i) != Name(k - 1) {
          assert |Name(i)| == i;
        }
      }
      assert FirstLogins(k) == FirstLogins(k - 1) + {g};
    } else {
      assert FirstLogins(0) == {};
    }
  }

  /** One undisturbed request. */
  function Request(id: nat): seq<Action> { [Watch(id), Count(id), Decide(id, true)] }

  function Fill(k: nat): seq<Action> {
    if k == 0 then [] else Fill(k - 1) + ([Enter(k - 1, Name(k - 1))] + Request(k - 1))
  }

  lemma {:induction false} RunConcat(l: Limits, s: State, a: seq<Action>, b: seq<Action>, staleness: nat)
    ensures Run(l, s, a + b) == Run(l, Run(l, s, a), b)
    ensures FreshRun(l, s, a, staleness) && FreshRun(l, Run(l, s, a), b, staleness)
        ==> FreshRun(l, s, a + b, staleness)
    decreases |a|
  {
    if a == [] {
      assert a + b == b;
    } else {
      assert (a + b)[0] == a[0] && (a + b)[1..] == a[1..] + b;
      RunConcat(l, Step(l, s, a[0]), a[1..], b, staleness);
    }
  }

  /** An undisturbed request below the limit is granted. */
  lemma RequestGranted(l: Limits, s: State, id: nat, staleness: nat)
    requires id in s.requests && s.requests[id].Waiting?
    requires |InWindow(s.members, s.requests[id].now - l.window)| < l.maxCount
    requires s.clock - s.requests[id].now <= staleness
    ensures FreshRun(l, s, Request(id), staleness)
    ensures var s', m := Run(l, s, Request(id)), Login(s.requests[id].origin, s.requests[id].now);
            && s'.clock == s.clock && s'.members == s.members + {m} && s'.granted == s.granted + {m}
            && s'.expiresAt == s.clock + EXPIRY_SECONDS
            && s'.requests.Keys == s.requests.Keys
  {
    var run := Request(id);
    var s1 := Step(l, s, run[0]);
    var s2 := Step(l, s1, run[1]);
    var s3 := Step(l, s2, run[2]);
    assert run[1..] == [run[1], run[2]] && run[1..][1..] == [run[2]] && run[1..][1..][1..] == [];
    assert Run(l, s2, [run[2]]) == s3 && FreshRun(l, s2, [run[2]], staleness);
    assert Run(l, s1, [run[1], run[2]]) == s3 && FreshRun(l, s1, [run[1], run[2]], staleness);
    assert s.requests.Keys == s3.requests.Keys;
  }

  // ---------------------------------------------------------------- what decides a request

  /** An undisturbed request whose count does not fail is granted if and only if fewer logins than allowed
      are in the window that ends when it read the clock. A granted login is registered if it is to be,
      and then the key lives 24 hours from now; nothing else changes the set. */
  lemma UndisturbedDecision(l: Limits, s: State, id: nat, increment: bool)
    requires id in s.requests && s.requests[id].Waiting?
    ensures var origin, now := s.requests[id].origin, s.requests[id].now;
            var granted := |set m | m in s.members && m.second >= now - l.window| < l.maxCount;
            var s' := Run(l, s, [Watch(id), Count(id), Decide(id, increment)]);
            && s'.requests == s.requests[id := Done(granted)]
            && s'.clock == s.clock
            && (if granted && increment then
                  && s'.members == s.members + {Login(origin, now)} && s'.granted == s.granted + {Login(origin, now)}
                  && s'.expiresAt == s.clock + EXPIRY_SECONDS
                else s'.members == s.members && s'.granted == s.granted && s'.expiresAt == s.expiresAt)
  {
    var now := s.requests[id].now;
    var run := [Watch(id), Count(id), Decide(id, increment)];
    assert InWindow(s.members, now - l.window) == set m | m in s.members && m.second >= now - l.window;
    hide InWindow;
    var s1 := Step(l, s, run[0]);
    var s2 := Step(l, s1, run[1]);
    var s3 := Step(l, s2, run[2]);
    assert run[1..] == [run[1], run[2]] && run[1..][1..] == [run[2]] && run[1..][1..][1..] == [];
    assert Run(l, s2, [run[2]]) == s3;
    assert Run(l, s1, [run[1], run[2]]) == s3;
  }

  function Before(l: Limits, s: State, run: seq<Action>, i: nat): State
    requires i <= |run|
  {
    Run(l, s, run[..i])
  }

  /** Step `i` of the run counts the window of the request. */
  predicate CountsAt(l: Limits, s: State, run: seq<Action>, i: int, id: nat) {
    && 0 <= i < |run| && run[i] == Count(id)
    && id in Before(l, s, run, i).requests && Before(l, s, run, i).requests[id].Watching?
  }

  /** What is in the window of the request when step `i` counts. */
  function CountedAt(l: Limits, s: State, run: seq<Action>, i: int, id: nat): set<Login>
    requires CountsAt(l, s, run, i, id)
  {
    var s' := Before(l, s, run, i);
    set m | m in s'.members && m.second >= s'.requests[id].now - l.window
  }

  predicate LastCount(l: Limits, s: State, run: seq<Action>, i: int, id: nat) {
    CountsAt(l, s, run, i, id) && forall j :: i < j < |run| ==> !CountsAt(l, s, run, j, id)
  }

  predicate Fails(run: seq<Action>, i: int, id: nat) { 0 <= i < |run| && run[i] == CountFails(id) }

  lemma RunSnoc(l: Limits, s: State, run: seq<Action>)
    requires run != []
    ensures var n := |run| - 1; Run(l, s, run) == Step(l, Run(l, s, run[..n]), run[n])
    ensures forall i :: 0 <= i < |run| ==> Before(l, s, run[..|run| - 1], i) == Before(l, s, run, i)
  {
    var init, a := run[..|run| - 1], run[|run| - 1];
    assert run == init + [a] && [a][1..] == [];
    RunConcat(l, s, init, [a], 0);
    forall i | 0 <= i < |run| ensures init[..i] == run[..i] {}
  }

  /** Steps of a run count what they counted when it was shorter. */
  lemma CountsKept(l: Limits, s: State, run: seq<Action>, i: int, id: nat)
    requires run != [] && 0 <= i < |run| - 1
    ensures CountsAt(l, s, run, i, id) <==> CountsAt(l, s, run[..|run| - 1], i, id)
    ensures CountsAt(l, s, run, i, id) ==> CountedAt(l, s, run, i, id) == CountedAt(l, s, run[..|run| - 1], i, id)
  {
    RunSnoc(l, s, run);
  }

  /** How a phase came about: by the last count of the request. */
  ghost predicate CameAbout(l: Limits, s: State, run: seq<Action>, id: nat, p: Phase) {
    match p
    case Counted(_, _, _, count) => exists i :: LastCount(l, s, run, i, id) && count == |CountedAt(l, s, run, i, id)|
    case Done(granted) =>
      || (exists i :: LastCount(l, s, run, i, id) && (granted <==> |CountedAt(l, s, run, i, id)| < l.maxCount))
      || (!granted && exists i :: Fails(run, i, id))
    case _ => true
  }

  lemma CameAboutKept(l: Limits, s: State, run: seq<Action>, id: nat, p: Phase)
    requires run != [] && CameAbout(l, s, run[..|run| - 1], id, p) && !CountsAt(l, s, run, |run| - 1, id)
    ensures CameAbout(l, s, run, id, p)
  {
    var init := run[..|run| - 1];
    forall i | 0 <= i < |run| - 1
      ensures CountsAt(l, s, run, i, id) <==> CountsAt(l, s, init, i, id)
      ensures CountsAt(l, s, run, i, id) ==> CountedAt(l, s, run, i, id) == CountedAt(l, s, init, i, id)
      ensures Fails(init, i, id) ==> Fails(run, i, id)
    {
      CountsKept(l, s, run, i, id);
    }
    hide CountsAt;
    hide CountedAt;
    forall i | LastCount(l, s, init, i, id) ensures LastCount(l, s, run, i, id) {
      assert CountsAt(l, s, init, i, id) && 0 <= i < |init|;
      forall j | i < j < |run| ensures !CountsAt(l, s, run, j, id) {}
    }
  }

  /** Over every run, whatever others do: a request that was granted counted, the last time it did, fewer
      logins than allowed in its window; one that was denied counted as many or more, or its count
      failed. */
  lemma {:induction false} DecidedByLastCount(l: Limits, s: State, run: seq<Action>, id: nat)
    requires id in s.requests ==> s.requests[id].Waiting?
    ensures var s' := Run(l, s, run); id in s'.requests ==> CameAbout(l, s, run, id, s'.requests[id])
    decreases |run|
  {
    if run != [] {
      var n := |run| - 1;
      var s1, s', a := Run(l, s, run[..n]), Run(l, s, run), run[n];
      DecidedByLastCount(l, s, run[..n], id);
      RunSnoc(l, s, run);
      if CountsAt(l, s, run, n, id) {
        assert LastCount(l, s, run, n, id);
        assert s'.requests[id].count == |CountedAt(l, s, run, n, id)|;
      } else if id in s1.requests {
        CameAboutKept(l, s, run, id, s1.requests[id]);
        if s'.requests[id] != s1.requests[id] {
          PhaseMoves(l, s, run, id);
        }
      }
    }
  }

  /** The other steps that move a request: it is decided by its count, or fails. */
  lemma PhaseMoves(l: Limits, s: State, run: seq<Action>, id: nat)
    requires run != [] && !CountsAt(l, s, run, |run| - 1, id)
    requires var s1 := Run(l, s, run[..|run| - 1]);
             && id in s1.requests && CameAbout(l, s, run, id, s1.requests[id])
             && id in Run(l, s, run).requests && Run(l, s, run).requests[id] != s1.requests[id]
    ensures CameAbout(l, s, run, id, Run(l, s, run).requests[id])
  {
    RunSnoc(l, s, run);
    var n := |run| - 1;
    var s1, s' := Run(l, s, run[..n]), Run(l, s, run);
    assert s' == Step(l, s1, run[n]);
    hide Run;
    hide InWindow;
    if run[n] == CountFails(id) {
      assert Fails(run, n, id);
    } else if run[n].Decide? {
      var i :| LastCount(l, s, run, i, id) && s1.requests[id].count == |CountedAt(l, s, run, i, id)|;
      hide LastCount;
      hide CountedAt;
    }
  }

  /** The time it goes by is read once, when the request comes in. */
  lemma {:induction false} ClockReadOnce(l: Limits, s: State, run: seq<Action>, id: nat)
    requires id !in s.requests
    ensures var s' := Run(l, s, run);
            id in s'.requests && !s'.requests[id].Done? ==>
              exists e :: 0 <= e < |run| && run[e] == Enter(id, s'.requests[id].origin)
                          && s'.requests[id].now == Before(l, s, run, e).clock
    decreases |run|
  {
    if run != [] {
      var n := |run| - 1;
      var s1, s' := Run(l, s, run[..n]), Run(l, s, run);
      ClockReadOnce(l, s, run[..n], id);
      RunSnoc(l, s, run);
      hide InWindow;
      if id in s'.requests && !s'.requests[id].Done? {
        if id in s1.requests {
          var e :| && 0 <= e < n && run[..n][e] == Enter(id, s1.requests[id].origin)
                   && s1.requests[id].now == Before(l, s, run[..n], e).clock;
          assert run[e] == run[..n][e];
        } else {
          assert run[n].Enter? && Before(l, s, run, n) == s1;
        }
      }
    }
  }

  /** The state after `k` undisturbed requests at time 0. */
  predicate Filled(s: State, k: nat) {
    && s.clock == 0 && s.members == s.granted == FirstLogins(k)
    && s.expiresAt <= EXPIRY_SECONDS
    && forall id :: id in s.requests ==> id < k
  }

  lemma FillOneMore(l: Limits, s: State, k: nat, staleness: nat)
    requires k < l.maxCount && Filled(s, k)
    ensures var more := [Enter(k, Name(k))] + Request(k);
            FreshRun(l, s, more, staleness) && Filled(Run(l, s, more), k + 1)
  {
    var s1 := Step(l, s, Enter(k, Name(k)));
    var more := [Enter(k, Name(k))] + Request(k);
    assert more[1..] == Request(k);
    FirstLoginsCount(k);
    SubsetCardinality(InWindow(s1.members, 0 - l.window), FirstLogins(k));
    RequestGranted(l, s1, k, staleness);
    assert FirstLogins(k + 1) == FirstLogins(k) + {Login(Name(k), 0)};
  }

  lemma {:induction false} FillGrants(l: Limits, k: nat, staleness: nat)
    requires k <= l.maxCount
    ensures FreshRun(l, Init(0), Fill(k), staleness) && Filled(Run(l, Init(0), Fill(k)), k)
  {
    hide Step;
    hide Request;
    if k > 0 {
      FillGrants(l, k - 1, staleness);
      var more := [Enter(k - 1, Name(k - 1))] + Request(k - 1);
      RunConcat(l, Init(0), Fill(k - 1), more, staleness);
      FillOneMore(l, Run(l, Init(0), Fill(k - 1)), k - 1, staleness);
    }
  }

  /** The run that breaks the bound: fill the window at time 0, read the clock as late as the
      window allows, register after the key has expired. */
  function LateRun(l: Limits, k: nat): seq<Action> {
    var late := if l.window <= EXPIRY_SECONDS then l.window else EXPIRY_SECONDS;
    Fill(k) + ([Tick(late), Enter(k, Name(k)), Tick(EXPIRY_SECONDS - late), Expire(true)] + Request(k))
  }

  lemma LateRunViolates(l: Limits, staleness: nat)
    requires l.maxCount >= 1 && l.window + staleness >= EXPIRY_SECONDS
    ensures FreshRun(l, Init(0), LateRun(l, l.maxCount), staleness)
    ensures !WindowsBounded(l, Run(l, Init(0), LateRun(l, l.maxCount)).granted)
  {
    var k := l.maxCount;
    var late := if l.window <= EXPIRY_SECONDS then l.window else EXPIRY_SECONDS;
    FillGrants(l, k, staleness);
    var s := Run(l, Init(0), Fill(k));
    var wait := [Tick(late), Enter(k, Name(k)), Tick(EXPIRY_SECONDS - late), Expire(true)];
    RunConcat(l, Init(0), Fill(k), wait + Request(k), staleness);
    RunConcat(l, s, wait, Request(k), staleness);
    var waited := LateWait(l, s, k, late, staleness);
    assert InWindow({}, late - l.window) == {};
    RequestGranted(l, waited, k, staleness);
    var granted := FirstLogins(k) + {Login(Name(k), late)};
    assert Window(l, granted, late) == granted;
    FirstLoginsCount(k);
    assert Login(Name(k), late) !in FirstLogins(k) by {
      forall i | 0 <= i < k ensures Name(i) != Name(k) {
        assert |Name(i)| == i;
      }
    }
  }

  lemma LateWait(l: Limits, s: State, k: nat, late: nat, staleness: nat) returns (s': State)
    requires s.clock == 0 && s.expiresAt <= EXPIRY_SECONDS && k !in s.requests && late <= EXPIRY_SECONDS
    ensures var wait := [Tick(late), Enter(k, Name(k)), Tick(EXPIRY_SECONDS - late), Expire(true)];
            FreshRun(l, s, wait, staleness) && s' == Run(l, s, wait)
    ensures s'.clock == EXPIRY_SECONDS && s'.members == {} && s'.granted == s.granted
    ensures k in s'.requests && s'.requests[k] == Waiting(Name(k), late)
  {
    var wait := [Tick(late), Enter(k, Name(k)), Tick(EXPIRY_SECONDS - late), Expire(true)];
    var s1 := Step(l, s, wait[0]);
    var s2 := Step(l, s1, wait[1]);
    var s3 := Step(l, s2, wait[2]);
    s' := Step(l, s3, wait[3]);
    assert wait[1..] == [wait[1], wait[2], wait[3]] && wait[1..][1..] == [wait[2], wait[3]];
    assert wait[1..][1..][1..] == [wait[3]] && wait[1..][1..][1..][1..] == [];
    assert Run(l, s3, [wait[3]]) == s' && FreshRun(l, s3, [wait[3]], staleness);
    assert Run(l, s2, wait[1..][1..]) == s' && FreshRun(l, s2, wait[1..][1..], staleness);
    assert Run(l, s1, wait[1..]) == s' && FreshRun(l, s1, wait[1..], staleness);
  }

  /** The exact condition: with a positive limit the window bound holds over all runs in which
      logins are registered at most `staleness` seconds late, if and only if window and lateness
      together stay below the 24 hours after which the key forgets. */
  lemma SafeIffBelowExpiry(l: Limits, staleness: nat)
    requires l.maxCount >= 1
    ensures (forall actions :: FreshRun(l, Init(0), actions, staleness)
               ==> WindowsBounded(l, Run(l, Init(0), actions).granted))
        <==> l.window + staleness < EXPIRY_SECONDS
  {
    if l.window + staleness < EXPIRY_SECONDS {
      InitInv(l, 0);
      forall actions | FreshRun(l, Init(0), actions, staleness)
        ensures WindowsBounded(l, Run(l, Init(0), actions).granted)
      {
        SlidingWindowSafe(l, Init(0), actions, staleness);
      }
    } else {
      LateRunViolates(l, staleness);
    }
  }
}
