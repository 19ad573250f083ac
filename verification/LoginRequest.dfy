/** `ip_handle_login_request` as a retry loop with local variables, run against the shared store
    while others change it. Whatever happens in between, the loop is a run of the protocol. */
module LoginRequest {
  import opened LoginLimiter
  import opened Wrappers

  /** What others do to the store around the three round trips of one iteration. */
  datatype Interference = Interference(
    beforeWatch: seq<Action>,
    beforeCount: seq<Action>,
    countFails: bool,
    beforeDecide: seq<Action>)

  /** Actions of other requests, of the environment and of time. */
  predicate Foreign(a: Action, id: nat) {
    match a
    case Enter(i, _) => i != id
    case Watch(i) => i != id
    case Count(i) => i != id
    case CountFails(i) => i != id
    case Decide(i, _) => i != id
    case _ => true
  }

  predicate AllForeign(actions: seq<Action>, id: nat) {
    forall i :: 0 <= i < |actions| ==> Foreign(actions[i], id)
  }

  predicate ForeignInterference(x: Interference, id: nat) {
    AllForeign(x.beforeWatch, id) && AllForeign(x.beforeCount, id) && AllForeign(x.beforeDecide, id)
  }

  /** Nobody but the request itself moves it. */
  lemma {:induction false} ForeignKeepsPhase(l: Limits, s: State, actions: seq<Action>, id: nat)
    requires AllForeign(actions, id) && id in s.requests
    ensures id in Run(l, s, actions).requests && Run(l, s, actions).requests[id] == s.requests[id]
    decreases |actions|
  {
    if actions != [] {
      assert Foreign(actions[0], id);
      ForeignKeepsPhase(l, Step(l, s, actions[0]), actions[1..], id);
    }
  }

  lemma RunAppend(l: Limits, s: State, run: seq<Action>, more: seq<Action>)
    ensures Run(l, s, run + more) == Run(l, Run(l, s, run), more)
  {
    RunConcat(l, s, run, more, 0);
  }

  lemma RunOne(l: Limits, s: State, a: Action)
    ensures Run(l, s, [a]) == Step(l, s, a)
  {
    assert [a][1..] == [];
  }

  // ---------------------------------------------------------------- prompt runs

  /** The time that passes during a run. */
  function Elapsed(actions: seq<Action>): nat {
    if actions == [] then 0
    else (if actions[0].Tick? then actions[0].seconds else 0) + Elapsed(actions[1..])
  }

  /** When the request read the clock, unless it is decided. */
  predicate ReadBy(p: Phase, now: int) { p.Done? || p.now >= now }

  /** From every clock reading, old or new, to the end of the run no more than `staleness` passes. */
  predicate Prompt(s: State, actions: seq<Action>, staleness: nat) {
    && Elapsed(actions) <= staleness
    && forall id :: id in s.requests ==> ReadBy(s.requests[id], s.clock + Elapsed(actions) - staleness)
  }

  lemma PromptStep(l: Limits, s: State, actions: seq<Action>, staleness: nat)
    requires actions != [] && Prompt(s, actions, staleness)
    ensures Fresh(l, s, actions[0], staleness) && Prompt(Step(l, s, actions[0]), actions[1..], staleness)
  {
    hide InWindow;
  }

  /** A run that takes no longer than `staleness` after any clock reading registers no login later
      than that. */
  lemma {:induction false} PromptIsFresh(l: Limits, s: State, actions: seq<Action>, staleness: nat)
    requires Prompt(s, actions, staleness)
    ensures FreshRun(l, s, actions, staleness)
    decreases |actions|
  {
    if actions != [] {
      PromptStep(l, s, actions, staleness);
      hide Step;
      PromptIsFresh(l, Step(l, s, actions[0]), actions[1..], staleness);
    }
  }

  /** Hence such a run keeps every window within the limit. */
  lemma PromptIsSafe(l: Limits, s: State, actions: seq<Action>, staleness: nat)
    requires Inv(l, s) && Prompt(s, actions, staleness) && l.window + staleness < EXPIRY_SECONDS
    ensures Inv(l, Run(l, s, actions)) && WindowsBounded(l, Run(l, s, actions).granted)
  {
    PromptIsFresh(l, s, actions, staleness);
    SlidingWindowSafe(l, s, actions, staleness);
  }

  class LoginStore {
    const l: Limits
    var state: State

    constructor (l: Limits, state: State)
      ensures this.l == l && this.state == state
    {
      this.l, this.state := l, state;
    }

    method Others(actions: seq<Action>, id: nat)
      requires id in state.requests && AllForeign(actions, id)
      modifies this
      ensures state == Run(l, old(state), actions)
      ensures id in state.requests && state.requests[id] == old(state.requests[id])
    {
      ForeignKeepsPhase(l, state, actions, id);
      state := Run(l, state, actions);
    }

    /** WATCH the key. */
    method WatchKey(id: nat, origin: string, now: int) returns (version: nat)
      requires id in state.requests && state.requests[id] == Waiting(origin, now)
      modifies this
      ensures state == Step(l, old(state), Watch(id))
      ensures id in state.requests && state.requests[id] == Watching(origin, now, version)
    {
      version := state.version;
      state := SetPhase(state, id, Watching(origin, now, version));
    }

    /** ZCOUNT of the window from `now` back, or its failure. */
    method CountWindow(id: nat, origin: string, now: int, version: nat, fails: bool) returns (ct: Option<nat>)
      requires id in state.requests && state.requests[id] == Watching(origin, now, version)
      modifies this
      ensures state == Step(l, old(state), if fails then CountFails(id) else Count(id))
      ensures id in state.requests
      ensures state.requests[id] == if ct.Some? then Counted(origin, now, version, ct.value) else Done(false)
      ensures ct.None? == fails
      ensures ct.Some? ==> ct.value == |set m | m in old(state).members && m.second >= now - l.window|
    {
      if fails {
        state := SetPhase(state, id, Done(false));
        return None;
      }
      ct := Some(|InWindow(state.members, now - l.window)|);
      state := SetPhase(state, id, Counted(origin, now, version, ct.value));
    }

    /** Compare with the limit; below it, register under MULTI / EXEC or learn of a change. */
    method DecideOn(id: nat, origin: string, now: int, version: nat, ct: nat, increment: bool)
      returns (granted: Option<bool>)
      requires id in state.requests && state.requests[id] == Counted(origin, now, version, ct)
      modifies this
      ensures state == Step(l, old(state), Decide(id, increment))
      ensures id in state.requests
      ensures state.requests[id] == if granted.Some? then Done(granted.value) else Waiting(origin, now)
    {
      if ct >= l.maxCount {
        state := SetPhase(state, id, Done(false));
        return Some(false);
      } else if increment {
        if version != state.version {
          state := SetPhase(state, id, Waiting(origin, now));
          return None;
        }
        var member := Login(origin, now);
        state := Add(state, member).(granted := state.granted + {member});
        state := SetPhase(state, id, Done(true));
        return Some(true);
      } else {
        state := SetPhase(state, id, Done(true));
        return Some(true);
      }
    }

    /** One pass of the retry loop; `None` is a WatchError. */
    method Attempt(id: nat, origin: string, now: int, increment: bool, x: Interference)
      returns (granted: Option<bool>, ghost run: seq<Action>)
      requires id in state.requests && state.requests[id] == Waiting(origin, now)
      requires ForeignInterference(x, id)
      modifies this
      ensures state == Run(l, old(state), run)
      ensures id in state.requests
      ensures state.requests[id] == if granted.Some? then Done(granted.value) else Waiting(origin, now)
      ensures CameAbout(l, old(state), run, id, state.requests[id])
    {
      granted, run := OneTurn(id, origin, now, increment, x);
      DecidedByLastCount(l, old(state), run, id);
    }

    method OneTurn(id: nat, origin: string, now: int, increment: bool, x: Interference)
      returns (granted: Option<bool>, ghost run: seq<Action>)
      requires id in state.requests && state.requests[id] == Waiting(origin, now)
      requires ForeignInterference(x, id)
      modifies this
      ensures state == Run(l, old(state), run)
      ensures id in state.requests
      ensures state.requests[id] == if granted.Some? then Done(granted.value) else Waiting(origin, now)
    {
      ghost var start := state;
      Others(x.beforeWatch, id);
      run := x.beforeWatch;
      ghost var before := state;
      var version := WatchKey(id, origin, now);
      run := AppendStep(start, before, run, Watch(id));
      before := state;
      Others(x.beforeCount, id);
      run := AppendRun(start, before, run, x.beforeCount);
      before := state;
      var ct := CountWindow(id, origin, now, version, x.countFails);
      run := AppendStep(start, before, run, if x.countFails then CountFails(id) else Count(id));
      if ct.None? {
        return Some(false), run;
      }
      before := state;
      Others(x.beforeDecide, id);
      run := AppendRun(start, before, run, x.beforeDecide);
      before := state;
      granted := DecideOn(id, origin, now, version, ct.value, increment);
      run := AppendStep(start, before, run, Decide(id, increment));
    }

    /** The request. `None` means it is still retrying when the given interference is used up.
        Whatever the interference, what happened is a run of the protocol; and if it did not take too
        long, every window is still within the limit. */
    method HandleLoginRequest(id: nat, origin: string, increment: bool, others: seq<Interference>)
      returns (granted: Option<bool>, ghost run: seq<Action>)
      requires id !in state.requests
      requires forall i :: 0 <= i < |others| ==> ForeignInterference(others[i], id)
      modifies this
      ensures state == Run(l, old(state), run)
      ensures id in state.requests
      ensures state.requests[id] == if granted.Some? then Done(granted.value) else Waiting(origin, old(state.clock))
      ensures forall staleness: nat ::
                Inv(l, old(state)) && Prompt(old(state), run, staleness) && l.window + staleness < EXPIRY_SECONDS
                ==> Inv(l, state) && WindowsBounded(l, state.granted)
      ensures CameAbout(l, old(state), run, id, state.requests[id])
    {
      granted, run := RetryLoop(id, origin, increment, others);
      DecidedByLastCount(l, old(state), run, id);
      ghost var start := old(state);
      forall staleness: nat | Inv(l, start) && Prompt(start, run, staleness) && l.window + staleness < EXPIRY_SECONDS
        ensures Inv(l, state) && WindowsBounded(l, state.granted)
      {
        PromptIsSafe(l, start, run, staleness);
      }
    }

    method RetryLoop(id: nat, origin: string, increment: bool, others: seq<Interference>)
      returns (granted: Option<bool>, ghost run: seq<Action>)
      requires id !in state.requests
      requires forall i :: 0 <= i < |others| ==> ForeignInterference(others[i], id)
      modifies this
      ensures state == Run(l, old(state), run)
      ensures id in state.requests
      ensures state.requests[id] == if granted.Some? then Done(granted.value) else Waiting(origin, old(state.clock))
    {
      var now := state.clock;
      ghost var start := state;
      state := SetPhase(state, id, Waiting(origin, now));
      run := [Enter(id, origin)];
      RunOne(l, start, Enter(id, origin));
      for i := 0 to |others|
        invariant state == Run(l, start, run)
        invariant id in state.requests && state.requests[id] == Waiting(origin, now)
      {
        ghost var before, steps := state, [];
        assert ForeignInterference(others[i], id);
        granted, steps := Attempt(id, origin, now, increment, others[i]);
        run := AppendRun(start, before, run, steps);
        if granted.Some? {
          return granted, run;
        }
      }
      granted := None;
    }

    ghost method AppendStep(start: State, before: State, run: seq<Action>, a: Action) returns (longer: seq<Action>)
      requires before == Run(l, start, run)
      ensures Run(l, start, longer) == Step(l, before, a)
    {
      longer := run + [a];
      RunAppend(l, start, run, [a]);
      RunOne(l, before, a);
    }

    ghost method AppendRun(start: State, before: State, run: seq<Action>, more: seq<Action>)
      returns (longer: seq<Action>)
      requires before == Run(l, start, run)
      ensures Run(l, start, longer) == Run(l, before, more)
    {
      longer := run + more;
      RunAppend(l, start, run, more);
    }
  }
}
