/** When the updater as written keeps its promise of one job per device, and when its tasks survive:
    both are a matter of how many tasks there are and which jobs they may be given. */
module UpdaterConflicts {
  import opened DeviceJob
  import opened UpdaterQueue
  import opened Wrappers

  datatype NewJob = NewJob(origin: string, subJobs: seq<SubJob>)

  /** The jobs that may be added, by job id. */
  type Catalogue = map<string, NewJob>

  predicate AddsFrom(actions: seq<Action>, jobs: Catalogue) {
    forall i :: 0 <= i < |actions| && actions[i].AddJob? ==>
      actions[i].id in jobs && jobs[actions[i].id] == NewJob(actions[i].origin, actions[i].subJobs)
  }

  /** No two jobs of the catalogue are for one device. */
  ghost predicate DevicesDistinct(jobs: Catalogue) {
    forall a, b :: a in jobs && b in jobs && jobs[a].origin == jobs[b].origin ==> a == b
  }

  /** Every job in the log comes from the catalogue. */
  ghost predicate From(s: State, jobs: Catalogue) {
    forall id :: id in s.jobs ==> id in jobs && s.jobs[id].origin == jobs[id].origin
  }

  lemma StepKeepsFrom(s: State, a: Action, owned: bool, jobs: Catalogue)
    requires From(s, jobs) && AddsFrom([a], jobs)
    ensures From(Step(s, a, owned), jobs) && |Step(s, a, owned).tasks| == |s.tasks|
  {
    assert [a][0] == a;
    if a.Work? && a.t < |s.tasks| && s.tasks[a.t].Running? && s.tasks[a.t].id in s.jobs {
      OriginKept(s.jobs[s.tasks[a.t].id], a.env);
    }
  }

  lemma FirstAdds(actions: seq<Action>, jobs: Catalogue)
    requires AddsFrom(actions, jobs) && actions != []
    ensures AddsFrom([actions[0]], jobs) && AddsFrom(actions[1..], jobs)
    ensures WithoutRestarts(actions) ==> WithoutRestarts([actions[0]]) && WithoutRestarts(actions[1..])
  {
    assert forall i :: 0 <= i < |actions[1..]| ==> actions[1..][i] == actions[i + 1];
    assert [actions[0]][0] == actions[0];
  }

  lemma {:induction false} RunKeepsFrom(s: State, actions: seq<Action>, owned: bool, jobs: Catalogue)
    requires From(s, jobs) && AddsFrom(actions, jobs)
    ensures From(Run(s, actions, owned), jobs) && |Run(s, actions, owned).tasks| == |s.tasks|
    decreases |actions|
  {
    if actions != [] {
      FirstAdds(actions, jobs);
      StepKeepsFrom(s, actions[0], owned, jobs);
      RunKeepsFrom(Step(s, actions[0], owned), actions[1..], owned, jobs);
    }
  }

  // ---------------------------------------------------------------- no conflicts, no harm

  /** A job is in one place, so with one job per device only one task can run there. */
  lemma DistinctExclude(s: State, jobs: Catalogue)
    requires Conserved(s) && From(s, jobs) && DevicesDistinct(jobs)
    ensures Exclusive(s)
  {
    forall t: nat, u: nat, origin | RunsOn(s, t, origin) && RunsOn(s, u, origin) ensures t == u {
      var id := s.tasks[t].id;
      assert s.tasks[u].id == id;
      assert Places(s, id) <= 1;
      if t < u {
        HeldTwice(s.tasks, t, u, id);
      } else if u < t {
        HeldTwice(s.tasks, u, t, id);
      }
    }
  }

  /** With one task or one job per device the code as written is exclusive in every run, restarts
      included. */
  lemma ExclusiveWithoutConflicts(n: nat, jobs: Catalogue, actions: seq<Action>)
    requires AddsFrom(actions, jobs) && (n <= 1 || DevicesDistinct(jobs))
    ensures Exclusive(Run(Init(n), actions, false))
  {
    InitConserved(n);
    NoJobLost(Init(n), actions, false);
    RunKeepsFrom(Init(n), actions, false, jobs);
    if n > 1 {
      DistinctExclude(Run(Init(n), actions, false), jobs);
    }
  }

  /** What holds of the tasks as long as no conflict occurs: claims are held by who needs them, and
      nobody gives back what it did not claim. */
  ghost predicate Settled(s: State) {
    && Claims(s) && AllAlive(s)
    && (forall t :: 0 <= t < |s.tasks| ==> ReleasesOwn(s.tasks[t]))
    && ClaimsKnown(s)
  }

  /** Every claim is by a job of the log for the device it is for. */
  ghost predicate ClaimsKnown(s: State) {
    forall origin :: origin in s.running ==>
      s.running[origin] in s.jobs && s.jobs[s.running[origin]].origin == origin
  }

  predicate ReleasesOwn(task: Task) { task.Leaving? ==> task.requeue || task.claimed }

  /** With one job per device a claim never meets the claim of another job. */
  lemma ClaimSucceeds(s: State, t: nat, jobs: Catalogue)
    requires From(s, jobs) && DevicesDistinct(jobs) && Settled(s)
    requires t < |s.tasks| && s.tasks[t].Got? && s.tasks[t].id in s.jobs
    ensures ClaimStep(s, t) == SetTask(s.(running := s.running[s.jobs[s.tasks[t].id].origin := s.tasks[t].id]),
                                       t, Running(s.tasks[t].id))
  {}

  lemma SameAsOwned(s: State, a: Action)
    requires Settled(s)
    ensures Step(s, a, false) == Step(s, a, true)
  {}

  lemma StepKeepsRest(s: State, a: Action, jobs: Catalogue)
    requires From(s, jobs) && DevicesDistinct(jobs) && Settled(s)
    ensures ClaimsKnown(Step(s, a, false))
    ensures var s' := Step(s, a, false); forall t :: 0 <= t < |s'.tasks| ==> ReleasesOwn(s'.tasks[t])
  {
    hide Claims;
    hide HoldsClaim;
    hide DevicesDistinct;
    hide From;
    match a
    case Claim(t) =>
      if t < |s.tasks| && s.tasks[t].Got? && s.tasks[t].id in s.jobs {
        ClaimSucceeds(s, t, jobs);
      }
    case Work(t, env) =>
      if t < |s.tasks| && s.tasks[t].Running? && s.tasks[t].id in s.jobs {
        OriginKept(s.jobs[s.tasks[t].id], env);
        hide Handle;
      }
    case _ =>
  }

  lemma StepKeepsSettled(s: State, a: Action, jobs: Catalogue)
    requires Conserved(s) && From(s, jobs) && DevicesDistinct(jobs)
    requires Settled(s) && (a.Work? ==> a.env.restartMinutes == 0)
    ensures Settled(Step(s, a, false))
  {
    hide Step;
    SameAsOwned(s, a);
    StepKeepsClaims(s, a);
    OwnedStepKeepsTasks(s, a);
    StepKeepsRest(s, a, jobs);
  }

  lemma {:induction false} RunKeepsSettled(s: State, actions: seq<Action>, jobs: Catalogue)
    requires Conserved(s) && s.finished <= s.jobs.Keys && From(s, jobs) && DevicesDistinct(jobs)
    requires Settled(s) && AddsFrom(actions, jobs) && WithoutRestarts(actions)
    ensures AllAlive(Run(s, actions, false))
    decreases |actions|
  {
    if actions != [] {
      FirstAdds(actions, jobs);
      assert [actions[0]][0] == actions[0];
      StepKeepsConserved(s, actions[0], false);
      StepKeepsFrom(s, actions[0], false, jobs);
      StepKeepsSettled(s, actions[0], jobs);
      RunKeepsSettled(Step(s, actions[0], false), actions[1..], jobs);
    }
  }

  /** A single task finds what it gives back. */
  ghost predicate Alone(s: State) {
    |s.tasks| <= 1 && AllAlive(s)
    && (|s.tasks| == 1 ==>
          match s.tasks[0]
          case Running(id) => HoldsClaim(s, id)
          case Leaving(id, requeue, _) => id in s.jobs && (requeue || s.jobs[id].origin in s.running)
          case _ => true)
  }

  lemma StepKeepsAlone(s: State, a: Action, owned: bool)
    requires Alone(s)
    ensures Alone(Step(s, a, owned))
  {
    if a.Work? && a.t < |s.tasks| && s.tasks[a.t].Running? && s.tasks[a.t].id in s.jobs {
      OriginKept(s.jobs[s.tasks[a.t].id], a.env);
    }
  }

  lemma {:induction false} RunKeepsAlone(s: State, actions: seq<Action>, owned: bool)
    requires Alone(s)
    ensures Alone(Run(s, actions, owned))
    decreases |actions|
  {
    if actions != [] {
      StepKeepsAlone(s, actions[0], owned);
      RunKeepsAlone(Step(s, actions[0], owned), actions[1..], owned);
    }
  }

  // ---------------------------------------------------------------- what a conflict does

  /** What the runs below look at: queue, claims, and the first two tasks. */
  ghost predicate At(s: State, queue: seq<string>, running: map<string, string>, first: Task, second: Task) {
    s.queue == queue && s.running == running && |s.tasks| >= 2 && s.tasks[0] == first && s.tasks[1] == second
  }

  /** Two jobs of one device are in the log. */
  ghost predicate Both(s: State, a: string, b: string, origin: string) {
    a != b && a in s.jobs && b in s.jobs && s.jobs[a].origin == origin && s.jobs[b].origin == origin
  }

  lemma {:induction false} RunConcat(s: State, a: seq<Action>, b: seq<Action>, owned: bool)
    ensures Run(s, a + b, owned) == Run(Run(s, a, owned), b, owned)
    decreases |a|
  {
    if a == [] {
      assert a + b == b;
    } else {
      assert (a + b)[0] == a[0] && (a + b)[1..] == a[1..] + b;
      RunConcat(Step(s, a[0], owned), a[1..], b, owned);
    }
  }

  /** Three steps at once. */
  lemma RunThree(s: State, a: Action, b: Action, c: Action)
    ensures Run(s, [a, b, c], false) == Step(Step(Step(s, a, false), b, false), c, false)
  {
    var s1 := Step(s, a, false);
    var s2 := Step(s1, b, false);
    assert [a, b, c][1..] == [b, c] && [b, c][1..] == [c] && [c][1..] == [];
    assert Run(s2, [c], false) == Step(s2, c, false);
    assert Run(s1, [b, c], false) == Run(s2, [c], false);
  }

  /** A run without restarts that adds jobs of the catalogue only. */
  predicate Admissible(actions: seq<Action>, jobs: Catalogue) {
    AddsFrom(actions, jobs) && WithoutRestarts(actions)
  }

  lemma AdmissibleConcat(a: seq<Action>, b: seq<Action>, jobs: Catalogue)
    requires Admissible(a, jobs) && Admissible(b, jobs)
    ensures Admissible(a + b, jobs)
  {}

  /** Two jobs of one device are added. */
  function Adding(jobs: Catalogue, a: string, b: string): seq<Action>
    requires a in jobs && b in jobs
  {
    [AddJob(a, jobs[a].origin, jobs[a].subJobs), AddJob(b, jobs[b].origin, jobs[b].subJobs), Take(0)]
  }

  lemma AfterAdding(n: nat, jobs: Catalogue, a: string, b: string)
    requires n >= 2 && a in jobs && b in jobs && a != b && jobs[a].origin == jobs[b].origin
    ensures var s := Run(Init(n), Adding(jobs, a, b), false);
            && At(s, [b], map[], Got(a), Idle) && Both(s, a, b, jobs[a].origin)
            && s.jobs[a] == Fresh(jobs[a]) && s.jobs[b] == Fresh(jobs[b])
  {
    var add := Adding(jobs, a, b);
    RunThree(Init(n), add[0], add[1], add[2]);
    assert [a, b][1..] == [b];
  }

  function Fresh(job: NewJob): Job { Job(job.origin, job.subJobs, INIT, 0, None, 0) }

  /** The first task claims the device, the second meets the conflict. */
  lemma Conflicting(s: State, a: string, b: string, origin: string)
    requires Both(s, a, b, origin) && At(s, [b], map[], Got(a), Idle)
    ensures var s' := Run(s, [Claim(0), Take(1), Claim(1)], false);
            s'.jobs == s.jobs && At(s', [b], map[origin := a], Running(a), Leaving(b, false, false))
  {
    RunThree(s, Claim(0), Take(1), Claim(1));
    assert [b][1..] == [] && [] + [b] == [b];
  }

  /** On its way out it pops the claim of the first task, and then claims the device itself. */
  lemma Overtaking(s: State, a: string, b: string, origin: string)
    requires Both(s, a, b, origin) && At(s, [b], map[origin := a], Running(a), Leaving(b, false, false))
    ensures var s' := Run(s, [Leave(1), Take(1), Claim(1)], false);
            s'.jobs == s.jobs && At(s', [], map[origin := b], Running(a), Running(b))
  {
    RunThree(s, Leave(1), Take(1), Claim(1));
    assert map[origin := a] - {origin} == map[];
  }

  function Overtake(jobs: Catalogue, a: string, b: string): seq<Action>
    requires a in jobs && b in jobs
  {
    Adding(jobs, a, b) + [Claim(0), Take(1), Claim(1)] + [Leave(1), Take(1), Claim(1)]
  }

  /** Any two jobs of one device can be made to run there at once by any two tasks. */
  lemma ConflictRunsBoth(n: nat, jobs: Catalogue, a: string, b: string)
    requires n >= 2 && a in jobs && b in jobs && a != b && jobs[a].origin == jobs[b].origin
    ensures var s := Run(Init(n), Overtake(jobs, a, b), false);
            && At(s, [], map[jobs[a].origin := b], Running(a), Running(b)) && Both(s, a, b, jobs[a].origin)
            && s.jobs[a] == Fresh(jobs[a]) && s.jobs[b] == Fresh(jobs[b]) && !Exclusive(s)
    ensures Admissible(Overtake(jobs, a, b), jobs)
  {
    var add, meet, leave := Adding(jobs, a, b), [Claim(0), Take(1), Claim(1)], [Leave(1), Take(1), Claim(1)];
    AdmissibleConcat(add, meet, jobs);
    AdmissibleConcat(add + meet, leave, jobs);
    hide Admissible;
    RunConcat(Init(n), add + meet, leave, false);
    RunConcat(Init(n), add, meet, false);
    AfterAdding(n, jobs, a, b);
    hide Step;
    var s := Run(Init(n), add, false);
    Conflicting(s, a, b, jobs[a].origin);
    var s1 := Run(s, meet, false);
    Overtaking(s1, a, b, jobs[a].origin);
    var s2 := Run(s1, leave, false);
    assert RunsOn(s2, 0, jobs[a].origin) && RunsOn(s2, 1, jobs[a].origin);
  }

  /** The exact condition for the code as written, over all runs that add jobs of a catalogue: one
      device never runs two jobs at once if and only if there is at most one task or no device has
      two jobs. Leaving restarts out makes no difference. */
  lemma LiteralExclusiveIff(n: nat, jobs: Catalogue)
    ensures (forall actions :: AddsFrom(actions, jobs) ==> Exclusive(Run(Init(n), actions, false)))
       <==> n <= 1 || DevicesDistinct(jobs)
    ensures (forall actions :: Admissible(actions, jobs) ==> Exclusive(Run(Init(n), actions, false)))
       <==> n <= 1 || DevicesDistinct(jobs)
  {
    if n <= 1 || DevicesDistinct(jobs) {
      forall actions | AddsFrom(actions, jobs) ensures Exclusive(Run(Init(n), actions, false)) {
        ExclusiveWithoutConflicts(n, jobs, actions);
      }
    } else {
      var a, b :| a in jobs && b in jobs && jobs[a].origin == jobs[b].origin && a != b;
      ConflictRunsBoth(n, jobs, a, b);
    }
  }

  // ---------------------------------------------------------------- when tasks die

  /** A handling while the device is not connected, without a restart. */
  const OFFLINE := Env(0.0, false, Fails, 0)

  /** A job that has failed to reach its device at most `k` times and nothing else. */
  predicate Waits(job: Job, k: nat) {
    job.index < |job.subJobs| && job.status != CANCELLED && job.status != FAILED && job.counter <= k
  }

  lemma WaitsOn(job: Job, k: nat)
    requires Waits(job, k) && k <= 3
    ensures var h := Handle(job, OFFLINE);
            h.verdict == Again && Waits(h.job, k + 1) && h.job.origin == job.origin
  {}

  lemma EmptyFinishes(job: Job)
    requires job.subJobs == [] && job.index == 0
    ensures Handle(job, OFFLINE) == Handled(job, Finished)
  {}

  /** Two empty jobs run on one device: the first to end takes the claim of the second with it. */
  lemma EmptyJobsKill(s: State, a: string, b: string, origin: string)
    requires Both(s, a, b, origin) && At(s, [], map[origin := b], Running(a), Running(b))
    requires forall id :: id in {a, b} ==> s.jobs[id].subJobs == [] && s.jobs[id].index == 0
    ensures !AllAlive(Run(s, [Work(0, OFFLINE), Work(1, OFFLINE), Leave(0)] + [Leave(1)], false))
  {
    EmptyFinishes(s.jobs[a]);
    EmptyFinishes(s.jobs[b]);
    hide Handle;
    RunConcat(s, [Work(0, OFFLINE), Work(1, OFFLINE), Leave(0)], [Leave(1)], false);
    RunThree(s, Work(0, OFFLINE), Work(1, OFFLINE), Leave(0));
    var s1 := Step(s, Work(0, OFFLINE), false);
    assert At(s1, [], map[origin := b], Leaving(a, false, true), Running(b));
    var s2 := Step(s1, Work(1, OFFLINE), false);
    assert At(s2, [], map[origin := b], Leaving(a, false, true), Leaving(b, false, true));
    var s3 := Step(s2, Leave(0), false);
    assert map[origin := b] - {origin} == map[];
    assert At(s3, [], map[], Idle, Leaving(b, false, true));
    RunOne(s3, Leave(1));
    assert Step(s3, Leave(1), false).tasks[1].Dead?;
  }

  lemma RunOne(s: State, a: Action)
    ensures Run(s, [a], false) == Step(s, a, false)
  {
    assert [a][1..] == [];
  }

  /** Job `a` is handled once and waits for its device, which stays claimed. */
  lemma FirstWaits(s: State, a: string, b: string, origin: string)
    requires Both(s, a, b, origin) && At(s, [b], map[], Got(a), Idle) && Waits(s.jobs[a], 0)
    ensures var s' := Run(s, [Claim(0), Work(0, OFFLINE), Leave(0)], false);
            Both(s', a, b, origin) && At(s', [b, a], map[origin := a], Idle, Idle) && Waits(s'.jobs[a], 1)
  {
    WaitsOn(s.jobs[a], 0);
    hide Handle;
    hide Waits;
    RunThree(s, Claim(0), Work(0, OFFLINE), Leave(0));
    var s1 := Step(s, Claim(0), false);
    assert At(s1, [b], map[origin := a], Running(a), Idle) && s1.jobs == s.jobs;
    var s2 := Step(s1, Work(0, OFFLINE), false);
    assert At(s2, [b, a], map[origin := a], Leaving(a, true, true), Idle);
  }

  /** The first task meets the conflict with it, the second task takes it. */
  lemma FirstConflict(s: State, a: string, b: string, origin: string)
    requires Both(s, a, b, origin) && At(s, [b, a], map[origin := a], Idle, Idle)
    ensures var s' := Run(s, [Take(0), Claim(0), Take(1)], false);
            s'.jobs == s.jobs && At(s', [b], map[origin := a], Leaving(b, false, false), Got(a))
  {
    RunThree(s, Take(0), Claim(0), Take(1));
    var s1 := Step(s, Take(0), false);
    assert [b, a][1..] == [a] && At(s1, [a], map[origin := a], Got(b), Idle) && s1.jobs == s.jobs;
    var s2 := Step(s1, Claim(0), false);
    assert At(s2, [a, b], map[origin := a], Leaving(b, false, false), Idle) && s2.jobs == s.jobs;
    assert [a, b][1..] == [b];
  }

  /** It waits once more. */
  lemma SecondWaits(s: State, a: string, b: string, origin: string)
    requires Both(s, a, b, origin) && At(s, [b], map[origin := a], Leaving(b, false, false), Got(a))
    requires Waits(s.jobs[a], 1)
    ensures var s' := Run(s, [Claim(1), Work(1, OFFLINE), Leave(1)], false);
            Both(s', a, b, origin) && At(s', [b, a], map[origin := a], Leaving(b, false, false), Idle)
  {
    WaitsOn(s.jobs[a], 1);
    hide Handle;
    hide Waits;
    RunThree(s, Claim(1), Work(1, OFFLINE), Leave(1));
    var s1 := Step(s, Claim(1), false);
    assert At(s1, [b], map[origin := a], Leaving(b, false, false), Running(a)) && s1.jobs == s.jobs;
    var s2 := Step(s1, Work(1, OFFLINE), false);
    assert At(s2, [b, a], map[origin := a], Leaving(b, false, false), Leaving(a, true, true));
  }

  /** The second task meets the same conflict. Both pop the one claim, and one of them dies. */
  lemma SecondConflict(s: State, a: string, b: string, origin: string)
    requires Both(s, a, b, origin) && At(s, [b, a], map[origin := a], Leaving(b, false, false), Idle)
    ensures !AllAlive(Run(s, [Take(1), Claim(1), Leave(0)] + [Leave(1)], false))
  {
    RunConcat(s, [Take(1), Claim(1), Leave(0)], [Leave(1)], false);
    RunThree(s, Take(1), Claim(1), Leave(0));
    var s1 := Step(s, Take(1), false);
    assert [b, a][1..] == [a] && At(s1, [a], map[origin := a], Leaving(b, false, false), Got(b)) && s1.jobs == s.jobs;
    var s2 := Step(s1, Claim(1), false);
    assert At(s2, [a, b], map[origin := a], Leaving(b, false, false), Leaving(b, false, false)) && s2.jobs == s.jobs;
    var s3 := Step(s2, Leave(0), false);
    assert map[origin := a] - {origin} == map[];
    assert At(s3, [a, b], map[], Idle, Leaving(b, false, false)) && s3.jobs == s.jobs;
    RunOne(s3, Leave(1));
    assert Step(s3, Leave(1), false).tasks[1].Dead?;
  }

  /** The run from the first claim on. */
  function KillingRun(): seq<Action> {
    [Claim(0), Work(0, OFFLINE), Leave(0)]
    + ([Take(0), Claim(0), Take(1)]
       + ([Claim(1), Work(1, OFFLINE), Leave(1)] + ([Take(1), Claim(1), Leave(0)] + [Leave(1)])))
  }

  lemma KillingRunAdmissible(jobs: Catalogue)
    ensures Admissible(KillingRun(), jobs)
  {
    var one, two := [Claim(0), Work(0, OFFLINE), Leave(0)], [Take(0), Claim(0), Take(1)];
    var three, four := [Claim(1), Work(1, OFFLINE), Leave(1)], [Take(1), Claim(1), Leave(0)] + [Leave(1)];
    AdmissibleConcat(three, four, jobs);
    AdmissibleConcat(two, three + four, jobs);
    AdmissibleConcat(one, two + (three + four), jobs);
  }

  lemma WaitingJobKillsFrom(s: State, a: string, b: string, origin: string)
    requires Both(s, a, b, origin) && At(s, [b], map[], Got(a), Idle) && Waits(s.jobs[a], 0)
    ensures !AllAlive(Run(s, KillingRun(), false))
  {
    hide Step;
    hide AllAlive;
    hide Waits;
    var one, two := [Claim(0), Work(0, OFFLINE), Leave(0)], [Take(0), Claim(0), Take(1)];
    var three, four := [Claim(1), Work(1, OFFLINE), Leave(1)], [Take(1), Claim(1), Leave(0)] + [Leave(1)];
    RunConcat(s, one, two + (three + four), false);
    FirstWaits(s, a, b, origin);
    var s1 := Run(s, one, false);
    RunConcat(s1, two, three + four, false);
    FirstConflict(s1, a, b, origin);
    var s2 := Run(s1, two, false);
    RunConcat(s2, three, four, false);
    SecondWaits(s2, a, b, origin);
    SecondConflict(Run(s2, three, false), a, b, origin);
  }

  /** With a job that has work to do, and another one for the same device, a task can die. */
  lemma WaitingJobKills(n: nat, jobs: Catalogue, a: string, b: string)
    requires n >= 2 && a in jobs && b in jobs && a != b && jobs[a].origin == jobs[b].origin
    requires jobs[a].subJobs != []
    ensures var run := Adding(jobs, a, b) + KillingRun();
            Admissible(run, jobs) && !AllAlive(Run(Init(n), run, false))
  {
    var add := Adding(jobs, a, b);
    KillingRunAdmissible(jobs);
    AdmissibleConcat(add, KillingRun(), jobs);
    hide Admissible;
    hide KillingRun;
    RunConcat(Init(n), add, KillingRun(), false);
    AfterAdding(n, jobs, a, b);
    hide Step;
    WaitingJobKillsFrom(Run(Init(n), add, false), a, b, jobs[a].origin);
  }

  /** With two jobs that have nothing to do a task can die as well. */
  lemma EmptyPairKills(n: nat, jobs: Catalogue, a: string, b: string) returns (run: seq<Action>)
    requires n >= 2 && a in jobs && b in jobs && a != b && jobs[a].origin == jobs[b].origin
    requires jobs[a].subJobs == [] && jobs[b].subJobs == []
    ensures Admissible(run, jobs) && !AllAlive(Run(Init(n), run, false))
  {
    var end := [Work(0, OFFLINE), Work(1, OFFLINE), Leave(0)] + [Leave(1)];
    run := Overtake(jobs, a, b) + end;
    RunConcat(Init(n), Overtake(jobs, a, b), end, false);
    ConflictRunsBoth(n, jobs, a, b);
    AdmissibleConcat(Overtake(jobs, a, b), end, jobs);
    hide Admissible;
    hide Overtake;
    hide Step;
    EmptyJobsKill(Run(Init(n), Overtake(jobs, a, b), false), a, b, jobs[a].origin);
  }

  /** The exact condition under which no updater task ever dies, over all runs without restarts: the
      release is guarded by ownership, or there is at most one task, or no device has two jobs. The
      same condition makes the devices exclusive. */
  lemma TasksSurviveIff(owned: bool, n: nat, jobs: Catalogue)
    ensures (forall actions :: Admissible(actions, jobs) ==> AllAlive(Run(Init(n), actions, owned)))
       <==> owned || n <= 1 || DevicesDistinct(jobs)
  {
    if owned || n <= 1 || DevicesDistinct(jobs) {
      forall actions | Admissible(actions, jobs)
        ensures AllAlive(Run(Init(n), actions, owned))
      {
        InitConserved(n);
        if n <= 1 {
          RunKeepsAlone(Init(n), actions, owned);
        } else if owned {
          OwnedReleaseKeepsTasks(Init(n), actions);
        } else {
          RunKeepsSettled(Init(n), actions, jobs);
        }
      }
    } else {
      var a, b :| a in jobs && b in jobs && jobs[a].origin == jobs[b].origin && a != b;
      SharedDeviceKills(n, jobs, a, b);
    }
  }

  lemma SharedDeviceKills(n: nat, jobs: Catalogue, a: string, b: string)
    requires n >= 2 && a in jobs && b in jobs && a != b && jobs[a].origin == jobs[b].origin
    ensures exists run :: Admissible(run, jobs) && !AllAlive(Run(Init(n), run, false))
  {
    if jobs[a].subJobs != [] {
      WaitingJobKills(n, jobs, a, b);
    } else if jobs[b].subJobs != [] {
      WaitingJobKills(n, jobs, b, a);
    } else {
      var run := EmptyPairKills(n, jobs, a, b);
    }
  }

  /** Exclusivity with either release, over all runs without restarts. */
  lemma ExclusiveIff(owned: bool, n: nat, jobs: Catalogue)
    ensures (forall actions :: Admissible(actions, jobs) ==> Exclusive(Run(Init(n), actions, owned)))
       <==> owned || n <= 1 || DevicesDistinct(jobs)
  {
    if owned {
      forall actions | Admissible(actions, jobs) ensures Exclusive(Run(Init(n), actions, owned)) {
        InitConserved(n);
        OwnedReleaseExclusive(Init(n), actions);
      }
    } else {
      LiteralExclusiveIff(n, jobs);
    }
  }
}
