/** The updater tasks around the job queue (updater.py, `_process_update_queue`), as steps of any
    number of tasks: take a job, claim its device, handle it, leave the device. */
module UpdaterQueue {
  import opened DeviceJob
  import opened Wrappers

  /** Where one updater task stands between two awaits. `requeue` and `claimed` are remembered for
      the `finally` block; `Dead` is a task that died of a KeyError. */
  datatype Task =
    | Idle
    | Got(id: string)
    | Running(id: string)
    | Leaving(id: string, requeue: bool, claimed: bool)
    | Dead

  datatype State = State(
    jobs: map<string, Job>,          // _log
    queue: seq<string>,              // _job_queue
    running: map<string, string>,    // _running_jobs_per_origin, origin to job id
    tasks: seq<Task>,
    finished: set<string>)

  datatype Action =
    | AddJob(id: string, origin: string, subJobs: seq<SubJob>)
    | Take(t: nat)
    | Claim(t: nat)
    | Work(t: nat, env: Env)
    | Leave(t: nat)

  function SetTask(s: State, t: nat, task: Task): State
    requires t < |s.tasks|
  {
    s.(tasks := s.tasks[t := task])
  }

  /** The `finally` block. As written it pops the entry of the device whoever holds it, and dies
      when there is none; with `owned` only a task that claimed the device gives it back. */
  function LeaveStep(s: State, t: nat, owned: bool): State
    requires t < |s.tasks| && s.tasks[t].Leaving? && s.tasks[t].id in s.jobs
  {
    var task := s.tasks[t];
    var origin := s.jobs[task.id].origin;
    if task.requeue || (owned && !task.claimed) then SetTask(s, t, Idle)
    else if origin in s.running then SetTask(s.(running := s.running - {origin}), t, Idle)
    else SetTask(s, t, Dead)
  }

  function ClaimStep(s: State, t: nat): State
    requires t < |s.tasks| && s.tasks[t].Got? && s.tasks[t].id in s.jobs
  {
    var id := s.tasks[t].id;
    var origin := s.jobs[id].origin;
    if origin in s.running && s.running[origin] != id then
      SetTask(s.(queue := s.queue + [id]), t, Leaving(id, false, false))
    else SetTask(s.(running := s.running[origin := id]), t, Running(id))
  }

  function WorkStep(s: State, t: nat, env: Env): State
    requires t < |s.tasks| && s.tasks[t].Running? && s.tasks[t].id in s.jobs
  {
    var id := s.tasks[t].id;
    var h := Handle(s.jobs[id], env);
    var s1 := s.(jobs := s.jobs[id := h.job]);
    match h.verdict
    case Again => SetTask(s1.(queue := s.queue + [id]), t, Leaving(id, true, true))
    case Restarted => SetTask(s1.(queue := s.queue + [id]), t, Leaving(id, false, true))
    case Finished => SetTask(s1.(finished := s.finished + {id}), t, Leaving(id, false, true))
  }

  /** One step; an action that is not enabled changes nothing. */
  function Step(s: State, a: Action, owned: bool): State {
    match a
    case AddJob(id, origin, subJobs) =>
      if id in s.jobs then s
      else s.(jobs := s.jobs[id := Job(origin, subJobs, INIT, 0, None, 0)], queue := s.queue + [id])
    case Take(t) =>
      if t < |s.tasks| && s.tasks[t].Idle? && s.queue != [] then
        SetTask(s.(queue := s.queue[1..]), t, Got(s.queue[0]))
      else s
    case Claim(t) =>
      if t < |s.tasks| && s.tasks[t].Got? && s.tasks[t].id in s.jobs then ClaimStep(s, t) else s
    case Work(t, env) =>
      if t < |s.tasks| && s.tasks[t].Running? && s.tasks[t].id in s.jobs then WorkStep(s, t, env) else s
    case Leave(t) =>
      if t < |s.tasks| && s.tasks[t].Leaving? && s.tasks[t].id in s.jobs then LeaveStep(s, t, owned) else s
  }

  function Run(s: State, actions: seq<Action>, owned: bool): State
    decreases |actions|
  {
    if actions == [] then s else Run(Step(s, actions[0], owned), actions[1..], owned)
  }

  function Init(n: nat): State {
    State(map[], [], map[], seq(n, _ => Idle), {})
  }

  // ---------------------------------------------------------------- no job is lost or duplicated

  predicate Holds(task: Task, id: string) {
    (task.Got? || task.Running?) && task.id == id
  }

  /** How many tasks have the job in hand. */
  function HeldCount(tasks: seq<Task>, id: string): nat {
    if tasks == [] then 0
    else HeldCount(tasks[..|tasks| - 1], id) + if Holds(tasks[|tasks| - 1], id) then 1 else 0
  }

  function QueueCount(queue: seq<string>, id: string): nat {
    multiset(queue)[id]
  }

  /** In how many places the job is: in the queue and in the hands of tasks. */
  function Places(s: State, id: string): nat {
    QueueCount(s.queue, id) + HeldCount(s.tasks, id)
  }

  predicate Unfinished(s: State, id: string) { id in s.jobs && id !in s.finished }

  /** Every unfinished job is in exactly one place, and no finished or unknown one is in any. */
  ghost predicate Conserved(s: State) {
    && (forall id :: Places(s, id) == if Unfinished(s, id) then 1 else 0)
    && (forall t :: 0 <= t < |s.tasks| && s.tasks[t].Leaving? ==> s.tasks[t].id in s.jobs)
  }

  lemma {:induction false} HeldUpdate(tasks: seq<Task>, t: nat, task: Task, id: string)
    requires t < |tasks|
    ensures HeldCount(tasks[t := task], id) + (if Holds(tasks[t], id) then 1 else 0)
         == HeldCount(tasks, id) + if Holds(task, id) then 1 else 0
    decreases |tasks|
  {
    var n := |tasks| - 1;
    if t == n {
      assert tasks[t := task][..n] == tasks[..n];
    } else {
      assert tasks[t := task][..n] == tasks[..n][t := task];
      HeldUpdate(tasks[..n], t, task, id);
    }
  }

  lemma {:induction false} HeldContains(tasks: seq<Task>, t: nat, id: string)
    requires t < |tasks| && Holds(tasks[t], id)
    ensures HeldCount(tasks, id) >= 1
    decreases |tasks|
  {
    if t < |tasks| - 1 {
      HeldContains(tasks[..|tasks| - 1], t, id);
    }
  }

  lemma {:induction false} HeldIdle(n: nat, id: string)
    ensures HeldCount(seq(n, _ => Idle), id) == 0
  {
    if n > 0 {
      HeldIdle(n - 1, id);
      assert seq(n, _ => Idle)[..n - 1] == seq(n - 1, _ => Idle);
    }
  }

  lemma QueuePut(queue: seq<string>, x: string, id: string)
    ensures QueueCount(queue + [x], id) == QueueCount(queue, id) + if x == id then 1 else 0
  {}

  lemma QueueGet(queue: seq<string>, id: string)
    requires queue != []
    ensures QueueCount(queue[1..], id) + (if queue[0] == id then 1 else 0) == QueueCount(queue, id)
  {
    assert queue == [queue[0]] + queue[1..];
  }

  /** A held job is in the log and unfinished. */
  lemma HeldIsUnfinished(s: State, t: nat)
    requires Conserved(s) && t < |s.tasks| && (s.tasks[t].Got? || s.tasks[t].Running?)
    ensures Unfinished(s, s.tasks[t].id)
  {
    HeldContains(s.tasks, t, s.tasks[t].id);
    assert Places(s, s.tasks[t].id) >= 1;
  }

  /** One task moves on and the queue changes by at most one job: the places afterwards. */
  lemma PlacesAfter(s: State, queue: seq<string>, t: nat, task: Task, id: string)
    requires t < |s.tasks|
    ensures QueueCount(queue, id) + HeldCount(s.tasks[t := task], id)
         == Places(s, id) + QueueCount(queue, id) - QueueCount(s.queue, id)
            + (if Holds(task, id) then 1 else 0) - (if Holds(s.tasks[t], id) then 1 else 0)
  {
    HeldUpdate(s.tasks, t, task, id);
  }

  lemma TakeKeepsConserved(s: State, t: nat)
    requires Conserved(s) && t < |s.tasks| && s.tasks[t].Idle? && s.queue != []
    ensures Conserved(SetTask(s.(queue := s.queue[1..]), t, Got(s.queue[0])))
  {
    var s' := SetTask(s.(queue := s.queue[1..]), t, Got(s.queue[0]));
    forall id ensures Places(s', id) == Places(s, id) {
      QueueGet(s.queue, id);
      PlacesAfter(s, s.queue[1..], t, Got(s.queue[0]), id);
    }
  }

  lemma AddKeepsConserved(s: State, id: string, job: Job)
    requires Conserved(s) && id !in s.jobs && id !in s.finished
    ensures Conserved(s.(jobs := s.jobs[id := job], queue := s.queue + [id]))
  {
    var s' := s.(jobs := s.jobs[id := job], queue := s.queue + [id]);
    forall x ensures Places(s', x) == Places(s, x) + if x == id then 1 else 0 {
      QueuePut(s.queue, id, x);
    }
  }

  lemma ClaimKeepsConserved(s: State, t: nat)
    requires Conserved(s) && t < |s.tasks| && s.tasks[t].Got? && s.tasks[t].id in s.jobs
    ensures Conserved(ClaimStep(s, t))
  {
    var s' := ClaimStep(s, t);
    forall id ensures Places(s', id) == Places(s, id) {
      QueuePut(s.queue, s.tasks[t].id, id);
      PlacesAfter(s, s'.queue, t, s'.tasks[t], id);
    }
  }

  lemma WorkKeepsConserved(s: State, t: nat, env: Env)
    requires Conserved(s) && t < |s.tasks| && s.tasks[t].Running? && s.tasks[t].id in s.jobs
    ensures Conserved(WorkStep(s, t, env))
  {
    var s' := WorkStep(s, t, env);
    var done := s.tasks[t].id;
    var finishes := Handle(s.jobs[done], env).verdict == Finished;
    HeldIsUnfinished(s, t);
    forall id
      ensures Places(s', id) == Places(s, id) - if finishes && id == done then 1 else 0
      ensures Unfinished(s', id) == (Unfinished(s, id) && !(finishes && id == done))
    {
      QueuePut(s.queue, done, id);
      PlacesAfter(s, s'.queue, t, s'.tasks[t], id);
    }
  }

  lemma LeaveKeepsConserved(s: State, t: nat, owned: bool)
    requires Conserved(s) && t < |s.tasks| && s.tasks[t].Leaving? && s.tasks[t].id in s.jobs
    ensures Conserved(LeaveStep(s, t, owned))
  {
    var s' := LeaveStep(s, t, owned);
    forall id ensures Places(s', id) == Places(s, id) {
      PlacesAfter(s, s.queue, t, s'.tasks[t], id);
    }
  }

  lemma StepKeepsConserved(s: State, a: Action, owned: bool)
    requires Conserved(s) && s.finished <= s.jobs.Keys
    ensures Conserved(Step(s, a, owned)) && Step(s, a, owned).finished <= Step(s, a, owned).jobs.Keys
  {
    if Step(s, a, owned) != s {
      match a
      case AddJob(id, origin, subJobs) => AddKeepsConserved(s, id, Job(origin, subJobs, INIT, 0, None, 0));
      case Take(t) => TakeKeepsConserved(s, t);
      case Claim(t) => ClaimKeepsConserved(s, t);
      case Work(t, env) => WorkKeepsConserved(s, t, env);
      case Leave(t) => LeaveKeepsConserved(s, t, owned);
    }
  }

  /** In every interleaving of any number of tasks, as written or with the ownership check, over
      device conflicts and restarts of unconnected devices: each unfinished job is in exactly one
      place, queued once or held by one task. */
  lemma {:induction false} NoJobLost(s: State, actions: seq<Action>, owned: bool)
    requires Conserved(s) && s.finished <= s.jobs.Keys
    ensures Conserved(Run(s, actions, owned))
    decreases |actions|
  {
    if actions != [] {
      StepKeepsConserved(s, actions[0], owned);
      NoJobLost(Step(s, actions[0], owned), actions[1..], owned);
    }
  }

  lemma InitConserved(n: nat)
    ensures Conserved(Init(n))
  {
    forall id ensures Places(Init(n), id) == 0 {
      HeldIdle(n, id);
    }
  }

  // ---------------------------------------------------------------- one job per device

  predicate RunsOn(s: State, t: nat, origin: string) {
    t < |s.tasks| && s.tasks[t].Running? && s.tasks[t].id in s.jobs && s.jobs[s.tasks[t].id].origin == origin
  }

  /** No two tasks run jobs on the same device at once. */
  ghost predicate Exclusive(s: State) {
    forall t: nat, u: nat, origin :: RunsOn(s, t, origin) && RunsOn(s, u, origin) ==> t == u
  }

  predicate HoldsClaim(s: State, id: string) {
    id in s.jobs && s.jobs[id].origin in s.running && s.running[s.jobs[id].origin] == id
  }

  /** A task whose `finally` block will give its claim back. */
  predicate GivesBack(task: Task) { task.Leaving? && task.claimed && !task.requeue }

  /** Who runs a job holds the claim of its device, and so does who is about to give it back,
      once for every finished job. */
  ghost predicate Claims(s: State) {
    && (forall t :: 0 <= t < |s.tasks| && s.tasks[t].Running? ==> HoldsClaim(s, s.tasks[t].id))
    && (forall t :: 0 <= t < |s.tasks| && GivesBack(s.tasks[t]) ==>
          HoldsClaim(s, s.tasks[t].id) && s.tasks[t].id in s.finished)
    && (forall t, u :: 0 <= t < u < |s.tasks| && GivesBack(s.tasks[t]) && GivesBack(s.tasks[u]) ==>
          s.tasks[t].id != s.tasks[u].id)
  }

  lemma {:induction false} HeldTwice(tasks: seq<Task>, t: nat, u: nat, id: string)
    requires t < u < |tasks| && Holds(tasks[t], id) && Holds(tasks[u], id)
    ensures HeldCount(tasks, id) >= 2
    decreases |tasks|
  {
    var n := |tasks| - 1;
    if u < n {
      HeldTwice(tasks[..n], t, u, id);
    } else {
      HeldContains(tasks[..n], t, id);
    }
  }

  lemma ClaimsExclude(s: State)
    requires Conserved(s) && Claims(s)
    ensures Exclusive(s)
  {
    forall t: nat, u: nat, origin | RunsOn(s, t, origin) && RunsOn(s, u, origin) ensures t == u {
      var id := s.tasks[t].id;
      assert s.tasks[u].id == id;
      assert Places(s, id) <= 1;
      if t < u {
        HeldTwice(s.tasks, t, u, id);
      } else if u < t {
        HeldTwice(s.tasks, u, t, id);
      }
    }
  }

  predicate WithoutRestarts(actions: seq<Action>) {
    forall i :: 0 <= i < |actions| && actions[i].Work? ==> actions[i].env.restartMinutes == 0
  }

  lemma OriginKept(job: Job, env: Env)
    ensures Handle(job, env).job.origin == job.origin
  {}

  lemma StepKeepsClaims(s: State, a: Action)
    requires Conserved(s) && Claims(s)
    requires a.Work? ==> a.env.restartMinutes == 0
    ensures Claims(Step(s, a, true))
  {
    var s' := Step(s, a, true);
    if s' != s {
      match a
      case AddJob(id, origin, subJobs) =>
      case Take(t) =>
      case Claim(t) => ClaimKeepsClaims(s, t);
      case Work(t, env) => WorkKeepsClaims(s, t, env);
      case Leave(t) => LeaveKeepsClaims(s, t);
    }
  }

  lemma ClaimKeepsClaims(s: State, t: nat)
    requires Conserved(s) && Claims(s) && t < |s.tasks| && s.tasks[t].Got? && s.tasks[t].id in s.jobs
    ensures Claims(ClaimStep(s, t))
  {}

  lemma WorkKeepsClaims(s: State, t: nat, env: Env)
    requires Conserved(s) && Claims(s) && t < |s.tasks| && s.tasks[t].Running? && s.tasks[t].id in s.jobs
    requires env.restartMinutes == 0
    ensures Claims(WorkStep(s, t, env))
  {
    var s' := WorkStep(s, t, env);
    HeldIsUnfinished(s, t);
    OriginKept(s.jobs[s.tasks[t].id], env);
    forall id | HoldsClaim(s, id) ensures HoldsClaim(s', id) {}
    forall u | 0 <= u < |s.tasks| && GivesBack(s.tasks[u]) ensures s.tasks[u].id != s.tasks[t].id {}
  }

  lemma LeaveKeepsClaims(s: State, t: nat)
    requires Conserved(s) && Claims(s) && t < |s.tasks| && s.tasks[t].Leaving? && s.tasks[t].id in s.jobs
    ensures Claims(LeaveStep(s, t, true))
  {
    var s' := LeaveStep(s, t, true);
    if GivesBack(s.tasks[t]) {
      var gone := s.tasks[t].id;
      forall id | HoldsClaim(s, id) && id != gone ensures HoldsClaim(s', id) {}
      forall u | 0 <= u < |s.tasks| && s.tasks[u].Running? ensures s.tasks[u].id != gone {
        HeldIsUnfinished(s, u);
      }
    }
  }

  /** With the claim given back only by whoever took it, and no restarts, no two tasks ever
      run jobs on one device at once. */
  lemma {:induction false} OwnedReleaseExclusive(s: State, actions: seq<Action>)
    requires Conserved(s) && s.finished <= s.jobs.Keys && Claims(s) && WithoutRestarts(actions)
    ensures Exclusive(Run(s, actions, true))
    decreases |actions|
  {
    if actions == [] {
      ClaimsExclude(s);
    } else {
      StepKeepsConserved(s, actions[0], true);
      StepKeepsClaims(s, actions[0]);
      OwnedReleaseExclusive(Step(s, actions[0], true), actions[1..]);
    }
  }

  /** Nor does a task die then: whoever gives a claim back finds it. */
  lemma {:induction false} OwnedReleaseKeepsTasks(s: State, actions: seq<Action>)
    requires Conserved(s) && s.finished <= s.jobs.Keys && Claims(s) && WithoutRestarts(actions)
    requires AllAlive(s)
    ensures AllAlive(Run(s, actions, true))
    decreases |actions|
  {
    if actions != [] {
      StepKeepsConserved(s, actions[0], true);
      StepKeepsClaims(s, actions[0]);
      OwnedStepKeepsTasks(s, actions[0]);
      OwnedReleaseKeepsTasks(Step(s, actions[0], true), actions[1..]);
    }
  }

  lemma OwnedStepKeepsTasks(s: State, a: Action)
    requires Claims(s) && AllAlive(s)
    ensures AllAlive(Step(s, a, true))
  {}

  predicate AllAlive(s: State) {
    forall t :: 0 <= t < |s.tasks| ==> !s.tasks[t].Dead?
  }
}
