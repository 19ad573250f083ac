/** What the updater does with each single job: whatever the tasks and the other jobs do, a job is handled
    as if it were alone, and jobs are taken in the order in which they were queued. */
module UpdaterRuns {
  import opened DeviceJob
  import opened UpdaterQueue
  import opened Wrappers

  // ---------------------------------------------------------------- each job by itself

  /** Does this step handle the job? */
  predicate WorksOn(s: State, a: Action, id: string) {
    a.Work? && a.t < |s.tasks| && s.tasks[a.t] == Running(id) && id in s.jobs
  }

  /** The handlings of the job in a run, as they come. */
  function HandlingsOf(s: State, actions: seq<Action>, owned: bool, id: string): seq<Env>
    decreases |actions|
  {
    if actions == [] then []
    else
      (if WorksOn(s, actions[0], id) then [actions[0].env] else [])
      + HandlingsOf(Step(s, actions[0], owned), actions[1..], owned, id)
  }

  /** Do these handlings bring the job to its end? */
  predicate Ends(job: Job, envs: seq<Env>)
    decreases |envs|
  {
    envs != [] && (Handle(job, envs[0]).verdict != Again || Ends(Handle(job, envs[0]).job, envs[1..]))
  }

  /** A step that does not handle the job does nothing to it. */
  lemma OtherSteps(s: State, a: Action, owned: bool, id: string)
    requires id in s.jobs && !WorksOn(s, a, id)
    ensures var s' := Step(s, a, owned);
            id in s'.jobs && s'.jobs[id] == s.jobs[id] && (id in s'.finished <==> id in s.finished)
  {
    hide Handle;
  }

  lemma WorkingStep(s: State, a: Action, owned: bool, id: string)
    requires id in s.jobs && WorksOn(s, a, id) && id !in s.finished
    ensures var s', h := Step(s, a, owned), Handle(s.jobs[id], a.env);
            id in s'.jobs && s'.jobs[id] == h.job && (id in s'.finished <==> h.verdict == Finished)
  {
    hide Handle;
  }

  /** A finished job is left alone. */
  lemma {:induction false} FinishedStays(s: State, actions: seq<Action>, owned: bool, id: string)
    requires Conserved(s) && s.finished <= s.jobs.Keys && id in s.finished
    ensures HandlingsOf(s, actions, owned, id) == []
    ensures var s' := Run(s, actions, owned); id in s'.finished && id in s'.jobs && s'.jobs[id] == s.jobs[id]
    decreases |actions|
  {
    if actions != [] {
      var a := actions[0];
      if WorksOn(s, a, id) {
        HeldIsUnfinished(s, a.t);
        assert false;
      }
      OtherSteps(s, a, owned, id);
      StepKeepsConserved(s, a, owned);
      hide Step;
      FinishedStays(Step(s, a, owned), actions[1..], owned, id);
    }
  }

  /** In every interleaving, conflicts included, a job becomes what its own handlings make of it one after
      the other, as if nothing else went on; it is finished exactly when they bring it to its end. So what
      is proved of a single job over its handlings holds of each job of the updater. */
  lemma {:induction false} HandledAsIfAlone(s: State, actions: seq<Action>, owned: bool, id: string)
    requires Conserved(s) && s.finished <= s.jobs.Keys && id in s.jobs && id !in s.finished
    requires WithoutRestarts(actions)
    ensures var s', envs := Run(s, actions, owned), HandlingsOf(s, actions, owned, id);
            && id in s'.jobs && s'.jobs[id] == After(s.jobs[id], envs)
            && (id in s'.finished <==> Ends(s.jobs[id], envs))
            && NoRestarts(envs)
    decreases |actions|
  {
    if actions != [] {
      var a, rest := actions[0], actions[1..];
      var s1 := Step(s, a, owned);
      assert WithoutRestarts(rest) by {
        forall i | 0 <= i < |rest| ensures rest[i] == actions[i + 1] {}
      }
      StepKeepsConserved(s, a, owned);
      if WorksOn(s, a, id) {
        WorkingStep(s, a, owned, id);
        var h, envs := Handle(s.jobs[id], a.env), [a.env] + HandlingsOf(s1, rest, owned, id);
        NeverRestarted(s.jobs[id], a.env);
        assert envs[1..] == HandlingsOf(s1, rest, owned, id);
        hide Step;
        hide Handle;
        if h.verdict == Finished {
          FinishedStays(s1, rest, owned, id);
        } else {
          HandledAsIfAlone(s1, rest, owned, id);
        }
      } else {
        OtherSteps(s, a, owned, id);
        hide Step;
        hide Handle;
        HandledAsIfAlone(s1, rest, owned, id);
        assert HandlingsOf(s, actions, owned, id) == HandlingsOf(s1, rest, owned, id);
      }
    }
  }

  lemma NeverRestarted(job: Job, env: Env)
    requires env.restartMinutes == 0
    ensures Handle(job, env).verdict != Restarted
  {}

  /** So in every interleaving no sub-job of a job newly added is tried more than four times, and those that
      succeed do so once each and in order. */
  lemma EveryJobBounded(s: State, actions: seq<Action>, owned: bool, id: string, i: nat)
    requires Conserved(s) && s.finished <= s.jobs.Keys && id in s.jobs && id !in s.finished
    requires s.jobs[id] == Job(s.jobs[id].origin, s.jobs[id].subJobs, INIT, 0, None, 0) && WithoutRestarts(actions)
    ensures var tries := Tries(s.jobs[id], HandlingsOf(s, actions, owned, id));
            && CountTries(tries, i) <= (if i == 0 then 4 else 3)
            && Run(s, actions, owned).jobs.Keys >= {id}
            && Successes(tries) == Range(0, Run(s, actions, owned).jobs[id].index)
  {
    HandledAsIfAlone(s, actions, owned, id);
    var envs := HandlingsOf(s, actions, owned, id);
    TriesBounded(s.jobs[id], envs, i);
    SuccessesInOrder(s.jobs[id], envs);
    hide Tries;
    hide After;
  }

  // ---------------------------------------------------------------- first come, first served

  /** The jobs that tasks take in a run, in order. */
  function Taken(s: State, actions: seq<Action>, owned: bool): seq<string>
    decreases |actions|
  {
    if actions == [] then []
    else TakenBy(s, actions[0], owned) + Taken(Step(s, actions[0], owned), actions[1..], owned)
  }

  /** The job a step takes: an idle task has it afterwards. */
  function TakenBy(s: State, a: Action, owned: bool): seq<string> {
    var s1 := Step(s, a, owned);
    if a.Take? && a.t < |s.tasks| && s.tasks[a.t].Idle? && a.t < |s1.tasks| && s1.tasks[a.t].Got? then
      [s1.tasks[a.t].id]
    else []
  }

  /** What is taken is what was queued first, in its order: the jobs taken, and then those still queued, begin
      with those that were queued at the start. */
  lemma {:induction false} FirstComeFirstServed(s: State, actions: seq<Action>, owned: bool)
    ensures s.queue <= Taken(s, actions, owned) + Run(s, actions, owned).queue
    decreases |actions|
  {
    if actions != [] {
      var s1, rest := Step(s, actions[0], owned), actions[1..];
      QueueMoves(s, actions[0], owned);
      hide Step;
      hide TakenBy;
      FirstComeFirstServed(s1, rest, owned);
      Prefixes(s.queue, TakenBy(s, actions[0], owned), s1.queue, Taken(s1, rest, owned), Run(s1, rest, owned).queue);
    }
  }

  lemma Prefixes(queue: seq<string>, now: seq<string>, next: seq<string>, later: seq<string>, last: seq<string>)
    requires queue <= now + next && next <= later + last
    ensures queue <= now + later + last
  {
    assert now + later + last == now + (later + last);
  }

  /** One step takes the first of the queue, or adds at its end at most. */
  lemma QueueMoves(s: State, a: Action, owned: bool)
    ensures s.queue <= TakenBy(s, a, owned) + Step(s, a, owned).queue
    ensures a.Take? ==> s.queue == TakenBy(s, a, owned) + Step(s, a, owned).queue
  {
    hide Handle;
  }

  // ---------------------------------------------------------------- who loses a claim

  /** A task whose `finally` block is about to pop the claim of the device. */
  predicate PopsClaim(s: State, a: Action, owned: bool, origin: string) {
    a.Leave? && a.t < |s.tasks| && s.tasks[a.t].Leaving? && s.tasks[a.t].id in s.jobs
    && s.jobs[s.tasks[a.t].id].origin == origin
    && !s.tasks[a.t].requeue && (owned ==> s.tasks[a.t].claimed)
  }

  /** A job that holds its device loses it exactly by such a pop: not by being requeued, and not to a job that
      claims the device. */
  lemma ClaimLostIff(s: State, a: Action, owned: bool, id: string)
    requires HoldsClaim(s, id)
    ensures !HoldsClaim(Step(s, a, owned), id) <==> PopsClaim(s, a, owned, s.jobs[id].origin)
  {
    if a.Work? && a.t < |s.tasks| && s.tasks[a.t].Running? && s.tasks[a.t].id in s.jobs {
      OriginKept(s.jobs[s.tasks[a.t].id], a.env);
    }
    hide Handle;
  }
}
