/** One handling of a manual device job (updater.py, `__handle_job`): a chain of sub-jobs with
    waiting times, retries, cancellation and the restart of jobs of unconnected devices. */
module DeviceJob {
  import opened Wrappers

  datatype JobStatus =
    | NONE | INIT | PENDING | STARTING | PROCESSING | NOT_CONNECTED | NOT_REQUIRED | NOT_SUPPORTED
    | CANCELLED | INTERRUPTED | FAILING | FAILED | FUTURE | SUCCESS

  /** Waiting time in minutes before the sub-job, if any. */
  datatype SubJob = SubJob(waittime: Option<int>)

  datatype Job = Job(
    origin: string,
    subJobs: seq<SubJob>,
    status: JobStatus,
    counter: nat,
    processingDate: Option<real>,
    index: nat)

  datatype Outcome = Succeeds | Fails | Raises

  /** What one handling meets: the clock, whether the device is connected, how the sub-job ends,
      and the argument job_restart_notconnect in minutes. */
  datatype Env = Env(now: real, connected: bool, outcome: Outcome, restartMinutes: nat)

  /** `Again` is a false return: the caller requeues. `Restarted` was requeued by the handling. */
  datatype Verdict = Finished | Again | Restarted

  datatype Handled = Handled(job: Job, verdict: Verdict)

  function Floor(t: real): real { t.Floor as real }

  /** `restart_job`. */
  function Restart(job: Job, now: real): Job {
    var keep := job.processingDate.Some? && job.processingDate.value >= Floor(now);
    job.(counter := 0, index := 0, status := PENDING,
         processingDate := if keep then job.processingDate else None)
  }

  /** The date before which the sub-job is not to run, set once per job. */
  function Scheduled(job: Job, now: real): Job
    requires job.index < |job.subJobs|
  {
    var wait := job.subJobs[job.index].waittime;
    if job.processingDate.None? && wait.Some? then
      job.(processingDate := Some(Floor(now) + 60.0 * wait.value as real))
    else job
  }

  predicate IsDue(job: Job, now: real) {
    job.processingDate.None? || job.processingDate.value <= now
  }

  /** A job the handling gives up before looking at the device. */
  function GiveUp(job: Job, env: Env): Option<Handled> {
    if |job.subJobs| <= job.index || job.status == CANCELLED || job.status == FAILED then
      Some(Handled(job, Finished))
    else if job.counter > 3 then
      if job.status == FAILING then Some(Handled(job.(status := FAILED), Finished))
      else if job.status == NOT_CONNECTED && env.restartMinutes > 0 then
        var date := env.now + 60.0 * env.restartMinutes as real;
        Some(Handled(Restart(job.(processingDate := Some(date)), env.now), Restarted))
      else Some(Handled(job, Finished))
    else None
  }

  function Handle(job: Job, env: Env): Handled {
    var given := GiveUp(job, env);
    if given.Some? then given.value
    else
      var scheduled := Scheduled(job, env.now);
      if !IsDue(scheduled, env.now) then Handled(scheduled.(status := FUTURE), Again)
      else
        var started := scheduled.(processingDate := Some(Floor(env.now)));
        if !env.connected then
          Handled(started.(status := NOT_CONNECTED, counter := job.counter + 1,
                           processingDate := Some(Floor(env.now) + 60.0)), Again)
        else match env.outcome
          case Succeeds => Handled(started.(index := job.index + 1, status := SUCCESS, counter := 1), Again)
          case Fails => Handled(started.(status := FAILING, counter := job.counter + 1), Again)
          case Raises => Handled(started.(status := INTERRUPTED, counter := job.counter + 1), Again)
  }

  // ---------------------------------------------------------------- the method

  /** GlobalJobLogEntry.py. */
  class GlobalJobLogEntry {
    const origin: string
    const subJobs: seq<SubJob>
    var lastStatus: JobStatus
    var counter: nat
    var processingDate: Option<real>
    var subJobIndex: nat

    constructor (origin: string, subJobs: seq<SubJob>)
      ensures View() == Job(origin, subJobs, INIT, 0, None, 0)
    {
      this.origin, this.subJobs := origin, subJobs;
      lastStatus, counter, processingDate, subJobIndex := INIT, 0, None, 0;
    }

    ghost function View(): Job
      reads this
    {
      Job(origin, subJobs, lastStatus, counter, processingDate, subJobIndex)
    }

    /** `restart_job` on an entry that is in the log. */
    method RestartJob(now: real)
      modifies this
      ensures View() == Restart(old(View()), now)
    {
      counter := 0;
      subJobIndex := 0;
      if processingDate.None? || processingDate.value < Floor(now) {
        processingDate := None;
      }
      lastStatus := PENDING;
    }

    /** `__handle_job` for a manual job. */
    method HandleJob(env: Env) returns (verdict: Verdict)
      modifies this
      ensures Handled(View(), verdict) == Handle(old(View()), env)
    {
      if |subJobs| <= subJobIndex {
        return Finished;
      }
      if lastStatus == CANCELLED {
        return Finished;
      } else if lastStatus == FAILED {
        return Finished;
      } else if counter > 3 {
        if lastStatus == FAILING {
          lastStatus := FAILED;
        } else if lastStatus == NOT_CONNECTED && env.restartMinutes > 0 {
          processingDate := Some(env.now + 60.0 * env.restartMinutes as real);
          RestartJob(env.now);
          return Restarted;
        }
        return Finished;
      }

      if processingDate.None? {
        if subJobs[subJobIndex].waittime.Some? {
          if processingDate.None? {
            processingDate := Some(Floor(env.now));
          }
          processingDate := Some(processingDate.value + 60.0 * subJobs[subJobIndex].waittime.value as real);
        }
      }
      if processingDate.Some? && processingDate.value > env.now {
        lastStatus := FUTURE;
        return Again;
      }

      lastStatus := PROCESSING;
      processingDate := Some(Floor(env.now));
      if !env.connected {
        lastStatus := NOT_CONNECTED;
        counter := counter + 1;
        processingDate := Some(Floor(env.now) + 60.0);
        return Again;
      }

      lastStatus := STARTING;
      match env.outcome {
        case Succeeds =>
          subJobIndex := subJobIndex + 1;
          lastStatus := SUCCESS;
          counter := 0;
        case Fails =>
          lastStatus := FAILING;
        case Raises =>
          lastStatus := INTERRUPTED;
      }
      counter := counter + 1;
      return Again;
    }
  }

  // ---------------------------------------------------------------- one handling

  /** Without restarts every handling that neither waits nor finishes gets closer to the end:
      fewer sub-jobs are left, or fewer tries at the same one. */
  lemma HandleDecreases(job: Job, env: Env)
    requires env.restartMinutes == 0
    requires Handle(job, env).verdict == Again && Handle(job, env).job.status != FUTURE
    ensures var job' := Handle(job, env).job;
            && job'.subJobs == job.subJobs && job.index <= job'.index <= |job.subJobs|
            && 1 <= job'.counter <= 4
            && (job'.index == job.index ==> job'.counter == job.counter + 1)
            && (job'.index > job.index ==> job'.index == job.index + 1 && job'.counter == 1)
            && Effort(job') < Effort(job)
  {}

  /** Handlings that are still to come at most: the tries left at the current sub-job and three
      for every later one, as a success leaves the counter at 1. */
  function Effort(job: Job): nat {
    if job.index >= |job.subJobs| then 0
    else (if job.counter <= 4 then 4 - job.counter else 0) + 3 * (|job.subJobs| - job.index - 1)
  }

  /** Once the effort is used up the next handling finishes the job. */
  lemma SpentJobFinishes(job: Job, env: Env)
    requires env.restartMinutes == 0 && Effort(job) == 0
    ensures Handle(job, env).verdict == Finished
  {}

  // ---------------------------------------------------------------- many handlings

  /** A try at a sub-job; it leaves the job with one of the three outcomes as status. */
  datatype Try = Try(index: nat, ok: bool)

  function TriesOf(job: Job, env: Env): seq<Try> {
    var h := Handle(job, env);
    if h.verdict == Again && h.job.status in {SUCCESS, FAILING, INTERRUPTED} then
      [Try(job.index, h.job.status == SUCCESS)]
    else []
  }

  /** The job after being handled again and again until it is finished or `envs` is used up. */
  function After(job: Job, envs: seq<Env>): Job
    decreases |envs|
  {
    if envs == [] then job
    else
      var h := Handle(job, envs[0]);
      if h.verdict == Again then After(h.job, envs[1..]) else h.job
  }

  function Tries(job: Job, envs: seq<Env>): seq<Try>
    decreases |envs|
  {
    if envs == [] then []
    else
      var h := Handle(job, envs[0]);
      TriesOf(job, envs[0]) + if h.verdict == Again then Tries(h.job, envs[1..]) else []
  }

  /** Number of handlings in which the job was neither waiting nor finished. */
  function Handlings(job: Job, envs: seq<Env>): nat
    decreases |envs|
  {
    if envs == [] then 0
    else
      var h := Handle(job, envs[0]);
      if h.verdict != Again then 0
      else (if h.job.status == FUTURE then 0 else 1) + Handlings(h.job, envs[1..])
  }

  predicate NoRestarts(envs: seq<Env>) {
    forall i :: 0 <= i < |envs| ==> envs[i].restartMinutes == 0
  }

  /** Termination with its bound: a job of n sub-jobs that starts afresh is handled effectively
      at most 3n + 1 times, however long it runs. */
  lemma {:induction false} HandlingsBounded(job: Job, envs: seq<Env>)
    requires NoRestarts(envs)
    ensures Handlings(job, envs) <= Effort(job)
    ensures job.counter == 0 && job.index == 0 ==> Handlings(job, envs) <= 3 * |job.subJobs| + 1
    decreases |envs|
  {
    if envs != [] {
      var h := Handle(job, envs[0]);
      if h.verdict == Again {
        HandlingsBounded(h.job, envs[1..]);
        if h.job.status == FUTURE {
          WaitingKeeps(job, envs[0]);
        } else {
          HandleDecreases(job, envs[0]);
        }
      }
    }
  }

  lemma WaitingKeeps(job: Job, env: Env)
    requires Handle(job, env).verdict == Again && Handle(job, env).job.status == FUTURE
    ensures var job' := Handle(job, env).job;
            && job' == job.(status := FUTURE, processingDate := job'.processingDate)
            && TriesOf(job, env) == []
  {}

  function CountTries(tries: seq<Try>, index: nat): nat {
    if tries == [] then 0 else (if tries[0].index == index then 1 else 0) + CountTries(tries[1..], index)
  }

  /** How often sub-job `i` may still be tried. */
  function TriesLeft(job: Job, i: nat): nat {
    if i < job.index then 0
    else if i == job.index then (if job.counter <= 4 then 4 - job.counter else 0)
    else 3
  }

  /** No sub-job is tried more than four times, and none but the first more than three times. */
  lemma {:induction false} TriesBounded(job: Job, envs: seq<Env>, i: nat)
    requires NoRestarts(envs)
    ensures CountTries(Tries(job, envs), i) <= TriesLeft(job, i)
    decreases |envs|
  {
    if envs != [] {
      TryMoves(job, envs[0]);
      TrySpends(job, envs[0], i);
      hide Handle;
      hide TriesOf;
      hide TriesLeft;
      var h, now := Handle(job, envs[0]), TriesOf(job, envs[0]);
      if h.verdict == Again {
        TriesBounded(h.job, envs[1..], i);
        CountJoin(now, Tries(h.job, envs[1..]), i);
      } else {
        assert Tries(job, envs) == now + [];
        CountJoin(now, [], i);
      }
    }
  }

  /** A handling moves the index on exactly by a successful try at it. */
  lemma TryMoves(job: Job, env: Env)
    requires env.restartMinutes == 0
    ensures var h, tries := Handle(job, env), TriesOf(job, env);
            && (tries == [] || (h.verdict == Again && |tries| == 1 && tries[0].index == job.index))
            && h.job.index == job.index + if tries == [Try(job.index, true)] then 1 else 0
  {}

  /** A handling takes at least as many tries from what is left as it makes. */
  lemma TrySpends(job: Job, env: Env, i: nat)
    requires env.restartMinutes == 0
    ensures var h, tries := Handle(job, env), TriesOf(job, env);
            (h.verdict == Again ==> CountTries(tries, i) + TriesLeft(h.job, i) <= TriesLeft(job, i))
  {
    if TriesOf(job, env) != [] {
      assert TriesOf(job, env)[1..] == [];
    }
  }

  lemma CountJoin(now: seq<Try>, later: seq<Try>, i: nat)
    requires |now| <= 1
    ensures CountTries(now + later, i) == CountTries(now, i) + CountTries(later, i)
  {
    if now == [] {
      assert now + later == later;
    } else {
      assert (now + later)[1..] == later && now[1..] == [];
    }
  }

  /** The indices of the successful tries, in order. */
  function Successes(tries: seq<Try>): seq<nat> {
    if tries == [] then []
    else (if tries[0].ok then [tries[0].index] else []) + Successes(tries[1..])
  }

  function Range(from: nat, to: nat): seq<nat>
    decreases to - from
  {
    if from >= to then [] else [from] + Range(from + 1, to)
  }

  /** What was executed successfully is always exactly the sub-jobs up to the index, once each
      and in order. */
  lemma {:induction false} SuccessesInOrder(job: Job, envs: seq<Env>)
    requires NoRestarts(envs)
    ensures job.index <= After(job, envs).index
    ensures Successes(Tries(job, envs)) == Range(job.index, After(job, envs).index)
    decreases |envs|
  {
    if envs != [] {
      TryMoves(job, envs[0]);
      hide Handle;
      hide TriesOf;
      var h, now := Handle(job, envs[0]), TriesOf(job, envs[0]);
      if h.verdict == Again {
        SuccessesInOrder(h.job, envs[1..]);
        SuccessesJoin(now, Tries(h.job, envs[1..]));
        SuccessOf(now);
      } else {
        assert After(job, envs).index == job.index;
      }
    }
  }

  lemma SuccessOf(now: seq<Try>)
    requires |now| <= 1
    ensures Successes(now) == if |now| == 1 && now[0].ok then [now[0].index] else []
  {
    if now != [] {
      assert now[1..] == [];
    }
  }

  lemma SuccessesJoin(now: seq<Try>, later: seq<Try>)
    requires |now| <= 1
    ensures Successes(now + later) == Successes(now) + Successes(later)
  {
    if now == [] {
      assert now + later == later;
    } else {
      assert (now + later)[1..] == later && now[1..] == [];
    }
  }

  /** A restart forgets everything but a date still to come: whatever became of a job, it makes the
      tries of a job newly added with that date, from the first sub-job on. */
  lemma RestartStartsOver(job: Job, now: real, envs: seq<Env>)
    requires NoRestarts(envs)
    ensures var again := Restart(job, now);
            var added := Job(job.origin, job.subJobs, INIT, 0, again.processingDate, 0);
            && (again.processingDate.Some? ==>
                  again.processingDate == job.processingDate && Floor(now) <= again.processingDate.value)
            && (again.processingDate.None? ==> IsDue(job, Floor(now)))
            && Tries(again, envs) == Tries(added, envs) && Handlings(again, envs) == Handlings(added, envs)
            && Successes(Tries(again, envs)) == Range(0, After(again, envs).index)
  {
    var again := Restart(job, now);
    var added := Job(job.origin, job.subJobs, INIT, 0, again.processingDate, 0);
    SuccessesInOrder(again, envs);
    if envs != [] {
      PendingLikeNew(added, envs[0]);
      hide Handle;
      hide TriesOf;
    }
  }

  lemma PendingLikeNew(job: Job, env: Env)
    requires job.status == INIT && job.counter == 0
    ensures var pending := job.(status := PENDING);
            && TriesOf(pending, env) == TriesOf(job, env)
            && Handle(pending, env).verdict == Handle(job, env).verdict
            && (Handle(job, env).verdict == Again ==> Handle(pending, env) == Handle(job, env))
  {}

  /** Once a job carries a processing date the waiting times of its sub-jobs make no difference to
      anything it does. */
  lemma {:induction false} LaterWaitTimesIgnored(job: Job, other: seq<SubJob>, envs: seq<Env>)
    requires NoRestarts(envs) && job.processingDate.Some? && |other| == |job.subJobs|
    ensures Tries(job.(subJobs := other), envs) == Tries(job, envs)
    ensures After(job.(subJobs := other), envs) == After(job, envs).(subJobs := other)
    decreases |envs|
  {
    if envs != [] {
      var h, h2 := Handle(job, envs[0]), Handle(job.(subJobs := other), envs[0]);
      assert h2 == Handled(h.job.(subJobs := other), h.verdict);
      if h.verdict == Again {
        LaterWaitTimesIgnored(h.job, other, envs[1..]);
      }
    }
  }

  /** The first handling sets that date, so for a new job only a waiting time of its first sub-job
      makes a difference. */
  lemma OnlyFirstWaitTimeCounts(job: Job, other: seq<SubJob>, envs: seq<Env>)
    requires NoRestarts(envs) && job.index == 0 && |other| == |job.subJobs|
    requires other != [] ==> other[0] == job.subJobs[0]
    ensures Tries(job.(subJobs := other), envs) == Tries(job, envs)
    ensures After(job.(subJobs := other), envs) == After(job, envs).(subJobs := other)
  {
    if envs != [] {
      var h, h2 := Handle(job, envs[0]), Handle(job.(subJobs := other), envs[0]);
      assert h2 == Handled(h.job.(subJobs := other), h.verdict);
      if h.verdict == Again {
        LaterWaitTimesIgnored(h.job, other, envs[1..]);
      }
    }
  }

  // ---------------------------------------------------------------- waiting

  /** All these handlings come before the date. */
  predicate AllBefore(envs: seq<Env>, date: real) { forall i :: 0 <= i < |envs| ==> envs[i].now < date }

  /** The job has a sub-job to try and tries left, and has not been given up. */
  predicate Live(job: Job) {
    job.index < |job.subJobs| && job.counter <= 3 && job.status != CANCELLED && job.status != FAILED
  }

  /** A job with a date waits for it: as long as the date is not reached nothing is tried, and the job is
      shown as to be run in the future. */
  lemma {:induction false} WaitsForDate(job: Job, date: real, envs: seq<Env>)
    requires Live(job) && job.processingDate == Some(date) && AllBefore(envs, date)
    ensures Tries(job, envs) == []
    ensures After(job, envs) == if envs == [] then job else job.(status := FUTURE)
    decreases |envs|
  {
    if envs != [] {
      assert envs[0].now < date;
      WaitsForDate(job.(status := FUTURE), date, envs[1..]);
    }
  }

  lemma {:induction false} AfterWaiting(job: Job, date: real, early: seq<Env>, more: seq<Env>)
    requires Live(job) && job.processingDate == Some(date) && AllBefore(early, date)
    ensures Tries(job, early + more) == Tries(After(job, early), more)
    ensures After(job, early + more) == After(After(job, early), more)
    decreases |early|
  {
    if early == [] {
      assert early + more == more;
    } else {
      assert early[0].now < date;
      assert (early + more)[1..] == early[1..] + more;
      AfterWaiting(job.(status := FUTURE), date, early[1..], more);
    }
  }

  function StatusOf(outcome: Outcome): JobStatus {
    match outcome
    case Succeeds => SUCCESS
    case Fails => FAILING
    case Raises => INTERRUPTED
  }

  /** What becomes of a job at a handling in which it is due: it is tried if the device is connected, or
      put off for a minute. */
  predicate HandledNow(job: Job, before: seq<Env>, env: Env) {
    var run := before + [env];
    && Tries(job, run) == (if env.connected then [Try(job.index, env.outcome == Succeeds)] else [])
    && var after := After(job, run);
       if env.connected then
         && after.status == StatusOf(env.outcome)
         && after.index == (if env.outcome == Succeeds then job.index + 1 else job.index)
         && after.counter == (if env.outcome == Succeeds then 1 else job.counter + 1)
       else
         && after.status == NOT_CONNECTED && after.index == job.index && after.counter == job.counter + 1
         && after.processingDate == Some(Floor(env.now) + 60.0)
  }

  /** The first handling at or after the date does it. */
  lemma HandledAtDate(job: Job, date: real, early: seq<Env>, env: Env)
    requires Live(job) && job.processingDate == Some(date) && AllBefore(early, date) && env.now >= date
    ensures HandledNow(job, early, env)
  {
    WaitsForDate(job, date, early);
    AfterWaiting(job, date, early, [env]);
    OneHandling(After(job, early), env);
  }

  lemma OneHandling(job: Job, env: Env)
    ensures Tries(job, [env]) == TriesOf(job, env) && After(job, [env]) == Handle(job, env).job
  {
    assert [env][1..] == [];
  }

  /** A waiting time of the first sub-job is waited for: counted from the first handling, nothing is tried
      before it is over, and the first handling after it goes ahead. */
  lemma WaitingTimeKept(job: Job, wait: int, early: seq<Env>, env: Env)
    requires Live(job) && job.processingDate.None? && job.subJobs[job.index].waittime == Some(wait)
    requires var first := (early + [env])[0].now;
             AllBefore(early, Floor(first) + 60.0 * wait as real) && env.now >= Floor(first) + 60.0 * wait as real
    ensures Tries(job, early) == [] && (early != [] ==> After(job, early).status == FUTURE)
    ensures HandledNow(job, early, env)
  {
    hide *;
    var run := early + [env];
    var date := Floor(run[0].now) + 60.0 * wait as real;
    var dated := job.(processingDate := Some(date));
    DateSet(job, wait, run[0]);
    WaitsForDate(dated, date, early);
    HandledAtDate(dated, date, early, env);
    assert early != [] ==> run[0] == early[0];
    LikeDated(job, dated, early);
    LikeDated(job, dated, run);
    HandledAlike(job, dated, early, env);
  }

  lemma HandledAlike(job: Job, dated: Job, early: seq<Env>, env: Env)
    requires dated.index == job.index && dated.counter == job.counter && HandledNow(dated, early, env)
    requires Tries(job, early + [env]) == Tries(dated, early + [env])
    requires After(job, early + [env]) == After(dated, early + [env])
    ensures HandledNow(job, early, env)
  {
    hide Tries;
    hide After;
  }

  /** The first handling sets the date. */
  lemma DateSet(job: Job, wait: int, env: Env)
    requires Live(job) && job.processingDate.None? && job.subJobs[job.index].waittime == Some(wait)
    ensures var dated := job.(processingDate := Some(Floor(env.now) + 60.0 * wait as real));
            Live(dated) && Handle(job, env) == Handle(dated, env) && TriesOf(job, env) == TriesOf(dated, env)
  {}

  lemma LikeDated(job: Job, dated: Job, envs: seq<Env>)
    requires envs != [] ==>
               Handle(job, envs[0]) == Handle(dated, envs[0]) && TriesOf(job, envs[0]) == TriesOf(dated, envs[0])
    ensures Tries(job, envs) == Tries(dated, envs) && (envs != [] ==> After(job, envs) == After(dated, envs))
  {
    hide Handle;
    hide TriesOf;
  }

  /** Without a waiting time there is no waiting. */
  lemma NoWaitingTimeNoWait(job: Job, env: Env)
    requires Live(job) && job.processingDate.None? && job.subJobs[job.index].waittime.None?
    ensures HandledNow(job, [], env)
  {
    assert [] + [env] == [env];
    OneHandling(job, env);
  }

  /** A device that was not connected is left alone for a minute. */
  lemma UnconnectedWaitsMinute(job: Job, env: Env, early: seq<Env>, next: Env)
    requires Handle(job, env).verdict == Again && Handle(job, env).job.status == NOT_CONNECTED
    requires Handle(job, env).job.counter <= 3
    requires AllBefore(early, Floor(env.now) + 60.0) && next.now >= Floor(env.now) + 60.0
    ensures var job' := Handle(job, env).job;
            && job' == job.(status := NOT_CONNECTED, counter := job.counter + 1, processingDate := job'.processingDate)
            && Tries(job', early) == [] && HandledNow(job', early, next)
  {
    var job', date := Handle(job, env).job, Floor(env.now) + 60.0;
    WaitsForDate(job', date, early);
    HandledAtDate(job', date, early, next);
  }

  /** A job is only restarted by a handling that finds it unconnected for the fourth time in a row, and then
      it starts over after the minutes configured for that. */
  lemma RestartedWaits(job: Job, env: Env, early: seq<Env>, next: Env)
    ensures Handle(job, env).verdict == Restarted <==>
              job.index < |job.subJobs| && job.counter > 3 && job.status == NOT_CONNECTED && env.restartMinutes > 0
    ensures var job', date := Handle(job, env).job, env.now + 60.0 * env.restartMinutes as real;
            Handle(job, env).verdict == Restarted && AllBefore(early, date) && next.now >= date ==>
              && job' == Job(job.origin, job.subJobs, PENDING, 0, Some(date), 0)
              && Tries(job', early) == [] && HandledNow(job', early, next)
  {
    var job', date := Handle(job, env).job, env.now + 60.0 * env.restartMinutes as real;
    if Handle(job, env).verdict == Restarted && AllBefore(early, date) && next.now >= date {
      assert job' == Job(job.origin, job.subJobs, PENDING, 0, Some(date), 0);
      WaitsForDate(job', date, early);
      HandledAtDate(job', date, early, next);
    }
  }

  // ---------------------------------------------------------------- how a job ends

  /** A job that was cancelled or has failed is never tried again, nor changed. */
  lemma GivenUpForGood(job: Job, envs: seq<Env>)
    requires job.status == CANCELLED || job.status == FAILED
    ensures Tries(job, envs) == [] && After(job, envs) == job
  {}

  /** The device is connected at all these handlings and the clock does not go back. */
  predicate Steady(envs: seq<Env>) {
    && (forall i :: 0 <= i < |envs| ==> envs[i].connected)
    && (forall i :: 0 < i < |envs| ==> envs[i - 1].now <= envs[i].now)
  }

  /** Nothing to wait for at that time. */
  predicate DueAt(job: Job, now: real)
    requires Live(job)
  {
    if job.processingDate.Some? then job.processingDate.value <= now else job.subJobs[job.index].waittime.None?
  }

  /** A sub-job that keeps failing is tried until four tries are counted, and then the job has failed; or it
      is left interrupted if the last try raised. */
  lemma {:induction false} FailingJobEnds(job: Job, envs: seq<Env>)
    requires Live(job) && Steady(envs) && |envs| == 5 - job.counter && DueAt(job, envs[0].now)
    requires forall i :: 0 <= i < |envs| ==> envs[i].outcome != Succeeds
    ensures Tries(job, envs) == seq(4 - job.counter, _ => Try(job.index, false))
    ensures var last := After(job, envs);
            && last.index == job.index && last.counter == 4
            && last.status == if envs[|envs| - 2].outcome == Fails then FAILED else INTERRUPTED
    decreases |envs|
  {
    var h, rest := Handle(job, envs[0]), envs[1..];
    DueHandling(job, envs[0]);
    SteadyRest(envs);
    if job.counter < 3 {
      hide Handle;
      hide TriesOf;
      FailingJobEnds(h.job, rest);
    } else {
      SpentJob(h.job, rest[0]);
      hide Handle;
      hide TriesOf;
      OneHandling(h.job, rest[0]);
      assert rest == [rest[0]];
    }
  }

  lemma SteadyRest(envs: seq<Env>)
    requires Steady(envs) && |envs| > 1
    ensures Steady(envs[1..]) && envs[0].now <= envs[1..][0].now
  {
    var rest := envs[1..];
    assert forall i :: 0 < i < |rest| ==> rest[i - 1] == envs[i] && rest[i] == envs[i + 1];
  }

  lemma SpentJob(job: Job, env: Env)
    requires job.index < |job.subJobs| && job.counter == 4 && (job.status == FAILING || job.status == INTERRUPTED)
    ensures Handle(job, env) == Handled(job.(status := if job.status == FAILING then FAILED else INTERRUPTED), Finished)
    ensures TriesOf(job, env) == []
  {}

  lemma DueHandling(job: Job, env: Env)
    requires Live(job) && env.connected && DueAt(job, env.now)
    ensures var h := Handle(job, env);
            && h.verdict == Again && h.job.subJobs == job.subJobs
            && h.job.processingDate == Some(Floor(env.now)) && Floor(env.now) <= env.now
            && h.job.index == (if env.outcome == Succeeds then job.index + 1 else job.index)
            && h.job.counter == (if env.outcome == Succeeds then 1 else job.counter + 1)
            && h.job.status == StatusOf(env.outcome)
            && TriesOf(job, env) == [Try(job.index, env.outcome == Succeeds)]
  {}

  /** Successful tries at the sub-jobs of a range, in order. */
  function AllOk(from: nat, to: nat): seq<Try>
    decreases to - from
  {
    if from >= to then [] else [Try(from, true)] + AllOk(from + 1, to)
  }

  /** A job all of whose sub-jobs succeed is done after one handling each. */
  lemma {:induction false} SucceedingJobEnds(job: Job, envs: seq<Env>)
    requires Live(job) && Steady(envs) && |envs| == |job.subJobs| - job.index && DueAt(job, envs[0].now)
    requires forall i :: 0 <= i < |envs| ==> envs[i].outcome == Succeeds
    ensures Tries(job, envs) == AllOk(job.index, |job.subJobs|)
    ensures After(job, envs).index == |job.subJobs| && After(job, envs).status == SUCCESS
    decreases |envs|
  {
    var h, rest := Handle(job, envs[0]), envs[1..];
    DueHandling(job, envs[0]);
    if rest == [] {
      assert envs == [envs[0]];
      OneHandling(job, envs[0]);
    } else {
      SteadyRest(envs);
      hide Handle;
      hide TriesOf;
      SucceedingJobEnds(h.job, rest);
    }
  }
}
