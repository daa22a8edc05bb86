// The backups directory over its whole history: under a clock that does not go
// back, no backup is named for a later second than the next run.
module BackupHistory {
  import opened Text
  import opened Names
  import opened Registry
  import opened Sorting
  import opened BackupNames
  import opened Retention
  import opened Backup
  import opened Mirror
  import opened Dumps
  import opened Pipeline
  import opened PipelineLaws
  import opened Survival

  // A run with its dumps; one without jobs stands for deletes.
  datatype Era = Era(jobs: seq<Job>, env: RunEnv)

  // Its timestamps lie between two readings of the clock.
  ghost predicate Timely(e: Era, from: Stamp, to: Stamp)
  {
    && !Earlier(to, from)
    && forall j :: j in e.jobs ==>
         Printable(e.env.stamp(j.app)) && !Earlier(e.env.stamp(j.app), from) && !Earlier(to, e.env.stamp(j.app))
  }

  // Runs and deletes one after the other; whatever the exit of a run, it leaves
  // some of the files there after its dumps.
  ghost predicate Chronicle(states: seq<Files>, eras: seq<Era>, clock: seq<Stamp>)
  {
    && |states| == |clock| == |eras| + 1
    && forall i {:trigger eras[i]} :: 0 <= i < |eras| ==>
         && GoodJobs(eras[i].jobs) && Timely(eras[i], clock[i], clock[i + 1])
         && states[i + 1].Keys <= FilesAfter(states[i], eras[i].jobs, eras[i].env).Keys
  }

  ghost predicate AllMadeBefore(files: Files, now: Stamp)
  {
    forall app, svc :: MadeBefore(files, app, svc, now)
  }

  // A run with any exit, and a delete, are such steps.
  lemma RunIsAnEra(
      files0: Files, s30: Objects, prefix: string, jobs: seq<Job>, env: RunEnv, o: PruneOptions, enabled: bool,
      files: Files, s3: Objects, outcome: Outcome, deleted: seq<File>)
    requires RunResult(files0, s30, prefix, jobs, env, o, enabled, files, s3, outcome, deleted)
    ensures files.Keys <= FilesAfter(files0, jobs, env).Keys
  {
  }

  lemma NotEarlierTransitive(a: Stamp, b: Stamp, c: Stamp)
    requires !Earlier(b, a) && !Earlier(c, b)
    ensures !Earlier(c, a)
  {
  }

  lemma EraKeepsNames(before: Files, after: Files, e: Era, from: Stamp, to: Stamp)
    requires GoodJobs(e.jobs) && Timely(e, from, to) && AllMadeBefore(before, from)
    requires after.Keys <= FilesAfter(before, e.jobs, e.env).Keys
    ensures AllMadeBefore(after, to)
  {
    forall app, svc, n | n in NamesOf(after, app) && HasPrefix(n, Prefix(svc))
      ensures exists u :: Printable(u) && n == FileName(svc, u) && !Earlier(to, u)
    {
      NameIsTimely(before, e, from, to, app, svc, n);
    }
    forall app, svc
      ensures MadeBefore(after, app, svc, to)
    {
    }
  }

  lemma NameIsTimely(before: Files, e: Era, from: Stamp, to: Stamp, app: string, svc: Svc, n: string)
    requires GoodJobs(e.jobs) && Timely(e, from, to) && AllMadeBefore(before, from)
    requires Path(app, n) in FilesAfter(before, e.jobs, e.env) && HasPrefix(n, Prefix(svc))
    ensures exists u :: Printable(u) && n == FileName(svc, u) && !Earlier(to, u)
  {
    var p := Path(app, n);
    if i :| 0 <= i < |e.jobs| && TargetPath(e.jobs[i], e.env) == p {
      DetectorsAgreeWithWriter(e.jobs[i].svc, e.env.stamp(app));
      assert e.jobs[i] in e.jobs && n == FileName(svc, e.env.stamp(app));
    } else {
      FilesAfterAt(before, e.jobs, e.env, p);
      assert MadeBefore(before, app, svc, from) && n in NamesOf(before, app);
      var u :| Printable(u) && n == FileName(svc, u) && !Earlier(from, u);
      NotEarlierTransitive(u, from, to);
    }
  }

  // From an empty directory, or any whose names are in order, on.
  lemma {:induction false} NamesStayInOrder(states: seq<Files>, eras: seq<Era>, clock: seq<Stamp>, k: nat)
    requires Chronicle(states, eras, clock) && k <= |eras| && AllMadeBefore(states[0], clock[0])
    ensures AllMadeBefore(states[k], clock[k])
    decreases k
  {
    if k > 0 {
      NamesStayInOrder(states, eras, clock, k - 1);
      EraKeepsNames(states[k - 1], states[k], eras[k - 1], clock[k - 1], clock[k]);
    }
  }

  // A run that is not timed before its history finds no later name.
  lemma MadeBeforeRun(states: seq<Files>, eras: seq<Era>, clock: seq<Stamp>, app: string, svc: Svc, now: Stamp)
    requires Chronicle(states, eras, clock) && AllMadeBefore(states[0], clock[0])
    requires !Earlier(now, clock[|eras|])
    ensures MadeBefore(states[|eras|], app, svc, now)
  {
    NamesStayInOrder(states, eras, clock, |eras|);
    assert MadeBefore(states[|eras|], app, svc, clock[|eras|]);
    forall n | n in NamesOf(states[|eras|], app) && HasPrefix(n, Prefix(svc))
      ensures exists u :: Printable(u) && n == FileName(svc, u) && !Earlier(now, u)
    {
      var u :| Printable(u) && n == FileName(svc, u) && !Earlier(clock[|eras|], u);
      NotEarlierTransitive(u, clock[|eras|], now);
    }
  }

  // A scheduled run at the end of any history that began with an empty
  // directory: each recent file it wrote is the one PlanRestore picks.
  lemma ScheduledRunInHistoryIsRestorable(
      states: seq<Files>, eras: seq<Era>, clock: seq<Stamp>,
      names: seq<string>, apps: Apps, target: string, services: seq<string>, keepDays: int, keepCount: int,
      s30: Objects, prefix: string, env: RunEnv, enabled: bool,
      files: Files, s3: Objects, deleted: seq<File>, j: Job, plan: seq<PlanEntry>, requested: seq<string>)
    requires Chronicle(states, eras, clock) && states[0] == map[] && !Earlier(env.stamp(j.app), clock[|eras|])
    requires Distinct(names) && j in Produced(ScheduledJobs(names, apps, target, services, env), env)
    requires RunResult(states[|eras|], s30, prefix, ScheduledJobs(names, apps, target, services, env), env,
      ScheduledPrune(target, services, keepDays, keepCount), enabled, files, s3, Success, deleted)
    requires Recent(states[|eras|], env, j, keepDays, keepCount) && Printable(env.stamp(j.app))
    requires j.app in apps && IsPlan(plan, NamesOf(files, j.app), Chosen(apps[j.app], requested))
    ensures TargetPath(j, env) in files && env.dump(j.app, j.svc) == Dumped(files[TargetPath(j, env)])
    ensures PlanEntry(j.svc, TargetPath(j, env).name) in plan <==> requested == [] || SvcName(j.svc) in requested
    ensures forall e :: e in plan && e.service == j.svc ==> e.name == TargetPath(j, env).name
  {
    forall app, svc
      ensures MadeBefore(states[0], app, svc, clock[0])
    {
      assert NamesOf(states[0], app) == {};
    }
    MadeBeforeRun(states, eras, clock, j.app, j.svc, env.stamp(j.app));
    ScheduledRunIsRestorable(names, apps, target, services, keepDays, keepCount, states[|eras|], s30, prefix, env,
      enabled, files, s3, deleted, j, plan, requested);
  }
}
