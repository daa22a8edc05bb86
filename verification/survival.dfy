// A scheduled run against its own retention, and the restore that follows.
module Survival {
  import opened Text
  import opened Names
  import opened Registry
  import opened Sorting
  import opened BackupNames
  import opened Retention
  import opened Backup
  import opened BackupLaws
  import opened Mirror
  import opened Dumps
  import opened Pipeline
  import opened PipelineLaws

  // scheduler.run: the retention a schedule asks for.
  function ScheduledPrune(target: string, services: seq<string>, keepDays: int, keepCount: int): PruneOptions
  {
    PruneOptions(target, target == "*", services, keepDays, keepCount)
  }

  function ScheduledJobs(names: seq<string>, apps: Apps, target: string, services: seq<string>, env: RunEnv): seq<Job>
  {
    if target == "*" then AllJobs(names, apps, services, env) else JobsFor(apps, target, services, env)
  }

  // What the run of a schedule dumps is what its retention looks at.
  lemma ScheduledJobsAreSelected(
      names: seq<string>, apps: Apps, target: string, services: seq<string>, keepDays: int, keepCount: int,
      env: RunEnv, j: Job, m: Meta)
    requires j in ScheduledJobs(names, apps, target, services, env)
    ensures Selected(ScheduledPrune(target, services, keepDays, keepCount), FileOf(TargetPath(j, env), m))
  {
    var app := target;
    if target == "*" {
      app := JobsApp(names, apps, services, env, j);
    }
    ChosenMembers(apps[app], services);
    var svcs := Chosen(apps[app], services);
    var i :| 0 <= i < |svcs| && AppJobs(app, svcs)[i] == j;
    assert j.svc in svcs && j.app == app;
    TargetIsMirrored(j, env);
  }

  lemma {:induction false} JobsApp(names: seq<string>, apps: Apps, services: seq<string>, env: RunEnv, j: Job)
    returns (app: string)
    requires j in AllJobs(names, apps, services, env)
    ensures AppRuns(apps, app, services, env) && j in JobsFor(apps, app, services, env)
  {
    if j in JobsFor(apps, names[0], services, env) {
      app := names[0];
    } else {
      app := JobsApp(names[1..], apps, services, env, j);
    }
  }

  predicate InGroup(p: Path, j: Job)
  {
    p.app == j.app && DetectService(p.name) == SvcName(j.svc)
  }

  // The files of the job's group, before the run, that are as new as what the
  // run wrote.
  function AsNew(files0: Files, env: RunEnv, j: Job, modified: int): set<Path>
  {
    set p | p in files0 && InGroup(p, j) && p != TargetPath(j, env) && files0[p].modified >= modified
  }

  // What this run wrote is not older than its own cutoff, and fewer than
  // KeepCount earlier files of its group are as new as it.
  ghost predicate Recent(files0: Files, env: RunEnv, j: Job, keepDays: int, keepCount: int)
  {
    match env.dump(j.app, j.svc)
    case Dumped(meta) =>
      && (keepDays > 0 ==> env.cutoff <= meta.modified)
      && (keepCount > 0 ==> |AsNew(files0, env, j, meta.modified)| < keepCount)
    case _ => false
  }

  // The retention looks at the job's group.
  predicate Selects(o: PruneOptions, j: Job)
  {
    (o.all || o.appName == "" || j.app == o.appName) && (o.services == [] || SvcName(j.svc) in o.services)
  }

  // A file of the group of a job is the job's own or was there before.
  lemma GroupMembers(files0: Files, jobs: seq<Job>, env: RunEnv, j: Job, p: Path)
    requires GoodJobs(jobs) && j in jobs && p in FilesAfter(files0, jobs, env)
    requires InGroup(p, j) && p != TargetPath(j, env)
    ensures p in files0 && files0[p] == FilesAfter(files0, jobs, env)[p]
  {
    forall i | 0 <= i < |jobs|
      ensures TargetPath(jobs[i], env) != p
    {
      OneTargetPerGroup(jobs[i], j, env);
    }
    FilesAfterAt(files0, jobs, env, p);
  }

  lemma OneTargetPerGroup(a: Job, j: Job, env: RunEnv)
    requires Backupable(a.svc)
    ensures InGroup(TargetPath(a, env), j) ==> a == j
  {
    DetectorsAgreeWithWriter(a.svc, env.stamp(a.app));
  }

  lemma {:induction false} PathsKeepSize(files: Files, fs: set<File>)
    requires fs <= Listed(files)
    ensures |Paths(fs)| == |fs|
    decreases |fs|
  {
    if fs != {} {
      var f :| f in fs;
      PathsKeepSize(files, fs - {f});
      forall g | g in fs - {f}
        ensures PathOf(g) != PathOf(f)
      {
        assert g in Listed(files) && f in Listed(files);
      }
      assert Paths(fs) == Paths(fs - {f}) + {PathOf(f)};
    }
  }

  // The dumped file of a job, as Prune lists it.
  lemma ProducedIsListed(files0: Files, jobs: seq<Job>, env: RunEnv, o: PruneOptions, j: Job)
    requires GoodJobs(jobs) && j in Produced(jobs, env)
    ensures var files1 := FilesAfter(files0, jobs, env);
      var p := TargetPath(j, env);
      && j in jobs && p in files1 && Recognised(p) && env.dump(j.app, j.svc) == Dumped(files1[p])
      && FileOf(p, files1[p]) in Listed(files1) && InGroup(p, j) && PathOf(FileOf(p, files1[p])) == p
  {
    ProducedIsThere(files0, jobs, env);
    ProducedMembers(jobs, env);
    var i :| 0 <= i < |jobs| && jobs[i] == j;
    TargetIsMirrored(j, env);
  }

  // The rivals of the dumped file are the files counted before the run.
  lemma RivalsAreAsNew(files0: Files, jobs: seq<Job>, env: RunEnv, o: PruneOptions, j: Job)
    requires GoodJobs(jobs) && j in Produced(jobs, env)
    requires Selects(o, j) && TargetPath(j, env) in FilesAfter(files0, jobs, env)
    ensures var files1 := FilesAfter(files0, jobs, env);
      var f := FileOf(TargetPath(j, env), files1[TargetPath(j, env)]);
      |Rivals(Group(files1, o, j.app, SvcName(j.svc)), f)| == |AsNew(files0, env, j, f.modified)|
  {
    var files1 := FilesAfter(files0, jobs, env);
    var p := TargetPath(j, env);
    ProducedIsListed(files0, jobs, env, o, j);
    var f := FileOf(p, files1[p]);
    var rivals := Rivals(Group(files1, o, j.app, SvcName(j.svc)), f);
    PathsKeepSize(files1, rivals);
    forall q
      ensures q in Paths(rivals) <==> q in AsNew(files0, env, j, f.modified)
    {
      if q in Paths(rivals) {
        RivalWasThere(files0, jobs, env, o, j, q);
      }
      if q in AsNew(files0, env, j, f.modified) {
        AsNewIsRival(files0, jobs, env, o, j, q);
      }
    }
    assert Paths(rivals) == AsNew(files0, env, j, f.modified);
  }

  lemma RivalWasThere(files0: Files, jobs: seq<Job>, env: RunEnv, o: PruneOptions, j: Job, q: Path)
    requires GoodJobs(jobs) && j in Produced(jobs, env) && TargetPath(j, env) in FilesAfter(files0, jobs, env)
    requires var files1 := FilesAfter(files0, jobs, env);
      var f := FileOf(TargetPath(j, env), files1[TargetPath(j, env)]);
      q in Paths(Rivals(Group(files1, o, j.app, SvcName(j.svc)), f))
    ensures q in AsNew(files0, env, j, FilesAfter(files0, jobs, env)[TargetPath(j, env)].modified)
  {
    ProducedIsListed(files0, jobs, env, o, j);
    var files1 := FilesAfter(files0, jobs, env);
    var f := FileOf(TargetPath(j, env), files1[TargetPath(j, env)]);
    var r :| r in Rivals(Group(files1, o, j.app, SvcName(j.svc)), f) && PathOf(r) == q;
    assert r in Listed(files1) && r == FileOf(q, files1[q]);
    GroupMembers(files0, jobs, env, j, q);
  }

  lemma AsNewIsRival(files0: Files, jobs: seq<Job>, env: RunEnv, o: PruneOptions, j: Job, q: Path)
    requires GoodJobs(jobs) && j in Produced(jobs, env) && TargetPath(j, env) in FilesAfter(files0, jobs, env)
    requires Selects(o, j)
    requires q in AsNew(files0, env, j, FilesAfter(files0, jobs, env)[TargetPath(j, env)].modified)
    ensures var files1 := FilesAfter(files0, jobs, env);
      var f := FileOf(TargetPath(j, env), files1[TargetPath(j, env)]);
      q in Paths(Rivals(Group(files1, o, j.app, SvcName(j.svc)), f))
  {
    ProducedIsListed(files0, jobs, env, o, j);
    NotATarget(files0, jobs, env, j, q);
    var files1 := FilesAfter(files0, jobs, env);
    var r := FileOf(q, files1[q]);
    assert r in Listed(files1) && Selected(o, r) && PathOf(r) == q;
  }

  lemma NotATarget(files0: Files, jobs: seq<Job>, env: RunEnv, j: Job, q: Path)
    requires GoodJobs(jobs) && j in jobs && q in files0 && InGroup(q, j) && q != TargetPath(j, env)
    ensures q in FilesAfter(files0, jobs, env) && FilesAfter(files0, jobs, env)[q] == files0[q] && Recognised(q)
  {
    var k :| 0 <= k < |jobs| && jobs[k] == j;
    assert ValidName(j.app) && DetectService(q.name) == SvcName(j.svc) != "";
    forall i | 0 <= i < |jobs|
      ensures TargetPath(jobs[i], env) != q
    {
      OneTargetPerGroup(jobs[i], j, env);
    }
    FilesAfterAt(files0, jobs, env, q);
  }

  // A dumped file is safe from the run's own retention exactly when it is
  // recent.
  lemma SafeIffRecent(files0: Files, jobs: seq<Job>, env: RunEnv, o: PruneOptions, j: Job)
    requires GoodJobs(jobs) && j in Produced(jobs, env) && Selects(o, j)
    ensures var files1 := FilesAfter(files0, jobs, env);
      var p := TargetPath(j, env);
      && p in files1
      && (Safe(RuleOf(o, env.cutoff), Group(files1, o, j.app, SvcName(j.svc)), FileOf(p, files1[p])) <==>
            Recent(files0, env, j, o.keepDays, o.keepCount))
  {
    ProducedIsListed(files0, jobs, env, o, j);
    RivalsAreAsNew(files0, jobs, env, o, j);
  }

  // A file the run produced is sure to survive the run's own retention,
  // however the sort breaks ties, exactly when it is recent.
  lemma ProducedSurvivesIff(files0: Files, jobs: seq<Job>, env: RunEnv, o: PruneOptions, j: Job)
    requires GoodJobs(jobs) && j in Produced(jobs, env) && Active(o)
    requires Selects(o, j)
    ensures var files1 := FilesAfter(files0, jobs, env);
      (forall files, deleted :: PruneDone(files1, files, o, env.cutoff, deleted, true) ==> TargetPath(j, env) in files)
        <==> Recent(files0, env, j, o.keepDays, o.keepCount)
  {
    var files1 := FilesAfter(files0, jobs, env);
    var p := TargetPath(j, env);
    ProducedIsListed(files0, jobs, env, o, j);
    SafeIffRecent(files0, jobs, env, o, j);
    var f := FileOf(p, files1[p]);
    PruneMayDeleteIff(files1, o, env.cutoff, f);
    if files, deleted :| PruneDone(files1, files, o, env.cutoff, deleted, true) && f in deleted {
      assert p !in files;
    }
    if files, deleted :| PruneDone(files1, files, o, env.cutoff, deleted, true) && p !in files {
      DeletedIsTheFile(files1, deleted, p);
    }
  }

  lemma DeletedIsTheFile(files: Files, deleted: set<File>, p: Path)
    requires deleted <= Listed(files) && p in files && p in Paths(deleted)
    ensures FileOf(p, files[p]) in deleted
  {
    var g :| g in deleted && PathOf(g) == p;
    assert g in Listed(files);
  }

  // After a run that pruned, or found nothing to prune by, a recent file is
  // still there with what was dumped.
  lemma ProducedSurvives(
      files0: Files, jobs: seq<Job>, env: RunEnv, o: PruneOptions, files: Files, deleted: seq<File>, j: Job)
    requires GoodJobs(jobs) && j in Produced(jobs, env)
    requires PrunedOk(FilesAfter(files0, jobs, env), files, o, env, deleted)
    requires Recent(files0, env, j, o.keepDays, o.keepCount)
    ensures TargetPath(j, env) in files
    ensures env.dump(j.app, j.svc) == Dumped(files[TargetPath(j, env)])
  {
    var files1 := FilesAfter(files0, jobs, env);
    var p := TargetPath(j, env);
    ProducedIsListed(files0, jobs, env, o, j);
    if Active(o) && Selected(o, FileOf(p, files1[p])) {
      ProducedSurvivesIff(files0, jobs, env, o, j);
      assert PruneDone(files1, files, o, env.cutoff, Elements(deleted), true);
    } else if Active(o) && p in Paths(Elements(deleted)) {
      DeletedIsTheFile(files1, Elements(deleted), p);
    }
  }

  lemma TargetIsMirroredIn(jobs: seq<Job>, env: RunEnv, j: Job)
    requires GoodJobs(jobs) && j in Produced(jobs, env)
    ensures Backupable(j.svc) && DetectService(TargetPath(j, env).name) == SvcName(j.svc)
  {
    ProducedMembers(jobs, env);
    var i :| 0 <= i < |jobs| && jobs[i] == j;
    TargetIsMirrored(j, env);
  }

  // Backups of one service in an app's directory were made by the program, no
  // later than `now`.
  ghost predicate MadeBefore(files: Files, app: string, svc: Svc, now: Stamp)
  {
    forall n :: n in NamesOf(files, app) && HasPrefix(n, Prefix(svc)) ==>
      exists u :: Printable(u) && n == FileName(svc, u) && !Earlier(now, u)
  }

  // After a successful run each recent file is kept and is the one a restore
  // of its service would pick.
  lemma RunIsRestorable(
      files0: Files, s30: Objects, prefix: string, jobs: seq<Job>, env: RunEnv, o: PruneOptions, enabled: bool,
      files: Files, s3: Objects, deleted: seq<File>, j: Job, plan: seq<PlanEntry>, svcs: seq<Svc>)
    requires GoodJobs(jobs) && j in Produced(jobs, env)
    requires RunResult(files0, s30, prefix, jobs, env, o, enabled, files, s3, Success, deleted)
    requires Recent(files0, env, j, o.keepDays, o.keepCount)
    requires Printable(env.stamp(j.app)) && MadeBefore(files0, j.app, j.svc, env.stamp(j.app))
    requires IsPlan(plan, NamesOf(files, j.app), svcs)
    ensures TargetPath(j, env) in files && env.dump(j.app, j.svc) == Dumped(files[TargetPath(j, env)])
    ensures PlanEntry(j.svc, TargetPath(j, env).name) in plan <==> j.svc in svcs
    ensures forall e :: e in plan && e.service == j.svc ==> e.name == TargetPath(j, env).name
  {
    var name, now := TargetPath(j, env).name, env.stamp(j.app);
    ProducedSurvives(files0, jobs, env, o, files, deleted, j);
    TargetIsMirroredIn(jobs, env, j);
    forall n | n in NamesOf(files, j.app) && HasPrefix(n, Prefix(j.svc))
      ensures exists u :: Printable(u) && n == FileName(j.svc, u) && !Earlier(now, u)
    {
      NameOrigin(files0, jobs, env, o, files, deleted, j, n);
    }
    LatestIsNewest(NamesOf(files, j.app), j.svc, now);
    PlanPicksLatest(plan, NamesOf(files, j.app), svcs, j.svc, name);
  }

  // End to end for one schedule: after a successful run, PlanRestore of the
  // app, with whatever services it asks for, restores each service it asks
  // for from the file this run wrote.
  lemma ScheduledRunIsRestorable(
      names: seq<string>, apps: Apps, target: string, services: seq<string>, keepDays: int, keepCount: int,
      files0: Files, s30: Objects, prefix: string, env: RunEnv, enabled: bool,
      files: Files, s3: Objects, deleted: seq<File>, j: Job, plan: seq<PlanEntry>, requested: seq<string>)
    requires Distinct(names) && j in Produced(ScheduledJobs(names, apps, target, services, env), env)
    requires RunResult(files0, s30, prefix, ScheduledJobs(names, apps, target, services, env), env,
      ScheduledPrune(target, services, keepDays, keepCount), enabled, files, s3, Success, deleted)
    requires Recent(files0, env, j, keepDays, keepCount)
    requires Printable(env.stamp(j.app)) && MadeBefore(files0, j.app, j.svc, env.stamp(j.app))
    requires j.app in apps && IsPlan(plan, NamesOf(files, j.app), Chosen(apps[j.app], requested))
    ensures TargetPath(j, env) in files && env.dump(j.app, j.svc) == Dumped(files[TargetPath(j, env)])
    ensures PlanEntry(j.svc, TargetPath(j, env).name) in plan <==> requested == [] || SvcName(j.svc) in requested
    ensures forall e :: e in plan && e.service == j.svc ==> e.name == TargetPath(j, env).name
  {
    var jobs := ScheduledJobs(names, apps, target, services, env);
    ScheduledJobsAreGood(names, apps, target, services, env);
    ProducedMembers(jobs, env);
    ScheduledServicesAreAttached(names, apps, target, services, env, j);
    ChosenMembers(apps[j.app], requested);
    RunIsRestorable(files0, s30, prefix, jobs, env, ScheduledPrune(target, services, keepDays, keepCount), enabled,
      files, s3, deleted, j, plan, Chosen(apps[j.app], requested));
  }

  lemma ScheduledJobsAreGood(names: seq<string>, apps: Apps, target: string, services: seq<string>, env: RunEnv)
    requires Distinct(names)
    ensures GoodJobs(ScheduledJobs(names, apps, target, services, env))
  {
    if target == "*" {
      AllJobsAreGood(names, apps, services, env);
    } else if AppRuns(apps, target, services, env) {
      AppJobsAreGood(target, apps[target], services);
    }
  }

  lemma ScheduledServicesAreAttached(
      names: seq<string>, apps: Apps, target: string, services: seq<string>, env: RunEnv, j: Job)
    requires j in ScheduledJobs(names, apps, target, services, env)
    ensures j.app in apps && Wanted(apps[j.app], services, j.svc)
  {
    var app := target;
    if target == "*" {
      app := JobsApp(names, apps, services, env, j);
    }
    ChosenMembers(apps[app], services);
    var svcs := Chosen(apps[app], services);
    var i :| 0 <= i < |svcs| && AppJobs(app, svcs)[i] == j;
    assert j.svc in svcs;
  }

  // The run of a schedule leaves every file alone that is of another app, when
  // the schedule is for one, and every file of another service, when it lists
  // some; on every exit.
  lemma ScheduledRunSpares(
      names: seq<string>, apps: Apps, target: string, services: seq<string>, keepDays: int, keepCount: int,
      files0: Files, s30: Objects, prefix: string, env: RunEnv, enabled: bool,
      files: Files, s3: Objects, outcome: Outcome, deleted: seq<File>, p: Path)
    requires Distinct(names) && target != ""
    requires RunResult(files0, s30, prefix, ScheduledJobs(names, apps, target, services, env), env,
      ScheduledPrune(target, services, keepDays, keepCount), enabled, files, s3, outcome, deleted)
    requires (target != "*" && p.app != target) || (services != [] && DetectService(p.name) !in services)
    ensures FileAt(files, p) == FileAt(files0, p)
  {
    var jobs, o := ScheduledJobs(names, apps, target, services, env),
      ScheduledPrune(target, services, keepDays, keepCount);
    ScheduledJobsAreGood(names, apps, target, services, env);
    forall j | j in jobs
      ensures p != Path(j.app, FileName(j.svc, env.stamp(j.app)))
    {
      JobIsOfSchedule(names, apps, target, services, env, j);
      DetectorsAgreeWithWriter(j.svc, env.stamp(j.app));
    }
    DumpsSpareOtherPaths(files0, jobs, env, p);
    var files1 := FilesAfter(files0, jobs, env);
    if files != files1 {
      PruneSpares(files1, files, o, env.cutoff, deleted, outcome != PruneError, p);
    }
  }

  lemma PruneSpares(
      before: Files, after: Files, o: PruneOptions, cutoff: int, deleted: seq<File>, ok: bool, p: Path)
    requires PruneDone(before, after, o, cutoff, Elements(deleted), ok)
    requires (!o.all && o.appName != "" && p.app != o.appName)
      || (o.services != [] && DetectService(p.name) !in o.services)
    ensures FileAt(after, p) == FileAt(before, p)
  {
    if p in before {
      if o.services != [] && DetectService(p.name) !in o.services {
        PruneSparesOtherServices(before, after, o, cutoff, Elements(deleted), ok, p);
      } else {
        PruneSparesOtherApps(before, after, o, cutoff, Elements(deleted), ok, p);
      }
    }
  }

  lemma JobIsOfSchedule(
      names: seq<string>, apps: Apps, target: string, services: seq<string>, env: RunEnv, j: Job)
    requires j in ScheduledJobs(names, apps, target, services, env)
    ensures (target != "*" ==> j.app == target) && (services != [] ==> SvcName(j.svc) in services)
  {
    if target == "*" {
      AllJobsIff(names, apps, services, env, j);
    } else {
      JobsForIff(apps, target, services, env, j);
    }
  }

  // And when it goes through, it leaves of every app and service it is for as
  // many backups as the schedule says, the newest ones.
  lemma ScheduledRunKeepsTheRightOnes(
      names: seq<string>, apps: Apps, target: string, services: seq<string>, keepDays: int, keepCount: int,
      files0: Files, s30: Objects, prefix: string, env: RunEnv, enabled: bool,
      files: Files, s3: Objects, deleted: seq<File>, app: string, service: string)
    requires RunResult(files0, s30, prefix, ScheduledJobs(names, apps, target, services, env), env,
      ScheduledPrune(target, services, keepDays, keepCount), enabled, files, s3, Success, deleted)
    requires ValidName(app) && (target == "*" || app == target) && (services == [] || service in services)
    ensures var files1 := FilesAfter(files0, ScheduledJobs(names, apps, target, services, env), env);
      var all, kept := BackupsOf(files1, app, service), BackupsOf(files, app, service);
      var young := if keepDays > 0 then NotOlder(all, env.cutoff) else all;
      && kept <= young
      && |kept| == (if keepCount > 0 && keepCount < |young| then keepCount else |young|)
      && forall f, g :: f in kept && g in all - kept ==> f.modified >= g.modified
  {
    SuccessKeepsTheRightOnes(files0, s30, prefix, ScheduledJobs(names, apps, target, services, env), env,
      ScheduledPrune(target, services, keepDays, keepCount), enabled, files, s3, deleted, app, service);
  }

  // Which of them are sure to survive: for a schedule with a retention, a
  // produced file survives every outcome exactly when it is recent.
  lemma ScheduledRunKeepsIff(
      names: seq<string>, apps: Apps, target: string, services: seq<string>, keepDays: int, keepCount: int,
      files0: Files, env: RunEnv, j: Job)
    requires Distinct(names) && j in Produced(ScheduledJobs(names, apps, target, services, env), env)
    requires keepDays > 0 || keepCount > 0
    ensures var files1 := FilesAfter(files0, ScheduledJobs(names, apps, target, services, env), env);
      var o := ScheduledPrune(target, services, keepDays, keepCount);
      (forall files, deleted :: PruneDone(files1, files, o, env.cutoff, deleted, true) ==> TargetPath(j, env) in files)
        <==> Recent(files0, env, j, keepDays, keepCount)
  {
    var jobs := ScheduledJobs(names, apps, target, services, env);
    ScheduledJobsAreGood(names, apps, target, services, env);
    ProducedMembers(jobs, env);
    var files1 := FilesAfter(files0, jobs, env);
    ProducedIsListed(files0, jobs, env, ScheduledPrune(target, services, keepDays, keepCount), j);
    ScheduledJobsAreSelected(names, apps, target, services, keepDays, keepCount, env, j, files1[TargetPath(j, env)]);
    ProducedSurvivesIff(files0, jobs, env, ScheduledPrune(target, services, keepDays, keepCount), j);
  }

  // A name with the service's prefix after the run was there before it, or is
  // the one the run wrote.
  lemma NameOrigin(
      files0: Files, jobs: seq<Job>, env: RunEnv, o: PruneOptions, files: Files, deleted: seq<File>, j: Job, n: string)
    requires GoodJobs(jobs) && j in Produced(jobs, env)
    requires PrunedOk(FilesAfter(files0, jobs, env), files, o, env, deleted)
    requires n in NamesOf(files, j.app) && HasPrefix(n, Prefix(j.svc))
    requires Printable(env.stamp(j.app)) && MadeBefore(files0, j.app, j.svc, env.stamp(j.app))
    ensures exists u :: Printable(u) && n == FileName(j.svc, u) && !Earlier(env.stamp(j.app), u)
  {
    var p := Path(j.app, n);
    assert p in FilesAfter(files0, jobs, env);
    if i :| 0 <= i < |jobs| && TargetPath(jobs[i], env) == p {
      DetectorsAgreeWithWriter(jobs[i].svc, env.stamp(j.app));
      assert n == FileName(j.svc, env.stamp(j.app));
    } else {
      FilesAfterAt(files0, jobs, env, p);
      assert n in NamesOf(files0, j.app);
    }
  }

  // ------------------------------------------- what the unstable sort allows

  // Some outcome of the rule on one group that drops the given file if the
  // rule lets it go.
  lemma SomeOutcome(rule: Rule, all: set<File>, f: File) returns (kept: set<File>)
    ensures Pruned(rule, all, kept)
    ensures f in all && !Safe(rule, all, f) ==> f !in kept
  {
    if f in all && !Safe(rule, all, f) {
      kept := UnluckyOutcome(rule, all, f);
    } else {
      var young := Fresh(rule, all);
      kept := TopOf(young, Quota(rule, |young|));
      forall k, d | k in kept && d in all - kept
        ensures k.modified >= d.modified
      {
        assert k in young;
        assert d in young ==> d in young - kept;
      }
    }
  }

  ghost function OutcomeFor(rule: Rule, all: set<File>, f: File): (kept: set<File>)
    ensures Pruned(rule, all, kept)
    ensures f in all && !Safe(rule, all, f) ==> f !in kept
  {
    SomeOutcomeExists(rule, all, f);
    var kept :| Pruned(rule, all, kept) && (f in all && !Safe(rule, all, f) ==> f !in kept);
    kept
  }

  lemma SomeOutcomeExists(rule: Rule, all: set<File>, f: File)
    ensures exists kept :: Pruned(rule, all, kept) && (f in all && !Safe(rule, all, f) ==> f !in kept)
  {
    var kept := SomeOutcome(rule, all, f);
  }

  // A Prune can delete a selected file exactly when the file is older than the
  // cutoff or KeepCount others of its group are as new as it: two backups of
  // one modification time are enough to lose the later one.
  lemma PruneMayDeleteIff(files: Files, o: PruneOptions, cutoff: int, f: File)
    requires f in Listed(files) && Selected(o, f)
    ensures (exists after, deleted :: PruneDone(files, after, o, cutoff, deleted, true) && f in deleted)
      <==> !Safe(RuleOf(o, cutoff), Group(files, o, f.app, f.service), f)
  {
    var rule := RuleOf(o, cutoff);
    if !Safe(rule, Group(files, o, f.app, f.service), f) {
      var deleted := set g | g in Listed(files) && Selected(o, g)
        && g !in OutcomeFor(rule, Group(files, o, g.app, g.service), f);
      var after := files - Paths(deleted);
      ListedAfterRemoval(files, deleted);
      forall g | g in deleted
        ensures !Safe(rule, Group(files, o, g.app, g.service), g)
      {
        if Safe(rule, Group(files, o, g.app, g.service), g) {
          SafeSurvives(rule, Group(files, o, g.app, g.service),
            OutcomeFor(rule, Group(files, o, g.app, g.service), f), g);
        }
      }
      forall app, service | ValidName(app)
        ensures Pruned(rule, Group(files, o, app, service), Group(after, o, app, service))
      {
        assert Group(after, o, app, service) == OutcomeFor(rule, Group(files, o, app, service), f);
      }
      assert PruneDone(files, after, o, cutoff, deleted, true) && f in deleted;
    }
  }
}
