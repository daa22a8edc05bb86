// The engine's backup half as the program runs it: BackupApp, BackupAll and
// PlanRestore.
module BackupEngineClass {
  import opened Text
  import opened Names
  import opened Registry
  import opened Sorting
  import opened BackupNames
  import opened Backup
  import opened Dumps

  class BackupEngine {
    const disk: Disk
    const dir: string

    constructor (disk: Disk, dir: string)
      ensures this.disk == disk && this.dir == dir
    {
      this.disk := disk;
      this.dir := dir;
    }

    // chooseBackupServices.
    static method ChooseServices(entry: AppEntry, requested: seq<string>) returns (r: seq<Svc>)
      ensures r == Chosen(entry, requested)
    {
      r := ChooseFrom(entry, requested, CATALOG);
    }

    static method ChooseFrom(entry: AppEntry, requested: seq<string>, svcs: seq<Svc>) returns (r: seq<Svc>)
      ensures r == ChosenFrom(entry, requested, svcs)
    {
      var want := set x | x in requested;
      r := [];
      var i := 0;
      while i < |svcs|
        invariant 0 <= i <= |svcs|
        invariant r + ChosenFrom(entry, requested, svcs[i..]) == ChosenFrom(entry, requested, svcs)
      {
        ChosenStep(entry, requested, svcs, i);
        if svcs[i] in entry.services && Backupable(svcs[i]) && (|requested| == 0 || SvcName(svcs[i]) in want) {
          Regroup(r, [svcs[i]], ChosenFrom(entry, requested, svcs[i + 1..]));
          r := r + [svcs[i]];
        }
        i := i + 1;
      }
    }

    static lemma ChosenStep(entry: AppEntry, requested: seq<string>, svcs: seq<Svc>, i: nat)
      requires i < |svcs|
      ensures Wanted(entry, requested, svcs[i]) ==>
        ChosenFrom(entry, requested, svcs[i..]) == [svcs[i]] + ChosenFrom(entry, requested, svcs[i + 1..])
      ensures !Wanted(entry, requested, svcs[i]) ==>
        ChosenFrom(entry, requested, svcs[i..]) == ChosenFrom(entry, requested, svcs[i + 1..])
    {
      assert svcs[i..][1..] == svcs[i + 1..];
    }

    // BackupApp: one dump per chosen service.
    method BackupApp(apps: Apps, app: string, requested: seq<string>, env: RunEnv)
      returns (made: seq<BackupFile>, ok: bool)
      modifies disk
      ensures ok == AppRuns(apps, app, requested, env)
      ensures disk.files == FilesAfter(old(disk.files), JobsFor(apps, app, requested, env), env)
      ensures made == Records(JobsFor(apps, app, requested, env), env, dir)
    {
      if !ValidName(app) || app !in apps {
        return [], false;
      }
      var targets := ChooseServices(apps[app], requested);
      if |targets| == 0 || !env.mkdir(app) {
        return [], false;
      }
      made := DumpAll(app, targets, env);
      ok := true;
    }

    // One dump, and the cleanup of a failed one.
    method DumpOne(app: string, svc: Svc, env: RunEnv) returns (rec: Option<BackupFile>)
      modifies disk
      ensures disk.files == AfterDump(old(disk.files), Job(app, svc), env)
      ensures rec == if env.dump(app, svc).Dumped? then Some(RecordOf(Job(app, svc), env, dir)) else None
    {
      var p := Path(app, FileName(svc, env.stamp(app)));
      match env.dump(app, svc) {
        case Down => rec := None;
        case Dumped(meta) =>
          disk.files := disk.files[p := meta];
          rec := Some(BackupFile(app, svc, PathText(dir, p)));
        case DumpFailed(None) =>
          // the cleanup removes whatever is at the path
          disk.files := disk.files - {p};
          rec := None;
        case DumpFailed(Some(meta)) =>
          disk.files := disk.files[p := meta];
          rec := None;
      }
    }

    // The service loop of BackupApp.
    method DumpAll(app: string, targets: seq<Svc>, env: RunEnv) returns (made: seq<BackupFile>)
      modifies disk
      ensures disk.files == FilesAfter(old(disk.files), AppJobs(app, targets), env)
      ensures made == Records(AppJobs(app, targets), env, dir)
    {
      ghost var jobs := AppJobs(app, targets);
      made := [];
      var i := 0;
      while i < |targets|
        invariant 0 <= i <= |targets|
        invariant FilesAfter(disk.files, jobs[i..], env) == FilesAfter(old(disk.files), jobs, env)
        invariant made + Records(jobs[i..], env, dir) == Records(jobs, env, dir)
      {
        RunStep(disk.files, jobs, i, env, dir);
        var rec := DumpOne(app, targets[i], env);
        if rec.Some? {
          Regroup(made, [rec.value], Records(jobs[i + 1..], env, dir));
          made := made + [rec.value];
        }
        i := i + 1;
      }
      assert jobs[|targets|..] == [];
    }

    static lemma RunStep(files: Files, jobs: seq<Job>, i: nat, env: RunEnv, dir: string)
      requires i < |jobs|
      ensures FilesAfter(files, jobs[i..], env) == FilesAfter(AfterDump(files, jobs[i], env), jobs[i + 1..], env)
      ensures var made := env.dump(jobs[i].app, jobs[i].svc).Dumped?;
        && (made ==> Records(jobs[i..], env, dir) == [RecordOf(jobs[i], env, dir)] + Records(jobs[i + 1..], env, dir))
        && (!made ==> Records(jobs[i..], env, dir) == Records(jobs[i + 1..], env, dir))
    {
      assert jobs[i..][1..] == jobs[i + 1..];
    }

    // BackupAll: every app in name order; an app that fails is passed over.
    method BackupAll(apps: Apps, requested: seq<string>, env: RunEnv)
      returns (made: seq<BackupFile>, ghost names: seq<string>)
      modifies disk
      ensures NameOrder(names, apps.Keys)
      ensures disk.files == FilesAfter(old(disk.files), AllJobs(names, apps, requested, env), env)
      ensures made == Records(AllJobs(names, apps, requested, env), env, dir)
    {
      var order := SortedNames(apps.Keys);
      names := order;
      made := BackupEach(apps, order, requested, env);
    }

    method BackupEach(apps: Apps, order: seq<string>, requested: seq<string>, env: RunEnv)
      returns (made: seq<BackupFile>)
      modifies disk
      ensures disk.files == FilesAfter(old(disk.files), AllJobs(order, apps, requested, env), env)
      ensures made == Records(AllJobs(order, apps, requested, env), env, dir)
    {
      made := [];
      ghost var jobs := AllJobs(order, apps, requested, env);
      var i := 0;
      while i < |order|
        invariant 0 <= i <= |order|
        invariant FilesAfter(disk.files, AllJobs(order[i..], apps, requested, env), env)
          == FilesAfter(old(disk.files), jobs, env)
        invariant made + Records(AllJobs(order[i..], apps, requested, env), env, dir) == Records(jobs, env, dir)
      {
        AllJobsStep(disk.files, order, i, apps, requested, env, dir);
        var files, ok := BackupApp(apps, order[i], requested, env);
        Regroup(made, files, Records(AllJobs(order[i + 1..], apps, requested, env), env, dir));
        made := made + files;
        i := i + 1;
      }
    }

    static lemma AllJobsStep(
        files: Files, order: seq<string>, i: nat, apps: Apps, requested: seq<string>, env: RunEnv, dir: string)
      requires i < |order|
      ensures var now := JobsFor(apps, order[i], requested, env);
        var rest := AllJobs(order[i + 1..], apps, requested, env);
        var all := AllJobs(order[i..], apps, requested, env);
        && FilesAfter(files, all, env) == FilesAfter(FilesAfter(files, now, env), rest, env)
        && Records(all, env, dir) == Records(now, env, dir) + Records(rest, env, dir)
    {
      assert order[i..][1..] == order[i + 1..];
      JobsConcat(
        files, JobsFor(apps, order[i], requested, env), AllJobs(order[i + 1..], apps, requested, env), env, dir);
    }

    static lemma {:induction false} JobsConcat(files: Files, a: seq<Job>, b: seq<Job>, env: RunEnv, dir: string)
      ensures FilesAfter(files, a + b, env) == FilesAfter(FilesAfter(files, a, env), b, env)
      ensures Records(a + b, env, dir) == Records(a, env, dir) + Records(b, env, dir)
      decreases |a|
    {
      if a == [] {
        assert a + b == b;
      } else {
        assert (a + b)[1..] == a[1..] + b;
        JobsConcat(AfterDump(files, a[0], env), a[1..], b, env, dir);
      }
    }

    // PlanRestore: the latest backup of each chosen service that has one; an
    // error for an unknown app or an empty plan.
    method PlanRestore(apps: Apps, app: string, requested: seq<string>) returns (plan: seq<PlanEntry>, ok: bool)
      ensures !ValidName(app) || app !in apps ==> !ok
      ensures ValidName(app) && app in apps ==>
        IsPlan(plan, NamesOf(disk.files, app), Chosen(apps[app], requested)) && ok == (plan != [])
    {
      plan, ok := [], false;
      if !ValidName(app) || app !in apps {
        return;
      }
      var targets := ChooseServices(apps[app], requested);
      var names := NamesOf(disk.files, app);
      plan := PlanEach(names, targets);
      ok := |plan| > 0;
    }

    // The loop of PlanRestore.
    static method PlanEach(names: set<string>, targets: seq<Svc>) returns (plan: seq<PlanEntry>)
      ensures IsPlan(plan, names, targets)
    {
      plan := [];
      for i := 0 to |targets|
        invariant IsPlan(plan, names, targets[..i])
      {
        assert targets[..i + 1] == targets[..i] + [targets[i]];
        var latest := FindLatestBackup(names, targets[i]);
        PlanGrows(plan, names, targets[..i], targets[i], latest);
        if latest.Some? {
          plan := plan + [PlanEntry(targets[i], latest.value)];
        }
      }
      assert targets[..|targets|] == targets;
    }
  }
}
