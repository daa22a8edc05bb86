// shelfcore's backups: which services are dumped, under which names, and what
// the dumps do to the backups directory.
module Dumps {
  import opened Text
  import opened Names
  import opened Registry
  import opened Brokers
  import opened Sorting
  import opened BackupNames
  import opened Backup

  // ------------------------------------------------------------ what is dumped

  predicate Wanted(entry: AppEntry, requested: seq<string>, s: Svc)
  {
    s in entry.services && Backupable(s) && (requested == [] || SvcName(s) in requested)
  }

  function ChosenFrom(entry: AppEntry, requested: seq<string>, svcs: seq<Svc>): seq<Svc>
  {
    if svcs == [] then []
    else (if Wanted(entry, requested, svcs[0]) then [svcs[0]] else []) + ChosenFrom(entry, requested, svcs[1..])
  }

  // chooseBackupServices: attached and backupable, in catalog order; no
  // request means all of them.
  function Chosen(entry: AppEntry, requested: seq<string>): seq<Svc>
  {
    ChosenFrom(entry, requested, CATALOG)
  }

  lemma {:induction false} ChosenFromMembers(entry: AppEntry, requested: seq<string>, svcs: seq<Svc>)
    ensures forall s :: s in ChosenFrom(entry, requested, svcs) <==> s in svcs && Wanted(entry, requested, s)
    ensures Distinct(svcs) ==> Distinct(ChosenFrom(entry, requested, svcs))
  {
    if svcs != [] {
      ChosenFromMembers(entry, requested, svcs[1..]);
      if Distinct(svcs) {
        assert svcs[0] !in svcs[1..];
      }
    }
  }

  lemma ChosenMembers(entry: AppEntry, requested: seq<string>)
    ensures forall s :: s in Chosen(entry, requested) <==> Wanted(entry, requested, s)
    ensures Distinct(Chosen(entry, requested))
  {
    ChosenFromMembers(entry, requested, CATALOG);
    forall s: Svc
      ensures s in CATALOG
    {
      EveryServiceIsListed(s);
    }
  }

  // What becomes of one dump. A failed one is followed by os.Remove of its
  // path, whose own error is ignored: `leftover` is what that removal leaves.
  datatype Dump = Down | Dumped(meta: Meta) | DumpFailed(leftover: Option<Meta>)

  // The run's surroundings: clocks, dumps, S3 and the file system.
  datatype RunEnv = RunEnv(
    stamp: string -> Stamp,
    dump: (string, Svc) -> Dump,
    mkdir: string -> bool,
    uploads: Fates,
    deletes: Fates,
    unreadable: bool,
    denied: set<Path>,
    cutoff: int)

  datatype Job = Job(app: string, svc: Svc)

  function TargetPath(j: Job, env: RunEnv): Path
  {
    Path(j.app, FileName(j.svc, env.stamp(j.app)))
  }

  predicate GoodJobs(jobs: seq<Job>)
  {
    Distinct(jobs) && forall i :: 0 <= i < |jobs| ==> Backupable(jobs[i].svc) && ValidName(jobs[i].app)
  }

  function AfterDump(files: Files, j: Job, env: RunEnv): Files
  {
    match env.dump(j.app, j.svc)
    case Down => files
    case Dumped(meta) => files[TargetPath(j, env) := meta]
    case DumpFailed(None) => files - {TargetPath(j, env)}
    case DumpFailed(Some(meta)) => files[TargetPath(j, env) := meta]
  }

  function FilesAfter(files: Files, jobs: seq<Job>, env: RunEnv): Files
    decreases |jobs|
  {
    if jobs == [] then files else FilesAfter(AfterDump(files, jobs[0], env), jobs[1..], env)
  }

  // The jobs whose dump succeeded, in order.
  function Produced(jobs: seq<Job>, env: RunEnv): seq<Job>
  {
    if jobs == [] then []
    else (if env.dump(jobs[0].app, jobs[0].svc).Dumped? then [jobs[0]] else []) + Produced(jobs[1..], env)
  }

  function AppJobs(app: string, svcs: seq<Svc>): (jobs: seq<Job>)
    ensures |jobs| == |svcs| && forall i :: 0 <= i < |svcs| ==> jobs[i] == Job(app, svcs[i])
  {
    seq(|svcs|, i requires 0 <= i < |svcs| => Job(app, svcs[i]))
  }

  // BackupApp refuses an invalid or unknown name, an empty choice, and a
  // directory it cannot make, all before anything is written.
  predicate AppRuns(apps: Apps, app: string, requested: seq<string>, env: RunEnv)
  {
    ValidName(app) && app in apps && Chosen(apps[app], requested) != [] && env.mkdir(app)
  }

  // The dumps of one app; none when it is refused.
  function JobsFor(apps: Apps, app: string, requested: seq<string>, env: RunEnv): seq<Job>
  {
    if AppRuns(apps, app, requested, env) then AppJobs(app, Chosen(apps[app], requested)) else []
  }

  // BackupAll goes on after an app that fails.
  function AllJobs(names: seq<string>, apps: Apps, requested: seq<string>, env: RunEnv): seq<Job>
  {
    if names == [] then []
    else JobsFor(apps, names[0], requested, env) + AllJobs(names[1..], apps, requested, env)
  }

  lemma {:induction false} AllJobsAreGood(names: seq<string>, apps: Apps, requested: seq<string>, env: RunEnv)
    requires Distinct(names)
    ensures GoodJobs(AllJobs(names, apps, requested, env))
    ensures forall j :: j in AllJobs(names, apps, requested, env) ==> j.app in names
  {
    if names != [] {
      AllJobsAreGood(names[1..], apps, requested, env);
      assert names[0] !in names[1..];
      if AppRuns(apps, names[0], requested, env) {
        AppJobsAreGood(names[0], apps[names[0]], requested);
      }
    }
  }

  lemma AppJobsAreGood(app: string, entry: AppEntry, requested: seq<string>)
    requires ValidName(app)
    ensures GoodJobs(AppJobs(app, Chosen(entry, requested)))
    ensures forall j :: j in AppJobs(app, Chosen(entry, requested)) ==> j.app == app
  {
    ChosenMembers(entry, requested);
    var svcs := Chosen(entry, requested);
    forall i | 0 <= i < |svcs|
      ensures Backupable(svcs[i])
    {
      assert svcs[i] in svcs;
    }
  }

  // The written paths.
  function PathsOf(jobs: seq<Job>, env: RunEnv): (paths: seq<Path>)
    ensures |paths| == |jobs| && forall i :: 0 <= i < |jobs| ==> paths[i] == TargetPath(jobs[i], env)
  {
    seq(|jobs|, i requires 0 <= i < |jobs| => TargetPath(jobs[i], env))
  }

  predicate AllIn(paths: seq<Path>, files: Files)
  {
    forall i :: 0 <= i < |paths| ==> paths[i] in files
  }

  // -------------------------------------------------- targets do not collide

  lemma TargetsDiffer(a: Job, b: Job, env: RunEnv)
    requires Backupable(a.svc) && Backupable(b.svc) && a != b
    ensures TargetPath(a, env) != TargetPath(b, env)
  {
    DetectorsAgreeWithWriter(a.svc, env.stamp(a.app));
    DetectorsAgreeWithWriter(b.svc, env.stamp(b.app));
  }

  lemma PlainName(svc: Svc, t: Stamp)
    requires Backupable(svc)
    ensures NoSeparator(FileName(svc, t)) && |FileName(svc, t)| > 2
  {
    DigitsHaveNoSeparator(t.year, 4);
    DigitsHaveNoSeparator(t.month, 2);
    DigitsHaveNoSeparator(t.day, 2);
    DigitsHaveNoSeparator(t.hour, 2);
    DigitsHaveNoSeparator(t.minute, 2);
    DigitsHaveNoSeparator(t.second, 2);
    assert NoSeparator(StampText(t));
    assert NoSeparator(Prefix(svc)) && NoSeparator("." + Extension(svc));
    assert |FileName(svc, t)| > 2;
  }

  // What the dumps did at one path.
  lemma GoodTail(jobs: seq<Job>)
    requires GoodJobs(jobs) && jobs != []
    ensures GoodJobs(jobs[1..])
  {
  }

  lemma {:induction false} FilesAfterAt(files: Files, jobs: seq<Job>, env: RunEnv, p: Path)
    requires GoodJobs(jobs)
    ensures (forall i :: 0 <= i < |jobs| ==> TargetPath(jobs[i], env) != p) ==>
      (p in FilesAfter(files, jobs, env) <==> p in files)
      && (p in files ==> FilesAfter(files, jobs, env)[p] == files[p])
    decreases |jobs|
  {
    if jobs != [] {
      GoodTail(jobs);
      FilesAfterAt(AfterDump(files, jobs[0], env), jobs[1..], env, p);
    }
  }

  lemma {:induction false} FilesAfterAtTarget(files: Files, jobs: seq<Job>, env: RunEnv, k: nat)
    requires GoodJobs(jobs) && k < |jobs|
    ensures var p := TargetPath(jobs[k], env);
      var before, after := AfterDump(files, jobs[k], env), FilesAfter(files, jobs, env);
      (p in after <==> p in before) && (p in before ==> after[p] == before[p])
    decreases |jobs|
  {
    GoodTail(jobs);
    var p := TargetPath(jobs[k], env);
    var one := AfterDump(files, jobs[0], env);
    if k == 0 {
      forall i | 0 <= i < |jobs[1..]|
        ensures TargetPath(jobs[1..][i], env) != p
      {
        TargetsDiffer(jobs[i + 1], jobs[0], env);
      }
      FilesAfterAt(one, jobs[1..], env, p);
    } else {
      assert jobs[1..][k - 1] == jobs[k];
      TargetsDiffer(jobs[k], jobs[0], env);
      FilesAfterAtTarget(one, jobs[1..], env, k - 1);
    }
  }

  lemma {:induction false} ProducedMembers(jobs: seq<Job>, env: RunEnv)
    ensures forall j :: j in Produced(jobs, env) <==> j in jobs && env.dump(j.app, j.svc).Dumped?
    ensures Distinct(jobs) ==> Distinct(Produced(jobs, env))
  {
    if jobs != [] {
      ProducedMembers(jobs[1..], env);
      if Distinct(jobs) {
        assert jobs[0] !in jobs[1..];
      }
    }
  }

  // A produced file is there when the dumps are over, with what was dumped.
  lemma ProducedIsThere(files: Files, jobs: seq<Job>, env: RunEnv)
    requires GoodJobs(jobs)
    ensures GoodJobs(Produced(jobs, env)) && AllIn(PathsOf(Produced(jobs, env), env), FilesAfter(files, jobs, env))
    ensures forall j :: j in Produced(jobs, env) ==>
      TargetPath(j, env) in FilesAfter(files, jobs, env)
      && env.dump(j.app, j.svc) == Dumped(FilesAfter(files, jobs, env)[TargetPath(j, env)])
  {
    ProducedMembers(jobs, env);
    var made := Produced(jobs, env);
    forall j | j in made
      ensures Backupable(j.svc) && ValidName(j.app) && TargetPath(j, env) in FilesAfter(files, jobs, env)
        && env.dump(j.app, j.svc) == Dumped(FilesAfter(files, jobs, env)[TargetPath(j, env)])
    {
      var k :| 0 <= k < |jobs| && jobs[k] == j;
      FilesAfterAtTarget(files, jobs, env, k);
    }
    forall i | 0 <= i < |made|
      ensures Backupable(made[i].svc) && ValidName(made[i].app)
        && TargetPath(made[i], env) in FilesAfter(files, jobs, env)
    {
      assert made[i] in made;
    }
  }

  // ------------------------------------------------------------- file records

  // shelfcore.BackupFile: the path is <dir>/<app>/<name>.
  datatype BackupFile = BackupFile(app: string, service: Svc, path: string)

  function PathText(dir: string, p: Path): string { dir + "/" + p.app + "/" + p.name }

  function RecordOf(j: Job, env: RunEnv, dir: string): BackupFile
  {
    BackupFile(j.app, j.svc, PathText(dir, TargetPath(j, env)))
  }

  // The records of the dumps that succeeded, in order.
  function Records(jobs: seq<Job>, env: RunEnv, dir: string): seq<BackupFile>
  {
    if jobs == [] then []
    else
      (if env.dump(jobs[0].app, jobs[0].svc).Dumped? then [RecordOf(jobs[0], env, dir)] else [])
      + Records(jobs[1..], env, dir)
  }

  lemma {:induction false} RecordsMatchProduced(jobs: seq<Job>, env: RunEnv, dir: string)
    ensures |Records(jobs, env, dir)| == |Produced(jobs, env)|
    ensures forall i :: 0 <= i < |Produced(jobs, env)| ==>
      Records(jobs, env, dir)[i] == RecordOf(Produced(jobs, env)[i], env, dir)
  {
    if jobs != [] {
      RecordsMatchProduced(jobs[1..], env, dir);
    }
  }

  predicate IsSeparator(c: char) { c == '/' || c == '\\' }

  predicate NoSeparator(s: string) { forall i :: 0 <= i < |s| ==> !IsSeparator(s[i]) }

  // What follows the last separator.
  ghost predicate IsBase(p: string, r: string)
  {
    HasSuffix(p, r) && NoSeparator(r) && (r == p || (|r| < |p| && IsSeparator(p[|p| - |r| - 1])))
  }

  // pathBase: the search from the end.
  method PathBase(p: string) returns (r: string)
    ensures IsBase(p, r)
  {
    var i := |p| - 1;
    while i >= 0
      invariant -1 <= i < |p|
      invariant forall k :: i < k < |p| ==> !IsSeparator(p[k])
    {
      if p[i] == '/' || p[i] == '\\' {
        return p[i + 1..];
      }
      i := i - 1;
    }
    assert p[0..] == p;
    return p;
  }

  lemma BaseIsUnique(p: string, r1: string, r2: string)
    requires IsBase(p, r1) && IsBase(p, r2)
    ensures r1 == r2
  {
  }

  lemma {:induction false} DigitsHaveNoSeparator(n: nat, width: nat)
    ensures NoSeparator(Digits(n, width))
  {
    if width > 0 {
      DigitsHaveNoSeparator(n / 10, width - 1);
    }
  }

  // ------------------------------------------------------------ restore plans

  datatype PlanEntry = PlanEntry(service: Svc, name: string)

  // The file names in an app's directory.
  function NamesOf(files: Files, app: string): set<string>
  {
    set p | p in files && p.app == app :: p.name
  }

  predicate HasBackup(names: set<string>, svc: Svc)
  {
    exists n :: n in names && HasPrefix(n, Prefix(svc))
  }

  // The services that have a backup, in order.
  function Restorable(names: set<string>, svcs: seq<Svc>): seq<Svc>
  {
    if svcs == [] then []
    else (if HasBackup(names, svcs[0]) then [svcs[0]] else []) + Restorable(names, svcs[1..])
  }

  lemma {:induction false} PlanSnoc(names: set<string>, svcs: seq<Svc>, s: Svc)
    ensures HasBackup(names, s) ==> Restorable(names, svcs + [s]) == Restorable(names, svcs) + [s]
    ensures !HasBackup(names, s) ==> Restorable(names, svcs + [s]) == Restorable(names, svcs)
  {
    if svcs == [] {
      assert [] + [s] == [s] && [s][1..] == [];
    } else {
      assert (svcs + [s])[1..] == svcs[1..] + [s];
      PlanSnoc(names, svcs[1..], s);
    }
  }

  // One entry for each service that has a backup, in order, with its latest
  // file.
  ghost predicate IsPlan(plan: seq<PlanEntry>, names: set<string>, svcs: seq<Svc>)
  {
    var have := Restorable(names, svcs);
    && |plan| == |have|
    && forall i :: 0 <= i < |plan| ==> plan[i].service == have[i] && IsLatest(names, have[i], plan[i].name)
  }

  lemma PlanGrows(plan: seq<PlanEntry>, names: set<string>, svcs: seq<Svc>, s: Svc, latest: Option<string>)
    requires IsPlan(plan, names, svcs)
    requires if latest.None? then !HasBackup(names, s) else IsLatest(names, s, latest.value)
    ensures IsPlan(if latest.None? then plan else plan + [PlanEntry(s, latest.value)], names, svcs + [s])
  {
    PlanSnoc(names, svcs, s);
  }

  lemma {:induction false} RestorableMembers(names: set<string>, svcs: seq<Svc>, s: Svc)
    ensures s in Restorable(names, svcs) <==> s in svcs && HasBackup(names, s)
  {
    if svcs != [] {
      RestorableMembers(names, svcs[1..], s);
    }
  }

  // A chosen service is planned with its latest file, and only with that.
  lemma PlanPicksLatest(plan: seq<PlanEntry>, names: set<string>, svcs: seq<Svc>, s: Svc, name: string)
    requires IsPlan(plan, names, svcs) && IsLatest(names, s, name)
    ensures PlanEntry(s, name) in plan <==> s in svcs
    ensures forall e :: e in plan && e.service == s ==> e.name == name
  {
    RestorableMembers(names, svcs, s);
    var have := Restorable(names, svcs);
    forall i | 0 <= i < |plan| && plan[i].service == s
      ensures plan[i].name == name
    {
      LatestIsUnique(names, s, name, plan[i].name);
    }
    if s in have {
      var i :| 0 <= i < |have| && have[i] == s;
      assert plan[i] == PlanEntry(s, name);
    }
    if PlanEntry(s, name) in plan {
      var i :| 0 <= i < |plan| && plan[i] == PlanEntry(s, name);
      assert have[i] == s;
    }
  }
}
