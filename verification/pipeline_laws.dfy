// What a backup run leaves: S3 against the local files on every exit, the
// survival of what the run wrote, and what a restore would then pick.
module PipelineLaws {
  import opened Text
  import opened Names
  import opened Registry
  import opened Sorting
  import opened BackupNames
  import opened Retention
  import opened Backup
  import opened BackupLaws
  import opened Mirror
  import opened Dumps
  import opened Pipeline

  // ------------------------------------------------------- the two views of p

  // A path the program recognises and whose name is one path element.
  predicate Mirrorable(p: Path)
  {
    Recognised(p) && '/' !in p.name
  }

  // No directory entry holds a slash.
  predicate OnDisk(files: Files)
  {
    forall p :: p in files ==> '/' !in p.name
  }

  function Local(files: Files, p: Path): Option<string>
  {
    if p in files then Some(files[p].content) else None
  }

  function Remote(s3: Objects, prefix: string, p: Path): Option<string>
  {
    var key := ObjectKey(prefix, p);
    if key in s3 then Some(s3[key]) else None
  }

  // S3 equals the local backups.
  ghost predicate InSync(files: Files, s3: Objects, prefix: string)
  {
    forall p :: Mirrorable(p) ==> Remote(s3, prefix, p) == Local(files, p)
  }

  // S3 contains the local backups.
  ghost predicate Covered(files: Files, s3: Objects, prefix: string)
  {
    forall p :: Mirrorable(p) && p in files ==> Remote(s3, prefix, p) == Local(files, p)
  }

  lemma KeysDiffer(prefix: string, p: Path, q: Path)
    requires Mirrorable(p) && Mirrorable(q) && p != q
    ensures ObjectKey(prefix, p) != ObjectKey(prefix, q)
  {
    if ObjectKey(prefix, p) == ObjectKey(prefix, q) {
      KeyIsInjective(prefix, p.app, p.name, q.app, q.name);
    }
  }

  predicate AllMirrorable(paths: seq<Path>)
  {
    forall i :: 0 <= i < |paths| ==> Mirrorable(paths[i])
  }

  // An upload changes exactly the uploaded paths.
  lemma {:induction false} UploadedAt(s3: Objects, prefix: string, files: Files, paths: seq<Path>, p: Path)
    requires AllMirrorable(paths) && AllIn(paths, files) && Mirrorable(p)
    ensures Remote(Uploaded(s3, prefix, files, paths), prefix, p)
      == if p in paths then Local(files, p) else Remote(s3, prefix, p)
    decreases |paths|
  {
    if paths != [] {
      var one := s3[ObjectKey(prefix, paths[0]) := files[paths[0]].content];
      assert AllIn(paths[1..], files);
      UploadedAt(one, prefix, files, paths[1..], p);
      if p != paths[0] {
        KeysDiffer(prefix, p, paths[0]);
      }
    }
  }

  // A mirrored delete changes exactly the deleted paths.
  lemma WithoutAt(s3: Objects, prefix: string, gone: set<File>, p: Path)
    requires Mirrorable(p) && forall f :: f in gone ==> Mirrorable(PathOf(f))
    ensures Remote(s3 - ObjectKeys(prefix, gone), prefix, p)
      == if p in Paths(gone) then None else Remote(s3, prefix, p)
  {
    var key := ObjectKey(prefix, p);
    if p in Paths(gone) {
      assert key in ObjectKeys(prefix, gone);
    } else if key in ObjectKeys(prefix, gone) {
      var f :| f in gone && ObjectKey(prefix, PathOf(f)) == key;
      KeysDiffer(prefix, p, PathOf(f));
    }
  }

  // ---------------------------------------------------------- a run, at a path

  lemma TargetsAreMirrorable(jobs: seq<Job>, env: RunEnv)
    requires GoodJobs(jobs)
    ensures AllMirrorable(PathsOf(jobs, env))
    ensures forall j :: j in jobs ==> Mirrorable(TargetPath(j, env))
  {
    forall j | j in jobs
      ensures Mirrorable(TargetPath(j, env))
    {
      var i :| 0 <= i < |jobs| && jobs[i] == j;
      TargetIsMirrored(j, env);
    }
    forall i | 0 <= i < |jobs|
      ensures Mirrorable(PathsOf(jobs, env)[i])
    {
      assert jobs[i] in jobs;
    }
  }

  // How the dumps treated a path.
  datatype Role = Spared | Made | Skipped(before: Job) | Undone(failed: Job)

  // What a failed dump leaves at its path: nothing when the cleanup worked.
  function LeftContent(env: RunEnv, j: Job): Option<string>
    requires env.dump(j.app, j.svc).DumpFailed?
  {
    match env.dump(j.app, j.svc).leftover
    case None => None
    case Some(meta) => Some(meta.content)
  }

  // The files after the dumps at one path, by role.
  lemma DumpsAt(files: Files, jobs: seq<Job>, env: RunEnv, p: Path) returns (role: Role)
    requires GoodJobs(jobs)
    ensures role.Made? <==> p in PathsOf(Produced(jobs, env), env)
    ensures role.Made? ==> p in FilesAfter(files, jobs, env)
    ensures role.Spared? || role.Skipped? ==> Local(FilesAfter(files, jobs, env), p) == Local(files, p)
    ensures role.Undone? ==>
      role.failed in jobs && TargetPath(role.failed, env) == p && env.dump(role.failed.app, role.failed.svc).DumpFailed?
    ensures role.Undone? ==> Local(FilesAfter(files, jobs, env), p) == LeftContent(env, role.failed)
  {
    ProducedMembers(jobs, env);
    if i :| 0 <= i < |jobs| && TargetPath(jobs[i], env) == p {
      var j := jobs[i];
      FilesAfterAtTarget(files, jobs, env, i);
      forall k | k in jobs && TargetPath(k, env) == p
        ensures k == j
      {
        SameTarget(jobs, env, k, j);
      }
      assert j in jobs;
      match env.dump(j.app, j.svc)
      case Down => role := Skipped(j);
      case Dumped(_) => role := Made;
      case DumpFailed(_) => role := Undone(j);
    } else {
      role := Spared;
      FilesAfterAt(files, jobs, env, p);
      forall k | k in jobs
        ensures TargetPath(k, env) != p
      {
        var i :| 0 <= i < |jobs| && jobs[i] == k;
      }
    }
  }

  lemma SameTarget(jobs: seq<Job>, env: RunEnv, a: Job, b: Job)
    requires GoodJobs(jobs) && a in jobs && b in jobs && TargetPath(a, env) == TargetPath(b, env)
    ensures a == b
  {
    if a != b {
      TargetsDiffer(a, b, env);
    }
  }

  // The deletes that reached S3.
  function Withdrawn(outcome: Outcome, deleted: seq<File>): set<File>
  {
    match outcome
    case Success => Elements(deleted)
    case DeleteError(_, n) => if n <= |deleted| then Elements(deleted[..n]) else {}
    case _ => {}
  }

  // The uploads that reached S3.
  function Sent(outcome: Outcome, made: seq<Path>): seq<Path>
  {
    if outcome.UploadError? && outcome.reached <= |made| then made[..outcome.reached] else made
  }

  // Files and S3 at one path after a mirrored run, whatever the exit.
  lemma RunAt(
      files0: Files, s30: Objects, prefix: string, jobs: seq<Job>, env: RunEnv, o: PruneOptions,
      files: Files, s3: Objects, outcome: Outcome, deleted: seq<File>, p: Path)
    requires GoodJobs(jobs) && OnDisk(files0) && Mirrorable(p)
    requires RunResult(files0, s30, prefix, jobs, env, o, true, files, s3, outcome, deleted)
    ensures var files1 := FilesAfter(files0, jobs, env);
      var made := PathsOf(Produced(jobs, env), env);
      && Elements(deleted) <= Listed(files1) && Withdrawn(outcome, deleted) <= Elements(deleted)
      && Local(files, p) == (if p in Paths(Elements(deleted)) then None else Local(files1, p))
      && Remote(s3, prefix, p) ==
          if p in Paths(Withdrawn(outcome, deleted)) then None
          else if p in Sent(outcome, made) then Local(files1, p)
          else Remote(s30, prefix, p)
  {
    var files1 := FilesAfter(files0, jobs, env);
    var made := PathsOf(Produced(jobs, env), env);
    var sent, gone := Sent(outcome, made), Withdrawn(outcome, deleted);
    RunShape(files0, s30, prefix, jobs, env, o, files, s3, outcome, deleted);
    SentIsMirrorable(jobs, env, outcome);
    UploadedAt(s30, prefix, files1, sent, p);
    DeletedAreListed(files0, s30, prefix, jobs, env, o, files, s3, outcome, deleted);
    DeletedAreMirrorable(files0, jobs, env, deleted);
    WithoutAt(Uploaded(s30, prefix, files1, sent), prefix, gone, p);
  }

  lemma SentIsMirrorable(jobs: seq<Job>, env: RunEnv, outcome: Outcome)
    requires GoodJobs(jobs)
    ensures AllMirrorable(Sent(outcome, PathsOf(Produced(jobs, env), env)))
  {
    ProducedIsThere(map[], jobs, env);
    TargetsAreMirrorable(Produced(jobs, env), env);
  }

  lemma DeletedAreListed(
      files0: Files, s30: Objects, prefix: string, jobs: seq<Job>, env: RunEnv, o: PruneOptions,
      files: Files, s3: Objects, outcome: Outcome, deleted: seq<File>)
    requires RunResult(files0, s30, prefix, jobs, env, o, true, files, s3, outcome, deleted)
    ensures Elements(deleted) <= Listed(FilesAfter(files0, jobs, env))
    ensures Withdrawn(outcome, deleted) <= Elements(deleted)
  {
    assert Elements([]) == {};
  }

  // RunResult in one form for every exit.
  lemma RunShape(
      files0: Files, s30: Objects, prefix: string, jobs: seq<Job>, env: RunEnv, o: PruneOptions,
      files: Files, s3: Objects, outcome: Outcome, deleted: seq<File>)
    requires RunResult(files0, s30, prefix, jobs, env, o, true, files, s3, outcome, deleted)
    ensures var files1 := FilesAfter(files0, jobs, env);
      var sent := Sent(outcome, PathsOf(Produced(jobs, env), env));
      && AllIn(sent, files1)
      && s3 == Uploaded(s30, prefix, files1, sent) - ObjectKeys(prefix, Withdrawn(outcome, deleted))
      && files == files1 - Paths(Elements(deleted))
  {
    assert ObjectKeys(prefix, {}) == {};
    assert Elements([]) == {} && Paths({}) == {};
  }

  lemma DeletedAreMirrorable(files0: Files, jobs: seq<Job>, env: RunEnv, deleted: seq<File>)
    requires GoodJobs(jobs) && OnDisk(files0)
    requires Elements(deleted) <= Listed(FilesAfter(files0, jobs, env))
    ensures forall f :: f in Elements(deleted) ==> Mirrorable(PathOf(f))
  {
    forall f | f in Elements(deleted)
      ensures Mirrorable(PathOf(f))
    {
      DumpsStayOnDisk(files0, jobs, env, PathOf(f));
    }
  }

  lemma DumpsStayOnDisk(files0: Files, jobs: seq<Job>, env: RunEnv, p: Path)
    requires GoodJobs(jobs) && OnDisk(files0) && p in FilesAfter(files0, jobs, env)
    ensures '/' !in p.name
  {
    TargetsAreMirrorable(jobs, env);
    if forall i :: 0 <= i < |jobs| ==> TargetPath(jobs[i], env) != p {
      FilesAfterAt(files0, jobs, env, p);
    } else {
      var i :| 0 <= i < |jobs| && TargetPath(jobs[i], env) == p;
      assert jobs[i] in jobs;
    }
  }

  // ------------------------------------------------------ what a run keeps apart

  // A run for one app leaves the files and the objects of every other app alone,
  // on every exit.
  lemma RunSparesOtherApps(
      files0: Files, s30: Objects, prefix: string, jobs: seq<Job>, env: RunEnv, o: PruneOptions, enabled: bool,
      files: Files, s3: Objects, outcome: Outcome, deleted: seq<File>, app: string, p: Path)
    requires RunResult(files0, s30, prefix, jobs, env, o, enabled, files, s3, outcome, deleted)
    requires GoodJobs(jobs) && OnDisk(files0) && forall j :: j in jobs ==> j.app == app
    requires !o.all && o.appName == app && app != "" && p.app != app
    ensures FileAt(files, p) == FileAt(files0, p)
    ensures Mirrorable(p) ==> Remote(s3, prefix, p) == Remote(s30, prefix, p)
  {
    assert forall j :: j in jobs ==> p != Path(j.app, FileName(j.svc, env.stamp(j.app)));
    DumpsSpareOtherPaths(files0, jobs, env, p);
    var files1 := FilesAfter(files0, jobs, env);
    if outcome.PruneError? || (Active(o) && (outcome.Success? || outcome.DeleteError?)) {
      DeletedOfApp(files1, files, o, env.cutoff, deleted, outcome != PruneError, p);
    }
    if enabled && Mirrorable(p) {
      RunAt(files0, s30, prefix, jobs, env, o, files, s3, outcome, deleted, p);
      SentOfApp(jobs, env, outcome, app);
    }
  }

  lemma DeletedOfApp(
      before: Files, after: Files, o: PruneOptions, cutoff: int, deleted: seq<File>, ok: bool, p: Path)
    requires PruneDone(before, after, o, cutoff, Elements(deleted), ok)
    requires !o.all && o.appName != "" && p.app != o.appName
    ensures p !in Paths(Elements(deleted)) && FileAt(after, p) == FileAt(before, p)
  {
    if p in before {
      PruneSparesOtherApps(before, after, o, cutoff, Elements(deleted), ok, p);
    }
  }

  lemma SentOfApp(jobs: seq<Job>, env: RunEnv, outcome: Outcome, app: string)
    requires forall j :: j in jobs ==> j.app == app
    ensures forall q :: q in Sent(outcome, PathsOf(Produced(jobs, env), env)) ==> q.app == app
  {
    ProducedMembers(jobs, env);
    var made := Produced(jobs, env);
    forall i | 0 <= i < |made|
      ensures PathsOf(made, env)[i].app == app
    {
      assert made[i] in jobs;
    }
  }

  // Whether or not a limit was set, a run that went through leaves of every app
  // and service its options name the right number of backups, the newest ones;
  // and without S3 it leaves the objects alone.
  lemma SuccessKeepsTheRightOnes(
      files0: Files, s30: Objects, prefix: string, jobs: seq<Job>, env: RunEnv, o: PruneOptions, enabled: bool,
      files: Files, s3: Objects, deleted: seq<File>, app: string, service: string)
    requires RunResult(files0, s30, prefix, jobs, env, o, enabled, files, s3, Success, deleted) && ValidName(app)
    requires o.all || o.appName == "" || app == o.appName
    requires o.services == [] || service in o.services
    ensures var files1 := FilesAfter(files0, jobs, env);
      var all, kept := BackupsOf(files1, app, service), BackupsOf(files, app, service);
      var young := if o.keepDays > 0 then NotOlder(all, env.cutoff) else all;
      && kept <= young
      && |kept| == (if o.keepCount > 0 && o.keepCount < |young| then o.keepCount else |young|)
      && forall f, g :: f in kept && g in all - kept ==> f.modified >= g.modified
    ensures !enabled ==> s3 == s30
  {
    if Active(o) {
      PruneKeepsTheRightOnes(FilesAfter(files0, jobs, env), files, o, env.cutoff, Elements(deleted), app, service);
    }
  }
}
