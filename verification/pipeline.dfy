// One backup run of the service: upload to S3, then retention, with every
// exit. `pipeline_laws.dfy` has what follows for the three views of the data.
module Pipeline {
  import opened Text
  import opened Names
  import opened Registry
  import opened BackupNames
  import opened Retention
  import opened Backup
  import opened Mirror
  import opened Dumps

  // ------------------------------------------------------------------ S3 side

  type Objects = map<string, string>

  function ObjectKey(prefix: string, p: Path): string { Key(prefix, p.app, p.name) }

  // PutObject of each file's local content, in order.
  function Uploaded(s3: Objects, prefix: string, files: Files, paths: seq<Path>): Objects
    requires forall i :: 0 <= i < |paths| ==> paths[i] in files
    decreases |paths|
  {
    if paths == [] then s3
    else Uploaded(s3[ObjectKey(prefix, paths[0]) := files[paths[0]].content], prefix, files, paths[1..])
  }

  lemma {:induction false} UploadedSnoc(s3: Objects, prefix: string, files: Files, paths: seq<Path>, p: Path)
    requires (forall i :: 0 <= i < |paths| ==> paths[i] in files) && p in files
    ensures Uploaded(s3, prefix, files, paths + [p])
      == Uploaded(s3, prefix, files, paths)[ObjectKey(prefix, p) := files[p].content]
    decreases |paths|
  {
    if paths == [] {
      assert paths + [p] == [p] && [p][1..] == [];
    } else {
      assert (paths + [p])[1..] == paths[1..] + [p];
      UploadedSnoc(s3[ObjectKey(prefix, paths[0]) := files[paths[0]].content], prefix, files, paths[1..], p);
    }
  }

  function ObjectKeys(prefix: string, fs: set<File>): set<string>
  {
    set f | f in fs :: ObjectKey(prefix, PathOf(f))
  }

  // ---------------------------------------------------------------- outcomes

  // A request that failed may have taken effect all the same: `uploads` and
  // `deletes` count those the program saw succeed, `reached` those S3 carried
  // out.
  datatype Outcome =
    | Success
    | BackupError
    | UploadError(uploads: nat, reached: nat)
    | PruneError
    | DeleteError(deletes: nat, reached: nat)

  // The requests before the n-th one succeeded and it was the last.
  predicate StopsAt(n: nat, reached: nat, total: nat)
  {
    n < total && n <= reached <= n + 1
  }

  ghost predicate PrunedOk(before: Files, after: Files, o: PruneOptions, env: RunEnv, deleted: seq<File>)
  {
    if Active(o) then PruneDone(before, after, o, env.cutoff, Elements(deleted), true)
    else deleted == [] && after == before
  }

  // Files and objects after a run over `jobs`, by exit.
  ghost predicate RunResult(
      files0: Files, s30: Objects, prefix: string, jobs: seq<Job>, env: RunEnv, o: PruneOptions, enabled: bool,
      files: Files, s3: Objects, outcome: Outcome, deleted: seq<File>)
  {
    var files1 := FilesAfter(files0, jobs, env);
    var made := PathsOf(Produced(jobs, env), env);
    && AllIn(made, files1)
    && var full := if enabled then Uploaded(s30, prefix, files1, made) else s30;
      match outcome
      case BackupError => false
      case UploadError(k, reached) =>
        enabled && StopsAt(k, reached, |made|) && files == files1 && deleted == []
        && s3 == Uploaded(s30, prefix, files1, made[..reached])
      case PruneError =>
        Active(o) && PruneDone(files1, files, o, env.cutoff, Elements(deleted), false) && s3 == full
      case DeleteError(j, reached) =>
        enabled && PrunedOk(files1, files, o, env, deleted) && StopsAt(j, reached, |deleted|)
        && s3 == full - ObjectKeys(prefix, Elements(deleted[..reached]))
      case Success =>
        PrunedOk(files1, files, o, env, deleted)
        && s3 == if enabled then full - ObjectKeys(prefix, Elements(deleted)) else full
  }

  lemma TargetIsMirrored(j: Job, env: RunEnv)
    requires Backupable(j.svc) && ValidName(j.app)
    ensures Recognised(TargetPath(j, env)) && PathElement(j.app) && PathElement(TargetPath(j, env).name)
    ensures DetectService(TargetPath(j, env).name) == SvcName(j.svc)
  {
    DetectorsAgreeWithWriter(j.svc, env.stamp(j.app));
    ValidNamesAreClean(j.app);
    PlainName(j.svc, env.stamp(j.app));
    assert forall i :: 0 <= i < |TargetPath(j, env).name| ==> !IsSeparator(TargetPath(j, env).name[i]);
  }
}
