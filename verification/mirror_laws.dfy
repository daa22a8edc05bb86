// S3 and the local backups agree: the exact condition after a successful run,
// and what still holds after each error.
module MirrorLaws {
  import opened Text
  import opened Names
  import opened Registry
  import opened BackupNames
  import opened Retention
  import opened Backup
  import opened Mirror
  import opened Dumps
  import opened Pipeline
  import opened PipelineLaws

  predicate DumpFails(env: RunEnv, j: Job) { env.dump(j.app, j.svc).DumpFailed? }

  // A failed dump left at its path what was there before, or the same run's
  // Prune took it away from both sides. When the cleanup worked, the former
  // means that no earlier file of the same second was there.
  predicate Settled(files0: Files, env: RunEnv, deleted: set<File>, j: Job)
    requires DumpFails(env, j)
  {
    TargetPath(j, env) in Paths(deleted) || LeftContent(env, j) == Local(files0, TargetPath(j, env))
  }

  ghost predicate AllSettled(files0: Files, jobs: seq<Job>, env: RunEnv, deleted: set<File>)
  {
    forall j :: j in jobs && DumpFails(env, j) ==> Settled(files0, env, deleted, j)
  }

  // Both sides at the path of a failed dump, at the end of a run.
  lemma LostAt(
      files0: Files, s30: Objects, prefix: string, jobs: seq<Job>, env: RunEnv, o: PruneOptions,
      files: Files, s3: Objects, outcome: Outcome, deleted: seq<File>, j: Job)
    requires GoodJobs(jobs) && OnDisk(files0) && j in jobs && DumpFails(env, j)
    requires RunResult(files0, s30, prefix, jobs, env, o, true, files, s3, outcome, deleted)
    ensures var p := TargetPath(j, env);
      && Mirrorable(p) && Withdrawn(outcome, deleted) <= Elements(deleted)
      && p !in PathsOf(Produced(jobs, env), env)
      && Local(files, p) == (if p in Paths(Elements(deleted)) then None else LeftContent(env, j))
      && Remote(s3, prefix, p) == (if p in Paths(Withdrawn(outcome, deleted)) then None else Remote(s30, prefix, p))
  {
    var p := TargetPath(j, env);
    TargetsAreMirrorable(jobs, env);
    RunAt(files0, s30, prefix, jobs, env, o, files, s3, outcome, deleted, p);
    var role := DumpsAt(files0, jobs, env, p);
    ProducedMembers(jobs, env);
    if role.Undone? {
      SameTarget(jobs, env, role.failed, j);
    } else {
      FailedIsLost(files0, jobs, env, j);
    }
  }

  lemma FailedIsLost(files0: Files, jobs: seq<Job>, env: RunEnv, j: Job)
    requires GoodJobs(jobs) && j in jobs && DumpFails(env, j)
    ensures Local(FilesAfter(files0, jobs, env), TargetPath(j, env)) == LeftContent(env, j)
    ensures TargetPath(j, env) !in PathsOf(Produced(jobs, env), env)
  {
    var k :| 0 <= k < |jobs| && jobs[k] == j;
    FilesAfterAtTarget(files0, jobs, env, k);
    ProducedMembers(jobs, env);
    var made := Produced(jobs, env);
    forall i | 0 <= i < |made|
      ensures TargetPath(made[i], env) != TargetPath(j, env)
    {
      assert made[i] in made;
      if TargetPath(made[i], env) == TargetPath(j, env) {
        SameTarget(jobs, env, made[i], j);
      }
    }
  }

  // Starting from S3 equal to local, a successful run ends with S3 equal to
  // local exactly when every failed dump is settled.
  lemma SuccessKeepsSyncIff(
      files0: Files, s30: Objects, prefix: string, jobs: seq<Job>, env: RunEnv, o: PruneOptions,
      files: Files, s3: Objects, deleted: seq<File>)
    requires GoodJobs(jobs) && OnDisk(files0) && InSync(files0, s30, prefix)
    requires RunResult(files0, s30, prefix, jobs, env, o, true, files, s3, Success, deleted)
    ensures InSync(files, s3, prefix) <==> AllSettled(files0, jobs, env, Elements(deleted))
  {
    forall j | j in jobs && DumpFails(env, j)
      ensures Mirrorable(TargetPath(j, env))
      ensures Settled(files0, env, Elements(deleted), j)
        <==> Remote(s3, prefix, TargetPath(j, env)) == Local(files, TargetPath(j, env))
    {
      LostAt(files0, s30, prefix, jobs, env, o, files, s3, Success, deleted, j);
    }
    if AllSettled(files0, jobs, env, Elements(deleted)) {
      forall p | Mirrorable(p)
        ensures Remote(s3, prefix, p) == Local(files, p)
      {
        RunAt(files0, s30, prefix, jobs, env, o, files, s3, Success, deleted, p);
        var role := DumpsAt(files0, jobs, env, p);
      }
    }
  }

  // When every cleanup worked, that is: no failed dump took an earlier file of
  // the same second with it.
  lemma CleanRunKeepsSyncIff(
      files0: Files, s30: Objects, prefix: string, jobs: seq<Job>, env: RunEnv, o: PruneOptions,
      files: Files, s3: Objects, deleted: seq<File>)
    requires GoodJobs(jobs) && OnDisk(files0) && InSync(files0, s30, prefix)
    requires forall j :: j in jobs && DumpFails(env, j) ==> LeftContent(env, j) == None
    requires RunResult(files0, s30, prefix, jobs, env, o, true, files, s3, Success, deleted)
    ensures InSync(files, s3, prefix) <==> forall j :: j in jobs && DumpFails(env, j) ==> TargetPath(j, env) !in files0
  {
    SuccessKeepsSyncIff(files0, s30, prefix, jobs, env, o, files, s3, deleted);
    forall j | j in jobs && DumpFails(env, j)
      ensures Settled(files0, env, Elements(deleted), j) <==> TargetPath(j, env) !in files0
    {
      FailedIsLost(files0, jobs, env, j);
      RunAt(files0, s30, prefix, jobs, env, o, files, s3, Success, deleted, MirrorablePath(jobs, env, j));
      NotListedNotDeleted(FilesAfter(files0, jobs, env), Elements(deleted), TargetPath(j, env));
    }
  }

  function MirrorablePath(jobs: seq<Job>, env: RunEnv, j: Job): (p: Path)
    requires GoodJobs(jobs) && j in jobs
    ensures p == TargetPath(j, env) && Mirrorable(p)
  {
    TargetsAreMirrorable(jobs, env);
    TargetPath(j, env)
  }

  lemma NotListedNotDeleted(files: Files, gone: set<File>, p: Path)
    requires gone <= Listed(files) && p !in files
    ensures p !in Paths(gone)
  {
  }

  // A failed dump whose leftover S3 has, or that the same run pruned.
  predicate Mirrored(s30: Objects, prefix: string, env: RunEnv, deleted: set<File>, j: Job)
    requires DumpFails(env, j)
  {
    LeftContent(env, j) == None || TargetPath(j, env) in Paths(deleted)
    || LeftContent(env, j) == Remote(s30, prefix, TargetPath(j, env))
  }

  ghost predicate AllMirrored(s30: Objects, prefix: string, jobs: seq<Job>, env: RunEnv, deleted: set<File>)
  {
    forall j :: j in jobs && DumpFails(env, j) ==> Mirrored(s30, prefix, env, deleted, j)
  }

  // On every exit but a failed upload, S3 still contains every local file if
  // it did before, exactly when no failed dump left a file behind that is
  // neither in S3 nor pruned.
  lemma RunKeepsCoveredIff(
      files0: Files, s30: Objects, prefix: string, jobs: seq<Job>, env: RunEnv, o: PruneOptions,
      files: Files, s3: Objects, outcome: Outcome, deleted: seq<File>)
    requires GoodJobs(jobs) && OnDisk(files0) && Covered(files0, s30, prefix) && !outcome.UploadError?
    requires RunResult(files0, s30, prefix, jobs, env, o, true, files, s3, outcome, deleted)
    ensures Covered(files, s3, prefix) <==> AllMirrored(s30, prefix, jobs, env, Elements(deleted))
  {
    forall j | j in jobs && DumpFails(env, j)
      ensures Mirrorable(TargetPath(j, env))
      ensures Mirrored(s30, prefix, env, Elements(deleted), j)
        <==> (TargetPath(j, env) in files ==>
          Remote(s3, prefix, TargetPath(j, env)) == Local(files, TargetPath(j, env)))
    {
      LostAt(files0, s30, prefix, jobs, env, o, files, s3, outcome, deleted, j);
      SubsetPaths(Withdrawn(outcome, deleted), Elements(deleted), TargetPath(j, env));
    }
    if AllMirrored(s30, prefix, jobs, env, Elements(deleted)) {
      forall p | Mirrorable(p) && p in files
        ensures Remote(s3, prefix, p) == Local(files, p)
      {
        RunCoversAt(files0, s30, prefix, jobs, env, o, files, s3, outcome, deleted, p);
      }
    }
  }

  lemma SubsetPaths(a: set<File>, b: set<File>, p: Path)
    requires a <= b
    ensures p in Paths(a) ==> p in Paths(b)
  {
  }

  // A failed upload leaves out only files this run produced, and what failed
  // dumps left behind.
  lemma UploadErrorKeepsRest(
      files0: Files, s30: Objects, prefix: string, jobs: seq<Job>, env: RunEnv, o: PruneOptions,
      files: Files, s3: Objects, outcome: Outcome, deleted: seq<File>, p: Path)
    requires GoodJobs(jobs) && OnDisk(files0) && Covered(files0, s30, prefix) && outcome.UploadError?
    requires RunResult(files0, s30, prefix, jobs, env, o, true, files, s3, outcome, deleted)
    requires Mirrorable(p) && p in files && p !in PathsOf(Produced(jobs, env), env)[outcome.reached..]
    requires forall j :: j in jobs && DumpFails(env, j) ==> p != TargetPath(j, env)
    ensures Remote(s3, prefix, p) == Local(files, p)
  {
    RunCoversAt(files0, s30, prefix, jobs, env, o, files, s3, outcome, deleted, p);
  }

  lemma RunCoversAt(
      files0: Files, s30: Objects, prefix: string, jobs: seq<Job>, env: RunEnv, o: PruneOptions,
      files: Files, s3: Objects, outcome: Outcome, deleted: seq<File>, p: Path)
    requires GoodJobs(jobs) && OnDisk(files0) && Mirrorable(p) && p in files
    requires p in files0 ==> Remote(s30, prefix, p) == Local(files0, p)
    requires forall j :: j in jobs && DumpFails(env, j) && TargetPath(j, env) == p ==>
      Remote(s3, prefix, p) == Local(files, p)
    requires RunResult(files0, s30, prefix, jobs, env, o, true, files, s3, outcome, deleted)
    ensures var made := PathsOf(Produced(jobs, env), env);
      (outcome.UploadError? ==> p !in made[outcome.reached..]) ==> Remote(s3, prefix, p) == Local(files, p)
  {
    var made := PathsOf(Produced(jobs, env), env);
    RunAt(files0, s30, prefix, jobs, env, o, files, s3, outcome, deleted, p);
    var role := DumpsAt(files0, jobs, env, p);
    SentOrLeft(outcome, made, p);
    SubsetPaths(Withdrawn(outcome, deleted), Elements(deleted), p);
  }

  lemma SentOrLeft(outcome: Outcome, made: seq<Path>, p: Path)
    requires outcome.UploadError? ==> outcome.reached <= |made|
    ensures p in made ==> p in Sent(outcome, made) || (outcome.UploadError? && p in made[outcome.reached..])
  {
    if outcome.UploadError? {
      assert made == made[..outcome.reached] + made[outcome.reached..];
    }
  }

  // A failed upload: nothing is pruned, and S3 differs from before exactly by
  // a prefix of the produced files, the one whose upload failed perhaps
  // included.
  lemma UploadErrorAddsPrefix(
      files0: Files, s30: Objects, prefix: string, jobs: seq<Job>, env: RunEnv, o: PruneOptions,
      files: Files, s3: Objects, outcome: Outcome, deleted: seq<File>, p: Path)
    requires GoodJobs(jobs) && OnDisk(files0) && outcome.UploadError? && Mirrorable(p)
    requires RunResult(files0, s30, prefix, jobs, env, o, true, files, s3, outcome, deleted)
    ensures files == FilesAfter(files0, jobs, env) && deleted == []
    ensures var made := PathsOf(Produced(jobs, env), env);
      && StopsAt(outcome.uploads, outcome.reached, |made|)
      && Remote(s3, prefix, p) == (if p in made[..outcome.reached] then Local(files, p) else Remote(s30, prefix, p))
  {
    RunAt(files0, s30, prefix, jobs, env, o, files, s3, outcome, deleted, p);
    assert Paths({}) == {};
  }

  // UploadAll, when every upload works, makes S3 contain every local backup,
  // whatever S3 held.
  lemma UploadAllCovers(files: Files, s30: Objects, prefix: string, paths: seq<Path>)
    requires OnDisk(files) && forall p :: p in paths <==> p in files && Recognised(p)
    requires forall i :: 0 <= i < |paths| ==> paths[i] in files
    ensures Covered(files, Uploaded(s30, prefix, files, paths), prefix)
    ensures forall p :: Mirrorable(p) && p !in files ==>
      Remote(Uploaded(s30, prefix, files, paths), prefix, p) == Remote(s30, prefix, p)
  {
    forall i | 0 <= i < |paths|
      ensures Mirrorable(paths[i])
    {
      assert paths[i] in paths;
    }
    forall p | Mirrorable(p)
      ensures Remote(Uploaded(s30, prefix, files, paths), prefix, p)
        == if p in files then Local(files, p) else Remote(s30, prefix, p)
    {
      UploadedAt(s30, prefix, files, paths, p);
    }
  }

  // DeleteFile keeps the two sides equal; when only the remote delete fails,
  // S3 still contains every local file.
  lemma DeleteFileKeepsMirror(files: Files, s3: Objects, prefix: string, p: Path)
    requires Mirrorable(p)
    ensures InSync(files, s3, prefix) ==> InSync(files - {p}, s3 - {ObjectKey(prefix, p)}, prefix)
    ensures Covered(files, s3, prefix) ==> Covered(files - {p}, s3 - {ObjectKey(prefix, p)}, prefix)
    ensures Covered(files, s3, prefix) ==> Covered(files - {p}, s3, prefix)
    ensures InSync(files, s3, prefix) && p in files ==> !InSync(files - {p}, s3, prefix)
  {
    forall q | Mirrorable(q)
      ensures Remote(s3 - {ObjectKey(prefix, p)}, prefix, q) == if q == p then None else Remote(s3, prefix, q)
    {
      if q != p {
        KeysDiffer(prefix, p, q);
      }
    }
    if InSync(files, s3, prefix) && p in files {
      assert Remote(s3, prefix, p) == Local(files, p) != Local(files - {p}, p);
    }
  }

  // ------------------------------------------------------------ whole histories

  // The acts of the web service on a mirrored directory. A run goes with the
  // exit it took, a delete with whether S3 followed, an UploadAll with how far
  // it got.
  datatype Act =
    | BackupRun(jobs: seq<Job>, env: RunEnv, o: PruneOptions, outcome: Outcome, deleted: seq<File>)
    | RemoveFile(p: Path, mirrored: bool)
    | UploadEvery(paths: seq<Path>, sent: nat)

  datatype Sides = Sides(files: Files, s3: Objects)

  ghost predicate Performs(a: Act, s: Sides, t: Sides, prefix: string)
  {
    match a
    case BackupRun(jobs, env, o, outcome, deleted) =>
      GoodJobs(jobs)
      && RunResult(s.files, s.s3, prefix, jobs, env, o, true, t.files, t.s3, outcome, deleted)
    case RemoveFile(p, mirrored) =>
      Mirrorable(p) && t.files == s.files - {p}
      && t.s3 == if mirrored then s.s3 - {ObjectKey(prefix, p)} else s.s3
    case UploadEvery(paths, sent) =>
      && t.files == s.files && sent <= |paths| && (forall p :: p in paths <==> p in s.files && Recognised(p))
      && AllIn(paths[..sent], s.files) && t.s3 == Uploaded(s.s3, prefix, s.files, paths[..sent])
  }

  ghost predicate History(states: seq<Sides>, acts: seq<Act>, prefix: string)
  {
    && |states| == |acts| + 1
    && OnDisk(states[0].files)
    && forall i :: 0 <= i < |acts| ==> Performs(acts[i], states[i], states[i + 1], prefix)
  }

  // An upload that stopped half-way, and a failed dump whose file stayed, are
  // the acts that can leave local files behind.
  ghost predicate LeavesBehind(a: Act)
  {
    && a.BackupRun?
    && (a.outcome.UploadError? || exists j :: j in a.jobs && DumpFails(a.env, j) && LeftContent(a.env, j) != None)
  }

  lemma RunStaysOnDisk(a: Act, s: Sides, t: Sides, prefix: string)
    requires a.BackupRun? && Performs(a, s, t, prefix) && OnDisk(s.files)
    ensures OnDisk(t.files)
  {
    forall p | p in t.files
      ensures '/' !in p.name
    {
      DumpsStayOnDisk(s.files, a.jobs, a.env, p);
    }
  }

  lemma UploadsKeepCovered(s: Sides, t: Sides, paths: seq<Path>, sent: nat, prefix: string)
    requires OnDisk(s.files) && Performs(UploadEvery(paths, sent), s, t, prefix)
    ensures Covered(s.files, s.s3, prefix) || sent == |paths| ==> Covered(t.files, t.s3, prefix)
  {
    var done := paths[..sent];
    forall i | 0 <= i < |done|
      ensures Mirrorable(done[i])
    {
      assert done[i] == paths[i] && paths[i] in paths;
    }
    forall p | Mirrorable(p) && p in t.files && (Covered(s.files, s.s3, prefix) || sent == |paths|)
      ensures Remote(t.s3, prefix, p) == Local(t.files, p)
    {
      UploadedAt(s.s3, prefix, s.files, done, p);
      assert sent == |paths| ==> done == paths && p in paths;
    }
  }

  lemma ActKeepsCovered(a: Act, s: Sides, t: Sides, prefix: string)
    requires OnDisk(s.files) && Performs(a, s, t, prefix)
    ensures OnDisk(t.files)
    ensures Covered(s.files, s.s3, prefix) && !LeavesBehind(a) ==> Covered(t.files, t.s3, prefix)
    ensures a.UploadEvery? && a.sent == |a.paths| ==> Covered(t.files, t.s3, prefix)
  {
    match a
    case BackupRun(jobs, env, o, outcome, deleted) =>
      RunStaysOnDisk(a, s, t, prefix);
      if Covered(s.files, s.s3, prefix) && !LeavesBehind(a) {
        assert AllMirrored(s.s3, prefix, jobs, env, Elements(deleted));
        RunKeepsCoveredIff(s.files, s.s3, prefix, jobs, env, o, t.files, t.s3, outcome, deleted);
      }
    case RemoveFile(p, mirrored) => DeleteFileKeepsMirror(s.files, s.s3, prefix, p);
    case UploadEvery(paths, sent) => UploadsKeepCovered(s, t, paths, sent, prefix);
  }

  lemma {:induction false} HistoryStaysOnDisk(states: seq<Sides>, acts: seq<Act>, prefix: string, i: nat)
    requires History(states, acts, prefix) && i <= |acts|
    ensures OnDisk(states[i].files)
  {
    if i > 0 {
      HistoryStaysOnDisk(states, acts, prefix, i - 1);
      ActKeepsCovered(acts[i - 1], states[i - 1], states[i], prefix);
    }
  }

  // Once S3 contains every local backup, from the start or since an UploadAll
  // that went through, it does so until an upload stops half-way or a failed
  // dump's file stays, whatever else succeeds or fails.
  lemma {:induction false} CoveredSince(states: seq<Sides>, acts: seq<Act>, prefix: string, first: nat, last: nat)
    requires History(states, acts, prefix) && first <= last <= |acts|
    requires Covered(states[first].files, states[first].s3, prefix)
      || (first > 0 && acts[first - 1].UploadEvery? && acts[first - 1].sent == |acts[first - 1].paths|)
    requires forall i :: first <= i < last ==> !LeavesBehind(acts[i])
    ensures Covered(states[last].files, states[last].s3, prefix)
    decreases last
  {
    if last == first {
      if first > 0 {
        HistoryStaysOnDisk(states, acts, prefix, first - 1);
        ActKeepsCovered(acts[first - 1], states[first - 1], states[first], prefix);
      }
    } else {
      CoveredSince(states, acts, prefix, first, last - 1);
      HistoryStaysOnDisk(states, acts, prefix, last - 1);
      ActKeepsCovered(acts[last - 1], states[last - 1], states[last], prefix);
    }
  }
}
