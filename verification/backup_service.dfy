// The backup service as the program runs it: BackupWithRetention and the S3
// client's loops.
module BackupServiceClass {
  import opened Text
  import opened Names
  import opened Registry
  import opened Brokers
  import opened Sorting
  import opened BackupNames
  import opened Retention
  import opened Backup
  import opened Mirror
  import opened Dumps
  import opened Pipeline
  import opened BackupEngineClass

  datatype Deletion = NotDeleted | LocalOnly | Removed

  // backup.Resolve: a valid app and a recognised base name that exists.
  predicate Deletable(files: Files, app: string, name: string)
  {
    Recognised(Path(app, name)) && '/' !in name && Path(app, name) in files
  }

  class BackupService {
    const engine: BackupEngine
    const disk: Disk
    var s3: Objects
    const enabled: bool
    const prefix: string

    constructor (engine: BackupEngine, s3: Objects, enabled: bool, prefix: string)
      ensures this.engine == engine && this.disk == engine.disk && this.s3 == s3
      ensures this.enabled == enabled && this.prefix == prefix
    {
      this.engine := engine;
      this.disk := engine.disk;
      this.s3 := s3;
      this.enabled := enabled;
      this.prefix := prefix;
    }

    // convertFiles.
    static method ConvertFiles(made: seq<BackupFile>) returns (out: seq<Path>)
      ensures |out| == |made|
      ensures forall i :: 0 <= i < |made| ==> out[i].app == made[i].app && IsBase(made[i].path, out[i].name)
    {
      out := [];
      for i := 0 to |made|
        invariant |out| == i
        invariant forall k :: 0 <= k < i ==> out[k].app == made[k].app && IsBase(made[k].path, out[k].name)
      {
        var name := PathBase(made[i].path);
        out := out + [Path(made[i].app, name)];
      }
    }

    // The paths recovered from the records are the ones written.
    static lemma ConvertedPaths(jobs: seq<Job>, env: RunEnv, dir: string, out: seq<Path>)
      requires GoodJobs(Produced(jobs, env))
      requires var made := Records(jobs, env, dir);
        |out| == |made| && forall i :: 0 <= i < |made| ==>
          out[i].app == made[i].app && IsBase(made[i].path, out[i].name)
      ensures out == PathsOf(Produced(jobs, env), env)
    {
      RecordsMatchProduced(jobs, env, dir);
      var done := Produced(jobs, env);
      forall i | 0 <= i < |done|
        ensures out[i] == TargetPath(done[i], env)
      {
        var p := TargetPath(done[i], env);
        PlainName(done[i].svc, env.stamp(done[i].app));
        BaseIsUnique(PathText(dir, p), out[i].name, p.name);
      }
    }

    // UploadMany: stops at the first file that cannot be read or sent.
    method UploadMany(paths: seq<Path>, fates: Fates) returns (sent: nat, reached: nat, ok: bool)
      modifies this
      ensures if ok then sent == reached == |paths| else StopsAt(sent, reached, |paths|)
      ensures AllIn(paths[..reached], disk.files) && s3 == Uploaded(old(s3), prefix, disk.files, paths[..reached])
      ensures !ok ==> !fates(sent).Answered? || paths[sent] !in disk.files
      ensures !ok ==> (reached > sent <==> fates(sent).Lost? && paths[sent] in disk.files)
    {
      sent := 0;
      while sent < |paths|
        invariant 0 <= sent <= |paths|
        invariant AllIn(paths[..sent], disk.files) && s3 == Uploaded(old(s3), prefix, disk.files, paths[..sent])
      {
        var p := paths[sent];
        if p !in disk.files {
          return sent, sent, false;
        }
        UploadedSnoc(old(s3), prefix, disk.files, paths[..sent], p);
        assert paths[..sent + 1] == paths[..sent] + [p];
        if TakesEffect(fates(sent)) {
          s3 := s3[ObjectKey(prefix, p) := disk.files[p].content];
        }
        if !fates(sent).Answered? {
          return sent, if fates(sent).Lost? then sent + 1 else sent, false;
        }
        sent := sent + 1;
      }
      return sent, sent, true;
    }

    // DeleteMany: stops at the first delete that fails.
    method DeleteMany(fs: seq<File>, fates: Fates) returns (gone: nat, reached: nat, ok: bool)
      modifies this
      ensures if ok then gone == reached == |fs| else StopsAt(gone, reached, |fs|)
      ensures s3 == old(s3) - ObjectKeys(prefix, Elements(fs[..reached]))
      ensures !ok ==> !fates(gone).Answered? && (reached > gone <==> fates(gone).Lost?)
      ensures forall k :: 0 <= k < gone ==> fates(k).Answered?
    {
      gone := 0;
      assert ObjectKeys(prefix, Elements(fs[..0])) == {};
      while gone < |fs|
        invariant 0 <= gone <= |fs|
        invariant s3 == old(s3) - ObjectKeys(prefix, Elements(fs[..gone]))
        invariant forall k :: 0 <= k < gone ==> fates(k).Answered?
      {
        KeysSnoc(prefix, fs, gone);
        if TakesEffect(fates(gone)) {
          s3 := s3 - {ObjectKey(prefix, PathOf(fs[gone]))};
        }
        if !fates(gone).Answered? {
          return gone, if fates(gone).Lost? then gone + 1 else gone, false;
        }
        gone := gone + 1;
      }
      return gone, gone, true;
    }

    static lemma KeysSnoc(prefix: string, fs: seq<File>, n: nat)
      requires n < |fs|
      ensures ObjectKeys(prefix, Elements(fs[..n + 1])) ==
        ObjectKeys(prefix, Elements(fs[..n])) + {ObjectKey(prefix, PathOf(fs[n]))}
    {
      assert fs[..n + 1] == fs[..n] + [fs[n]];
      assert Elements([fs[n]]) == {fs[n]};
    }

    // applyRetention.
    method ApplyRetention(o: PruneOptions, env: RunEnv) returns (outcome: Outcome, deleted: seq<File>)
      modifies this, disk
      ensures outcome.Success? || outcome.PruneError? || outcome.DeleteError?
      ensures outcome.PruneError? ==> s3 == old(s3)
      ensures outcome.PruneError? ==>
        Active(o) && PruneDone(old(disk.files), disk.files, o, env.cutoff, Elements(deleted), false)
      ensures !outcome.PruneError? ==> PrunedOk(old(disk.files), disk.files, o, env, deleted)
      ensures outcome.DeleteError? ==>
        && enabled && StopsAt(outcome.deletes, outcome.reached, |deleted|)
        && s3 == old(s3) - ObjectKeys(prefix, Elements(deleted[..outcome.reached]))
      ensures outcome.Success? ==>
        s3 == if enabled then old(s3) - ObjectKeys(prefix, Elements(deleted)) else old(s3)
    {
      var ok;
      deleted, ok := disk.Prune(o, env.cutoff, env.unreadable, env.denied);
      if !ok {
        return PruneError, deleted;
      }
      if |deleted| == 0 {
        assert Elements(deleted) == {} && ObjectKeys(prefix, {}) == {};
        return Success, deleted;
      }
      if enabled {
        var gone, reached;
        gone, reached, ok := DeleteMany(deleted, env.deletes);
        if !ok {
          return DeleteError(gone, reached), deleted;
        }
        assert deleted[..gone] == deleted;
      }
      return Success, deleted;
    }

    // BackupWithRetention.
    method BackupWithRetention(
        apps: Apps, app: string, all: bool, requested: seq<string>, o: PruneOptions, env: RunEnv)
      returns (outcome: Outcome, ghost jobs: seq<Job>, deleted: seq<File>)
      requires disk == engine.disk
      modifies this, disk
      ensures GoodJobs(jobs)
      ensures !all && AppRuns(apps, app, requested, env) ==> jobs == AppJobs(app, Chosen(apps[app], requested))
      ensures all ==> exists names :: NameOrder(names, apps.Keys) && jobs == AllJobs(names, apps, requested, env)
      ensures outcome.BackupError? <==> !all && !AppRuns(apps, app, requested, env)
      ensures outcome.BackupError? ==> disk.files == old(disk.files) && s3 == old(s3)
      ensures !outcome.BackupError? ==>
        RunResult(old(disk.files), old(s3), prefix, jobs, env, o, enabled, disk.files, s3, outcome, deleted)
    {
      var made: seq<BackupFile>;
      deleted := [];
      if all {
        ghost var names;
        made, names := engine.BackupAll(apps, requested, env);
        jobs := AllJobs(names, apps, requested, env);
        AllJobsAreGood(names, apps, requested, env);
      } else {
        var ok;
        made, ok := engine.BackupApp(apps, app, requested, env);
        if !ok {
          return BackupError, [], [];
        }
        jobs := AppJobs(app, Chosen(apps[app], requested));
        AppJobsAreGood(app, apps[app], requested);
      }
      ProducedIsThere(old(disk.files), jobs, env);
      ghost var paths := PathsOf(Produced(jobs, env), env);
      if enabled {
        var toUpload := ConvertFiles(made);
        ConvertedPaths(jobs, env, engine.dir, toUpload);
        var sent, reached, ok := UploadMany(toUpload, env.uploads);
        if !ok {
          return UploadError(sent, reached), jobs, [];
        }
        assert paths[..sent] == paths;
      }
      outcome, deleted := ApplyRetention(o, env);
    }

    // UploadAll: every recognised file, newest first.
    method UploadAll(unreadable: bool, fates: Fates)
      returns (ghost paths: seq<Path>, sent: nat, reached: nat, ok: bool)
      modifies this
      ensures !enabled || unreadable ==> !ok && sent == 0 && s3 == old(s3)
      ensures enabled && !unreadable ==> forall p :: p in paths <==> p in disk.files && Recognised(p)
      ensures enabled && !unreadable ==> if ok then sent == reached == |paths| else StopsAt(sent, reached, |paths|)
      ensures enabled && !unreadable ==> AllIn(paths[..reached], disk.files)
      ensures enabled && !unreadable ==> s3 == Uploaded(old(s3), prefix, disk.files, paths[..reached])
    {
      if !enabled {
        return [], 0, 0, false;
      }
      var fs, read := disk.List(unreadable);
      if !read {
        return [], 0, 0, false;
      }
      var all: seq<Path> := [];
      for i := 0 to |fs|
        invariant |all| == i
        invariant forall k :: 0 <= k < i ==> all[k] == PathOf(fs[k])
      {
        all := all + [PathOf(fs[i])];
      }
      ListCoversPaths(disk.files, fs, all);
      paths := all;
      sent, reached, ok := UploadMany(all, fates);
    }

    static lemma ListCoversPaths(files: Files, fs: seq<File>, all: seq<Path>)
      requires Arranges(fs, Listed(files))
      requires |all| == |fs| && forall k :: 0 <= k < |fs| ==> all[k] == PathOf(fs[k])
      ensures forall p :: p in all <==> p in files && Recognised(p)
    {
      forall p
        ensures p in all <==> p in files && Recognised(p)
      {
        if p in all {
          var k :| 0 <= k < |all| && all[k] == p;
          assert fs[k] in fs;
        }
        if p in files && Recognised(p) {
          assert FileOf(p, files[p]) in fs;
          var k :| 0 <= k < |fs| && fs[k] == FileOf(p, files[p]);
          assert all[k] == p;
        }
      }
    }

    // DeleteFile: one recognised file, then its object.
    method DeleteFile(app: string, name: string, removable: bool, fate: Fate) returns (r: Deletion)
      modifies this, disk
      ensures r == (if !Deletable(old(disk.files), app, name) || !removable then NotDeleted
        else if enabled && !fate.Answered? then LocalOnly else Removed)
      ensures disk.files == if r.NotDeleted? then old(disk.files) else old(disk.files) - {Path(app, name)}
      ensures s3 == if !r.NotDeleted? && enabled && TakesEffect(fate) then old(s3) - {Key(prefix, app, name)}
        else old(s3)
    {
      if !ValidName(app) || '/' in name || DetectService(name) == "" {
        return NotDeleted;
      }
      var p := Path(app, name);
      if p !in disk.files || !removable {
        return NotDeleted;
      }
      var file := FileOf(p, disk.files[p]);
      disk.files := disk.files - {p};
      if enabled {
        assert Elements([file][..0]) == {} && ObjectKeys(prefix, {}) == {};
        KeysSnoc(prefix, [file], 0);
        assert [file][..1] == [file];
        var fates := (n: nat) => fate;
        var gone, reached, ok := DeleteMany([file], fates);
        if !ok {
          return LocalOnly;
        }
        assert fates(0).Answered?;
      }
      return Removed;
    }
  }
}
