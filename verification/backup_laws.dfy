// Backups in terms of the requests and of the names on disk: what is dumped and
// where, what is filtered, and what Prune takes.
module BackupLaws {
  import opened Text
  import opened Names
  import opened Registry
  import opened BackupNames
  import opened Retention
  import opened Backup
  import opened Mirror
  import opened Dumps

  // ---------------------------------------------------------------------- prune

  // The recognised backups of one app and one service, as files.
  function BackupsOf(files: Files, app: string, service: string): set<File>
  {
    set p | p in files && p.app == app && ValidName(p.app) && DetectService(p.name) == service && service != "" ::
      File(app, service, p.name, files[p].modified)
  }

  lemma BackupsAreGroup(files: Files, o: PruneOptions, app: string, service: string)
    requires o.all || o.appName == "" || app == o.appName
    requires o.services == [] || service in o.services
    ensures Group(files, o, app, service) == BackupsOf(files, app, service)
  {
  }

  // Pruning for one app leaves every path of another app as it is.
  lemma PruneSparesOtherApps(
      before: Files, after: Files, o: PruneOptions, cutoff: int, deleted: set<File>, ok: bool, p: Path)
    requires PruneDone(before, after, o, cutoff, deleted, ok) && p in before
    requires !o.all && o.appName != "" && p.app != o.appName
    ensures p in after && after[p] == before[p]
  {
  }

  // Pruning some services leaves every path of another service, and every path
  // of none, as it is.
  lemma PruneSparesOtherServices(
      before: Files, after: Files, o: PruneOptions, cutoff: int, deleted: set<File>, ok: bool, p: Path)
    requires PruneDone(before, after, o, cutoff, deleted, ok) && p in before
    requires (o.services != [] && DetectService(p.name) !in o.services) || DetectService(p.name) == ""
    ensures p in after && after[p] == before[p]
  {
  }

  // Pruning adds nothing and changes nothing that stays.
  lemma PruneOnlyRemoves(
      before: Files, after: Files, o: PruneOptions, cutoff: int, deleted: set<File>, ok: bool, p: Path)
    requires PruneDone(before, after, o, cutoff, deleted, ok) && p in after
    ensures p in before && after[p] == before[p]
  {
  }

  function NotOlder(fs: set<File>, cutoff: int): set<File>
  {
    set f | f in fs && f.modified >= cutoff
  }

  // For every app and service the options name, a Prune that went through keeps
  // exactly as many backups as it should: all that are not older than the
  // cutoff, if days are limited, and no more than KeepCount, if that is; and it
  // keeps no backup that is older than one it deletes.
  lemma PruneKeepsTheRightOnes(
      before: Files, after: Files, o: PruneOptions, cutoff: int, deleted: set<File>, app: string, service: string)
    requires PruneDone(before, after, o, cutoff, deleted, true) && ValidName(app)
    requires o.all || o.appName == "" || app == o.appName
    requires o.services == [] || service in o.services
    ensures var all, kept := BackupsOf(before, app, service), BackupsOf(after, app, service);
      var young := if o.keepDays > 0 then NotOlder(all, cutoff) else all;
      && kept <= young
      && |kept| == (if o.keepCount > 0 && o.keepCount < |young| then o.keepCount else |young|)
      && forall f, g :: f in kept && g in all - kept ==> f.modified >= g.modified
  {
    BackupsAreGroup(before, o, app, service);
    BackupsAreGroup(after, o, app, service);
    var rule, all := RuleOf(o, cutoff), BackupsOf(before, app, service);
    assert Pruned(rule, Group(before, o, app, service), Group(after, o, app, service));
    assert Fresh(rule, all) == if o.keepDays > 0 then NotOlder(all, cutoff) else all;
  }

  // --------------------------------------------------------------------- filter

  // Filter keeps a file exactly when it is of the app and of the service that
  // were named.
  lemma {:induction false} FilterKeepsIff(files: seq<File>, app: string, service: string, f: File)
    ensures f in Filtered(files, app, service) <==>
      f in files && (app == "" || f.app == app) && (service == "" || f.service == service)
  {
    if files != [] {
      FilterKeepsIff(files[1..], app, service, f);
    }
  }

  // ---------------------------------------------------------------------- dumps

  // An app is dumped exactly when it is registered, has a requested service
  // with a backup, and its directory can be made.
  lemma AppRunsIff(apps: Apps, app: string, requested: seq<string>, env: RunEnv)
    ensures AppRuns(apps, app, requested, env) <==>
      && ValidName(app) && app in apps && env.mkdir(app)
      && exists s :: s in apps[app].services && s != Signoz && (requested == [] || SvcName(s) in requested)
  {
    if app in apps {
      var chosen := Chosen(apps[app], requested);
      ChosenMembers(apps[app], requested);
      if chosen != [] {
        assert chosen[0] in chosen && Wanted(apps[app], requested, chosen[0]);
      }
      if s :| s in apps[app].services && s != Signoz && (requested == [] || SvcName(s) in requested) {
        assert Wanted(apps[app], requested, s);
      }
    }
  }

  // BackupAll dumps exactly the requested services of the apps that can be
  // dumped.
  lemma {:induction false} AllJobsIff(names: seq<string>, apps: Apps, requested: seq<string>, env: RunEnv, j: Job)
    ensures j in AllJobs(names, apps, requested, env) <==>
      && j.app in names && ValidName(j.app) && j.app in apps && env.mkdir(j.app)
      && j.svc in apps[j.app].services && j.svc != Signoz && (requested == [] || SvcName(j.svc) in requested)
  {
    if names != [] {
      AllJobsIff(names[1..], apps, requested, env, j);
      JobsForIff(apps, names[0], requested, env, j);
    }
  }

  lemma JobsForIff(apps: Apps, app: string, requested: seq<string>, env: RunEnv, j: Job)
    ensures j in JobsFor(apps, app, requested, env) <==>
      && j.app == app && ValidName(app) && app in apps && env.mkdir(app)
      && j.svc in apps[app].services && j.svc != Signoz && (requested == [] || SvcName(j.svc) in requested)
  {
    AppRunsIff(apps, app, requested, env);
    if AppRuns(apps, app, requested, env) {
      var svcs := Chosen(apps[app], requested);
      ChosenMembers(apps[app], requested);
      if j in AppJobs(app, svcs) {
        var i :| 0 <= i < |svcs| && AppJobs(app, svcs)[i] == j;
        assert svcs[i] in svcs;
      }
      if j.app == app && j.svc in svcs {
        var i :| 0 <= i < |svcs| && svcs[i] == j.svc;
        assert AppJobs(app, svcs)[i] == j;
      }
    }
  }

  // The files are named for the service and the second, by service and format.
  lemma NamesOfBackups(t: Stamp)
    ensures FileName(Postgres, t) == "postgres_" + StampText(t) + ".sql"
    ensures FileName(Redis, t) == "redis_" + StampText(t) + ".json"
    ensures FileName(RabbitMQ, t) == "rabbitmq_" + StampText(t) + ".json"
    ensures FileName(AIStor, t) == "aistor_" + StampText(t) + ".tar"
    ensures FileName(MongoDB, t) == "mongodb_" + StampText(t) + ".archive"
  {
    PrefixTexts();
  }

  // The number a text of decimal digits stands for.
  function Number(s: string): int
  {
    if s == "" then 0 else 10 * Number(s[..|s| - 1]) + (s[|s| - 1] as int - '0' as int)
  }

  lemma {:induction false} DigitsReadBack(n: nat, width: nat)
    requires n < Pow10(width)
    ensures Number(Digits(n, width)) == n
  {
    if width > 0 {
      DigitsReadBack(n / 10, width - 1);
      assert Digits(n, width)[..width - 1] == Digits(n / 10, width - 1);
    }
  }

  // The stamp holds year, month, day, a T, hour, minute and second, at their
  // own places.
  lemma StampReadsBack(t: Stamp)
    requires Printable(t)
    ensures var s := StampText(t);
      && Number(s[..4]) == t.year && Number(s[4..6]) == t.month && Number(s[6..8]) == t.day && s[8] == 'T'
      && Number(s[9..11]) == t.hour && Number(s[11..13]) == t.minute && Number(s[13..]) == t.second
  {
    var s := StampText(t);
    assert Pow10(2) == 100 && Pow10(4) == 10000;
    DigitsReadBack(t.year, 4);
    DigitsReadBack(t.month, 2);
    DigitsReadBack(t.day, 2);
    DigitsReadBack(t.hour, 2);
    DigitsReadBack(t.minute, 2);
    DigitsReadBack(t.second, 2);
    assert s[..4] == Digits(t.year, 4) && s[4..6] == Digits(t.month, 2) && s[6..8] == Digits(t.day, 2);
    assert s[9..11] == Digits(t.hour, 2) && s[11..13] == Digits(t.minute, 2) && s[13..] == Digits(t.second, 2);
  }

  // A record names the app, the service and the path of a file that was
  // written.
  lemma RecordsNameFiles(jobs: seq<Job>, env: RunEnv, dir: string, i: nat)
    requires i < |Records(jobs, env, dir)|
    ensures var r := Records(jobs, env, dir)[i];
      && Job(r.app, r.service) in jobs && env.dump(r.app, r.service).Dumped?
      && r.path == dir + "/" + r.app + "/" + FileName(r.service, env.stamp(r.app))
  {
    RecordsMatchProduced(jobs, env, dir);
    ProducedMembers(jobs, env);
    assert Produced(jobs, env)[i] in Produced(jobs, env);
  }

  // Every dump that went through has its record.
  lemma DumpsAreRecorded(jobs: seq<Job>, env: RunEnv, dir: string, j: Job)
    requires j in jobs && env.dump(j.app, j.svc).Dumped?
    ensures BackupFile(j.app, j.svc, dir + "/" + j.app + "/" + FileName(j.svc, env.stamp(j.app)))
      in Records(jobs, env, dir)
  {
    RecordsMatchProduced(jobs, env, dir);
    ProducedMembers(jobs, env);
    var i :| 0 <= i < |Produced(jobs, env)| && Produced(jobs, env)[i] == j;
    assert Records(jobs, env, dir)[i] == RecordOf(j, env, dir);
  }

  function FileAt(files: Files, p: Path): Option<Meta>
  {
    if p in files then Some(files[p]) else None
  }

  // What a dump leaves at its path when all are over: what was dumped, what the
  // cleanup of a failed one left, or what was there before.
  lemma DumpWrites(files: Files, jobs: seq<Job>, env: RunEnv, j: Job)
    requires GoodJobs(jobs) && j in jobs
    ensures var p := Path(j.app, FileName(j.svc, env.stamp(j.app)));
      FileAt(FilesAfter(files, jobs, env), p)
        == match env.dump(j.app, j.svc)
           case Down => FileAt(files, p)
           case Dumped(meta) => Some(meta)
           case DumpFailed(leftover) => leftover
  {
    var k :| 0 <= k < |jobs| && jobs[k] == j;
    FilesAfterAtTarget(files, jobs, env, k);
  }

  // Every other path keeps what it had.
  lemma DumpsSpareOtherPaths(files: Files, jobs: seq<Job>, env: RunEnv, p: Path)
    requires GoodJobs(jobs) && forall j :: j in jobs ==> p != Path(j.app, FileName(j.svc, env.stamp(j.app)))
    ensures FileAt(FilesAfter(files, jobs, env), p) == FileAt(files, p)
  {
    FilesAfterAt(files, jobs, env, p);
  }

  // ----------------------------------------------------------------- restore plan

  predicate RequestedOf(entry: AppEntry, requested: seq<string>, s: Svc)
  {
    s in entry.services && s != Signoz && (requested == [] || SvcName(s) in requested)
  }

  predicate BackupName(name: string, s: Svc) { HasPrefix(name, SvcName(s) + "_") }

  // A plan names, for each attached and requested service that has a backup in
  // the app's directory, the greatest name among them, and nothing else.
  lemma PlanRestoresLatest(plan: seq<PlanEntry>, files: Files, app: string, entry: AppEntry, requested: seq<string>)
    requires IsPlan(plan, NamesOf(files, app), Chosen(entry, requested))
    ensures forall e :: e in plan ==>
      && RequestedOf(entry, requested, e.service) && Path(app, e.name) in files && BackupName(e.name, e.service)
      && forall p :: p in files && p.app == app && BackupName(p.name, e.service) ==> !Less(e.name, p.name)
    ensures forall s, p :: RequestedOf(entry, requested, s) && p in files && p.app == app && BackupName(p.name, s) ==>
      exists e :: e in plan && e.service == s
    ensures forall i, j :: 0 <= i < j < |plan| ==> plan[i].service != plan[j].service
  {
    var names, svcs := NamesOf(files, app), Chosen(entry, requested);
    var have := Restorable(names, svcs);
    ChosenMembers(entry, requested);
    RestorableDistinct(names, svcs);
    forall e | e in plan
      ensures RequestedOf(entry, requested, e.service) && IsLatest(names, e.service, e.name)
    {
      var i :| 0 <= i < |plan| && plan[i] == e;
      assert have[i] in have;
      RestorableMembers(names, svcs, e.service);
      assert Wanted(entry, requested, e.service);
    }
    forall s, p | RequestedOf(entry, requested, s) && p in files && p.app == app && BackupName(p.name, s)
      ensures exists e :: e in plan && e.service == s
    {
      assert Wanted(entry, requested, s) && p.name in names;
      RestorableMembers(names, svcs, s);
      var i :| 0 <= i < |have| && have[i] == s;
      assert plan[i] in plan;
    }
  }

  lemma {:induction false} RestorableDistinct(names: set<string>, svcs: seq<Svc>)
    requires Distinct(svcs)
    ensures Distinct(Restorable(names, svcs))
  {
    if svcs != [] {
      RestorableDistinct(names, svcs[1..]);
      RestorableMembers(names, svcs[1..], svcs[0]);
      assert svcs[0] !in svcs[1..];
    }
  }

  // -------------------------------------------------------------------- objects

  // A plain prefix, with or without outer slashes, stands before the app and
  // the file name.
  lemma KeyUnderPrefix(outer: string, prefix: string, after: string, app: string, name: string)
    requires PathElement(prefix) && PathElement(app) && PathElement(name)
    requires (forall i :: 0 <= i < |outer| ==> outer[i] == '/') && forall i :: 0 <= i < |after| ==> after[i] == '/'
    ensures Key(outer + prefix + after, app, name) == prefix + "/" + app + "/" + name
  {
    TrimmedPrefix(outer, prefix, after);
    KeyParts(outer + prefix + after, app, name);
    SplitWhole(prefix, '/');
    assert [prefix][1..] == [];
    assert Cleaned([prefix], []) == Cleaned([], [] + [prefix]) == [prefix];
    ThreeJoined(prefix, app, name);
  }

  lemma KeyWithoutPrefix(outer: string, app: string, name: string)
    requires PathElement(app) && PathElement(name) && forall i :: 0 <= i < |outer| ==> outer[i] == '/'
    ensures Key(outer, app, name) == app + "/" + name
  {
    OnlySlashes(outer);
    KeyParts(outer, app, name);
    SplitWhole("", '/');
    assert Cleaned([""], []) == Cleaned([""][1..], []) == [];
    assert [] + [app, name] == [app, name] && [app, name][1..] == [name];
    assert Join([name], "/") == name;
  }

  lemma ThreeJoined(a: string, b: string, c: string)
    ensures Join([a] + [b, c], "/") == a + "/" + b + "/" + c
  {
    assert ([a] + [b, c])[1..] == [b, c] && [b, c][1..] == [c];
    assert Join([c], "/") == c && Join([b, c], "/") == b + ("/" + c);
    assert a + ("/" + (b + ("/" + c))) == a + "/" + b + "/" + c;
  }

  lemma {:induction false} OnlySlashes(s: string)
    requires forall i :: 0 <= i < |s| ==> s[i] == '/'
    ensures TrimSlashes(s) == ""
    decreases |s|
  {
    if s != "" {
      OnlySlashes(s[1..]);
    }
  }

  lemma {:induction false} TrimmedPrefix(outer: string, prefix: string, after: string)
    requires PathElement(prefix)
    requires (forall i :: 0 <= i < |outer| ==> outer[i] == '/') && forall i :: 0 <= i < |after| ==> after[i] == '/'
    ensures TrimSlashes(outer + prefix + after) == prefix
    decreases |outer| + |after|
  {
    var s := outer + prefix + after;
    if outer != "" {
      assert s[0] == '/' && s[1..] == outer[1..] + prefix + after;
      TrimmedPrefix(outer[1..], prefix, after);
    } else if after != "" {
      assert s == prefix + after && s[0] == prefix[0] && prefix[0] in prefix;
      assert s[..|s| - 1] == outer + prefix + after[..|after| - 1];
      TrimmedPrefix(outer, prefix, after[..|after| - 1]);
    } else {
      assert s == prefix && prefix[0] in prefix && prefix[|prefix| - 1] in prefix;
    }
  }
}
