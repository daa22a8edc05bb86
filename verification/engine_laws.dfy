// What the engine's operations write, in terms of the command line: which calls
// are accepted, and the tags, configurations and results they leave.
module EngineLaws {
  import opened Text
  import opened Names
  import opened Registry
  import opened Brokers
  import opened ServiceOps
  import opened Reconciling
  import opened EngineSpec

  // ------------------------------------------------------ accepted and rejected

  // Every value names a catalog service whose container runs.
  ghost predicate Ready(services: seq<string>, st: State, env: Env)
  {
    services != [] && forall i :: 0 <= i < |services| ==>
      exists s :: SvcName(s) == services[i] && env.running(st.world.tick, s)
  }

  lemma ReadyIff(services: seq<string>, st: State, env: Env)
    ensures Ready(services, st, env)
      <==> services != [] && Parsable(services) && ContainersRun(services, st.world.tick, env)
  {
    if Ready(services, st, env) {
      forall i | 0 <= i < |services|
        ensures ValidService(services[i])
      {
        var s :| SvcName(s) == services[i] && env.running(st.world.tick, s);
        NameOfService(s);
      }
      ValidListIsTrimmed(services);
      forall i | 0 <= i < |services|
        ensures env.running(st.world.tick, Resolve(services).value[i])
      {
        var s :| SvcName(s) == services[i] && env.running(st.world.tick, s);
        NameOfService(s);
        NameOfService(Resolve(services).value[i]);
      }
    }
    if services != [] && ContainersRun(services, st.world.tick, env) {
      forall i | 0 <= i < |services|
        ensures exists s :: SvcName(s) == services[i] && env.running(st.world.tick, s)
      {
        var s := Resolve(services).value[i];
        assert SvcName(s) == services[i] && env.running(st.world.tick, s);
      }
    }
  }

  // SetupApp goes ahead exactly for a valid app, services that are ready, and
  // valid app names that are new: the app's own, or one per environment.
  lemma SetupAcceptedIff(
      st: State, app: string, services: seq<string>, envs: seq<string>, tag: string, full: bool, env: Env)
    ensures var err := Setup(st, app, services, envs, tag, full, env).err;
      (err == None || err == Some(ErrSave)) <==>
        && ValidName(app) && Ready(services, st, env)
        && (envs == [] ==> app !in st.disk)
        && forall i :: 0 <= i < |envs| ==> ValidName(app + "-" + envs[i]) && app + "-" + envs[i] !in st.disk
  {
    var ts := SetupTargets(app, envs, tag);
    ReadyIff(services, st, env);
    if ValidName(app) {
      TargetsAreFreeIff(st, app, envs, tag);
    }
    PreflightDoesNotSave(st.disk, ts);
    if SetupError(st, app, services, ts, env) == None {
      SetupSavesPrefix(st, ts, Resolve(services).value, full, env);
    }
  }

  lemma {:induction false} PreflightDoesNotSave(disk: Apps, ts: seq<Target>)
    ensures TargetsError(disk, ts) != Some(ErrSave)
    decreases |ts|
  {
    if ts != [] {
      PreflightDoesNotSave(disk, ts[1..]);
    }
  }

  lemma TargetsAreFreeIff(st: State, app: string, envs: seq<string>, tag: string)
    requires ValidName(app)
    ensures TargetsError(st.disk, SetupTargets(app, envs, tag)) == None <==>
      && (envs == [] ==> app !in st.disk)
      && forall i :: 0 <= i < |envs| ==> ValidName(app + "-" + envs[i]) && app + "-" + envs[i] !in st.disk
  {
    var ts := SetupTargets(app, envs, tag);
    NoTargetsError(st.disk, ts);
    if envs == [] {
      assert ts[0].name == app;
    } else {
      assert forall i :: 0 <= i < |ts| ==> ts[i].name == app + "-" + envs[i];
    }
  }

  // AddServices likewise, for apps that exist.
  lemma AddAcceptedIff(
      st: State, app: string, services: seq<string>, envs: seq<string>, tag: string, env: Env)
    ensures var err := Add(st, app, services, envs, tag, env).err;
      (err == None || err == Some(ErrSave)) <==>
        && ValidName(app) && Ready(services, st, env)
        && (envs == [] ==> app in st.disk)
        && forall i :: 0 <= i < |envs| ==> app + "-" + envs[i] in st.disk
  {
    var ts := AddTargets(st.disk, app, envs, tag);
    ReadyIff(services, st, env);
    assert envs != [] ==> forall i :: 0 <= i < |ts| ==> ts[i].name == app + "-" + envs[i];
    assert envs == [] ==> |ts| == 1 && ts[0].name == app;
    if AddError(st, app, services, ts, env) == None {
      OnlySavesFail(st, ts, Resolve(services).value, env);
    }
  }

  lemma {:induction false} OnlySavesFail(st: State, ts: seq<Target>, svcs: seq<Svc>, env: Env)
    requires AllKnown(st.disk, ts)
    ensures var err := AddRun(st, ts, svcs, env).err; err == None || err == Some(ErrSave)
    decreases |ts|
  {
    if ts != [] {
      if Missing(st.disk[ts[0].name], svcs) == [] {
        OnlySavesFail(st, ts[1..], svcs, env);
      } else if env.saves(st.saves) {
        OnlySavesFail(AfterAdd(st, ts[0], svcs, env), ts[1..], svcs, env);
      }
    }
  }

  // ------------------------------------------------------------ what is written

  // The environment SignOz gets: the tag, the default, or dev.
  function EnvironmentFor(tag: string, defaultEnv: string): string
  {
    if tag != "" then tag else if defaultEnv != "" then defaultEnv else "dev"
  }

  // What an app called `name` stores for a service.
  predicate Configured(
      s: Svc, cfg: Config, name: string, service: string, tag: string, full: bool, defaultEnv: string)
  {
    match s
    case Postgres => cfg.PostgresConfig? && cfg.database == name && cfg.username == name
    case Redis => cfg.RedisConfig? && cfg.username == name && cfg.prefix == if full then "" else name + ":"
    case RabbitMQ => cfg.RabbitMQConfig? && cfg.vhost == name && cfg.username == name
    case AIStor =>
      cfg.AIStorConfig? && cfg.bucket == name && cfg.accessKey == name && cfg.endpoint == "http://aistor:9000"
    case MongoDB => cfg.MongoDBConfig? && cfg.database == name && cfg.username == name
    case Signoz => cfg == SignozConfig(service, EnvironmentFor(tag, defaultEnv))
  }

  // An entry that kept its tags and the configurations of `e0` and got new ones
  // of that kind.
  ghost predicate Grown(
      e: AppEntry, e0: AppEntry, name: string, service: string, tag: string, full: bool, defaultEnv: string)
  {
    && e.environment == e0.environment && e.signozServiceName == e0.signozServiceName
    && forall s :: s in e.services ==>
         (s in e0.services && e.services[s] == e0.services[s])
         || Configured(s, e.services[s], name, service, tag, full, defaultEnv)
  }

  lemma ProvisionConfigures(
      w: World, svc: Svc, app: string, pw: string, opts: ProvisionOptions, fates: Fates, service: string)
    requires opts.signozServiceName == service && service != ""
    ensures var c := Provision(w, svc, app, pw, opts, fates).config;
      && (c.Some? ==> Configured(svc, c.value, app, service, opts.signozEnv, opts.fullAccess, opts.defaultEnv))
      && (svc == Signoz ==> c.Some?)
  {
    if svc == Signoz {
      assert Run(w, [], fates) == Reply(w, true);
    }
  }

  lemma {:induction false} LoopGrows(
      p: Progress, svcs: seq<Svc>, app: string, opts: ProvisionOptions, env: Env, e0: AppEntry, service: string)
    requires opts.signozServiceName == service && service != ""
    requires Grown(p.entry, e0, app, service, opts.signozEnv, opts.fullAccess, opts.defaultEnv)
    ensures var q := ProvisionLoop(p, svcs, app, opts, env);
      && Grown(q.entry, e0, app, service, opts.signozEnv, opts.fullAccess, opts.defaultEnv)
      && q.entry.createdAt == p.entry.createdAt
      && (Signoz in q.entry.services <==> Signoz in p.entry.services || Signoz in svcs)
    decreases |svcs|
  {
    if svcs != [] {
      ProvisionConfigures(p.world, svcs[0], app, env.passwords(p.world.tick), opts, env.fates, service);
      LoopGrows(ProvisionOne(p, svcs[0], app, opts, env), svcs[1..], app, opts, env, e0, service);
    }
  }

  // -------------------------------------------------------------- after a setup

  // The entry a setup writes for `name`.
  ghost predicate NewEntry(
      e: AppEntry, name: string, service: string, tag: string, services: seq<string>, full: bool, env: Env)
  {
    && e.environment == tag && e.signozServiceName == (if service == name then "" else service)
    && (exists t :: e.createdAt == env.clock(t))
    && (Signoz in e.services <==> "signoz" in services)
    && forall s :: s in e.services ==>
         SvcName(s) in services && Configured(s, e.services[s], name, service, tag, full, env.defaultEnv)
  }

  // Every requested service is reported, as provisioned and stored or as failed.
  ghost predicate Reported(r: TargetResult, services: seq<string>)
  {
    && r.entry.services.Keys == ToSet(r.provisioned)
    && (forall s :: s in r.provisioned || s in r.failures <==> SvcName(s) in services)
    && (Distinct(services) ==> forall s :: s in r.provisioned ==> s !in r.failures)
  }

  // The services a list of names stands for.
  predicate Named(svcs: seq<Svc>, services: seq<string>)
  {
    && (forall s :: s in svcs <==> SvcName(s) in services)
    && (Distinct(services) ==> DistinctSvcs(svcs))
  }

  lemma ResolvedNames(services: seq<string>)
    requires Resolve(services).Some?
    ensures Named(Resolve(services).value, services)
  {
    var svcs := Resolve(services).value;
    forall s
      ensures s in svcs <==> SvcName(s) in services
    {
      if s in svcs {
        var i :| 0 <= i < |svcs| && svcs[i] == s;
        assert SvcName(svcs[i]) == services[i];
      }
      if SvcName(s) in services {
        var i :| 0 <= i < |services| && services[i] == SvcName(s);
        NameOfService(s);
        NameOfService(svcs[i]);
      }
    }
    if Distinct(services) {
      forall i, j | 0 <= i < j < |svcs|
        ensures svcs[i] != svcs[j]
      {
        assert SvcName(svcs[i]) == services[i] && SvcName(svcs[j]) == services[j];
      }
    }
  }

  lemma TargetIsNew(st: State, t: Target, svcs: seq<Svc>, services: seq<string>, full: bool, env: Env)
    requires Named(svcs, services) && t.signozServiceName != ""
    ensures NewEntry(SetupProgress(st, t, svcs, full, env).entry, t.name, t.signozServiceName, t.signozEnv, services,
      full, env)
  {
    var e0 := FreshEntry(t, env.clock(st.world.tick));
    LoopGrows(Progress(st.world, e0, [], {}), svcs, t.name, SetupOptions(t, full, env), env, e0, t.signozServiceName);
    SetupSplitsRequest(st, t, svcs, full, env);
    var p := SetupProgress(st, t, svcs, full, env);
    assert p.entry.createdAt == env.clock(st.world.tick);
    GrownIsNew(p, e0, svcs, t.name, t.signozServiceName, t.signozEnv, services, full, env);
  }

  lemma GrownIsNew(
      p: Progress, e0: AppEntry, svcs: seq<Svc>, name: string, service: string, tag: string, services: seq<string>,
      full: bool, env: Env)
    requires Grown(p.entry, e0, name, service, tag, full, env.defaultEnv) && e0.services == map[]
    requires e0.environment == tag && e0.signozServiceName == (if service == name then "" else service)
    requires exists t :: p.entry.createdAt == env.clock(t)
    requires Signoz in p.entry.services <==> Signoz in svcs
    requires p.entry.services.Keys == ToSet(p.provisioned) && ToSet(p.provisioned) + p.failures == ToSet(svcs)
    requires Named(svcs, services)
    ensures NewEntry(p.entry, name, service, tag, services, full, env)
  {
    forall s | s in p.entry.services
      ensures SvcName(s) in services
    {
      assert s in ToSet(p.provisioned) + p.failures;
    }
    assert "signoz" == SvcName(Signoz);
  }

  lemma TargetIsReported(st: State, t: Target, svcs: seq<Svc>, services: seq<string>, full: bool, env: Env)
    requires Named(svcs, services)
    ensures Reported(ResultOf(t, SetupProgress(st, t, svcs, full, env)), services)
  {
    var p := SetupProgress(st, t, svcs, full, env);
    SetupSplitsRequest(st, t, svcs, full, env);
    SplitIsReport(ResultOf(t, p), svcs, services);
  }

  lemma SplitIsReport(r: TargetResult, svcs: seq<Svc>, services: seq<string>)
    requires r.entry.services.Keys == ToSet(r.provisioned) && ToSet(r.provisioned) + r.failures == ToSet(svcs)
    requires DistinctSvcs(svcs) ==> ToSet(r.provisioned) !! r.failures
    requires Named(svcs, services)
    ensures Reported(r, services)
  {
    forall s
      ensures s in r.provisioned || s in r.failures <==> SvcName(s) in services
    {
      assert s in ToSet(r.provisioned) + r.failures <==> s in ToSet(svcs);
    }
    forall s | s in r.provisioned && Distinct(services)
      ensures s !in r.failures
    {
      assert s in ToSet(r.provisioned);
    }
  }

  lemma SetupRunStep(st: State, ts: seq<Target>, svcs: seq<Svc>, full: bool, env: Env)
    requires ts != [] && SetupRun(st, ts, svcs, full, env).err == None
    ensures var p := SetupProgress(st, ts[0], svcs, full, env);
      var st1 := AfterSetup(st, ts[0], svcs, full, env);
      var o, rest := SetupRun(st, ts, svcs, full, env), SetupRun(st1, ts[1..], svcs, full, env);
      && rest.err == None && o.st == rest.st && o.results == [ResultOf(ts[0], p)] + rest.results
      && ts[0].name in st1.disk && st1.disk[ts[0].name] == p.entry
  {
  }

  // The i-th result and the entry of its name each come from provisioning that
  // target; from the same state when no later target has its name.
  lemma {:induction false} RunWrites(st: State, ts: seq<Target>, svcs: seq<Svc>, full: bool, env: Env, i: nat)
    returns (a: State, b: State)
    requires i < |ts| && SetupRun(st, ts, svcs, full, env).err == None
    requires forall j :: 0 <= j < |ts| && ts[j].name == ts[i].name ==> ts[j] == ts[i]
    ensures var o := SetupRun(st, ts, svcs, full, env);
      && i < |o.results| && o.results[i] == ResultOf(ts[i], SetupProgress(a, ts[i], svcs, full, env))
      && ts[i].name in o.st.disk && o.st.disk[ts[i].name] == SetupProgress(b, ts[i], svcs, full, env).entry
    ensures (forall j :: i < j < |ts| ==> ts[j].name != ts[i].name) ==> a == b
    decreases |ts|
  {
    var st1, rest := AfterSetup(st, ts[0], svcs, full, env), ts[1..];
    SetupRunStep(st, ts, svcs, full, env);
    if i > 0 {
      a, b := RunWrites(st1, rest, svcs, full, env, i - 1);
    } else if j :| 0 < j < |ts| && ts[j].name == ts[0].name {
      a := st;
      var later;
      later, b := RunWrites(st1, rest, svcs, full, env, j - 1);
    } else {
      a, b := st, st;
      assert forall j :: 0 <= j < |rest| ==> rest[j].name == ts[j + 1].name;
      NotRewritten(st1, rest, svcs, full, env, ts[0].name);
    }
  }

  lemma {:induction false} NotRewritten(st: State, ts: seq<Target>, svcs: seq<Svc>, full: bool, env: Env, n: string)
    requires n in st.disk && forall j :: 0 <= j < |ts| ==> ts[j].name != n
    ensures var disk := SetupRun(st, ts, svcs, full, env).st.disk; n in disk && disk[n] == st.disk[n]
    decreases |ts|
  {
    if ts != [] {
      assert ts[0].name != n && forall j :: 0 <= j < |ts[1..]| ==> ts[1..][j].name == ts[j + 1].name;
      NotRewritten(AfterSetup(st, ts[0], svcs, full, env), ts[1..], svcs, full, env, n);
    }
  }

  // A setup without environments whose save works writes one new entry, tagged
  // as asked, and reports every service of the request.
  lemma PlainSetupWrites(st: State, app: string, services: seq<string>, tag: string, full: bool, env: Env)
    requires Setup(st, app, services, [], tag, full, env).err == None
    ensures var o := Setup(st, app, services, [], tag, full, env);
      && |o.results| == 1 && o.results[0].name == app && Reported(o.results[0], services)
      && app in o.st.disk && o.results[0].entry == o.st.disk[app]
      && NewEntry(o.st.disk[app], app, app, tag, services, full, env)
  {
    var ts, svcs := SetupTargets(app, [], tag), Resolve(services).value;
    SetupSavesPrefix(st, ts, svcs, full, env);
    var a, b := RunWrites(st, ts, svcs, full, env, 0);
    ResolvedNames(services);
    TargetIsReported(a, ts[0], svcs, services, full, env);
    TargetIsNew(b, ts[0], svcs, services, full, env);
  }

  // With environments it writes one entry `<app>-<env>` for each, tagged with
  // its environment and with the app as SignOz service name.
  lemma SiblingSetupWrites(
      st: State, app: string, services: seq<string>, envs: seq<string>, tag: string, full: bool, env: Env, i: nat)
    requires Setup(st, app, services, envs, tag, full, env).err == None && i < |envs|
    ensures var o := Setup(st, app, services, envs, tag, full, env);
      var n := app + "-" + envs[i];
      && |o.results| == |envs| && o.results[i].name == n && Reported(o.results[i], services)
      && n in o.st.disk && NewEntry(o.st.disk[n], n, app, envs[i], services, full, env)
      && (Distinct(envs) ==> o.results[i].entry == o.st.disk[n])
  {
    var ts, svcs := SetupTargets(app, envs, tag), Resolve(services).value;
    SiblingsByName(app, envs, ts, i);
    SetupSavesPrefix(st, ts, svcs, full, env);
    var a, b := RunWrites(st, ts, svcs, full, env, i);
    ResolvedNames(services);
    TargetIsReported(a, ts[i], svcs, services, full, env);
    TargetIsNew(b, ts[i], svcs, services, full, env);
  }

  lemma SiblingsByName(app: string, envs: seq<string>, ts: seq<Target>, i: nat)
    requires envs != [] && ts == Siblings(app, envs) && i < |ts|
    ensures ts[i] == Target(app + "-" + envs[i], app, envs[i])
    ensures forall j :: 0 <= j < |ts| && ts[j].name == ts[i].name ==> ts[j] == ts[i] && envs[j] == envs[i]
  {
    forall j | 0 <= j < |ts| && ts[j].name == ts[i].name
      ensures envs[j] == envs[i]
    {
      assert envs[j] == ts[j].name[|app| + 1..] == ts[i].name[|app| + 1..] == envs[i];
    }
  }

  // Nothing else in the registry changes.
  lemma SetupSparesEntries(
      st: State, app: string, services: seq<string>, envs: seq<string>, tag: string, full: bool, env: Env, n: string)
    requires n in st.disk
    ensures var disk := Setup(st, app, services, envs, tag, full, env).st.disk; n in disk && disk[n] == st.disk[n]
  {
    var ts := SetupTargets(app, envs, tag);
    if SetupError(st, app, services, ts, env) == None {
      NoTargetsError(st.disk, ts);
      NotRewritten(st, ts, Resolve(services).value, full, env, n);
    }
  }

  // --------------------------------------------------------------- after an add

  // An entry that kept everything and got the missing services of the request,
  // without access to other apps' Redis keys.
  ghost predicate Extended(
      e: AppEntry, e0: AppEntry, name: string, service: string, tag: string, services: seq<string>, env: Env)
  {
    && Grown(e, e0, name, service, tag, false, env.defaultEnv) && e.createdAt == e0.createdAt
    && (forall s :: s in e0.services ==> s in e.services && e.services[s] == e0.services[s])
    && (forall s :: s in e.services ==> s in e0.services || SvcName(s) in services)
  }

  // Every service the entry did not have is reported.
  ghost predicate ReportedNew(r: TargetResult, e0: AppEntry, services: seq<string>)
  {
    && r.entry.services.Keys == e0.services.Keys + ToSet(r.provisioned)
    && (forall s :: s in r.provisioned || s in r.failures <==> SvcName(s) in services && s !in e0.services)
    && (Distinct(services) ==> forall s :: s in r.provisioned ==> s !in r.failures)
  }

  // The result and the entry of one target; a target that has everything is
  // left as it is.
  function AddedResult(st: State, t: Target, svcs: seq<Svc>, env: Env): TargetResult
    requires t.name in st.disk
  {
    if Missing(st.disk[t.name], svcs) == [] then TargetResult(t.name, st.disk[t.name], [], {})
    else ResultOf(t, AddProgress(st, t, svcs, env))
  }

  lemma TargetIsExtended(st: State, t: Target, svcs: seq<Svc>, services: seq<string>, env: Env)
    requires t.name in st.disk && Named(svcs, services) && t.signozServiceName != ""
    ensures var r := AddedResult(st, t, svcs, env);
      && Extended(r.entry, st.disk[t.name], t.name, t.signozServiceName, t.signozEnv, services, env)
      && ("signoz" in services ==> Signoz in r.entry.services)
  {
    if Missing(st.disk[t.name], svcs) == [] {
      ExtendedByNothing(st.disk[t.name], t.name, t.signozServiceName, t.signozEnv, services, env);
    } else {
      OpenTargetIsExtended(st, t, svcs, services, env);
    }
    if "signoz" in services {
      assert SvcName(Signoz) == "signoz";
      SignozIsAttached(st, t, svcs, env);
    }
  }

  lemma OpenTargetIsExtended(st: State, t: Target, svcs: seq<Svc>, services: seq<string>, env: Env)
    requires t.name in st.disk && t.signozServiceName != "" && Named(svcs, services)
    ensures Extended(AddProgress(st, t, svcs, env).entry, st.disk[t.name], t.name, t.signozServiceName, t.signozEnv,
      services, env)
  {
    AddGrows(st, t, svcs, env);
    AddSplitsRequest(st, t, svcs, env);
    GrownIsExtended(AddProgress(st, t, svcs, env), st.disk[t.name], svcs, t.name, t.signozServiceName, t.signozEnv,
      services, env);
  }

  lemma SignozIsAttached(st: State, t: Target, svcs: seq<Svc>, env: Env)
    requires t.name in st.disk && t.signozServiceName != "" && Signoz in svcs
    ensures Signoz in AddedResult(st, t, svcs, env).entry.services
  {
    MissingIsFilter(st.disk[t.name], svcs);
    AddGrows(st, t, svcs, env);
    assert Signoz !in st.disk[t.name].services ==> Signoz in Missing(st.disk[t.name], svcs);
  }

  lemma AddGrows(st: State, t: Target, svcs: seq<Svc>, env: Env)
    requires t.name in st.disk && t.signozServiceName != ""
    ensures var e, e0 := AddProgress(st, t, svcs, env).entry, st.disk[t.name];
      && Grown(e, e0, t.name, t.signozServiceName, t.signozEnv, false, env.defaultEnv) && e.createdAt == e0.createdAt
      && (Signoz in e.services <==> Signoz in e0.services || Signoz in Missing(e0, svcs))
  {
    var e0 := st.disk[t.name];
    LoopGrows(Progress(st.world, e0, [], {}), Missing(e0, svcs), t.name, SetupOptions(t, false, env), env, e0,
      t.signozServiceName);
  }

  lemma GrownIsExtended(
      p: Progress, e0: AppEntry, svcs: seq<Svc>, name: string, service: string, tag: string, services: seq<string>,
      env: Env)
    requires Grown(p.entry, e0, name, service, tag, false, env.defaultEnv) && p.entry.createdAt == e0.createdAt
    requires forall s :: s in e0.services ==> s in p.entry.services && p.entry.services[s] == e0.services[s]
    requires p.entry.services.Keys == e0.services.Keys + ToSet(p.provisioned)
    requires ToSet(p.provisioned) + p.failures == ToSet(svcs) - e0.services.Keys
    requires Named(svcs, services)
    ensures Extended(p.entry, e0, name, service, tag, services, env)
  {
    forall s | s in p.entry.services && s !in e0.services
      ensures SvcName(s) in services
    {
      assert s in ToSet(p.provisioned) + p.failures && s in ToSet(svcs);
    }
  }

  lemma TargetIsReportedNew(st: State, t: Target, svcs: seq<Svc>, services: seq<string>, env: Env)
    requires t.name in st.disk && Named(svcs, services)
    ensures ReportedNew(AddedResult(st, t, svcs, env), st.disk[t.name], services)
  {
    var e0 := st.disk[t.name];
    MissingIsFilter(e0, svcs);
    AddSplitsRequest(st, t, svcs, env);
    var r := AddedResult(st, t, svcs, env);
    if Missing(e0, svcs) == [] {
      forall s
        ensures !(SvcName(s) in services && s !in e0.services)
      {
        assert s !in Missing(e0, svcs);
      }
    } else {
      SplitIsNewReport(r, svcs, services, e0);
    }
  }

  lemma SplitIsNewReport(r: TargetResult, svcs: seq<Svc>, services: seq<string>, e0: AppEntry)
    requires r.entry.services.Keys == e0.services.Keys + ToSet(r.provisioned)
    requires ToSet(r.provisioned) + r.failures == ToSet(svcs) - e0.services.Keys
    requires DistinctSvcs(svcs) ==> ToSet(r.provisioned) !! r.failures
    requires Named(svcs, services)
    ensures ReportedNew(r, e0, services)
  {
    forall s
      ensures s in r.provisioned || s in r.failures <==> SvcName(s) in services && s !in e0.services
    {
      assert s in ToSet(r.provisioned) + r.failures <==> s in ToSet(svcs) - e0.services.Keys;
    }
    forall s | s in r.provisioned && Distinct(services)
      ensures s !in r.failures
    {
      assert s in ToSet(r.provisioned);
    }
  }

  lemma ExtendedTwice(
      a: AppEntry, b: AppEntry, c: AppEntry, name: string, service: string, tag: string, services: seq<string>,
      env: Env)
    requires Extended(b, a, name, service, tag, services, env) && Extended(c, b, name, service, tag, services, env)
    ensures Extended(c, a, name, service, tag, services, env)
  {
  }

  lemma ExtendedByNothing(e: AppEntry, name: string, service: string, tag: string, services: seq<string>, env: Env)
    ensures Extended(e, e, name, service, tag, services, env)
  {
  }

  lemma AddRunStep(st: State, ts: seq<Target>, svcs: seq<Svc>, env: Env) returns (st1: State)
    requires ts != [] && AllKnown(st.disk, ts) && AddRun(st, ts, svcs, env).err == None
    ensures AllKnown(st1.disk, ts[1..]) && AddRun(st1, ts[1..], svcs, env).err == None
    ensures AddRun(st, ts, svcs, env).st == AddRun(st1, ts[1..], svcs, env).st
    ensures AddRun(st, ts, svcs, env).results
      == [AddedResult(st, ts[0], svcs, env)] + AddRun(st1, ts[1..], svcs, env).results
    ensures st1.disk == st.disk[ts[0].name := AddedResult(st, ts[0], svcs, env).entry]
  {
    if Missing(st.disk[ts[0].name], svcs) == [] {
      st1 := st;
      assert st.disk[ts[0].name := st.disk[ts[0].name]] == st.disk;
    } else {
      st1 := AfterAdd(st, ts[0], svcs, env);
    }
  }

  lemma {:induction false} AddRunExtends(
      st: State, ts: seq<Target>, svcs: seq<Svc>, services: seq<string>, env: Env, t: Target)
    requires AllKnown(st.disk, ts) && Named(svcs, services) && t.name in st.disk && t.signozServiceName != ""
    requires AddRun(st, ts, svcs, env).err == None
    requires forall j :: 0 <= j < |ts| && ts[j].name == t.name ==> ts[j] == t
    ensures var disk := AddRun(st, ts, svcs, env).st.disk;
      && t.name in disk
      && Extended(disk[t.name], st.disk[t.name], t.name, t.signozServiceName, t.signozEnv, services, env)
      && (t in ts && "signoz" in services ==> Signoz in disk[t.name].services)
    decreases |ts|
  {
    if ts == [] {
      ExtendedByNothing(st.disk[t.name], t.name, t.signozServiceName, t.signozEnv, services, env);
    } else {
      var st1 := AddRunStep(st, ts, svcs, env);
      AddRunExtends(st1, ts[1..], svcs, services, env, t);
      if ts[0].name == t.name {
        TargetIsExtended(st, t, svcs, services, env);
        var end := AddRun(st1, ts[1..], svcs, env).st.disk[t.name];
        ExtendedTwice(st.disk[t.name], st1.disk[t.name], end, t.name, t.signozServiceName, t.signozEnv, services, env);
      }
    }
  }

  // The i-th result comes from a state that still has the target's entry.
  lemma {:induction false} AddRunReports(st: State, ts: seq<Target>, svcs: seq<Svc>, env: Env, i: nat)
    returns (a: State)
    requires AllKnown(st.disk, ts) && i < |ts| && AddRun(st, ts, svcs, env).err == None
    requires forall j :: 0 <= j < i ==> ts[j].name != ts[i].name
    ensures ts[i].name in a.disk && a.disk[ts[i].name] == st.disk[ts[i].name]
    ensures var results := AddRun(st, ts, svcs, env).results;
      i < |results| && results[i] == AddedResult(a, ts[i], svcs, env)
    decreases i, 0
  {
    var st1 := AddRunStep(st, ts, svcs, env);
    a := st;
    if i > 0 {
      a := LaterState(st, st1, ts, svcs, env, i);
    }
  }

  lemma {:induction false} LaterState(
      st: State, st1: State, ts: seq<Target>, svcs: seq<Svc>, env: Env, i: nat)
    returns (a: State)
    requires 0 < i < |ts| && AllKnown(st1.disk, ts[1..]) && AddRun(st1, ts[1..], svcs, env).err == None
    requires ts[i].name in st.disk && ts[0].name in st.disk
    requires st1.disk == st.disk[ts[0].name := AddedResult(st, ts[0], svcs, env).entry]
    requires forall j :: 0 <= j < i ==> ts[j].name != ts[i].name
    ensures ts[i].name in a.disk && a.disk[ts[i].name] == st.disk[ts[i].name]
    ensures var results := AddRun(st1, ts[1..], svcs, env).results;
      i - 1 < |results| && results[i - 1] == AddedResult(a, ts[i], svcs, env)
    decreases i - 1, 1
  {
    var rest := ts[1..];
    assert rest[i - 1] == ts[i] && ts[0].name != ts[i].name;
    assert forall j :: 0 <= j < i - 1 ==> rest[j] == ts[j + 1];
    a := AddRunReports(st1, rest, svcs, env, i - 1);
  }

  // What one target of the request comes to: its entry and its result.
  lemma AddWritesAt(st: State, ts: seq<Target>, svcs: seq<Svc>, services: seq<string>, env: Env, i: nat)
    requires AllKnown(st.disk, ts) && AddRun(st, ts, svcs, env).err == None
    requires Named(svcs, services) && i < |ts| && ts[i].signozServiceName != ""
    requires forall j :: 0 <= j < |ts| && ts[j].name == ts[i].name ==> ts[j] == ts[i]
    ensures var o := AddRun(st, ts, svcs, env);
      var n := ts[i].name;
      && n in o.st.disk && |o.results| == |ts| && o.results[i].name == n
      && Extended(o.st.disk[n], st.disk[n], n, ts[i].signozServiceName, ts[i].signozEnv, services, env)
      && ("signoz" in services ==> Signoz in o.st.disk[n].services)
  {
    AddRunExtends(st, ts, svcs, services, env, ts[i]);
    AddSavesPrefix(st, ts, svcs, env);
  }

  lemma AddReportsAt(st: State, ts: seq<Target>, svcs: seq<Svc>, services: seq<string>, env: Env, i: nat)
    requires AllKnown(st.disk, ts) && AddRun(st, ts, svcs, env).err == None
    requires Named(svcs, services) && i < |ts|
    requires forall j :: 0 <= j < i ==> ts[j].name != ts[i].name
    ensures var results := AddRun(st, ts, svcs, env).results;
      i < |results| && ReportedNew(results[i], st.disk[ts[i].name], services)
  {
    var a := AddRunReports(st, ts, svcs, env, i);
    TargetIsReportedNew(a, ts[i], svcs, services, env);
  }

  // An add without environments takes the flag's environment for SignOz, or the
  // one the entry remembers, and the service name the entry remembers.
  lemma PlainAddWrites(st: State, app: string, services: seq<string>, tag: string, env: Env)
    requires Add(st, app, services, [], tag, env).err == None
    ensures var o := Add(st, app, services, [], tag, env);
      && app in st.disk && app in o.st.disk && |o.results| == 1 && o.results[0].name == app
      && ReportedNew(o.results[0], st.disk[app], services)
      && Extended(o.st.disk[app], st.disk[app], app,
           if st.disk[app].signozServiceName != "" then st.disk[app].signozServiceName else app,
           if tag != "" then tag else st.disk[app].environment, services, env)
      && ("signoz" in services ==> Signoz in o.st.disk[app].services)
  {
    var ts := AddTargets(st.disk, app, [], tag);
    ResolvedNames(services);
    AddWritesAt(st, ts, Resolve(services).value, services, env, 0);
    AddReportsAt(st, ts, Resolve(services).value, services, env, 0);
  }

  // With environments it extends each `<app>-<env>`.
  lemma SiblingAddWrites(
      st: State, app: string, services: seq<string>, envs: seq<string>, tag: string, env: Env, i: nat)
    requires Add(st, app, services, envs, tag, env).err == None && i < |envs|
    ensures var o := Add(st, app, services, envs, tag, env);
      var n := app + "-" + envs[i];
      && n in st.disk && n in o.st.disk && |o.results| == |envs| && o.results[i].name == n
      && Extended(o.st.disk[n], st.disk[n], n, app, envs[i], services, env)
      && ("signoz" in services ==> Signoz in o.st.disk[n].services)
      && (Distinct(envs) ==> ReportedNew(o.results[i], st.disk[n], services))
  {
    var ts := AddTargets(st.disk, app, envs, tag);
    SiblingsByName(app, envs, ts, i);
    ResolvedNames(services);
    AddWritesAt(st, ts, Resolve(services).value, services, env, i);
    if Distinct(envs) {
      AddReportsAt(st, ts, Resolve(services).value, services, env, i);
    }
  }

  lemma {:induction false} AddSparesEntry(st: State, ts: seq<Target>, svcs: seq<Svc>, env: Env, n: string)
    requires AllKnown(st.disk, ts) && n in st.disk && forall j :: 0 <= j < |ts| ==> ts[j].name != n
    ensures var disk := AddRun(st, ts, svcs, env).st.disk; n in disk && disk[n] == st.disk[n]
    decreases |ts|
  {
    if ts != [] {
      assert ts[0].name != n && forall j :: 0 <= j < |ts[1..]| ==> ts[1..][j].name == ts[j + 1].name;
      if Missing(st.disk[ts[0].name], svcs) == [] {
        AddSparesEntry(st, ts[1..], svcs, env, n);
      } else if env.saves(st.saves) {
        AddSparesEntry(AfterAdd(st, ts[0], svcs, env), ts[1..], svcs, env, n);
      }
    }
  }

  lemma AddSparesEntries(
      st: State, app: string, services: seq<string>, envs: seq<string>, tag: string, env: Env, n: string)
    requires n in st.disk && (envs == [] ==> n != app) && forall i :: 0 <= i < |envs| ==> n != app + "-" + envs[i]
    ensures var disk := Add(st, app, services, envs, tag, env).st.disk; n in disk && disk[n] == st.disk[n]
  {
    var ts := AddTargets(st.disk, app, envs, tag);
    if AddError(st, app, services, ts, env) == None {
      assert forall j :: 0 <= j < |ts| ==> ts[j].name != n;
      AddSparesEntry(st, ts, Resolve(services).value, env, n);
    }
  }

  // ---------------------------------------------------------- detach and remove

  // DetachServices goes ahead exactly for a request of nothing but SignOz and an
  // app that exists.
  lemma DetachAcceptedIff(st: State, app: string, services: seq<string>, env: Env)
    ensures var err := Detach(st, app, services, env).err;
      err == None || err == Some(ErrSave) <==>
        ValidName(app) && services != [] && app in st.disk && forall i :: 0 <= i < |services| ==>
          services[i] == "signoz"
  {
    if services != [] && forall i :: 0 <= i < |services| ==> services[i] == "signoz" {
      NameOfService(Signoz);
      assert "signoz" == SvcName(Signoz);
      ValidListIsTrimmed(services);
    }
  }

  // It takes exactly the SignOz configuration away.
  lemma DetachTakesSignoz(st: State, app: string, services: seq<string>, env: Env)
    ensures var o := Detach(st, app, services, env);
      && o.st.world == st.world && o.st.disk.Keys == st.disk.Keys
      && (forall n :: n in st.disk && n != app ==> o.st.disk[n] == st.disk[n])
      && (o.err == None ==>
            && app in st.disk
            && var e, e0 := o.st.disk[app], st.disk[app];
            && e.createdAt == e0.createdAt && e.environment == e0.environment
            && e.signozServiceName == e0.signozServiceName
            && e.services.Keys == e0.services.Keys - {Signoz}
            && forall s :: s in e.services ==> e.services[s] == e0.services[s])
      && (o.err != None ==> o.st.disk == st.disk)
  {
  }

  // RemoveApp goes ahead exactly for an app that exists, and takes its entry
  // alone out of the registry, whatever the brokers say.
  lemma RemoveTakesEntry(st: State, app: string, env: Env)
    ensures var o := Remove(st, app, env);
      && (o.err == None <==> ValidName(app) && app in st.disk && env.saves(st.saves))
      && (o.err == None ==> app !in o.st.disk && o.st.disk.Keys == st.disk.Keys - {app})
      && (o.err != None ==> o.st.disk == st.disk)
      && forall n :: n in o.st.disk ==> o.st.disk[n] == st.disk[n]
  {
  }

  // ------------------------------------------------------------------- reconcile

  // Each app of the order has its report, and in it every RabbitMQ or MongoDB
  // of its entry is listed once, as ensured or as failed, and nothing else.
  lemma {:induction false} ReconcileReports(w: World, order: seq<string>, apps: Apps, fates: Fates, k: nat)
    requires AllWellTyped(apps) && (forall i :: 0 <= i < |order| ==> order[i] in apps) && k < |order|
    ensures var reports := ReconcileFrom(w, order, apps, fates).reports;
      && |reports| == |order| && reports[k].app == order[k]
      && (forall s :: s in reports[k].ensured || s in reports[k].failures <==>
            s in apps[order[k]].services && (s == RabbitMQ || s == MongoDB))
      && (forall s :: s in reports[k].ensured ==> s !in reports[k].failures)
      && DistinctSvcs(reports[k].ensured)
    decreases k
  {
    ReportsMatch(w, order, apps, fates);
    if k == 0 {
      AppReports(w, order[0], apps[order[0]], fates);
    } else {
      ReconcileReports(ReconcileApp(w, order[0], apps[order[0]], fates).0, order[1..], apps, fates, k - 1);
    }
  }

  lemma AppReports(w: World, app: string, entry: AppEntry, fates: Fates)
    requires WellTyped(entry)
    ensures var r := ReconcileApp(w, app, entry, fates).1;
      && r.app == app
      && (forall s :: s in r.ensured || s in r.failures <==> s in entry.services && (s == RabbitMQ || s == MongoDB))
      && (forall s :: s in r.ensured ==> s !in r.failures) && DistinctSvcs(r.ensured)
  {
  }
}
