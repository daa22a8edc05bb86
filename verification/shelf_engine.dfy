// The engine as the program runs it: loops that change the registry, the
// results and the brokers step by step, proved against the functions of
// EngineSpec and Reconciling.
module ShelfEngine {
  import opened Text
  import opened Names
  import opened Registry
  import opened Brokers
  import opened ServiceOps
  import opened RabbitOps
  import opened Reconciling
  import opened EngineSpec
  import opened Sorting

  class Engine {
    var disk: Apps
    var saves: nat
    const server: Server
    const env: Env

    constructor (server: Server, env: Env)
      requires server.fates == env.fates
      ensures this.server == server && this.env == env && Valid() && St() == State(map[], 0, server.w)
    {
      this.server := server;
      this.env := env;
      this.disk := map[];
      this.saves := 0;
    }

    ghost predicate Valid()
      reads this
    {
      server.fates == env.fates
    }

    ghost function St(): State
      reads this, server
    {
      State(disk, saves, server.w)
    }

    // Store.Save: the whole registry or nothing.
    method Save(reg: Apps) returns (ok: bool)
      modifies this
      ensures ok == env.saves(old(saves)) && St() == Saved(old(St()), reg, env)
    {
      ok := env.saves(saves);
      if ok {
        disk := reg;
      }
      saves := saves + 1;
    }

    // The `for _, svc := range` loop shared by SetupApp and AddServices.
    method ProvisionAll(entry0: AppEntry, svcs: seq<Svc>, app: string, opts: ProvisionOptions)
      returns (entry: AppEntry, provisioned: seq<Svc>, failures: set<Svc>)
      requires Valid()
      modifies server
      ensures Progress(server.w, entry, provisioned, failures)
        == ProvisionLoop(Progress(old(server.w), entry0, [], {}), svcs, app, opts, env)
    {
      entry, provisioned, failures := entry0, [], {};
      ghost var p0 := Progress(server.w, entry0, [], {});
      var i := 0;
      while i < |svcs|
        invariant 0 <= i <= |svcs|
        invariant ProvisionLoop(Progress(server.w, entry, provisioned, failures), svcs[i..], app, opts, env)
          == ProvisionLoop(p0, svcs, app, opts, env)
      {
        ghost var p := Progress(server.w, entry, provisioned, failures);
        assert svcs[i..][1..] == svcs[i + 1..];
        var cfg := ProvisionService(server, svcs[i], app, env.passwords(server.w.tick), opts);
        match cfg {
          case None => failures := failures + {svcs[i]};
          case Some(c) =>
            entry := entry.(services := entry.services[svcs[i] := c]);
            provisioned := provisioned + [svcs[i]];
        }
        assert Progress(server.w, entry, provisioned, failures) == ProvisionOne(p, svcs[i], app, opts, env);
        i := i + 1;
      }
    }

    // Names and containers first: nothing is changed when one is wrong.
    method CheckTargets(ts: seq<Target>) returns (err: Option<Error>)
      ensures err == TargetsError(disk, ts)
    {
      var i := 0;
      while i < |ts|
        invariant 0 <= i <= |ts|
        invariant TargetsError(disk, ts[i..]) == TargetsError(disk, ts)
      {
        assert ts[i..][1..] == ts[i + 1..];
        if !ValidName(ts[i].name) {
          return Some(ErrInvalidName);
        }
        if ts[i].name in disk {
          return Some(ErrAppAlreadyExists);
        }
        i := i + 1;
      }
      return None;
    }

    // containerCheck: an unknown name has no container.
    method ContainerCheck(services: seq<string>) returns (ok: bool)
      ensures ok == ContainersRun(services, server.w.tick, env)
    {
      for i := 0 to |services|
        invariant forall k :: 0 <= k < i ==>
          SvcOf(services[k]).Some? && env.running(server.w.tick, SvcOf(services[k]).value)
      {
        var svc := SvcOf(services[i]);
        if svc.None? || !env.running(server.w.tick, svc.value) {
          NotRunning(services, i, server.w.tick, env);
          return false;
        }
      }
      AllRunning(services, server.w.tick, env);
      return true;
    }

    static lemma NotRunning(services: seq<string>, i: nat, tick: nat, env: Env)
      requires i < |services|
      requires SvcOf(services[i]).None? || !env.running(tick, SvcOf(services[i]).value)
      ensures !ContainersRun(services, tick, env)
    {
      if Resolve(services).Some? {
        ResolvedIsSvcOf(services, i);
      }
    }

    static lemma AllRunning(services: seq<string>, tick: nat, env: Env)
      requires forall k :: 0 <= k < |services| ==>
        SvcOf(services[k]).Some? && env.running(tick, SvcOf(services[k]).value)
      ensures ContainersRun(services, tick, env)
    {
      assert forall k :: 0 <= k < |services| ==> ValidService(services[k]);
      forall k | 0 <= k < |services|
        ensures env.running(tick, Resolve(services).value[k])
      {
        ResolvedIsSvcOf(services, k);
      }
    }

    static lemma ResolvedIsSvcOf(services: seq<string>, k: nat)
      requires k < |services| && Resolve(services).Some?
      ensures SvcOf(services[k]) == Some(Resolve(services).value[k])
    {
      assert SvcName(Resolve(services).value[k]) == services[k];
      NameOfService(Resolve(services).value[k]);
    }

    method SetupApp(app: string, services: seq<string>, envs: seq<string>, tag: string, full: bool)
      returns (results: seq<TargetResult>, err: Option<Error>)
      requires Valid()
      modifies this, server
      ensures Valid()
      ensures Answer(St(), results, err) == Setup(old(St()), app, services, envs, tag, full, env)
    {
      if !ValidName(app) {
        return [], Some(ErrInvalidName);
      }
      if |services| == 0 {
        return [], Some(ErrNoServices);
      }
      var parsed := ParseServices(services);
      if parsed.InvalidService? {
        return [], Some(ErrInvalidService);
      }
      var ts := BuildSetupTargets(app, envs, tag);
      var bad := CheckTargets(ts);
      if bad.Some? {
        return [], bad;
      }
      var running := ContainerCheck(services);
      if !running {
        return [], Some(ErrContainerNotRunning);
      }
      results, err := SetupTargetsLoop(ts, Resolve(services).value, full);
    }

    // The target loop of SetupApp, saving after each target.
    method SetupTargetsLoop(ts: seq<Target>, svcs: seq<Svc>, full: bool)
      returns (results: seq<TargetResult>, err: Option<Error>)
      requires Valid()
      modifies this, server
      ensures Answer(St(), results, err) == SetupRun(old(St()), ts, svcs, full, env)
    {
      results := [];
      var i := 0;
      while i < |ts|
        invariant 0 <= i <= |ts|
        invariant var rest := SetupRun(St(), ts[i..], svcs, full, env);
          SetupRun(old(St()), ts, svcs, full, env) == rest.(results := results + rest.results)
      {
        assert ts[i..][1..] == ts[i + 1..];
        var result, ok := SetupTarget(ts[i], svcs, full);
        if !ok {
          return results, Some(ErrSave);
        }
        Regroup(results, [result], SetupRun(St(), ts[i + 1..], svcs, full, env).results);
        results := results + [result];
        i := i + 1;
      }
      return results, None;
    }

    // One round of that loop.
    method SetupTarget(t: Target, svcs: seq<Svc>, full: bool) returns (result: TargetResult, ok: bool)
      requires Valid()
      modifies this, server
      ensures var p := SetupProgress(old(St()), t, svcs, full, env);
        && St() == Saved(old(St()).(world := p.world), old(disk)[t.name := p.entry], env)
        && result == ResultOf(t, p) && ok == env.saves(old(saves))
    {
      var entry := AppEntry(env.clock(server.w.tick), t.signozEnv,
        if t.signozServiceName != t.name then t.signozServiceName else "", map[]);
      var provisioned, failures;
      entry, provisioned, failures := ProvisionAll(entry, svcs, t.name, SetupOptions(t, full, env));
      result := TargetResult(t.name, entry, provisioned, failures);
      var reg := disk[t.name := entry];
      ok := Save(reg);
    }

    // BuildAddTargets: without environments, the names remembered at setup.
    method BuildAddTargets(app: string, envs: seq<string>, tag: string) returns (ts: seq<Target>)
      ensures ts == AddTargets(disk, app, envs, tag)
    {
      if |envs| > 0 {
        ts := BuildSetupTargets(app, envs, tag);
        return;
      }
      var serviceName, environment := app, tag;
      if app in disk {
        if disk[app].signozServiceName != "" {
          serviceName := disk[app].signozServiceName;
        }
        if environment == "" {
          environment := disk[app].environment;
        }
      }
      ts := [Target(app, serviceName, environment)];
    }

    // The pre-flight loop of AddServices.
    method AllExist(ts: seq<Target>) returns (ok: bool)
      ensures ok == AllKnown(disk, ts)
    {
      for i := 0 to |ts|
        invariant forall k :: 0 <= k < i ==> ts[k].name in disk
      {
        if ts[i].name !in disk {
          return false;
        }
      }
      return true;
    }

    method AddServices(app: string, services: seq<string>, envs: seq<string>, tag: string)
      returns (results: seq<TargetResult>, err: Option<Error>)
      requires Valid()
      modifies this, server
      ensures Valid()
      ensures Answer(St(), results, err) == Add(old(St()), app, services, envs, tag, env)
    {
      if !ValidName(app) {
        return [], Some(ErrInvalidName);
      }
      if |services| == 0 {
        return [], Some(ErrNoServices);
      }
      var parsed := ParseServices(services);
      if parsed.InvalidService? {
        return [], Some(ErrInvalidService);
      }
      var ts := BuildAddTargets(app, envs, tag);
      var known := AllExist(ts);
      if !known {
        return [], Some(ErrAppNotFound);
      }
      var running := ContainerCheck(services);
      if !running {
        return [], Some(ErrContainerNotRunning);
      }
      results, err := AddTargetsLoop(ts, Resolve(services).value);
    }

    // The skip list of AddServices.
    method SkipAttached(entry: AppEntry, svcs: seq<Svc>) returns (todo: seq<Svc>)
      ensures todo == Missing(entry, svcs)
    {
      todo := [];
      var i := 0;
      while i < |svcs|
        invariant 0 <= i <= |svcs|
        invariant todo + Missing(entry, svcs[i..]) == Missing(entry, svcs)
      {
        assert svcs[i..][1..] == svcs[i + 1..];
        if svcs[i] !in entry.services {
          todo := todo + [svcs[i]];
        }
        i := i + 1;
      }
    }

    method AddTargetsLoop(ts: seq<Target>, svcs: seq<Svc>)
      returns (results: seq<TargetResult>, err: Option<Error>)
      requires Valid() && AllKnown(disk, ts)
      modifies this, server
      ensures Answer(St(), results, err) == AddRun(old(St()), ts, svcs, env)
    {
      results := [];
      var i := 0;
      while i < |ts|
        invariant 0 <= i <= |ts| && AllKnown(disk, ts)
        invariant var rest := AddRun(St(), ts[i..], svcs, env);
          AddRun(old(St()), ts, svcs, env) == rest.(results := results + rest.results)
      {
        assert ts[i..][1..] == ts[i + 1..];
        var result, ok := AddTarget(ts[i], svcs);
        if !ok {
          return results, Some(ErrSave);
        }
        Regroup(results, [result], AddRun(St(), ts[i + 1..], svcs, env).results);
        results := results + [result];
        i := i + 1;
      }
      return results, None;
    }

    // One round of that loop: only what is not attached yet.
    method AddTarget(t: Target, svcs: seq<Svc>) returns (result: TargetResult, ok: bool)
      requires Valid() && t.name in disk
      modifies this, server
      ensures disk.Keys == old(disk.Keys)
      ensures Missing(old(disk)[t.name], svcs) == [] ==>
        ok && St() == old(St()) && result == TargetResult(t.name, old(disk)[t.name], [], {})
      ensures Missing(old(disk)[t.name], svcs) != [] ==>
        var p := AddProgress(old(St()), t, svcs, env);
        && St() == Saved(old(St()).(world := p.world), old(disk)[t.name := p.entry], env)
        && result == ResultOf(t, p) && ok == env.saves(old(saves))
    {
      var entry := disk[t.name];
      var todo := SkipAttached(entry, svcs);
      if |todo| == 0 {
        return TargetResult(t.name, entry, [], {}), true;
      }
      var provisioned, failures;
      entry, provisioned, failures := ProvisionAll(entry, todo, t.name, SetupOptions(t, false, env));
      result := TargetResult(t.name, entry, provisioned, failures);
      var reg := disk[t.name := entry];
      ok := Save(reg);
    }

    method DetachServices(app: string, services: seq<string>) returns (err: Option<Error>)
      requires Valid()
      modifies this, server
      ensures Valid()
      ensures Answer(St(), [], err) == Detach(old(St()), app, services, env)
    {
      err := CheckDetach(app, services);
      if err.Some? {
        return;
      }
      var entry := ClearSignoz(disk[app], services);
      var reg := disk[app := entry];
      var ok := Save(reg);
      return if ok then None else Some(ErrSave);
    }

    // The checks of DetachServices.
    method CheckDetach(app: string, services: seq<string>) returns (err: Option<Error>)
      ensures err == DetachError(St(), app, services)
    {
      if !ValidName(app) {
        return Some(ErrInvalidName);
      }
      if |services| == 0 {
        return Some(ErrNoServices);
      }
      var parsed := ParseServices(services);
      if parsed.InvalidService? {
        return Some(ErrInvalidService);
      }
      for i := 0 to |services|
        invariant forall k :: 0 <= k < i ==> Detachable(services[k])
      {
        if !Detachable(services[i]) {
          return Some(ErrNotDetachable);
        }
      }
      return if app !in disk then Some(ErrAppNotFound) else None;
    }

    // The loop of DetachServices: every requested service is SignOz, whose
    // teardown does nothing.
    method ClearSignoz(e0: AppEntry, services: seq<string>) returns (entry: AppEntry)
      requires services != []
      ensures entry == e0.(services := e0.services - {Signoz})
    {
      entry := e0;
      for i := 0 to |services|
        invariant i == 0 ==> entry == e0
        invariant i > 0 ==> entry == e0.(services := e0.services - {Signoz})
      {
        if Signoz in entry.services {
          entry := entry.(services := entry.services - {Signoz});
        }
        assert e0.services - {Signoz} - {Signoz} == e0.services - {Signoz};
        assert Signoz !in e0.services ==> e0.services - {Signoz} == e0.services;
      }
    }

    method RemoveApp(app: string) returns (err: Option<Error>)
      requires Valid()
      modifies this, server
      ensures Valid()
      ensures Answer(St(), [], err) == Remove(old(St()), app, env)
    {
      if !ValidName(app) {
        return Some(ErrInvalidName);
      }
      if app !in disk {
        return Some(ErrAppNotFound);
      }
      var entry := disk[app];
      var i := 0;
      while i < |CATALOG|
        invariant 0 <= i <= |CATALOG|
        invariant disk == old(disk) && saves == old(saves)
        invariant TeardownLoop(server.w, entry, CATALOG[i..], app, env)
          == TeardownLoop(old(server.w), entry, CATALOG, app, env)
      {
        assert CATALOG[i..][1..] == CATALOG[i + 1..];
        if CATALOG[i] in entry.services {
          var ok := TeardownService(server, CATALOG[i], app);
        }
        i := i + 1;
      }
      var reg := disk - {app};
      var ok := Save(reg);
      return if ok then None else Some(ErrSave);
    }

    // The body of Reconcile's loop for one service.
    method EnsureRegistered(entry: AppEntry, svc: Svc, tags: string -> string, rep0: AppReport) returns (rep: AppReport)
      requires Valid() && WellTyped(entry) && (svc == RabbitMQ || svc == MongoDB) && forall n :: '\n' !in tags(n)
      modifies server
      ensures (server.w, rep) == EnsureService(old(server.w), rep0, entry, svc, env.fates)
    {
      rep := rep0;
      if svc in entry.services {
        var cfg := entry.services[svc];
        assert Fits(svc, cfg);
        var ok;
        if svc == RabbitMQ {
          ok := Ensure(server, cfg, tags);
        } else if cfg.database == "" || cfg.username == "" || cfg.password == "" {
          ok := false;
        } else {
          ok := server.Do(UpsertMongoUser(cfg.database, cfg.username, cfg.password));
        }
        if ok {
          rep := rep.(ensured := rep.ensured + [svc]);
        } else {
          rep := rep.(failures := rep.failures + {svc});
        }
      }
    }

    // Reconcile: all apps in name order, whatever fails on the way. The one
    // order it uses is fixed by the set of names.
    method Reconcile(tags: string -> string) returns (reports: seq<AppReport>, ghost order: seq<string>)
      requires Valid() && AllWellTyped(disk) && forall n :: '\n' !in tags(n)
      modifies server
      ensures disk == old(disk) && saves == old(saves)
      ensures NameOrder(order, disk.Keys)
      ensures Reconciled(server.w, reports) == ReconcileFrom(old(server.w), order, disk, env.fates)
    {
      var names := SortedNames(disk.Keys);
      order := names;
      reports := [];
      var i := 0;
      while i < |names|
        invariant 0 <= i <= |names|
        invariant var rest := ReconcileFrom(server.w, names[i..], disk, env.fates);
          ReconcileFrom(old(server.w), names, disk, env.fates) == rest.(reports := reports + rest.reports)
      {
        assert names[i..][1..] == names[i + 1..];
        var name := names[i];
        var rep := EnsureRegistered(disk[name], RabbitMQ, tags, AppReport(name, [], {}));
        rep := EnsureRegistered(disk[name], MongoDB, tags, rep);
        reports := reports + [rep];
        i := i + 1;
      }
    }
  }
}
