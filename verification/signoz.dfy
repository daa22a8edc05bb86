// The SignOz addon: detaching it and attaching it again gives back the
// configuration made at setup.
module SignozAddon {
  import opened Text
  import opened Names
  import opened Registry
  import opened Brokers
  import opened ServiceOps
  import opened EngineSpec
  import opened Runs

  // The configuration the entry itself determines.
  function SignozOf(name: string, entry: AppEntry, defaultEnv: string): Config
  {
    SignozConfig(
      if entry.signozServiceName != "" then entry.signozServiceName else name,
      if entry.environment != "" then entry.environment else if defaultEnv != "" then defaultEnv else "dev")
  }

  lemma {:induction false} LoopMakesSignoz(p: Progress, svcs: seq<Svc>, app: string, opts: ProvisionOptions, env: Env)
    requires Signoz in p.entry.services ==> p.entry.services[Signoz] == SignozConfigFor(app, opts)
    ensures var q := ProvisionLoop(p, svcs, app, opts, env);
      && (Signoz in q.entry.services <==> Signoz in p.entry.services || Signoz in svcs)
      && (Signoz in q.entry.services ==> q.entry.services[Signoz] == SignozConfigFor(app, opts))
      && q.entry.environment == p.entry.environment && q.entry.signozServiceName == p.entry.signozServiceName
    decreases |svcs|
  {
    if svcs != [] {
      var p1 := ProvisionOne(p, svcs[0], app, opts, env);
      if svcs[0] == Signoz {
        assert Run(p.world, [], env.fates) == Reply(p.world, true);
        assert Provision(p.world, Signoz, app, env.passwords(p.world.tick), opts, env.fates).config
            == Some(SignozConfigFor(app, opts));
      } else {
        assert Signoz in p1.entry.services ==> p1.entry.services[Signoz] == p.entry.services[Signoz];
      }
      LoopMakesSignoz(p1, svcs[1..], app, opts, env);
    }
  }

  lemma TargetStoresSignozOf(st: State, t: Target, svcs: seq<Svc>, full: bool, env: Env)
    requires t.signozServiceName != "" && Signoz in svcs
    ensures var entry := SetupProgress(st, t, svcs, full, env).entry;
      Signoz in entry.services && entry.services[Signoz] == SignozOf(t.name, entry, env.defaultEnv)
  {
    LoopMakesSignoz(Progress(st.world, FreshEntry(t, env.clock(st.world.tick)), [], {}), svcs, t.name,
      SetupOptions(t, full, env), env);
  }

  // Plain, --env and --envs setups alike: the configuration stored at setup is
  // the one the stored entry determines.
  lemma SetupStoresSignozOf(
      st: State, app: string, envs: seq<string>, tag: string, t: Target, svcs: seq<Svc>, full: bool, env: Env)
    requires ValidName(app) && t in SetupTargets(app, envs, tag) && Signoz in svcs
    ensures var entry := SetupProgress(st, t, svcs, full, env).entry;
      Signoz in entry.services && entry.services[Signoz] == SignozOf(t.name, entry, env.defaultEnv)
  {
    assert t.signozServiceName == app;
    TargetStoresSignozOf(st, t, svcs, full, env);
  }

  // ------------------------------------------------- nothing rewrites the tags

  ghost predicate SameTags(st: State, st': State, app: string)
    requires app in st.disk
  {
    && app in st'.disk
    && st'.disk[app].environment == st.disk[app].environment
    && st'.disk[app].signozServiceName == st.disk[app].signozServiceName
  }

  lemma {:induction false} LoopKeepsTags(p: Progress, svcs: seq<Svc>, app: string, opts: ProvisionOptions, env: Env)
    ensures var q := ProvisionLoop(p, svcs, app, opts, env);
      q.entry.environment == p.entry.environment && q.entry.signozServiceName == p.entry.signozServiceName
    decreases |svcs|
  {
    if svcs != [] {
      LoopKeepsTags(ProvisionOne(p, svcs[0], app, opts, env), svcs[1..], app, opts, env);
    }
  }

  lemma {:induction false} AddRunKeepsTags(st: State, ts: seq<Target>, svcs: seq<Svc>, env: Env, app: string)
    requires AllKnown(st.disk, ts) && app in st.disk
    ensures SameTags(st, AddRun(st, ts, svcs, env).st, app)
    decreases |ts|
  {
    if ts != [] {
      var e0 := st.disk[ts[0].name];
      if Missing(e0, svcs) == [] {
        AddRunKeepsTags(st, ts[1..], svcs, env, app);
      } else {
        LoopKeepsTags(
          Progress(st.world, e0, [], {}), Missing(e0, svcs), ts[0].name, SetupOptions(ts[0], false, env), env);
        var p := AddProgress(st, ts[0], svcs, env);
        var st1 := EngineSpec.Saved(st.(world := p.world), st.disk[ts[0].name := p.entry], env);
        assert SameTags(st, st1, app);
        if env.saves(st.saves) {
          AddRunKeepsTags(st1, ts[1..], svcs, env, app);
        }
      }
    }
  }

  lemma {:induction false} WrittenElsewhere(disk: Apps, results: seq<TargetResult>, app: string)
    requires app in disk && forall i :: 0 <= i < |results| ==> results[i].name != app
    ensures app in Written(disk, results) && Written(disk, results)[app] == disk[app]
    decreases |results|
  {
    if results != [] {
      WrittenElsewhere(disk[results[0].name := results[0].entry], results[1..], app);
    }
  }

  lemma EventKeepsTags(st: State, e: Event, env: Env, app: string)
    requires app in st.disk && e != RemoveEvent(app)
    ensures SameTags(st, Apply(st, e, env), app)
  {
    match e
    case SetupEvent(a, services, envs, tag, full) =>
      var ts := SetupTargets(a, envs, tag);
      if SetupError(st, a, services, ts, env) == None {
        NoTargetsError(st.disk, ts);
        SetupSavesPrefix(st, ts, Resolve(services).value, full, env);
        WrittenElsewhere(st.disk, SetupRun(st, ts, Resolve(services).value, full, env).results, app);
      }
    case AddEvent(a, services, envs, tag) =>
      var ts := AddTargets(st.disk, a, envs, tag);
      if AddError(st, a, services, ts, env) == None {
        AddRunKeepsTags(st, ts, Resolve(services).value, env, app);
      }
    case DetachEvent(a, services) =>
    case RemoveEvent(a) =>
    case ReconcileEvent(order) =>
    case ClientWrite(a, r, data) =>
    case RedisRestart =>
    case Wipe(svc) =>
  }

  lemma {:induction false} RunKeepsTags(st: State, es: seq<Event>, env: Env, app: string)
    requires app in st.disk && RemoveEvent(app) !in es
    ensures SameTags(st, RunAll(st, es, env), app)
    decreases |es|
  {
    if es != [] {
      assert es[0] in es;
      EventKeepsTags(st, es[0], env, app);
      RunKeepsTags(Apply(st, es[0], env), es[1..], env, app);
    }
  }

  const ONLY_SIGNOZ: seq<string> := ["signoz"]

  // A plain re-attach gives what the entry determines.
  lemma PlainAddMakesSignozOf(st: State, app: string, env: Env)
    requires Add(st, app, ONLY_SIGNOZ, [], "", env).err == None
    requires app in st.disk && Signoz !in st.disk[app].services
    ensures var st' := Add(st, app, ONLY_SIGNOZ, [], "", env).st;
      && app in st'.disk && Signoz in st'.disk[app].services
      && st'.disk[app].services[Signoz] == SignozOf(app, st.disk[app], env.defaultEnv)
  {
    var e0 := st.disk[app];
    var ts := AddTargets(st.disk, app, [], "");
    var t := ts[0];
    assert SvcOf("signoz") == Some(Signoz);
    assert Resolve(ONLY_SIGNOZ[1..]) == Some([]);
    var svcs := Resolve(ONLY_SIGNOZ).value;
    assert svcs == [Signoz];
    assert Missing(e0, svcs[1..]) == [];
    assert Missing(e0, svcs) == [Signoz];
    LoopMakesSignoz(Progress(st.world, e0, [], {}), [Signoz], app, SetupOptions(t, false, env), env);
    var p := AddProgress(st, t, svcs, env);
    assert ts[1..] == [];
    var st1 := EngineSpec.Saved(st.(world := p.world), st.disk[app := p.entry], env);
    assert env.saves(st.saves);
    assert AddRun(st1, [], svcs, env).st == st1;
  }

  // From any state in which the app holds the SignOz configuration made at
  // setup: after any events other than its removal, detaching SignOz and
  // adding it again without env flags restores exactly that configuration.
  lemma ReattachRestoresSignoz(st: State, es: seq<Event>, app: string, env: Env)
    requires app in st.disk && Signoz in st.disk[app].services
    requires st.disk[app].services[Signoz] == SignozOf(app, st.disk[app], env.defaultEnv)
    requires RemoveEvent(app) !in es
    requires Detach(RunAll(st, es, env), app, ONLY_SIGNOZ, env).err == None
    requires var detached := Detach(RunAll(st, es, env), app, ONLY_SIGNOZ, env).st;
      Add(detached, app, ONLY_SIGNOZ, [], "", env).err == None
    ensures var detached := Detach(RunAll(st, es, env), app, ONLY_SIGNOZ, env).st;
      var again := Add(detached, app, ONLY_SIGNOZ, [], "", env).st;
      && app in detached.disk && Signoz !in detached.disk[app].services
      && app in again.disk && Signoz in again.disk[app].services
      && again.disk[app].services[Signoz] == st.disk[app].services[Signoz]
  {
    RunKeepsTags(st, es, env, app);
    var st1 := RunAll(st, es, env);
    var detached := Detach(st1, app, ONLY_SIGNOZ, env).st;
    assert env.saves(st1.saves);
    PlainAddMakesSignozOf(detached, app, env);
  }

  // With --env the add command attaches another environment than the stored
  // one, and that choice is what a later plain re-attach does not bring back.
  lemma TaggedAddIsNotRemembered(entry: AppEntry, app: string, tag: string, defaultEnv: string)
    requires tag != ""
    ensures var name := if entry.signozServiceName != "" then entry.signozServiceName else app;
      var opts := ProvisionOptions(false, name, tag, defaultEnv);
      app != "" ==> (SignozConfigFor(app, opts) == SignozOf(app, entry, defaultEnv)
        <==> tag == SignozOf(app, entry, defaultEnv).environment)
  {
  }
}
