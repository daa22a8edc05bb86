// Whole runs: any sequence of engine operations, client writes, Redis
// restarts and volume losses.
module Runs {
  import opened Text
  import opened Names
  import opened Registry
  import opened Brokers
  import opened ServiceOps
  import opened Reconciling
  import opened Recovery
  import opened EngineSpec
  import opened EngineInvariant
  import opened Repeats

  datatype Event =
    | SetupEvent(app: string, services: seq<string>, envs: seq<string>, tag: string, full: bool)
    | AddEvent(app: string, services: seq<string>, envs: seq<string>, tag: string)
    | DetachEvent(app: string, services: seq<string>)
    | RemoveEvent(app: string)
    | ReconcileEvent(order: seq<string>)
    | ClientWrite(app: string, res: Res, data: string)
    | RedisRestart
    | Wipe(svc: Svc)

  // A client of `app` connects to PostgreSQL, or writes with a registered
  // credential what the broker lets it write; for Redis that is what the ACL
  // user's patterns reach.
  predicate MayWrite(st: State, app: string, r: Res)
  {
    && app in st.disk && WellTyped(st.disk[app])
    && var cfgs := st.disk[app].services;
      match r
      case PgDatabase(n) => Postgres in cfgs && n == cfgs[Postgres].database && r in st.world.res
      case PgSession(n) => Postgres in cfgs && n == cfgs[Postgres].database && PgDatabase(n) in st.world.res
      case RedisKey(k) =>
        Redis in cfgs && AclUser(cfgs[Redis].username) in st.world.res
        && Reaches(st.world.res[AclUser(cfgs[Redis].username)], k)
      case Vhost(n) => RabbitMQ in cfgs && n == cfgs[RabbitMQ].vhost && r in st.world.res
      case Bucket(n) => AIStor in cfgs && n == cfgs[AIStor].bucket && r in st.world.res
      case MongoDb(n) => MongoDB in cfgs && n == cfgs[MongoDB].database
      case _ => false
  }

  function Restarted(w: World): World
  {
    w.(res := (map r | r in w.res && !r.AclUser? :: w.res[r])
      + (map n | n in w.savedAcl :: AclUser(n) := w.savedAcl[n]))
  }

  function KindOf(r: Res): Svc
  {
    match r
    case PgDatabase(_) => Postgres
    case PgSession(_) => Postgres
    case PgRole(_) => Postgres
    case AclUser(_) => Redis
    case RedisKey(_) => Redis
    case Vhost(_) => RabbitMQ
    case RabbitUser(_) => RabbitMQ
    case Permission(_, _) => RabbitMQ
    case Bucket(_) => AIStor
    case MinioUser(_) => AIStor
    case Policy(_) => AIStor
    case MongoDb(_) => MongoDB
    case MongoUser(_, _) => MongoDB
  }

  function Wiped(w: World, svc: Svc): World
  {
    w.(res := map r | r in w.res && KindOf(r) != svc :: w.res[r],
       savedAcl := if svc == Redis then map[] else w.savedAcl)
  }

  // The state after a pass over all apps.
  ghost function AfterReconcile(st: State, order: seq<string>, env: Env): State
  {
    if AllWellTyped(st.disk) && forall n :: n in order <==> n in st.disk
    then st.(world := ReconcileFrom(st.world, order, st.disk, env.fates).w)
    else st
  }

  ghost function Apply(st: State, e: Event, env: Env): State
  {
    match e
    case SetupEvent(app, services, envs, tag, full) => Setup(st, app, services, envs, tag, full, env).st
    case AddEvent(app, services, envs, tag) => Add(st, app, services, envs, tag, env).st
    case DetachEvent(app, services) => Detach(st, app, services, env).st
    case RemoveEvent(app) => Remove(st, app, env).st
    case ReconcileEvent(order) => AfterReconcile(st, order, env)
    case ClientWrite(app, r, data) =>
      if MayWrite(st, app, r) then
        var v := if r in st.world.res then st.world.res[r] else EMPTY;
        st.(world := Put(st.world, r, v.(data := data)))
      else st
    case RedisRestart => st.(world := Restarted(st.world))
    case Wipe(svc) => st.(world := Wiped(st.world, svc))
  }

  // AIStor is not asked for twice, no rejected Redis Provision passes for a
  // success, no volume is lost, and no Save fails inside RemoveApp for an app
  // that has something to tear down.
  ghost predicate Orderly(st: State, e: Event, env: Env)
  {
    match e
    case SetupEvent(app, services, envs, tag, full) =>
      SetupAllowed(services, envs) && SetupTellsTruth(st, app, services, envs, tag, full, env)
    case AddEvent(app, services, envs, tag) =>
      && AddAllowed(st.disk, services, AddTargets(st.disk, app, envs, tag))
      && AddTellsTruth(st, app, services, envs, tag, env)
    case RemoveEvent(app) => env.saves(st.saves) || (app in st.disk && st.disk[app].services.Keys <= {Signoz})
    case Wipe(_) => false
    case _ => true
  }

  ghost function RunAll(st: State, es: seq<Event>, env: Env): State
    decreases |es|
  {
    if es == [] then st else RunAll(Apply(st, es[0], env), es[1..], env)
  }

  ghost predicate AllOrderly(st: State, es: seq<Event>, env: Env)
    decreases |es|
  {
    es != [] ==> Orderly(st, es[0], env) && AllOrderly(Apply(st, es[0], env), es[1..], env)
  }

  // ------------------------------------------------------ the invariant of runs

  lemma ReconcileKeepsInv(st: State, order: seq<string>, env: Env)
    requires Inv(st)
    ensures Inv(Apply(st, ReconcileEvent(order), env))
    ensures Apply(st, ReconcileEvent(order), env).world.res == st.world.res
    ensures Apply(st, ReconcileEvent(order), env).world.savedAcl == st.world.savedAcl
  {
    SelfNamingIsUnanimous(st.disk);
    if forall n :: n in order <==> n in st.disk {
      assert forall i :: 0 <= i < |order| ==> order[i] in order;
      ReconcileIsHarmless(st.world, order, st.disk, env.fates);
      var w := ReconcileFrom(st.world, order, st.disk, env.fates).w;
      assert w.res == st.world.res;
      forall n, s | n in st.disk && s in st.disk[n].services
        ensures Accepts(w, st.disk[n].services[s])
      {
        SameResourcesSameVerdict(st.world, w, st.disk[n].services[s]);
      }
    }
  }

  lemma DataWriteKeepsCredential(w: World, r: Res, data: string, cfg: Config)
    requires Accepts(w, cfg) && (r.PgDatabase? || r.PgSession? || r.RedisKey? || r.Vhost? || r.Bucket? || r.MongoDb?)
    ensures Accepts(Put(w, r, (if r in w.res then w.res[r] else EMPTY).(data := data)), cfg)
  {
  }

  lemma RestartKeepsCredential(w: World, cfg: Config)
    requires Accepts(w, cfg)
    ensures Accepts(Restarted(w), cfg)
  {
    forall r: Res | !r.AclUser?
      ensures At(Restarted(w), r) == At(w, r)
    {
    }
    if cfg.RedisConfig? {
      assert AclUser(cfg.username) in Restarted(w).res;
    }
  }

  lemma EventKeepsInv(st: State, e: Event, env: Env)
    requires Inv(st) && GoodEnv(env) && Orderly(st, e, env)
    ensures Inv(Apply(st, e, env))
  {
    match e
    case SetupEvent(app, services, envs, tag, full) => SetupKeepsInv(st, app, services, envs, tag, full, env);
    case AddEvent(app, services, envs, tag) => AddKeepsInv(st, app, services, envs, tag, env);
    case DetachEvent(app, services) => DetachKeepsInv(st, app, services, env);
    case RemoveEvent(app) => RemoveKeepsInv(st, app, env);
    case ReconcileEvent(order) => ReconcileKeepsInv(st, order, env);
    case ClientWrite(app, r, data) =>
      if MayWrite(st, app, r) {
        forall n, s | n in st.disk && s in st.disk[n].services
          ensures Accepts(Apply(st, e, env).world, st.disk[n].services[s])
        {
          DataWriteKeepsCredential(st.world, r, data, st.disk[n].services[s]);
        }
      }
    case RedisRestart =>
      forall n, s | n in st.disk && s in st.disk[n].services
        ensures Accepts(Restarted(st.world), st.disk[n].services[s])
      {
        RestartKeepsCredential(st.world, st.disk[n].services[s]);
      }
  }

  // In every state an orderly run reaches, every registered credential is
  // accepted by its broker and names only its own app.
  lemma {:induction false} RunsKeepInv(st: State, es: seq<Event>, env: Env)
    requires Inv(st) && GoodEnv(env) && AllOrderly(st, es, env)
    ensures Inv(RunAll(st, es, env))
    decreases |es|
  {
    if es != [] {
      EventKeepsInv(st, es[0], env);
      RunsKeepInv(Apply(st, es[0], env), es[1..], env);
    }
  }

  // --------------------------------------------- what holds after any event

  lemma {:induction false} LoopKeepsNaming(p: Progress, svcs: seq<Svc>, app: string, opts: ProvisionOptions, env: Env)
    requires GoodEnv(env) && WellTyped(p.entry) && OwnOnly(app, p.entry)
    ensures var q := ProvisionLoop(p, svcs, app, opts, env); WellTyped(q.entry) && OwnOnly(app, q.entry)
    decreases |svcs|
  {
    if svcs != [] {
      var pw := env.passwords(p.world.tick);
      var r := Provision(p.world, svcs[0], app, pw, opts, env.fates);
      if r.config.Some? {
        ProvisionIsOwn(p.world, svcs[0], app, pw, opts, env.fates);
        assert HasPassword(r.config.value);
      }
      LoopKeepsNaming(ProvisionOne(p, svcs[0], app, opts, env), svcs[1..], app, opts, env);
    }
  }

  lemma {:induction false} SetupRunKeepsNaming(st: State, ts: seq<Target>, svcs: seq<Svc>, full: bool, env: Env)
    requires GoodEnv(env) && SelfNaming(st.disk) && forall i :: 0 <= i < |ts| ==> ValidName(ts[i].name)
    ensures SelfNaming(SetupRun(st, ts, svcs, full, env).st.disk)
    decreases |ts|
  {
    if ts != [] {
      var t := ts[0];
      LoopKeepsNaming(Progress(st.world, FreshEntry(t, env.clock(st.world.tick)), [], {}), svcs, t.name,
        SetupOptions(t, full, env), env);
      var p := SetupProgress(st, t, svcs, full, env);
      SetupRunKeepsNaming(AfterSetup(st, t, svcs, full, env), ts[1..], svcs, full, env);
    }
  }

  lemma {:induction false} AddRunKeepsNaming(st: State, ts: seq<Target>, svcs: seq<Svc>, env: Env)
    requires GoodEnv(env) && SelfNaming(st.disk) && AllKnown(st.disk, ts)
    ensures SelfNaming(AddRun(st, ts, svcs, env).st.disk)
    decreases |ts|
  {
    if ts != [] {
      var e0 := st.disk[ts[0].name];
      if Missing(e0, svcs) == [] {
        AddRunKeepsNaming(st, ts[1..], svcs, env);
      } else {
        LoopKeepsNaming(Progress(st.world, e0, [], {}), Missing(e0, svcs), ts[0].name,
          SetupOptions(ts[0], false, env), env);
        var p := AddProgress(st, ts[0], svcs, env);
        var st1 := EngineSpec.Saved(st.(world := p.world), st.disk[ts[0].name := p.entry], env);
        assert SelfNaming(st1.disk);
        if env.saves(st.saves) {
          AddRunKeepsNaming(st1, ts[1..], svcs, env);
        }
      }
    }
  }

  // The registry names only its own apps after any event at all: lists with
  // repetitions, failed saves and lost volumes included.
  lemma EventKeepsNaming(st: State, e: Event, env: Env)
    requires GoodEnv(env) && SelfNaming(st.disk)
    ensures SelfNaming(Apply(st, e, env).disk)
  {
    match e
    case SetupEvent(app, services, envs, tag, full) =>
      var ts := SetupTargets(app, envs, tag);
      if SetupError(st, app, services, ts, env) == None {
        NoTargetsError(st.disk, ts);
        SetupRunKeepsNaming(st, ts, Resolve(services).value, full, env);
      }
    case AddEvent(app, services, envs, tag) =>
      var ts := AddTargets(st.disk, app, envs, tag);
      if AddError(st, app, services, ts, env) == None {
        AddRunKeepsNaming(st, ts, Resolve(services).value, env);
      }
    case DetachEvent(app, services) =>
      if DetachError(st, app, services) == None {
        assert WellTyped(st.disk[app]) && OwnOnly(app, st.disk[app]);
      }
    case RemoveEvent(app) =>
    case ReconcileEvent(order) =>
    case ClientWrite(app, r, data) =>
    case RedisRestart =>
    case Wipe(svc) =>
  }

  lemma {:induction false} RunsKeepNaming(st: State, es: seq<Event>, env: Env)
    requires GoodEnv(env) && SelfNaming(st.disk)
    ensures SelfNaming(RunAll(st, es, env).disk)
    decreases |es|
  {
    if es != [] {
      EventKeepsNaming(st, es[0], env);
      RunsKeepNaming(Apply(st, es[0], env), es[1..], env);
    }
  }

  // Recovery after anything: run any events, lose any volumes, let any command
  // fail. A following faultless Reconcile puts every registered RabbitMQ and
  // MongoDB credential in force exactly when the broker lists no lookalike of
  // an app with RabbitMQ; and then another Reconcile is a no-op.
  lemma ReconcileAfterAnything(st: State, es: seq<Event>, order: seq<string>, env: Env)
    requires GoodEnv(env) && SelfNaming(st.disk) && forall n :: n in order <==> n in RunAll(st, es, env).disk
    requires var end := RunAll(st, es, env);
      FaultFree(env.fates, end.world.tick, Apply(end, ReconcileEvent(order), env).world.tick)
    ensures var end := RunAll(st, es, env);
      var after := Apply(end, ReconcileEvent(order), env);
      && AllWellTyped(end.disk) && after.disk == end.disk
      && ((forall c :: Registered(end.disk, c) ==> Accepts(after.world, c)) <==> NoLookalikes(end.world, end.disk))
      && (NoLookalikes(end.world, end.disk) ==>
            Apply(after, ReconcileEvent(order), env).world.res == after.world.res)
  {
    var end := RunAll(st, es, env);
    RunsKeepNaming(st, es, env);
    SelfNamingIsUnanimous(end.disk);
    assert forall i :: 0 <= i < |order| ==> order[i] in order;
    ReconcileRecoversIff(end.world, order, end.disk, env.fates);
    if NoLookalikes(end.world, end.disk) {
      SecondRunChangesNothing(Apply(end, ReconcileEvent(order), env).world, order, end.disk, env.fates);
    }
  }

  // What a pass does for one app of a state.
  ghost predicate Recovered(end: State, after: World, n: string)
    requires n in end.disk
  {
    var services := end.disk[n].services;
    && (MongoDB in services ==> Accepts(after, services[MongoDB]))
    && (RabbitMQ in services && NoLookalike(end.world, n) ==> Accepts(after, services[RabbitMQ]))
  }

  // The k-th app's own commands of the pass meet no fault.
  ghost predicate SparesApp(end: State, order: seq<string>, fates: Fates, k: nat)
  {
    && k < |order| && AllWellTyped(end.disk) && (forall i :: 0 <= i < |order| ==> order[i] in end.disk)
    && FaultFree(fates, WorldBefore(end.world, order, end.disk, fates, k).tick,
      WorldBefore(end.world, order, end.disk, fates, k + 1).tick)
  }

  lemma PassIsFailSoft(end: State, order: seq<string>, env: Env, k: nat)
    requires SelfNaming(end.disk) && (forall n :: n in order <==> n in end.disk) && SparesApp(end, order, env.fates, k)
    ensures Recovered(end, Apply(end, ReconcileEvent(order), env).world, order[k])
  {
    ReconcileIsFailSoft(end.world, order, end.disk, env.fates, k);
  }

  // Fail-soft after anything: an app whose own commands of the pass meet no
  // fault has its credentials in force afterwards, whatever the other apps'
  // commands meet.
  lemma ReconcileIsFailSoftAfterAnything(st: State, es: seq<Event>, order: seq<string>, env: Env, k: nat)
    requires GoodEnv(env) && SelfNaming(st.disk) && forall n :: n in order <==> n in RunAll(st, es, env).disk
    requires SparesApp(RunAll(st, es, env), order, env.fates, k)
    ensures var end := RunAll(st, es, env); Recovered(end, Apply(end, ReconcileEvent(order), env).world, order[k])
  {
    RunsKeepNaming(st, es, env);
    PassIsFailSoft(RunAll(st, es, env), order, env, k);
  }

  // ------------------------------------------------------------- other apps

  // The resources that are an app's own.
  predicate Own(app: string, r: Res)
  {
    match r
    case PgDatabase(n) => n == app
    case PgSession(n) => n == app
    case PgRole(n) => n == app
    case AclUser(n) => n == app
    case RedisKey(k) => Namespace(app) <= k
    case Vhost(n) => n == app
    case RabbitUser(n) => n == app
    case Permission(v, u) => v == app && u == app
    case Bucket(n) => n == app
    case MinioUser(n) => n == app
    case Policy(n) => n == PolicyName(app)
    case MongoDb(n) => n == app
    case MongoUser(db, u) => db == app && u == app
  }

  ghost predicate OwnKept(w: World, w': World, app: string)
  {
    forall r :: Own(app, r) ==> At(w', r) == At(w, r)
  }

  // The app's entry in the ACL file stays or becomes the current one.
  predicate SavedKept(w: World, w': World, app: string)
  {
    SavedAcl(w', app) == SavedAcl(w, app) || SavedAcl(w', app) == At(w, AclUser(app))
  }

  lemma InsideKeepsOwn(w: World, w': World, app: string, other: string)
    requires StaysInside(w, w', app) && app != other && ValidName(app) && ValidName(other)
    ensures OwnKept(w, w', other) && SavedKept(w, w', other)
  {
    forall r | Own(other, r)
      ensures At(w', r) == At(w, r)
    {
      forall s
        ensures !Touches(s, app, r)
      {
        if r.RedisKey? && Touches(s, app, r) {
          NamespacesAreDisjoint(app, other, r.key);
        }
        PolicyNamesAreDistinct(app, other);
      }
    }
  }

  lemma {:induction false} LoopStaysInside(p: Progress, svcs: seq<Svc>, app: string, opts: ProvisionOptions, env: Env)
    ensures StaysInside(p.world, ProvisionLoop(p, svcs, app, opts, env).world, app)
    decreases |svcs|
  {
    if svcs != [] {
      ProvisionKeepsOthers(p.world, svcs[0], app, env.passwords(p.world.tick), opts, env.fates);
      var p1 := ProvisionOne(p, svcs[0], app, opts, env);
      LoopStaysInside(p1, svcs[1..], app, opts, env);
      InsideTwice(p.world, p1.world, ProvisionLoop(p1, svcs[1..], app, opts, env).world, app);
    }
  }

  // The other app's registry entry and everything it owns in the brokers.
  ghost predicate Untouched(st: State, st': State, app: string)
  {
    && OwnKept(st.world, st'.world, app) && SavedKept(st.world, st'.world, app)
    && (app in st'.disk <==> app in st.disk)
    && (app in st.disk ==> st'.disk[app] == st.disk[app])
  }

  predicate Elsewhere(ts: seq<Target>, other: string)
  {
    forall i :: 0 <= i < |ts| ==> ts[i].name != other && ValidName(ts[i].name)
  }

  lemma {:induction false} SetupRunLeavesOthers(
      st: State, ts: seq<Target>, svcs: seq<Svc>, full: bool, env: Env, other: string)
    requires Elsewhere(ts, other) && ValidName(other)
    ensures Untouched(st, SetupRun(st, ts, svcs, full, env).st, other)
    decreases |ts|
  {
    if ts != [] {
      var t := ts[0];
      LoopStaysInside(Progress(st.world, FreshEntry(t, env.clock(st.world.tick)), [], {}), svcs, t.name,
        SetupOptions(t, full, env), env);
      var p := SetupProgress(st, t, svcs, full, env);
      InsideKeepsOwn(st.world, p.world, t.name, other);
      var st1 := EngineSpec.Saved(st.(world := p.world), st.disk[t.name := p.entry], env);
      assert Untouched(st, st1, other);
      SetupRunLeavesOthers(st1, ts[1..], svcs, full, env, other);
    }
  }

  lemma {:induction false} AddRunLeavesOthers(st: State, ts: seq<Target>, svcs: seq<Svc>, env: Env, other: string)
    requires AllKnown(st.disk, ts) && Elsewhere(ts, other) && ValidName(other)
    ensures Untouched(st, AddRun(st, ts, svcs, env).st, other)
    decreases |ts|
  {
    if ts != [] {
      var e0 := st.disk[ts[0].name];
      if Missing(e0, svcs) == [] {
        AddRunLeavesOthers(st, ts[1..], svcs, env, other);
      } else {
        LoopStaysInside(Progress(st.world, e0, [], {}), Missing(e0, svcs), ts[0].name,
          SetupOptions(ts[0], false, env), env);
        var p := AddProgress(st, ts[0], svcs, env);
        InsideKeepsOwn(st.world, p.world, ts[0].name, other);
        var st1 := EngineSpec.Saved(st.(world := p.world), st.disk[ts[0].name := p.entry], env);
        assert Untouched(st, st1, other);
        if env.saves(st.saves) {
          AddRunLeavesOthers(st1, ts[1..], svcs, env, other);
        }
      }
    }
  }

  // The apps an event is about.
  ghost predicate IsAbout(st: State, e: Event, app: string)
  {
    match e
    case SetupEvent(a, _, envs, tag, _) =>
      exists i :: 0 <= i < |SetupTargets(a, envs, tag)| && SetupTargets(a, envs, tag)[i].name == app
    case AddEvent(a, _, envs, tag) =>
      exists i :: 0 <= i < |AddTargets(st.disk, a, envs, tag)| && AddTargets(st.disk, a, envs, tag)[i].name == app
    case DetachEvent(a, _) => a == app
    case RemoveEvent(a) => a == app
    case ClientWrite(a, _, _) => a == app
    case ReconcileEvent(_) => false
    case RedisRestart => true
    case Wipe(_) => true
  }

  // A step on one app preserves the registry entry, the credentials and the
  // data of every other app, provided a Redis client that writes is confined
  // to its own keys.
  lemma EventLeavesOthersAlone(st: State, e: Event, env: Env, other: string)
    requires Inv(st) && ValidName(other) && !IsAbout(st, e, other)
    requires e.ClientWrite? && e.res.RedisKey? ==> Confined(st.world, e.app)
    ensures Untouched(st, Apply(st, e, env), other)
  {
    match e
    case SetupEvent(app, services, envs, tag, full) => SetupLeavesOthers(st, e, env, other);
    case AddEvent(app, services, envs, tag) => AddLeavesOthers(st, e, env, other);
    case DetachEvent(app, services) =>
    case RemoveEvent(app) => RemoveLeavesOthers(st, app, env, other);
    case ReconcileEvent(order) => ReconcileKeepsInv(st, order, env);
    case ClientWrite(app, r, data) => WriteLeavesOthers(st, app, r, data, other);
  }

  lemma SetupLeavesOthers(st: State, e: Event, env: Env, other: string)
    requires Inv(st) && e.SetupEvent? && ValidName(other) && !IsAbout(st, e, other)
    ensures Untouched(st, Apply(st, e, env), other)
  {
    var ts := SetupTargets(e.app, e.envs, e.tag);
    if SetupError(st, e.app, e.services, ts, env) == None {
      NoTargetsError(st.disk, ts);
      SetupRunLeavesOthers(st, ts, Resolve(e.services).value, e.full, env, other);
    }
  }

  lemma AddLeavesOthers(st: State, e: Event, env: Env, other: string)
    requires Inv(st) && e.AddEvent? && ValidName(other) && !IsAbout(st, e, other)
    ensures Untouched(st, Apply(st, e, env), other)
  {
    var ts := AddTargets(st.disk, e.app, e.envs, e.tag);
    if AddError(st, e.app, e.services, ts, env) == None {
      assert Elsewhere(ts, other);
      AddRunLeavesOthers(st, ts, Resolve(e.services).value, env, other);
    }
  }

  lemma RemoveLeavesOthers(st: State, app: string, env: Env, other: string)
    requires Inv(st) && ValidName(other) && app != other
    ensures Untouched(st, Remove(st, app, env).st, other)
  {
    if RemoveError(st, app) == None {
      TeardownLoopKeeps(st.world, st.disk[app], CATALOG, app, env);
      InsideKeepsOwn(st.world, TeardownLoop(st.world, st.disk[app], CATALOG, app, env), app, other);
    }
  }

  lemma WriteLeavesOthers(st: State, app: string, r: Res, data: string, other: string)
    requires Inv(st) && ValidName(other) && app != other
    requires r.RedisKey? ==> Confined(st.world, app)
    ensures MayWrite(st, app, r) ==> !Own(other, r)
  {
    if MayWrite(st, app, r) {
      assert ValidName(app) && OwnOnly(app, st.disk[app]) && WellTyped(st.disk[app]);
      if r.RedisKey? {
        assert NamesOnly(app, st.disk[app].services[Redis]);
        if Own(other, r) {
          NamespacesAreDisjoint(app, other, r.key);
        }
      } else {
        OwnDataIsNamed(st, app, r);
      }
    }
  }

  lemma OwnDataIsNamed(st: State, app: string, r: Res)
    requires SelfNaming(st.disk) && MayWrite(st, app, r) && !r.RedisKey?
    ensures Own(app, r)
  {
    assert OwnOnly(app, st.disk[app]);
  }

  // ------------------------------------------------- why runs must be orderly

  // RemoveApp tears the brokers down before it saves: if that save fails, the
  // registry keeps a credential the broker no longer accepts.
  lemma FailedRemoveSaveBreaksCredential(app: string, password: string, world: World, env: Env)
    requires ValidName(app) && !env.saves(0) && env.fates(world.tick) == Answered
    ensures var cfg := MongoDBConfig(app, app, password);
      var st := State(map[app := AppEntry("", "", "", map[MongoDB := cfg])], 0, world);
      var st' := Remove(st, app, env).st;
      st'.disk == st.disk && !Accepts(st'.world, cfg)
  {
    var cfg := MongoDBConfig(app, app, password);
    var entry := AppEntry("", "", "", map[MongoDB := cfg]);
    OnlyMongoIsTornDown(world, entry, app, env);
    MongoTeardownForgets(world, app, env.fates);
  }

  lemma MongoTeardownForgets(w: World, app: string, fates: Fates)
    requires ValidName(app) && fates(w.tick) == Answered
    ensures MongoUser(app, app) !in Teardown(w, MongoDB, app, fates).w.res
  {
    RunOne(w, TeardownSteps(MongoDB, app), fates);
  }

  lemma OnlyMongoIsTornDown(w: World, entry: AppEntry, app: string, env: Env)
    requires entry.services.Keys == {MongoDB}
    ensures TeardownLoop(w, entry, CATALOG, app, env) == Teardown(w, MongoDB, app, env.fates).w
  {
    SkipAbsent(w, entry, CATALOG, 4, app, env);
    assert CATALOG[4..] == [MongoDB, Signoz] && [MongoDB, Signoz][1..] == [Signoz] && [Signoz][1..] == [];
    var w1 := Teardown(w, MongoDB, app, env.fates).w;
    assert TeardownLoop(w, entry, [MongoDB, Signoz], app, env) == TeardownLoop(w1, entry, [Signoz], app, env);
    assert TeardownLoop(w1, entry, [Signoz], app, env) == TeardownLoop(w1, entry, [], app, env) == w1;
  }

  lemma {:induction false} SkipAbsent(w: World, entry: AppEntry, svcs: seq<Svc>, k: nat, app: string, env: Env)
    requires k <= |svcs| && forall i :: 0 <= i < k ==> svcs[i] !in entry.services
    ensures TeardownLoop(w, entry, svcs, app, env) == TeardownLoop(w, entry, svcs[k..], app, env)
    decreases k
  {
    if k == 0 {
      assert svcs[0..] == svcs;
    } else {
      SkipAbsent(w, entry, svcs[1..], k - 1, app, env);
      assert svcs[1..][k - 1..] == svcs[k..];
    }
  }

  // SetupApp uses the request as it came. From any state in which the
  // invariant holds, a list that names AIStor twice can leave the registry with
  // one secret and the broker with another.
  lemma RepeatedServiceBreaksCredential(st: State, app: string) returns (env: Env)
    requires Inv(st) && ValidName(app) && app !in st.disk
    ensures GoodEnv(env) && NothingRejected(env.fates)
    ensures !Inv(Apply(st, SetupEvent(app, ["aistor", "aistor"], [], "", false), env))
  {
    var services := ["aistor", "aistor"];
    AIStorResolves(services);
    assert TargetsError(st.disk, SetupTargets(app, [], "")) == None by {
      assert SetupTargets(app, [], "")[1..] == [];
    }
    env := SetupBreaks(st, app, services, [], "", false);
  }

  lemma AIStorResolves(services: seq<string>)
    requires |services| == 2 && services[0] == "aistor" == services[1]
    ensures Resolve(services) == Some([AIStor, AIStor]) && !AtMostOnce([AIStor, AIStor], AIStor)
  {
    assert SvcOf("aistor") == Some(AIStor) by {
      assert SvcName(AIStor) == "aistor";
    }
    var one, none := services[1..], services[1..][1..];
    assert one[0] == "aistor" && none == [];
    assert Resolve(none) == Some([]);
    var last := Resolve(one);
    assert last == Some([AIStor] + []);
    assert [AIStor] + [] == [AIStor];
    assert Resolve(services) == Some([AIStor] + last.value);
    assert [AIStor] + [AIStor] == [AIStor, AIStor];
    assert [AIStor, AIStor][0] == AIStor == [AIStor, AIStor][1];
  }
}
