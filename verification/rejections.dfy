// Redis commands that the broker rejects while redis-cli reports success: what
// SetupApp then registers, and when a Redis backup is none.
module Rejections {
  import opened Text
  import opened Names
  import opened Registry
  import opened Brokers
  import opened ServiceOps
  import opened Reconciling
  import opened EngineSpec
  import opened EngineInvariant

  // The passwords to come are new to the app's ACL user.
  ghost predicate FreshPasswords(w: World, app: string, env: Env)
  {
    forall t: nat :: t >= w.tick ==> FreshSecret(w, app, env.passwords(t))
  }

  lemma OtherStepSparesRedis(p: Progress, svc: Svc, app: string, opts: ProvisionOptions, env: Env)
    requires svc != Redis
    ensures var q := ProvisionOne(p, svc, app, opts, env);
      && (Redis in q.entry.services <==> Redis in p.entry.services)
      && (Redis in p.entry.services ==> q.entry.services[Redis] == p.entry.services[Redis])
      && At(q.world, AclUser(app)) == At(p.world, AclUser(app)) && q.world.savedAcl == p.world.savedAcl
      && q.world.tick >= p.world.tick
  {
    var pw := env.passwords(p.world.tick);
    ProvisionIsFramed(p.world, svc, app, pw, opts, env.fates);
    RunTicks(p.world, ProvisionSteps(svc, app, pw, opts), env.fates);
  }

  lemma {:induction false} LoopSparesRedis(p: Progress, svcs: seq<Svc>, app: string, opts: ProvisionOptions, env: Env)
    requires Redis !in svcs
    ensures RedisTicks(p, svcs, app, opts, env) == {}
    ensures var q := ProvisionLoop(p, svcs, app, opts, env);
      && (Redis in q.entry.services <==> Redis in p.entry.services)
      && (Redis in p.entry.services ==> q.entry.services[Redis] == p.entry.services[Redis])
      && At(q.world, AclUser(app)) == At(p.world, AclUser(app)) && q.world.savedAcl == p.world.savedAcl
    decreases |svcs|
  {
    if svcs != [] {
      OtherStepSparesRedis(p, svcs[0], app, opts, env);
      LoopSparesRedis(ProvisionOne(p, svcs[0], app, opts, env), svcs[1..], app, opts, env);
    }
  }

  // A false success is registered and stays false for the rest of the loop.
  lemma FalseSuccessStays(p: Progress, svcs: seq<Svc>, app: string, opts: ProvisionOptions, env: Env)
    requires ValidName(app) && svcs != [] && svcs[0] == Redis && Redis !in svcs[1..]
    requires FreshSecret(p.world, app, env.passwords(p.world.tick)) && !Truthful(env.fates, p.world.tick)
    ensures var q := ProvisionLoop(p, svcs, app, opts, env);
      Redis in q.entry.services && !Accepts(q.world, q.entry.services[Redis])
  {
    RedisIsAcceptedIff(p.world, app, env.passwords(p.world.tick), opts, env.fates);
    var p1 := ProvisionOne(p, Redis, app, opts, env);
    LoopSparesRedis(p1, svcs[1..], app, opts, env);
  }

  // Provisioning one target leaves its entry in force exactly when what Redis
  // reported is true.
  lemma {:induction false} LoopHoldsIff(p: Progress, svcs: seq<Svc>, app: string, opts: ProvisionOptions, env: Env)
    requires GoodEnv(env) && ValidName(app) && EntryHolds(p.world, app, p.entry)
    requires AtMostOnce(svcs, AIStor) && (AIStor in svcs ==> AIStor !in p.entry.services)
    requires AtMostOnce(svcs, Redis) && FreshPasswords(p.world, app, env)
    ensures var q := ProvisionLoop(p, svcs, app, opts, env);
      if ToldTruth(env.fates, RedisTicks(p, svcs, app, opts, env)) then EntryHolds(q.world, app, q.entry)
      else Redis in q.entry.services && !Accepts(q.world, q.entry.services[Redis])
    decreases |svcs|
  {
    if ToldTruth(env.fates, RedisTicks(p, svcs, app, opts, env)) {
      LoopKeeps(p, svcs, app, opts, env);
    } else if svcs[0] == Redis {
      forall j | 1 <= j < |svcs|
        ensures svcs[j] != Redis
      {
        assert !(svcs[0] == Redis == svcs[j]);
      }
      LoopSparesRedis(ProvisionOne(p, Redis, app, opts, env), svcs[1..], app, opts, env);
      FalseSuccessStays(p, svcs, app, opts, env);
    } else {
      OneKeeps(p, svcs[0], app, opts, env);
      OtherStepSparesRedis(p, svcs[0], app, opts, env);
      RestIsAllowed(p, svcs, app, opts, env);
      LoopHoldsIff(ProvisionOne(p, svcs[0], app, opts, env), svcs[1..], app, opts, env);
    }
  }

  // SetupApp of one target that asks for Redis at most once, with new
  // passwords, keeps the invariant exactly when what Redis reported is true. A
  // target that could not be saved does not matter.
  lemma SetupHoldsIff(st: State, app: string, services: seq<string>, tag: string, full: bool, env: Env)
    requires Inv(st) && GoodEnv(env) && FreshPasswords(st.world, app, env)
    requires SetupError(st, app, services, SetupTargets(app, [], tag), env) == None
    requires SetupAllowed(services, []) && AtMostOnce(Resolve(services).value, Redis)
    ensures Inv(Setup(st, app, services, [], tag, full, env).st)
      <==> SetupTellsTruth(st, app, services, [], tag, full, env)
  {
    var t := Target(app, app, tag);
    var ts, svcs := SetupTargets(app, [], tag), Resolve(services).value;
    assert ts == [t];
    if SetupTellsTruth(st, app, services, [], tag, full, env) {
      SetupKeepsInv(st, app, services, [], tag, full, env);
    } else {
      OneTarget(st, ts, svcs, full, env);
      NoTargetsError(st.disk, ts);
      ResolveKeepsOnce(services);
      FalseReportBreaks(st, t, svcs, full, env);
    }
  }

  lemma FalseReportBreaks(st: State, t: Target, svcs: seq<Svc>, full: bool, env: Env)
    requires Inv(st) && GoodEnv(env) && ValidName(t.name) && FreshPasswords(st.world, t.name, env)
    requires AtMostOnce(svcs, AIStor) && AtMostOnce(svcs, Redis)
    requires env.saves(st.saves) && !ToldTruth(env.fates, SetupTicks(st, t, svcs, full, env))
    ensures !Inv(AfterSetup(st, t, svcs, full, env))
  {
    var p0 := Progress(st.world, FreshEntry(t, env.clock(st.world.tick)), [], {});
    LoopHoldsIff(p0, svcs, t.name, SetupOptions(t, full, env), env);
    var after := AfterSetup(st, t, svcs, full, env);
    assert AllWellTyped(after.disk) ==> !Accepts(after.world, after.disk[t.name].services[Redis]);
  }

  lemma OneTarget(st: State, ts: seq<Target>, svcs: seq<Svc>, full: bool, env: Env)
    requires |ts| == 1
    ensures SetupRun(st, ts, svcs, full, env).st == AfterSetup(st, ts[0], svcs, full, env)
    ensures !SetupTruthful(st, ts, svcs, full, env) <==>
      env.saves(st.saves) && !ToldTruth(env.fates, SetupTicks(st, ts[0], svcs, full, env))
  {
    assert ts[1..] == [];
  }

  // The same of AddServices.
  lemma AddHoldsIff(st: State, app: string, services: seq<string>, tag: string, env: Env)
    requires Inv(st) && GoodEnv(env) && FreshPasswords(st.world, app, env)
    requires AddError(st, app, services, AddTargets(st.disk, app, [], tag), env) == None
    requires AtMostOnce(Resolve(services).value, AIStor) && AtMostOnce(Resolve(services).value, Redis)
    ensures Inv(Add(st, app, services, [], tag, env).st) <==> AddTellsTruth(st, app, services, [], tag, env)
  {
    var ts, svcs := AddTargets(st.disk, app, [], tag), Resolve(services).value;
    assert |ts| == 1 && ts[0].name == app;
    if AddTellsTruth(st, app, services, [], tag, env) {
      ResolveKeepsOnce(services);
      AddKeepsInv(st, app, services, [], tag, env);
    } else {
      OneAddTarget(st, ts, svcs, env);
      FalseAddBreaks(st, ts[0], svcs, env);
    }
  }

  lemma FalseAddBreaks(st: State, t: Target, svcs: seq<Svc>, env: Env)
    requires Inv(st) && GoodEnv(env) && t.name in st.disk && FreshPasswords(st.world, t.name, env)
    requires AtMostOnce(svcs, AIStor) && AtMostOnce(svcs, Redis)
    requires env.saves(st.saves) && !ToldTruth(env.fates, AddTicks(st, t, svcs, env))
    ensures !Inv(AfterAdd(st, t, svcs, env))
  {
    var e0 := st.disk[t.name];
    assert ValidName(t.name) && WellTyped(e0) && OwnOnly(t.name, e0);
    MissingIsFilter(e0, svcs);
    MissingKeepsOnce(e0, svcs, AIStor);
    MissingKeepsOnce(e0, svcs, Redis);
    LoopHoldsIff(Progress(st.world, e0, [], {}), Missing(e0, svcs), t.name, SetupOptions(t, false, env), env);
    var after := AfterAdd(st, t, svcs, env);
    assert AllWellTyped(after.disk) ==> !Accepts(after.world, after.disk[t.name].services[Redis]);
  }

  lemma OneAddTarget(st: State, ts: seq<Target>, svcs: seq<Svc>, env: Env)
    requires |ts| == 1 && AllKnown(st.disk, ts)
    ensures AddTruthful(st, ts, svcs, env)
      || (AddRun(st, ts, svcs, env).st == AfterAdd(st, ts[0], svcs, env)
          && env.saves(st.saves) && !ToldTruth(env.fates, AddTicks(st, ts[0], svcs, env)))
  {
    assert ts[1..] == [];
    assert AddTruthful(st, ts[1..], svcs, env);
  }

  // ------------------------------------------------------- the failing family

  function RedisOnly(entry: AppEntry, app: string, pw: string, full: bool): bool
  {
    entry.services == map[Redis := RedisConfig(app, pw, KeyPrefix(app, full))]
  }

  lemma RedisResolves(services: seq<string>)
    requires |services| == 1 && services[0] == "redis"
    ensures Resolve(services) == Some([Redis]) && Parsable(services) && SetupAllowed(services, [])
  {
    assert SvcOf("redis") == Some(Redis) by {
      assert SvcName(Redis) == "redis";
    }
    assert services[1..] == [];
    assert Resolve(services) == Some([Redis] + []);
    assert [Redis] + [] == [Redis];
    ValidListIsTrimmed(services);
  }

  lemma OneService(p: Progress, svcs: seq<Svc>, app: string, opts: ProvisionOptions, env: Env)
    requires |svcs| == 1
    ensures ProvisionLoop(p, svcs, app, opts, env) == ProvisionOne(p, svcs[0], app, opts, env)
  {
    assert svcs[1..] == [];
  }

  lemma NoError(st: State, app: string, services: seq<string>, ts: seq<Target>, env: Env)
    requires ValidName(app) && app !in st.disk && |services| == 1 && services[0] == "redis"
    requires |ts| == 1 && ts[0].name == app
    requires forall t, s :: env.running(t, s)
    ensures SetupError(st, app, services, ts, env) == None
  {
    RedisResolves(services);
    assert ts[1..] == [];
    assert TargetsError(st.disk, ts[1..]) == None;
    assert TargetsError(st.disk, ts) == None;
    assert ContainersRun(services, st.world.tick, env);
  }

  // A setup of Redis alone whose two commands look done.
  lemma RedisSetup(st: State, app: string, full: bool, env: Env)
    requires ValidName(app) && app !in st.disk && env.saves(st.saves) && forall t, s :: env.running(t, s)
    requires RedisReports(env.fates, st.world.tick)
    ensures var o := Setup(st, app, ["redis"], [], "", full, env);
      var pw := env.passwords(st.world.tick);
      && o.err == None && |o.results| == 1 && o.results[0].provisioned == [Redis] && o.results[0].failures == {}
      && o.st.world == Provision(st.world, Redis, app, pw, SetupOptions(Target(app, app, ""), full, env), env.fates).w
      && o.st.world.tick == st.world.tick + 2 && o.st.saves == st.saves + 1
      && o.st.disk.Keys == st.disk.Keys + {app} && RedisOnly(o.st.disk[app], app, pw, full)
  {
    var services := ["redis"];
    RedisResolves(services);
    var t := Target(app, app, "");
    var ts := SetupTargets(app, [], "");
    assert ts == [t];
    NoError(st, app, services, ts, env);
    RedisTarget(st, ts, full, env);
  }

  lemma RedisTarget(st: State, ts: seq<Target>, full: bool, env: Env)
    requires |ts| == 1 && ValidName(ts[0].name) && env.saves(st.saves) && RedisReports(env.fates, st.world.tick)
    ensures var o := SetupRun(st, ts, [Redis], full, env);
      var app, pw := ts[0].name, env.passwords(st.world.tick);
      && o.err == None && |o.results| == 1 && o.results[0].provisioned == [Redis] && o.results[0].failures == {}
      && o.st.world == Provision(st.world, Redis, app, pw, SetupOptions(ts[0], full, env), env.fates).w
      && o.st.world.tick == st.world.tick + 2 && o.st.saves == st.saves + 1
      && o.st.disk.Keys == st.disk.Keys + {app} && RedisOnly(o.st.disk[app], app, pw, full)
  {
    var t := ts[0];
    var p0 := Progress(st.world, FreshEntry(t, env.clock(st.world.tick)), [], {});
    var opts := SetupOptions(t, full, env);
    RedisIsAcceptedIff(st.world, t.name, env.passwords(st.world.tick), opts, env.fates);
    RedisRun(st.world, t.name, env.passwords(st.world.tick), opts, env.fates);
    OneService(p0, [Redis], t.name, opts, env);
    assert ts[1..] == [];
    assert SetupRun(AfterSetup(st, t, [Redis], full, env), ts[1..], [Redis], full, env).results == [];
  }

  // Redis asks for a password the program has not found: SetupApp reports
  // success and stores a credential that the broker never got.
  lemma UnauthenticatedSetup(st: State, app: string, env: Env)
    requires Inv(st) && ValidName(app) && app !in st.disk && env.saves(st.saves) && forall t, s :: env.running(t, s)
    requires env.fates(st.world.tick).Rejected? && env.fates(st.world.tick + 1).Rejected?
    requires FreshSecret(st.world, app, env.passwords(st.world.tick))
    ensures var o := Setup(st, app, ["redis"], [], "", false, env);
      && o.err == None && |o.results| == 1 && o.results[0].provisioned == [Redis] && o.results[0].failures == {}
      && o.st.world.res == st.world.res && o.st.world.savedAcl == st.world.savedAcl
      && app in o.st.disk && Redis in o.st.disk[app].services && !Accepts(o.st.world, o.st.disk[app].services[Redis])
  {
    RedisSetup(st, app, false, env);
    var opts := SetupOptions(Target(app, app, ""), false, env);
    RejectedProvision(st.world, app, env.passwords(st.world.tick), opts, env.fates);
  }

  lemma RejectedProvision(w: World, app: string, pw: string, opts: ProvisionOptions, fates: Fates)
    requires ValidName(app) && fates(w.tick).Rejected? && fates(w.tick + 1).Rejected? && FreshSecret(w, app, pw)
    ensures var p := Provision(w, Redis, app, pw, opts, fates);
      && p.w.res == w.res && p.w.savedAcl == w.savedAcl
      && !Accepts(p.w, RedisConfig(app, pw, KeyPrefix(app, opts.fullAccess)))
  {
    RedisIsAcceptedIff(w, app, pw, opts, fates);
    RedisRun(w, app, pw, opts, fates);
  }
}
