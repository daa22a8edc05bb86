// The run that shows what it takes: a full-access ACL user left behind by a
// removal gives a later plain app every key.
module Leftovers {
  import opened Text
  import opened Names
  import opened Registry
  import opened Brokers
  import opened ServiceOps
  import opened Reconciling
  import opened EngineSpec
  import opened EngineInvariant
  import opened Rejections
  import opened Runs
  import opened Confinement

  // A setup of Redis alone, with both commands answered.
  lemma AnsweredRedisSetup(st: State, app: string, full: bool, env: Env)
    requires ValidName(app) && app !in st.disk && env.saves(st.saves)
    requires forall t, s :: env.running(t, s)
    requires FaultFree(env.fates, st.world.tick, st.world.tick + 2)
    ensures var end := Setup(st, app, ["redis"], [], "", full, env).st;
      && end.world.tick == st.world.tick + 2 && end.saves == st.saves + 1
      && end.disk.Keys == st.disk.Keys + {app}
      && RedisOnly(end.disk[app], app, env.passwords(st.world.tick), full)
      && AclUser(app) in end.world.res
      && PatternsOf(end.world, app) == PatternsOf(st.world, app) + {KeyPattern(app, full)}
  {
    RedisSetup(st, app, full, env);
    var opts := SetupOptions(Target(app, app, ""), full, env);
    RedisProvision(st.world, app, env.passwords(st.world.tick), opts, env.fates);
  }

  lemma RedisProvision(w: World, app: string, pw: string, opts: ProvisionOptions, fates: Fates)
    requires ValidName(app) && FaultFree(fates, w.tick, w.tick + 2)
    ensures var r := Provision(w, Redis, app, pw, opts, fates);
      AclUser(app) in r.w.res && PatternsOf(r.w, app) == PatternsOf(w, app) + {KeyPattern(app, opts.fullAccess)}
  {
    RedisRun(w, app, pw, opts, fates);
  }

  // A removal of a Redis-only app whose DELUSER does not reach Redis and whose save
  // works: the app is gone and its ACL user is not.
  lemma LeftoverRemoval(st: State, app: string, env: Env)
    requires ValidName(app) && app in st.disk && st.disk[app].services.Keys == {Redis} && env.saves(st.saves)
    requires env.fates(st.world.tick) == Answered && env.fates(st.world.tick + 1) == Unreached
    ensures var end := Remove(st, app, env).st;
      && end.disk == st.disk - {app} && end.saves == st.saves + 1 && end.world.tick == st.world.tick + 2
      && At(end.world, AclUser(app)) == At(st.world, AclUser(app))
  {
    var entry := st.disk[app];
    var w1 := Teardown(st.world, Redis, app, env.fates).w;
    RedisTeardownCut(st.world, app, env.fates);
    SkipAbsent(st.world, entry, CATALOG, 1, app, env);
    var rest := CATALOG[1..];
    assert rest[0] == Redis && rest[1..] == CATALOG[2..];
    assert TeardownLoop(st.world, entry, rest, app, env) == TeardownLoop(w1, entry, CATALOG[2..], app, env);
    SkipAbsent(w1, entry, CATALOG[2..], 4, app, env);
    assert CATALOG[2..][4..] == [];
  }

  lemma RedisTeardownCut(w: World, app: string, fates: Fates)
    requires ValidName(app) && fates(w.tick) == Answered && fates(w.tick + 1) == Unreached
    ensures var w' := Teardown(w, Redis, app, fates).w;
      w'.tick == w.tick + 2 && At(w', AclUser(app)) == At(w, AclUser(app))
  {
    var s := TeardownSteps(Redis, app);
    MustStep(w, s, fates);
    MustStep(Send(w, s[0].cmd, fates).w, s[1..], fates);
  }

  // From empty brokers and an empty registry: a setup with full access, a
  // removal whose DELUSER does not reach Redis, and a plain setup of the same name. No
  // save fails and the invariant holds throughout, and yet the app ends with
  // access to every key.
  lemma LeftoverRunIsNotConfined(app: string, st: State, es: seq<Event>, env: Env)
    requires st == State(map[], 0, World(map[], map[], 0)) && |es| == 3
    requires es[0] == SetupEvent(app, ["redis"], [], "", true) && es[1] == RemoveEvent(app)
    requires es[2] == SetupEvent(app, ["redis"], [], "", false)
    requires ValidName(app) && GoodEnv(env) && (forall t, s :: env.running(t, s)) && forall n :: env.saves(n)
    requires NothingRejected(env.fates)
    requires FaultFree(env.fates, 0, 3) && env.fates(3) == Unreached && FaultFree(env.fates, 4, 6)
    ensures Inv(st) && Tidy(st) && AllOrderly(st, es, env)
    ensures var end := RunAll(st, es, env);
      && Inv(end) && app in end.disk && Redis in end.disk[app].services && !FullApp(end.disk, app)
      && !Confined(end.world, app)
  {
    EmptyIsSound(st);
    LeftoverStates(st, app, env, es[0], es[1], es[2]);
    ThreeEvents(st, es, env);
    RunsKeepInv(st, es, env);
  }

  lemma EmptyIsSound(st: State)
    requires st == State(map[], 0, World(map[], map[], 0))
    ensures Inv(st) && Tidy(st)
  {
  }

  lemma LeftoverStates(st: State, app: string, env: Env, e1: Event, e2: Event, e3: Event)
    requires st == State(map[], 0, World(map[], map[], 0))
    requires e1 == SetupEvent(app, ["redis"], [], "", true) && e2 == RemoveEvent(app)
    requires e3 == SetupEvent(app, ["redis"], [], "", false)
    requires ValidName(app) && GoodEnv(env) && (forall t, s :: env.running(t, s)) && forall n :: env.saves(n)
    requires NothingRejected(env.fates)
    requires FaultFree(env.fates, 0, 3) && env.fates(3) == Unreached && FaultFree(env.fates, 4, 6)
    ensures var s1 := Apply(st, e1, env);
      var s2 := Apply(s1, e2, env);
      var s3 := Apply(s2, e3, env);
      && Orderly(st, e1, env) && Orderly(s1, e2, env) && Orderly(s2, e3, env)
      && app in s3.disk && Redis in s3.disk[app].services && !FullApp(s3.disk, app) && !Confined(s3.world, app)
  {
    FullSetupFromNothing(st, app, env, e1);
    RedisSetupIsOrderly(st, app, true, env);
    var s1 := Apply(st, e1, env);
    LeftoverRemoval(s1, app, env);
    var s2 := Apply(s1, e2, env);
    RedisSetupIsOrderly(s2, app, false, env);
    PlainSetupAfterLeftover(s2, app, env);
  }

  lemma RedisSetupIsOrderly(st: State, app: string, full: bool, env: Env)
    requires NothingRejected(env.fates)
    ensures Orderly(st, SetupEvent(app, ["redis"], [], "", full), env)
  {
    RedisResolves(["redis"]);
    SetupReportsTruth(st, app, ["redis"], [], "", full, env);
  }

  lemma FullSetupFromNothing(st: State, app: string, env: Env, e: Event)
    requires st == State(map[], 0, World(map[], map[], 0)) && e == SetupEvent(app, ["redis"], [], "", true)
    requires ValidName(app) && env.saves(0) && (forall t, s :: env.running(t, s)) && FaultFree(env.fates, 0, 2)
    ensures var s1 := Apply(st, e, env);
      && s1.disk.Keys == {app} && s1.disk[app].services.Keys == {Redis} && s1.saves == 1 && s1.world.tick == 2
      && KeyPattern(app, true) in PatternsOf(s1.world, app)
  {
    AnsweredRedisSetup(st, app, true, env);
  }

  // A plain setup over an ACL user that still has every key.
  lemma PlainSetupAfterLeftover(st: State, app: string, env: Env)
    requires ValidName(app) && app !in st.disk && env.saves(st.saves) && forall t, s :: env.running(t, s)
    requires FaultFree(env.fates, st.world.tick, st.world.tick + 2)
    requires KeyPattern(app, true) in PatternsOf(st.world, app)
    ensures var end := Setup(st, app, ["redis"], [], "", false, env).st;
      && app in end.disk && Redis in end.disk[app].services && !FullApp(end.disk, app) && !Confined(end.world, app)
  {
    AnsweredRedisSetup(st, app, false, env);
    var end := Setup(st, app, ["redis"], [], "", false, env).st;
    assert KeyPattern(app, true) in PatternsOf(end.world, app);
    WidePatternReaches(end.world.res[AclUser(app)], app);
  }

  lemma ThreeEvents(st: State, es: seq<Event>, env: Env)
    requires |es| == 3
    ensures var s1 := Apply(st, es[0], env);
      var s2 := Apply(s1, es[1], env);
      && RunAll(st, es, env) == Apply(s2, es[2], env)
      && (AllOrderly(st, es, env) <==> Orderly(st, es[0], env) && Orderly(s1, es[1], env) && Orderly(s2, es[2], env))
  {
    var s1 := Apply(st, es[0], env);
    var s2 := Apply(s1, es[1], env);
    var two, one := es[1..], es[1..][1..];
    assert two[0] == es[1] && one[0] == es[2] && one[1..] == [];
    LastEvent(s2, one, env);
    assert RunAll(s1, two, env) == RunAll(s2, one, env);
    assert AllOrderly(s1, two, env) <==> Orderly(s1, two[0], env) && AllOrderly(s2, one, env);
  }

  lemma LastEvent(st: State, es: seq<Event>, env: Env)
    requires |es| == 1
    ensures RunAll(st, es, env) == Apply(st, es[0], env) && (AllOrderly(st, es, env) <==> Orderly(st, es[0], env))
  {
    assert es[1..] == [];
  }
}
