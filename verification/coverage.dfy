// What Reconcile rebuilds of a registry: RabbitMQ and MongoDB, and nothing of
// the services the documentation also promises.
module Coverage {
  import opened Text
  import opened Names
  import opened Registry
  import opened Brokers
  import opened ServiceOps
  import opened Reconciling
  import opened Recovery
  import opened EngineSpec
  import opened EngineInvariant
  import opened Runs

  // The resources that make up those credentials.
  predicate OfOthers(r: Res)
  {
    r.PgDatabase? || r.PgRole? || r.AclUser? || r.Bucket? || r.MinioUser? || r.Policy?
  }

  // A pass has no part in the credentials of the other services.
  lemma OtherVerdictsStay(w: World, order: seq<string>, apps: Apps, fates: Fates, cfg: Config)
    requires AllWellTyped(apps) && (forall i :: 0 <= i < |order| ==> order[i] in apps) && !Reconcilable(cfg)
    ensures Accepts(ReconcileFrom(w, order, apps, fates).w, cfg) <==> Accepts(w, cfg)
  {
    var w' := ReconcileFrom(w, order, apps, fates).w;
    ReconcileIsHarmless(w, order, apps, fates);
    forall r | OfOthers(r)
      ensures At(w', r) == At(w, r)
    {
    }
    SameOwnSameVerdict(w, w', cfg);
  }

  lemma SameOwnSameVerdict(w: World, w': World, cfg: Config)
    requires !Reconcilable(cfg) && w'.savedAcl == w.savedAcl
    requires forall r :: OfOthers(r) ==> At(w', r) == At(w, r)
    ensures Accepts(w', cfg) <==> Accepts(w, cfg)
  {
    match cfg
    case PostgresConfig(db, user, _) =>
      assert At(w', PgDatabase(db)) == At(w, PgDatabase(db)) && At(w', PgRole(user)) == At(w, PgRole(user));
    case RedisConfig(user, _, _) => assert At(w', AclUser(user)) == At(w, AclUser(user));
    case AIStorConfig(bucket, user, _, _) =>
      assert At(w', Bucket(bucket)) == At(w, Bucket(bucket)) && At(w', MinioUser(user)) == At(w, MinioUser(user));
      assert At(w', Policy(PolicyName(bucket))) == At(w, Policy(PolicyName(bucket)));
    case SignozConfig(_, _) =>
  }

  // The credentials of the services Reconcile does not look after.
  ghost predicate OtherCredentialsHold(st: State)
  {
    forall n, s :: n in st.disk && s in st.disk[n].services && s != RabbitMQ && s != MongoDB
      ==> Accepts(st.world, st.disk[n].services[s])
  }

  ghost predicate RegisteredHold(st: State)
    requires AllWellTyped(st.disk)
  {
    forall c :: Registered(st.disk, c) ==> Accepts(st.world, c)
  }

  lemma RegisteredRecoverIff(st: State, order: seq<string>, env: Env)
    requires SelfNaming(st.disk) && forall n :: n in order <==> n in st.disk
    requires FaultFree(env.fates, st.world.tick, AfterReconcile(st, order, env).world.tick)
    ensures RegisteredHold(AfterReconcile(st, order, env)) <==> NoLookalikes(st.world, st.disk)
  {
    assert forall i :: 0 <= i < |order| ==> order[i] in order;
    ReconcileRecoversIff(st.world, order, st.disk, env.fates);
  }

  // A faultless Reconcile puts the whole registry in force exactly when the
  // broker lists no lookalike and every credential of another service was in
  // force before.
  lemma ReconcileCoversIff(st: State, order: seq<string>, env: Env)
    requires SelfNaming(st.disk) && forall n :: n in order <==> n in st.disk
    requires FaultFree(env.fates, st.world.tick, Apply(st, ReconcileEvent(order), env).world.tick)
    ensures var after := Apply(st, ReconcileEvent(order), env);
      after.disk == st.disk
      && (CredentialsHold(after.disk, after.world) <==> NoLookalikes(st.world, st.disk) && OtherCredentialsHold(st))
  {
    var after := Apply(st, ReconcileEvent(order), env);
    RegisteredRecoverIff(st, order, env);
    OtherCredentialsStay(st, order, env);
    RegisteredHolds(after);
  }

  lemma OtherCredentialsStay(st: State, order: seq<string>, env: Env)
    requires AllWellTyped(st.disk) && forall n :: n in order <==> n in st.disk
    ensures OtherCredentialsHold(Apply(st, ReconcileEvent(order), env)) <==> OtherCredentialsHold(st)
  {
    assert forall i :: 0 <= i < |order| ==> order[i] in order;
    forall n, s | n in st.disk && s in st.disk[n].services && s != RabbitMQ && s != MongoDB
      ensures Accepts(Apply(st, ReconcileEvent(order), env).world, st.disk[n].services[s])
        <==> Accepts(st.world, st.disk[n].services[s])
    {
      assert WellTyped(st.disk[n]);
      OtherVerdictsStay(st.world, order, st.disk, env.fates, st.disk[n].services[s]);
    }
  }

  lemma RegisteredHolds(st: State)
    requires AllWellTyped(st.disk)
    ensures CredentialsHold(st.disk, st.world) <==>
      RegisteredHold(st) && OtherCredentialsHold(st)
  {
    forall n, s | n in st.disk && s in st.disk[n].services && (s == RabbitMQ || s == MongoDB)
      ensures Registered(st.disk, st.disk[n].services[s])
    {
      RegisteredIntro(st.disk, n, s);
    }
  }

  // The same after any events.
  lemma ReconcileCoversAfterAnything(st: State, es: seq<Event>, order: seq<string>, env: Env)
    requires GoodEnv(env) && SelfNaming(st.disk) && forall n :: n in order <==> n in RunAll(st, es, env).disk
    requires var end := RunAll(st, es, env);
      FaultFree(env.fates, end.world.tick, Apply(end, ReconcileEvent(order), env).world.tick)
    ensures var end := RunAll(st, es, env);
      var after := Apply(end, ReconcileEvent(order), env);
      Inv(after) <==> NoLookalikes(end.world, end.disk) && OtherCredentialsHold(end)
  {
    RunsKeepNaming(st, es, env);
    ReconcileCoversIff(RunAll(st, es, env), order, env);
  }

  // The input: once the volume of PostgreSQL, Redis or AIStor is lost, no
  // Reconcile, with or without faults, brings back a credential of that
  // service.
  lemma LostVolumeStaysLost(st: State, svc: Svc, app: string, order: seq<string>, env: Env)
    requires SelfNaming(st.disk) && (svc == Postgres || svc == Redis || svc == AIStor)
    requires app in st.disk && svc in st.disk[app].services && forall n :: n in order <==> n in st.disk
    ensures var lost := Apply(st, Wipe(svc), env);
      var after := Apply(lost, ReconcileEvent(order), env);
      after.disk == st.disk && !Accepts(after.world, st.disk[app].services[svc])
  {
    var lost := Apply(st, Wipe(svc), env);
    var cfg := st.disk[app].services[svc];
    assert WellTyped(st.disk[app]) && Fits(svc, cfg);
    assert !Accepts(lost.world, cfg);
    assert forall i :: 0 <= i < |order| ==> order[i] in order;
    OtherVerdictsStay(lost.world, order, st.disk, env.fates, cfg);
  }
}
