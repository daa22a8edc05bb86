// RemoveApp: what it takes away for good, service by service, and what that
// means when its final save fails.
module Removal {
  import opened Text
  import opened Names
  import opened Registry
  import opened Brokers
  import opened ServiceOps
  import opened Reconciling
  import opened EngineSpec
  import opened EngineInvariant

  // ------------------------------------------------- one teardown, step by step

  lemma TryStep(w: World, s: seq<Step>, fates: Fates)
    requires |s| >= 1 && s[0].bestEffort
    ensures Run(w, s, fates) == Run(Send(w, s[0].cmd, fates).w, s[1..], fates)
  {
  }

  // What the commands of a teardown can do to a resource.
  predicate TearsDown(c: Cmd)
  {
    c.TerminateBackends? || c.DropDatabase? || c.DropRole? || c.DeleteKeys? || c.AclDelUser? || c.AclSave?
    || c.DeleteUser? || c.DeleteVhost? || c.RemoveBucket? || c.DetachPolicy? || c.RemovePolicy? || c.RemoveMinioUser?
    || c.DropMongo?
  }

  lemma SendAddsNothing(w: World, c: Cmd, fates: Fates, r: Res)
    requires TearsDown(c) && r !in w.res
    ensures r !in Send(w, c, fates).w.res
  {
  }

  lemma {:induction false} RunAddsNothing(w: World, steps: seq<Step>, fates: Fates, r: Res)
    requires r !in w.res && forall i :: 0 <= i < |steps| ==> TearsDown(steps[i].cmd)
    ensures r !in Run(w, steps, fates).w.res
    decreases |steps|
  {
    if steps != [] {
      assert TearsDown(steps[0].cmd);
      SendAddsNothing(w, steps[0].cmd, fates, r);
      var reply := Send(w, steps[0].cmd, fates);
      if reply.ok || steps[0].bestEffort {
        RunAddsNothing(reply.w, steps[1..], fates, r);
      }
    }
  }

  lemma TeardownAddsNothing(w: World, svc: Svc, app: string, fates: Fates, r: Res)
    requires r !in w.res
    ensures r !in Teardown(w, svc, app, fates).w.res
  {
    var s := TeardownSteps(svc, app);
    assert forall i :: 0 <= i < |s| ==> TearsDown(s[i].cmd);
    RunAddsNothing(w, s, fates, r);
  }

  // ------------------------------------------------------ what a teardown clears

  // Another account has the app's policy, which MinIO then keeps.
  predicate PolicyShared(w: World, app: string)
  {
    exists r :: r in w.res && r.MinioUser? && r != MinioUser(app) && PolicyName(app) in w.res[r].grants
  }

  // Nothing of the app is left in the service: no database, open session or
  // role; no ACL user, in memory or in the file, and no key of the namespace;
  // no vhost, user or permission; no bucket or account, and no policy unless
  // another account has it; no Mongo user or database.
  ghost predicate Cleared(w: World, svc: Svc, app: string)
  {
    match svc
    case Postgres => PgDatabase(app) !in w.res && PgSession(app) !in w.res && PgRole(app) !in w.res
    case Redis =>
      AclUser(app) !in w.res && app !in w.savedAcl && forall k :: Namespace(app) <= k ==> RedisKey(k) !in w.res
    case RabbitMQ =>
      Vhost(app) !in w.res && RabbitUser(app) !in w.res
      && forall other :: Permission(app, other) !in w.res && Permission(other, app) !in w.res
    case AIStor =>
      Bucket(app) !in w.res && MinioUser(app) !in w.res && (Policy(PolicyName(app)) in w.res ==> PolicyShared(w, app))
    case MongoDB => MongoUser(app, app) !in w.res && MongoDb(app) !in w.res
    case Signoz => true
  }

  // The resources a service's commands can touch are those.
  lemma ClearedLeavesNothing(w: World, svc: Svc, app: string, r: Res)
    requires Cleared(w, svc, app) && Touches(svc, app, r)
    ensures r in w.res ==> svc == AIStor && r == Policy(PolicyName(app)) && PolicyShared(w, app)
  {
  }

  lemma PostgresIsCleared(w: World, app: string, s: seq<Step>, fates: Fates)
    requires s == [Must(TerminateBackends(app)), Must(DropDatabase(app)), Must(DropRole(app))]
    requires FaultFree(fates, w.tick, Run(w, s, fates).w.tick)
    ensures Cleared(Run(w, s, fates).w, Postgres, app)
  {
    RunTicks(w, s, fates);
    MustStep(w, s, fates);
    var a := Send(w, TerminateBackends(app), fates);
    RunTicks(a.w, s[1..], fates);
    MustStep(a.w, s[1..], fates);
    var b := Send(a.w, DropDatabase(app), fates);
    RunTicks(b.w, s[1..][1..], fates);
    RunOne(b.w, s[1..][1..], fates);
  }

  lemma RedisIsCleared(w: World, app: string, s: seq<Step>, fates: Fates)
    requires ValidName(app)
    requires s == [Must(DeleteKeys(app + ":*")), Must(AclDelUser(app)), Must(AclSave)]
    requires FaultFree(fates, w.tick, Run(w, s, fates).w.tick)
    ensures Cleared(Run(w, s, fates).w, Redis, app)
  {
    RunTicks(w, s, fates);
    MustStep(w, s, fates);
    var a := Send(w, DeleteKeys(app + ":*"), fates);
    RunTicks(a.w, s[1..], fates);
    MustStep(a.w, s[1..], fates);
    var b := Send(a.w, AclDelUser(app), fates);
    RunTicks(b.w, s[1..][1..], fates);
    RunOne(b.w, s[1..][1..], fates);
    KeysAreDeleted(w, app, fates);
    assert app !in CurrentAcl(b.w);
  }

  lemma KeysAreDeleted(w: World, app: string, fates: Fates)
    requires ValidName(app) && fates(w.tick).Answered?
    ensures forall k :: Namespace(app) <= k ==> RedisKey(k) !in Send(w, DeleteKeys(app + ":*"), fates).w.res
  {
    forall k | Namespace(app) <= k
      ensures RedisKey(k) !in Send(w, DeleteKeys(app + ":*"), fates).w.res
    {
      PatternIsPrefix(app, k);
    }
  }

  lemma RabbitIsCleared(w: World, app: string, s: seq<Step>, fates: Fates)
    requires s == [Try(DeleteUser(app)), Must(DeleteVhost(app))]
    requires RabbitUser(app) in w.res && Vhost(app) in w.res
    requires FaultFree(fates, w.tick, Run(w, s, fates).w.tick)
    ensures Cleared(Run(w, s, fates).w, RabbitMQ, app)
  {
    RunTicks(w, s, fates);
    TryStep(w, s, fates);
    var a := Send(w, DeleteUser(app), fates);
    RunTicks(a.w, s[1..], fates);
    RunOne(a.w, s[1..], fates);
    assert forall other :: Permission(other, app) !in a.w.res;
  }

  lemma AIStorIsCleared(w: World, app: string, s: seq<Step>, fates: Fates)
    requires s == [Try(RemoveBucket(app)), Try(DetachPolicy(PolicyName(app), app)), Try(RemovePolicy(PolicyName(app))),
      Try(RemoveMinioUser(app))]
    requires FaultFree(fates, w.tick, Run(w, s, fates).w.tick)
    ensures Cleared(Run(w, s, fates).w, AIStor, app)
  {
    RunTicks(w, s, fates);
    TryStep(w, s, fates);
    var a := Send(w, RemoveBucket(app), fates);
    RunTicks(a.w, s[1..], fates);
    TryStep(a.w, s[1..], fates);
    var rest := s[1..][1..];
    AccountIsCleared(a.w, app, rest, fates);
  }

  lemma AccountIsCleared(w: World, app: string, s: seq<Step>, fates: Fates)
    requires |s| == 2 && s[0] == Try(RemovePolicy(PolicyName(app))) && s[1] == Try(RemoveMinioUser(app))
    requires Bucket(app) !in w.res && fates(w.tick).Answered?
    requires var b := Send(w, DetachPolicy(PolicyName(app), app), fates).w;
      FaultFree(fates, b.tick, Run(b, s, fates).w.tick)
    ensures var b := Send(w, DetachPolicy(PolicyName(app), app), fates).w; Cleared(Run(b, s, fates).w, AIStor, app)
  {
    var b := Send(w, DetachPolicy(PolicyName(app), app), fates).w;
    TwoTries(b, s, fates);
    var c := Send(b, s[0].cmd, fates).w;
    PolicyIsKeptIfShared(w, app, fates);
    PolicyIsKeptUnchanged(c, app, fates);
    SendAddsNothing(w, DetachPolicy(PolicyName(app), app), fates, Bucket(app));
    SendAddsNothing(b, s[0].cmd, fates, Bucket(app));
    SendAddsNothing(c, s[1].cmd, fates, Bucket(app));
    AccountIsRemoved(c, app, fates);
  }

  lemma TwoTries(w: World, s: seq<Step>, fates: Fates)
    requires |s| == 2 && s[0].bestEffort && s[1].bestEffort
    ensures var c := Send(w, s[0].cmd, fates).w;
      && Run(w, s, fates).w == Send(c, s[1].cmd, fates).w
      && Run(w, s, fates).w.tick == w.tick + 2 && c.tick == w.tick + 1
  {
    TryStep(w, s, fates);
    var c := Send(w, s[0].cmd, fates).w;
    TryStep(c, s[1..], fates);
    assert s[1..][1..] == [];
  }

  lemma AccountIsRemoved(w: World, app: string, fates: Fates)
    requires fates(w.tick).Answered?
    ensures MinioUser(app) !in Send(w, RemoveMinioUser(app), fates).w.res
  {
  }

  lemma PolicyIsKeptIfShared(w: World, app: string, fates: Fates)
    requires fates(w.tick).Answered? && fates(w.tick + 1).Answered?
    ensures var b := Send(w, DetachPolicy(PolicyName(app), app), fates).w;
      var c := Send(b, RemovePolicy(PolicyName(app)), fates).w;
      Policy(PolicyName(app)) in c.res ==> PolicyShared(c, app)
  {
    var b := Send(w, DetachPolicy(PolicyName(app), app), fates).w;
    assert MinioUser(app) in b.res ==> PolicyName(app) !in b.res[MinioUser(app)].grants;
    if Policy(PolicyName(app)) in b.res && InUse(b, PolicyName(app)) {
      var r :| r in b.res && r.MinioUser? && PolicyName(app) in b.res[r].grants;
      assert r != MinioUser(app);
    }
  }

  lemma PolicyIsKeptUnchanged(w: World, app: string, fates: Fates)
    ensures var d := Send(w, RemoveMinioUser(app), fates).w;
      && (PolicyShared(w, app) ==> PolicyShared(d, app))
      && (Policy(PolicyName(app)) in d.res ==> Policy(PolicyName(app)) in w.res)
  {
    var d := Send(w, RemoveMinioUser(app), fates).w;
    if PolicyShared(w, app) {
      var r :| r in w.res && r.MinioUser? && r != MinioUser(app) && PolicyName(app) in w.res[r].grants;
      assert r in d.res && d.res[r] == w.res[r];
    }
  }

  // A faultless teardown of a service whose credential is in force clears it.
  lemma TeardownClears(w: World, svc: Svc, app: string, cfg: Config, fates: Fates)
    requires ValidName(app) && Fits(svc, cfg) && NamesOnly(app, cfg) && Accepts(w, cfg)
    requires FaultFree(fates, w.tick, Teardown(w, svc, app, fates).w.tick)
    ensures Cleared(Teardown(w, svc, app, fates).w, svc, app)
  {
    var s := TeardownSteps(svc, app);
    match svc
    case Postgres => PostgresIsCleared(w, app, s, fates);
    case Redis => RedisIsCleared(w, app, s, fates);
    case RabbitMQ => RabbitIsCleared(w, app, s, fates);
    case AIStor => AIStorIsCleared(w, app, s, fates);
    case MongoDB =>
      RunTicks(w, s, fates);
      RunOne(w, s, fates);
    case Signoz =>
  }

  // ------------------------------------------------------------------- the loop

  function AfterService(w: World, entry: AppEntry, svc: Svc, app: string, env: Env): World
  {
    if svc in entry.services then Teardown(w, svc, app, env.fates).w else w
  }

  // The brokers when the loop comes to the k-th service.
  function BeforeService(w: World, entry: AppEntry, svcs: seq<Svc>, app: string, env: Env, k: nat): World
    requires k <= |svcs|
    decreases k
  {
    if k == 0 then w
    else AfterService(BeforeService(w, entry, svcs, app, env, k - 1), entry, svcs[k - 1], app, env)
  }

  lemma {:induction false} BeforeServiceShifts(w: World, entry: AppEntry, svcs: seq<Svc>, app: string, env: Env, k: nat)
    requires 0 < k <= |svcs|
    ensures BeforeService(w, entry, svcs, app, env, k)
      == BeforeService(AfterService(w, entry, svcs[0], app, env), entry, svcs[1..], app, env, k - 1)
    decreases k
  {
    if k > 1 {
      BeforeServiceShifts(w, entry, svcs, app, env, k - 1);
      assert svcs[1..][k - 2] == svcs[k - 1];
    }
  }

  lemma {:induction false} LoopFromService(w: World, entry: AppEntry, svcs: seq<Svc>, app: string, env: Env, k: nat)
    requires k <= |svcs|
    ensures TeardownLoop(w, entry, svcs, app, env)
      == TeardownLoop(BeforeService(w, entry, svcs, app, env, k), entry, svcs[k..], app, env)
    decreases k
  {
    if k == 0 {
      assert svcs[0..] == svcs;
    } else {
      BeforeServiceShifts(w, entry, svcs, app, env, k);
      LoopFromService(AfterService(w, entry, svcs[0], app, env), entry, svcs[1..], app, env, k - 1);
      assert svcs[1..][k - 1..] == svcs[k..];
    }
  }

  // Another service's teardown leaves this one's credential in force, and
  // brings nothing back.
  lemma OtherTeardown(w: World, entry: AppEntry, other: Svc, svc: Svc, app: string, cfg: Config, env: Env)
    requires other != svc && Fits(svc, cfg) && NamesOnly(app, cfg)
    ensures var w' := AfterService(w, entry, other, app, env);
      (Accepts(w, cfg) ==> Accepts(w', cfg)) && (Cleared(w, svc, app) ==> Cleared(w', svc, app))
  {
    var w' := AfterService(w, entry, other, app, env);
    if other in entry.services {
      TeardownIsFramed(w, other, app, env.fates);
      if Accepts(w, cfg) {
        FramedKeepsCredential(w, w', other, app, app, svc, cfg);
      }
      if Cleared(w, svc, app) {
        ClearedStays(w, w', other, svc, app);
      }
    }
  }

  lemma ClearedStays(w: World, w': World, other: Svc, svc: Svc, app: string)
    requires other != svc && Framed(w, w', other, app) && (other != Redis ==> w'.savedAcl == w.savedAcl)
    requires Cleared(w, svc, app)
    ensures Cleared(w', svc, app)
  {
    forall r | Touches(svc, app, r)
      ensures At(w', r) == At(w, r)
    {
      assert !Touches(other, app, r);
    }
    match svc
    case Postgres =>
      assert Touches(svc, app, PgDatabase(app)) && Touches(svc, app, PgSession(app)) && Touches(svc, app, PgRole(app));
    case Redis =>
      assert Touches(svc, app, AclUser(app));
      assert forall k :: Namespace(app) <= k ==> Touches(svc, app, RedisKey(k));
    case RabbitMQ =>
      assert Touches(svc, app, Vhost(app)) && Touches(svc, app, RabbitUser(app));
      assert forall o :: Touches(svc, app, Permission(app, o)) && Touches(svc, app, Permission(o, app));
    case AIStor =>
      assert Touches(svc, app, Bucket(app)) && Touches(svc, app, MinioUser(app));
      SharedStays(w, w', other, app);
    case MongoDB => assert Touches(svc, app, MongoUser(app, app)) && Touches(svc, app, MongoDb(app));
    case Signoz =>
  }

  lemma SharedStays(w: World, w': World, other: Svc, app: string)
    requires other != AIStor && Framed(w, w', other, app)
    ensures PolicyShared(w, app) ==> PolicyShared(w', app)
    ensures Policy(PolicyName(app)) in w'.res ==> Policy(PolicyName(app)) in w.res
  {
    assert At(w', Policy(PolicyName(app))) == At(w, Policy(PolicyName(app)));
    if PolicyShared(w, app) {
      var r :| r in w.res && r.MinioUser? && r != MinioUser(app) && PolicyName(app) in w.res[r].grants;
      assert At(w', r) == At(w, r);
    }
  }

  lemma {:induction false} LaterTeardowns(
      w: World, entry: AppEntry, svcs: seq<Svc>, svc: Svc, app: string, cfg: Config, env: Env)
    requires svc !in svcs && Fits(svc, cfg) && NamesOnly(app, cfg) && Cleared(w, svc, app)
    ensures Cleared(TeardownLoop(w, entry, svcs, app, env), svc, app)
    decreases |svcs|
  {
    if svcs != [] {
      OtherTeardown(w, entry, svcs[0], svc, app, cfg, env);
      LaterTeardowns(AfterService(w, entry, svcs[0], app, env), entry, svcs[1..], svc, app, cfg, env);
    }
  }

  lemma {:induction false} EarlierTeardowns(
      w: World, entry: AppEntry, svcs: seq<Svc>, k: nat, svc: Svc, app: string, cfg: Config, env: Env)
    requires k <= |svcs| && svc !in svcs[..k] && Fits(svc, cfg) && NamesOnly(app, cfg) && Accepts(w, cfg)
    ensures Accepts(BeforeService(w, entry, svcs, app, env, k), cfg)
    decreases k
  {
    if k > 0 {
      assert svcs[k - 1] in svcs[..k] && forall x :: x in svcs[..k - 1] ==> x in svcs[..k];
      EarlierTeardowns(w, entry, svcs, k - 1, svc, app, cfg, env);
      OtherTeardown(BeforeService(w, entry, svcs, app, env, k - 1), entry, svcs[k - 1], svc, app, cfg, env);
    }
  }

  lemma LoopClears(w: World, entry: AppEntry, svcs: seq<Svc>, k: nat, app: string, env: Env)
    requires ValidName(app) && k < |svcs| && Distinct(svcs) && svcs[k] in entry.services
    requires EntryHolds(w, app, entry)
    requires FaultFree(env.fates, BeforeService(w, entry, svcs, app, env, k).tick,
      BeforeService(w, entry, svcs, app, env, k + 1).tick)
    ensures Cleared(TeardownLoop(w, entry, svcs, app, env), svcs[k], app)
  {
    var svc := svcs[k];
    var cfg := entry.services[svc];
    EarlierTeardowns(w, entry, svcs, k, svc, app, cfg, env);
    TeardownClears(BeforeService(w, entry, svcs, app, env, k), svc, app, cfg, env.fates);
    LoopFromService(w, entry, svcs, app, env, k + 1);
    LaterTeardowns(BeforeService(w, entry, svcs, app, env, k + 1), entry, svcs[k + 1..], svc, app, cfg, env);
  }

  // Removal is fail-soft: a service whose own commands meet no fault is cleared,
  // whatever the commands of the others meet and whether or not the save works.
  lemma RemoveIsFailSoft(st: State, app: string, env: Env, k: nat)
    requires Inv(st) && app in st.disk && k < |CATALOG| && CATALOG[k] in st.disk[app].services
    requires FaultFree(env.fates, BeforeService(st.world, st.disk[app], CATALOG, app, env, k).tick,
      BeforeService(st.world, st.disk[app], CATALOG, app, env, k + 1).tick)
    ensures Cleared(Remove(st, app, env).st.world, CATALOG[k], app)
  {
    assert ValidName(app) && WellTyped(st.disk[app]) && OwnOnly(app, st.disk[app]);
    LoopClears(st.world, st.disk[app], CATALOG, k, app, env);
  }

  lemma {:induction false} TeardownTicks(w: World, entry: AppEntry, svcs: seq<Svc>, app: string, env: Env)
    ensures TeardownLoop(w, entry, svcs, app, env).tick >= w.tick
    decreases |svcs|
  {
    if svcs != [] {
      var w1 := AfterService(w, entry, svcs[0], app, env);
      RunTicks(w, TeardownSteps(svcs[0], app), env.fates);
      TeardownTicks(w1, entry, svcs[1..], app, env);
    }
  }

  lemma {:induction false} BeforeServiceTicks(w: World, entry: AppEntry, svcs: seq<Svc>, app: string, env: Env, k: nat)
    requires k <= |svcs|
    ensures w.tick <= BeforeService(w, entry, svcs, app, env, k).tick
    decreases k
  {
    if k > 0 {
      BeforeServiceTicks(w, entry, svcs, app, env, k - 1);
      RunTicks(BeforeService(w, entry, svcs, app, env, k - 1), TeardownSteps(svcs[k - 1], app), env.fates);
    }
  }

  // Without faults RemoveApp leaves nothing of the app in any attached service.
  lemma RemoveLeavesNothing(st: State, app: string, env: Env)
    requires Inv(st) && app in st.disk && FaultFree(env.fates, st.world.tick, Remove(st, app, env).st.world.tick)
    ensures forall s :: s in st.disk[app].services ==> Cleared(Remove(st, app, env).st.world, s, app)
    ensures env.saves(st.saves) ==> Remove(st, app, env).err == None && Remove(st, app, env).st.disk == st.disk - {app}
  {
    assert ValidName(app);
    forall s | s in st.disk[app].services
      ensures Cleared(Remove(st, app, env).st.world, s, app)
    {
      EveryServiceIsListed(s);
      var k :| 0 <= k < |CATALOG| && CATALOG[k] == s;
      var w, entry := st.world, st.disk[app];
      BeforeServiceTicks(w, entry, CATALOG, app, env, k);
      LoopFromService(w, entry, CATALOG, app, env, k + 1);
      TeardownTicks(BeforeService(w, entry, CATALOG, app, env, k + 1), entry, CATALOG[k + 1..], app, env);
      RemoveIsFailSoft(st, app, env, k);
    }
  }

  // ------------------------------------------------------ when the save fails

  lemma ClearedIsRefused(w: World, svc: Svc, app: string, cfg: Config)
    requires svc != Signoz && Fits(svc, cfg) && NamesOnly(app, cfg) && Cleared(w, svc, app)
    ensures !Accepts(w, cfg)
  {
  }

  // With no fault on the brokers' side, RemoveApp keeps the invariant exactly
  // when its save works or the app has nothing but SignOz: a failed save
  // leaves every other credential in the registry and its account gone.
  lemma RemoveKeepsInvIff(st: State, app: string, env: Env)
    requires Inv(st) && app in st.disk && FaultFree(env.fates, st.world.tick, Remove(st, app, env).st.world.tick)
    ensures Inv(Remove(st, app, env).st) <==> env.saves(st.saves) || st.disk[app].services.Keys <= {Signoz}
  {
    assert ValidName(app) && WellTyped(st.disk[app]) && OwnOnly(app, st.disk[app]);
    if env.saves(st.saves) || st.disk[app].services.Keys <= {Signoz} {
      RemoveKeepsInv(st, app, env);
    } else {
      var s :| s in st.disk[app].services.Keys && s != Signoz;
      RemoveLeavesNothing(st, app, env);
      ClearedIsRefused(Remove(st, app, env).st.world, s, app, st.disk[app].services[s]);
    }
  }
}
